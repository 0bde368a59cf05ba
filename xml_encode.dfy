/**
 * `XMLHelpers::arrayToXml` and `XMLHelpers::buildXmlFromArray`: an array is
 * written out entry by entry. A string value becomes an element named by its
 * key whose content is a CDATA section; an array value under a string key
 * becomes an element wrapping the array's own output; an array value under a
 * numeric key (every key of a list) is written without a wrapper.
 */
module XmlEncode {
  import opened Wrappers
  import opened Text
  import opened Assoc
  import opened XmlValue
  import opened XmlDecode

  // ---------------------------------------------------------------------
  // PHP 8's `is_numeric` on a string.

  /** The whitespace a numeric string may start or end with. */
  predicate IsNumericSpace(c: char)
  {
    c == ' ' || c == '\t' || c == '\n' || c == '\r' || c == '\U{0B}' || c == '\U{0C}'
  }

  /** Where a left-to-right scan of a numeric string stands. */
  datatype NumState =
    | Lead       // only whitespace so far
    | Signed     // after the sign
    | Whole      // in the digits before the point
    | Point      // after a point with no digit before it
    | Fraction   // after the point, with at least one digit seen
    | ExpMark    // after `e` or `E`
    | ExpSigned  // after the exponent's sign
    | ExpDigits  // in the exponent's digits
    | Trail      // in the trailing whitespace

  /** The states in which the text read so far is a complete number. */
  predicate Accepting(st: NumState)
  {
    st == Whole || st == Fraction || st == ExpDigits || st == Trail
  }

  /** One character of the scan; `None` when the text cannot be numeric any more. */
  function Step(st: NumState, c: char): Option<NumState>
  {
    var ws, sign, digit, point, exp := IsNumericSpace(c), c == '+' || c == '-', IsDigit(c), c == '.', c == 'e' || c == 'E';
    match st
    case Lead => if ws then Some(Lead) else if sign then Some(Signed) else if digit then Some(Whole) else if point then Some(Point) else None
    case Signed => if digit then Some(Whole) else if point then Some(Point) else None
    case Whole => if digit then Some(Whole) else if point then Some(Fraction) else if exp then Some(ExpMark) else if ws then Some(Trail) else None
    case Point => if digit then Some(Fraction) else None
    case Fraction => if digit then Some(Fraction) else if exp then Some(ExpMark) else if ws then Some(Trail) else None
    case ExpMark => if sign then Some(ExpSigned) else if digit then Some(ExpDigits) else None
    case ExpSigned => if digit then Some(ExpDigits) else None
    case ExpDigits => if digit then Some(ExpDigits) else if ws then Some(Trail) else None
    case Trail => if ws then Some(Trail) else None
  }

  /** The scan of `s[i..]` from state `st` ends in an accepting state. */
  predicate Scan(s: string, i: nat, st: NumState)
    requires i <= |s|
    decreases |s| - i
  {
    if i == |s| then Accepting(st)
    else match Step(st, s[i])
      case None => false
      case Some(next) => Scan(s, i + 1, next)
  }

  /**
   * `is_numeric($s)`: optional leading whitespace, an optional sign, digits
   * with at most one decimal point and at least one digit, an optional
   * exponent (`e` or `E`, optional sign, digits), optional trailing
   * whitespace, and nothing else.
   */
  predicate IsNumeric(s: string)
  {
    Scan(s, 0, Lead)
  }

  /** A decimal integer key (every key of a list) is numeric. */
  lemma DecimalIsNumeric(n: nat)
    ensures IsNumeric(NatToString(n))
  {
    var s := NatToString(n);
    AllDigits(s, 1);
  }

  lemma {:induction false} AllDigits(s: string, i: nat)
    requires 0 < i <= |s|
    requires forall k :: 0 <= k < |s| ==> IsDigit(s[k])
    ensures Scan(s, i, Whole)
    decreases |s| - i
  {
    if i < |s| {
      AllDigits(s, i + 1);
    }
  }

  /** A string that starts with anything but whitespace, a sign, a digit or a point is not numeric; no XML element name is. */
  lemma NameIsNotNumeric(s: string)
    requires |s| > 0
    requires !IsNumericSpace(s[0]) && s[0] != '+' && s[0] != '-' && !IsDigit(s[0]) && s[0] != '.'
    ensures !IsNumeric(s)
  {
  }

  // ---------------------------------------------------------------------
  // The encoder.

  /** The number of entries of an array value. */
  function Count(v: Value): nat
  {
    match v
    case Leaf(_) => 0
    case Map(es) => |es|
    case List(items) => |items|
  }

  /** `arrayToXml($data)`: the concatenated output of every entry, in order. */
  function Encode(v: Value): string
    requires !v.Leaf?
    decreases v, Count(v) + 1
  {
    EncodePrefix(v, Count(v))
  }

  /** The output of the first `n` entries. */
  function EncodePrefix(v: Value, n: nat): string
    requires !v.Leaf? && n <= Count(v)
    decreases v, n
  {
    if n == 0 then ""
    else
      match v
      case Map(es) => EncodePrefix(v, n - 1) + EncodeEntry(es[n - 1].0, IsNumeric(es[n - 1].0), es[n - 1].1)
      case List(items) => EncodePrefix(v, n - 1) + EncodeEntry(NatToString(n - 1), true, items[n - 1])
  }

  /** The output of one entry, given its key as a string and whether `is_numeric` holds for it. */
  function EncodeEntry(key: string, numeric: bool, x: Value): string
    decreases x, Count(x) + 2
  {
    if x.Leaf? then OpenTag(key) + CdataOpen + x.text + CdataClose + CloseTag(key)
    else if numeric then Encode(x)
    else OpenTag(key) + Encode(x) + CloseTag(key)
  }

  function OpenTag(name: string): string
  {
    "<" + name + ">"
  }

  function CloseTag(name: string): string
  {
    "</" + name + ">"
  }

  /** `arrayToXml` as the source writes it: a loop appending to `$xml`, recursing on array values. */
  method ArrayToXml(data: Value) returns (xml: string)
    requires !data.Leaf?
    ensures xml == Encode(data)
    decreases data
  {
    xml := "";
    var i := 0;
    while i < Count(data)
      invariant 0 <= i <= Count(data)
      invariant xml == EncodePrefix(data, i)
    {
      var key, value, numeric;
      if data.Map? {
        key, value := data.entries[i].0, data.entries[i].1;
        numeric := IsNumeric(key);
      } else {
        key, value := NatToString(i), data.items[i];
        numeric := true;
      }
      EncodePrefixStep(data, i);
      ghost var before := xml;
      if !value.Leaf? {
        var inner := ArrayToXml(value);
        if numeric {
          xml := xml + inner;
        } else {
          xml := xml + OpenTag(key);
          xml := xml + inner;
          xml := xml + CloseTag(key);
          AppendThree(before, OpenTag(key), inner, CloseTag(key));
        }
      } else {
        xml := xml + (OpenTag(key) + CdataOpen + value.text + CdataClose + CloseTag(key));
      }
      i := i + 1;
    }
  }

  /** Appending three pieces one after the other appends their concatenation. */
  lemma AppendThree(s: string, a: string, b: string, c: string)
    ensures s + a + b + c == s + (a + b + c)
  {
  }

  /** One more turn of the loop adds the output of entry `i`. */
  lemma EncodePrefixStep(data: Value, i: nat)
    requires !data.Leaf? && i < Count(data)
    ensures data.Map? ==> EncodePrefix(data, i + 1) == EncodePrefix(data, i) + EncodeEntry(data.entries[i].0, IsNumeric(data.entries[i].0), data.entries[i].1)
    ensures data.List? ==> EncodePrefix(data, i + 1) == EncodePrefix(data, i) + EncodeEntry(NatToString(i), true, data.items[i])
  {
  }

  /** `buildXmlFromArray`: the encoder's public entry point. */
  method BuildXmlFromArray(data: Value) returns (xml: string)
    requires !data.Leaf?
    ensures xml == Encode(data)
  {
    xml := ArrayToXml(data);
  }

  // ---------------------------------------------------------------------
  // The encoder, entry by entry.

  /** The output of the first `i` entries depends on those entries only. */
  lemma {:induction false} PrefixAgree(es: seq<(string, Value)>, fs: seq<(string, Value)>, i: nat)
    requires i <= |es| && i <= |fs| && es[..i] == fs[..i]
    ensures EncodePrefix(Map(es), i) == EncodePrefix(Map(fs), i)
    decreases i
  {
    if i > 0 {
      assert es[i - 1] == es[..i][i - 1] == fs[..i][i - 1] == fs[i - 1];
      assert es[..i - 1] == es[..i][..i - 1];
      assert fs[..i - 1] == fs[..i][..i - 1];
      PrefixAgree(es, fs, i - 1);
      EncodePrefixStep(Map(es), i - 1);
      EncodePrefixStep(Map(fs), i - 1);
    }
  }

  lemma {:induction false} EncodePrefixConcat(a: seq<(string, Value)>, b: seq<(string, Value)>, k: nat)
    requires k <= |b|
    ensures EncodePrefix(Map(a + b), |a| + k) == Encode(Map(a)) + EncodePrefix(Map(b), k)
    decreases k
  {
    if k == 0 {
      ConcatFront(a, b);
    } else {
      EncodePrefixConcat(a, b, k - 1);
      ConcatNext(a, b, k);
    }
  }

  /** The first `|a|` entries of `a + b` are written as `a` alone. */
  lemma ConcatFront(a: seq<(string, Value)>, b: seq<(string, Value)>)
    ensures EncodePrefix(Map(a + b), |a|) == Encode(Map(a)) + EncodePrefix(Map(b), 0)
  {
    assert (a + b)[..|a|] == a[..|a|];
    PrefixAgree(a + b, a, |a|);
  }

  /** One more entry of `b` adds the same output on both sides. */
  lemma ConcatNext(a: seq<(string, Value)>, b: seq<(string, Value)>, k: nat)
    requires 0 < k <= |b|
    requires EncodePrefix(Map(a + b), |a| + k - 1) == Encode(Map(a)) + EncodePrefix(Map(b), k - 1)
    ensures EncodePrefix(Map(a + b), |a| + k) == Encode(Map(a)) + EncodePrefix(Map(b), k)
  {
    var e := b[k - 1];
    var x := EncodeEntry(e.0, IsNumeric(e.0), e.1);
    ConcatIndex(a, b, k - 1);
    EncodePrefixStep(Map(a + b), |a| + k - 1);
    EncodePrefixStep(Map(b), k - 1);
    AppendStep(EncodePrefix(Map(a + b), |a| + k), EncodePrefix(Map(a + b), |a| + k - 1), Encode(Map(a)),
               EncodePrefix(Map(b), k - 1), EncodePrefix(Map(b), k), x);
  }

  /** Appending the same piece to both sides of an equation of strings. */
  lemma AppendStep(longer: string, shorter: string, front: string, rest: string, restLonger: string, x: string)
    requires shorter == front + rest && longer == shorter + x && restLonger == rest + x
    ensures longer == front + restLonger
  {
  }

  lemma ConcatIndex<T>(a: seq<T>, b: seq<T>, i: nat)
    requires i < |b|
    ensures (a + b)[|a| + i] == b[i]
  {
  }

  /** Encoding distributes over concatenation of arrays: entries are written independently, in order. */
  lemma EncodeConcat(a: seq<(string, Value)>, b: seq<(string, Value)>)
    ensures Encode(Map(a + b)) == Encode(Map(a)) + Encode(Map(b))
  {
    EncodePrefixConcat(a, b, |b|);
  }

  /** A string value under key `k` is written as `<k><![CDATA[...]]></k>`. */
  lemma EncodeLeafEntry(k: string, s: string)
    ensures Encode(Map([(k, Leaf(s))])) == OpenTag(k) + CdataOpen + s + CdataClose + CloseTag(k)
  {
    SingleEntry(k, Leaf(s));
  }

  /** An array value under a string key is wrapped in an element named by the key. */
  lemma EncodeNamedEntry(k: string, x: Value)
    requires !x.Leaf? && !IsNumeric(k)
    ensures Encode(Map([(k, x)])) == OpenTag(k) + Encode(x) + CloseTag(k)
  {
    SingleEntry(k, x);
  }

  /** An array value under a numeric key is written without a wrapper. */
  lemma EncodeNumericEntry(k: string, x: Value)
    requires !x.Leaf? && IsNumeric(k)
    ensures Encode(Map([(k, x)])) == Encode(x)
  {
    SingleEntry(k, x);
  }

  lemma SingleEntry(k: string, x: Value)
    ensures Encode(Map([(k, x)])) == EncodeEntry(k, IsNumeric(k), x)
  {
    var v := Map([(k, x)]);
    assert EncodePrefix(v, 0) == "";
    assert EncodePrefix(v, 1) == "" + EncodeEntry(k, IsNumeric(k), x);
  }
}
