/**
 * String searching used to restate the PCRE patterns of the source as
 * explicit functions: substring occurrence, leftmost search, the leftmost
 * lazy match `open(.*?)close` (with the `s` flag), and decimal rendering.
 */
module Text {
  import opened Wrappers

  /** `pat` occurs in `s` starting at index `i`. */
  predicate OccursAt(s: string, pat: string, i: nat)
  {
    i + |pat| <= |s| && s[i..i + |pat|] == pat
  }

  predicate Contains(s: string, pat: string)
  {
    exists i :: 0 <= i <= |s| && OccursAt(s, pat, i)
  }

  /** Leftmost occurrence of `pat` in `s` at or after `from`. */
  function Find(s: string, pat: string, from: nat): (r: Option<nat>)
    ensures r.Some? ==> from <= r.value && OccursAt(s, pat, r.value)
    ensures r.Some? ==> forall j: nat :: from <= j < r.value ==> !OccursAt(s, pat, j)
    ensures r.None? ==> forall j: nat :: from <= j ==> !OccursAt(s, pat, j)
    decreases |s| - from
  {
    if from + |pat| > |s| then None
    else if OccursAt(s, pat, from) then Some(from)
    else Find(s, pat, from + 1)
  }

  /**
   * The match of `open(.*?)close` that a PCRE engine reports first: the
   * leftmost `open`, then the nearest `close` after it. Returns the index of
   * `open` and the index of `close`.
   */
  function FindDelimited(s: string, open: string, close: string): (r: Option<(nat, nat)>)
    ensures r.Some? ==>
      var (p, q) := r.value;
      && OccursAt(s, open, p) && p + |open| <= q && OccursAt(s, close, q)
      && (forall j: nat :: j < p ==> !OccursAt(s, open, j))
      && (forall j: nat :: p + |open| <= j < q ==> !OccursAt(s, close, j))
    ensures r.None? ==>
      forall p: nat, q: nat :: OccursAt(s, open, p) && p + |open| <= q ==> !OccursAt(s, close, q)
  {
    match Find(s, open, 0)
    case None => None
    case Some(p) =>
      match Find(s, close, p + |open|)
      case None => None
      case Some(q) => Some((p, q))
  }

  /** Capture group 1 of the first match of `open(.*?)close`, as `preg_match` sets `$matches[1]`. */
  function FirstGroup(s: string, open: string, close: string): (r: Option<string>)
  {
    match FindDelimited(s, open, close)
    case None => None
    case Some((p, q)) => Some(s[p + |open|..q])
  }

  /** An occurrence inside a window of `s` is an occurrence in the window's text. */
  lemma OccursInWindow(s: string, a: nat, t: string, pat: string, j: nat)
    requires a + |t| <= |s| && s[a..a + |t|] == t
    requires OccursAt(s, pat, j) && a <= j && j + |pat| <= a + |t|
    ensures Contains(t, pat)
  {
    forall k | 0 <= k < |pat|
      ensures t[j - a + k] == pat[k]
    {
      assert t[j - a + k] == s[a..a + |t|][j - a + k] == s[j + k];
      assert s[j + k] == s[j..j + |pat|][k];
    }
    assert t[j - a..j - a + |pat|] == pat;
    assert OccursAt(t, pat, j - a);
  }

  /** The first match, given where the first `open` and the nearest `close` after it are. */
  lemma DelimitedAtIndex(s: string, open: string, close: string, p: nat, q: nat)
    requires OccursAt(s, open, p) && p + |open| <= q && OccursAt(s, close, q)
    requires forall j: nat :: j < p ==> !OccursAt(s, open, j)
    requires forall j: nat :: p + |open| <= j < q ==> !OccursAt(s, close, j)
    ensures FindDelimited(s, open, close) == Some((p, q))
  {
    assert Find(s, open, 0) == Some(p);
    assert Find(s, close, p + |open|) == Some(q);
  }

  /**
   * The first match is the one that starts at the first `open` and ends at
   * the first `close` after it.
   */
  lemma DelimitedAt(s: string, open: string, close: string, pre: string, x: string, post: string)
    requires s == pre + open + x + close + post
    requires |open| > 0 && |close| > 0
    requires !Contains(pre + open[..|open| - 1], open)
    requires !Contains(x + close[..|close| - 1], close)
    ensures FindDelimited(s, open, close) == Some((|pre|, |pre| + |open| + |x|))
    ensures s[|pre| + |open|..|pre| + |open| + |x|] == x
  {
    var p, q := |pre|, |pre| + |open| + |x|;
    var t1, t2 := pre + open[..|open| - 1], x + close[..|close| - 1];
    assert s[p..p + |open|] == open;
    assert s[q..q + |close|] == close;
    assert s[0..|t1|] == t1;
    assert s[p + |open|..p + |open| + |t2|] == t2;
    assert s[p + |open|..q] == x;
    NoEarlierOccurrence(s, 0, t1, open, p);
    NoEarlierOccurrence(s, p + |open|, t2, close, q);
    DelimitedAtIndex(s, open, close, p, q);
  }

  /** The first match's group is the text between the first `open` and the first `close` after it. */
  lemma FirstGroupAt(s: string, open: string, close: string, pre: string, x: string, post: string)
    requires s == pre + open + x + close + post
    requires |open| > 0 && |close| > 0
    requires !Contains(pre + open[..|open| - 1], open)
    requires !Contains(x + close[..|close| - 1], close)
    ensures FirstGroup(s, open, close) == Some(x)
  {
    DelimitedAt(s, open, close, pre, x, post);
  }

  /** No occurrence of `pat` starts in `[a, b)` when the window `t` at `a` covers all of them. */
  lemma NoEarlierOccurrence(s: string, a: nat, t: string, pat: string, b: nat)
    requires |pat| > 0 && a + |t| <= |s| && s[a..a + |t|] == t
    requires b + |pat| - 1 <= a + |t|
    requires !Contains(t, pat)
    ensures forall j: nat :: a <= j < b ==> !OccursAt(s, pat, j)
  {
    forall j: nat | a <= j < b
      ensures !OccursAt(s, pat, j)
    {
      if OccursAt(s, pat, j) {
        OccursInWindow(s, a, t, pat, j);
      }
    }
  }

  predicate IsDigit(c: char)
  {
    '0' <= c <= '9'
  }

  /** PHP's decimal rendering of a non-negative integer (string interpolation of an int). */
  function NatToString(n: nat): (r: string)
    ensures |r| > 0
    ensures forall i :: 0 <= i < |r| ==> IsDigit(r[i])
    ensures (|r| == 1) == (n < 10)
  {
    if n < 10 then [Digit(n)] else NatToString(n / 10) + [Digit(n % 10)]
  }

  function Digit(d: nat): (c: char)
    requires d < 10
  {
    "0123456789"[d]
  }

  lemma {:induction false} NatToStringInjective(a: nat, b: nat)
    requires NatToString(a) == NatToString(b)
    ensures a == b
  {
    if a >= 10 && b >= 10 {
      var sa, sb := NatToString(a), NatToString(b);
      assert sa[..|sa| - 1] == NatToString(a / 10);
      assert sb[..|sb| - 1] == NatToString(b / 10);
      NatToStringInjective(a / 10, b / 10);
      assert Digit(a % 10) == sa[|sa| - 1] == sb[|sb| - 1] == Digit(b % 10);
    }
  }

  /** `str_replace` of one character by another: every `from` becomes `to`, nothing else moves. */
  function ReplaceChar(s: string, from: char, to: char): (r: string)
    ensures |r| == |s|
    ensures forall i :: 0 <= i < |s| ==> r[i] == (if s[i] == from then to else s[i])
  {
    if s == [] then [] else [if s[0] == from then to else s[0]] + ReplaceChar(s[1..], from, to)
  }
}
