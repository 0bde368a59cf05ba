/**
 * `LaravelInnvoice::addItemsToInvoice`: the line items of an invoice are
 * flattened into the payload under `invoices` / `invoice`, six keys per item.
 * With more than one item each key carries the item's position counted from
 * 1 (`TetelNev1`, `TetelNev2`, ...); a single item's keys carry no suffix.
 */
module InvoiceItems {
  import opened Wrappers
  import opened Text
  import opened Assoc
  import opened XmlValue

  /** One line item (`tetel`): the six values the payload takes from it. */
  datatype LineItem = LineItem(name: string, vatText: string, gross: string, unitPrice: string, quantity: string, unit: string)

  /** The six fields of an item, named by their payload keys. */
  datatype ItemField = TetelNev | AfaSzoveg | Brutto | EgysegAr | Mennyiseg | MennyisegEgyseg

  /** The fields in the order the loop body writes them. */
  function Fields(): seq<ItemField>
  {
    [TetelNev, AfaSzoveg, Brutto, EgysegAr, Mennyiseg, MennyisegEgyseg]
  }

  function FieldName(f: ItemField): string
  {
    match f
    case TetelNev => "TetelNev"
    case AfaSzoveg => "AfaSzoveg"
    case Brutto => "Brutto"
    case EgysegAr => "EgysegAr"
    case Mennyiseg => "Mennyiseg"
    case MennyisegEgyseg => "MennyisegEgyseg"
  }

  function FieldValue(item: LineItem, f: ItemField): string
  {
    match f
    case TetelNev => item.name
    case AfaSzoveg => item.vatText
    case Brutto => item.gross
    case EgysegAr => item.unitPrice
    case Mennyiseg => item.quantity
    case MennyisegEgyseg => item.unit
  }

  /** Where `f` stands among the fields. */
  function FieldPos(f: ItemField): (j: nat)
    ensures j < |Fields()| && Fields()[j] == f
  {
    match f
    case TetelNev => 0
    case AfaSzoveg => 1
    case Brutto => 2
    case EgysegAr => 3
    case Mennyiseg => 4
    case MennyisegEgyseg => 5
  }

  /** `$itemCount > 1 ? ($index + 1) : ''`. */
  function Suffix(count: nat, index: nat): string
  {
    if count > 1 then NatToString(index + 1) else ""
  }

  /** The key field `f` of item `index` (of `count`) is written under. */
  function ItemKey(f: ItemField, count: nat, index: nat): string
  {
    FieldName(f) + Suffix(count, index)
  }

  /** The six writes of one turn of the loop, in order. */
  function ItemWrites(item: LineItem, count: nat, index: nat): (ws: seq<(string, Value)>)
    ensures |ws| == |Fields()|
  {
    seq(|Fields()|, j requires 0 <= j < |Fields()| => (ItemKey(Fields()[j], count, index), Leaf(FieldValue(item, Fields()[j]))))
  }

  // ---------------------------------------------------------------------
  // Writing `$data['invoices']['invoice'][$key]`.

  /**
   * A PHP array as an ordered list of entries. A list's keys are its
   * positions; writing a string key into it turns it into a map that keeps
   * those numbered entries first.
   */
  function Entries(v: Value): seq<(string, Value)>
    requires !v.Leaf?
  {
    if v.Map? then v.entries
    else seq(|v.items|, i requires 0 <= i < |v.items| => (NatToString(i), v.items[i]))
  }

  /**
   * The array found at a step of the write path: a missing entry is created
   * empty, and a string there cannot take a key.
   */
  function Slot(o: Option<Value>): Result<seq<(string, Value)>, Throwable>
  {
    match o
    case None => Ok([])
    case Some(w) => if w.Leaf? then Err(Error) else Ok(Entries(w))
  }

  /** The entries of `$data['invoices']`, as the write path sees them. */
  function Invoices(data: Value): Result<seq<(string, Value)>, Throwable>
    requires !data.Leaf?
  {
    Slot(Lookup(Entries(data), "invoices"))
  }

  /** The entries of `$data['invoices']['invoice']`, as the write path sees them. */
  function InvoiceEntries(data: Value): Result<seq<(string, Value)>, Throwable>
    requires !data.Leaf?
  {
    match Invoices(data)
    case Err(e) => Err(e)
    case Ok(inv) => Slot(Lookup(inv, "invoice"))
  }

  /** `data` with `$data['invoices']['invoice']` replaced by the entries `m`. */
  function WithInvoice(data: Value, m: seq<(string, Value)>): (r: Value)
    requires !data.Leaf? && InvoiceEntries(data).Ok?
    ensures r.Map?
  {
    var inv := Invoices(data).value;
    Map(Put(Entries(data), "invoices", Map(Put(inv, "invoice", Map(m)))))
  }

  /** `$data['invoices']['invoice'][$key] = $x`. */
  function SetInvoiceField(data: Value, key: string, x: Value): Result<Value, Throwable>
    requires !data.Leaf?
  {
    match InvoiceEntries(data)
    case Err(e) => Err(e)
    case Ok(m) => Ok(WithInvoice(data, Put(m, key, x)))
  }

  /** The entries `m` after the writes `ws`, in order. */
  function PutAll(m: seq<(string, Value)>, ws: seq<(string, Value)>): seq<(string, Value)>
  {
    if ws == [] then m else Put(PutAll(m, ws[..|ws| - 1]), ws[|ws| - 1].0, ws[|ws| - 1].1)
  }

  /** The invoice entries `m` after the first `i` items have been written. */
  function WriteItems(m: seq<(string, Value)>, items: seq<LineItem>, i: nat): seq<(string, Value)>
    requires i <= |items|
  {
    if i == 0 then m else PutAll(WriteItems(m, items, i - 1), ItemWrites(items[i - 1], |items|, i - 1))
  }

  /**
   * What `addItemsToInvoice` leaves in `$data`: unchanged when there are no
   * items, an `Error` when the write path runs into a string, and otherwise
   * every item's fields written into `$data['invoices']['invoice']`.
   */
  function AddItems(data: Value, items: seq<LineItem>): (r: Result<Value, Throwable>)
    requires !data.Leaf?
    ensures r.Ok? ==> !r.value.Leaf?
  {
    if items == [] then Ok(data)
    else
      match InvoiceEntries(data)
      case Err(e) => Err(e)
      case Ok(m) => Ok(WithInvoice(data, WriteItems(m, items, |items|)))
  }

  /**
   * `addItemsToInvoice(&$data, $tetelek)`: for each item in turn, its six
   * assignments, in order. The first assignment that meets a string on the
   * write path throws.
   */
  method AddItemsToInvoice(data: Value, items: seq<LineItem>) returns (r: Result<Value, Throwable>)
    requires !data.Leaf?
    ensures r == AddItems(data, items)
  {
    var cur := data;
    for i := 0 to |items|
      invariant !cur.Leaf?
      invariant i == 0 ==> cur == data
      invariant i > 0 ==> InvoiceEntries(data).Ok? && cur == WithInvoice(data, WriteItems(InvoiceEntries(data).value, items, i))
    {
      var res := WriteItem(data, cur, items, i);
      if res.Err? {
        return res;
      }
      cur := res.value;
    }
    return Ok(cur);
  }

  /**
   * The loop body for item `i`: its six assignments into `cur`, which holds
   * `data` with the first `i` items written. Only the very first assignment
   * can throw, since every later one finds the path it needs in place.
   */
  method WriteItem(data: Value, cur: Value, items: seq<LineItem>, i: nat) returns (r: Result<Value, Throwable>)
    requires !data.Leaf? && !cur.Leaf? && i < |items|
    requires i == 0 ==> cur == data
    requires i > 0 ==> InvoiceEntries(data).Ok? && cur == WithInvoice(data, WriteItems(InvoiceEntries(data).value, items, i))
    ensures r.Err? ==> i == 0 && InvoiceEntries(data) == Err(r.error)
    ensures r.Ok? ==> InvoiceEntries(data).Ok? && r.value == WithInvoice(data, WriteItems(InvoiceEntries(data).value, items, i + 1))
  {
    var cur := cur;
    var writes := ItemWrites(items[i], |items|, i);
    for j := 0 to |writes|
      invariant !cur.Leaf?
      invariant i == 0 && j == 0 ==> cur == data
      invariant i > 0 || j > 0 ==>
        InvoiceEntries(data).Ok? && cur == WithInvoice(data, PutAll(WriteItems(InvoiceEntries(data).value, items, i), writes[..j]))
    {
      if i > 0 || j > 0 {
        ghost var m := PutAll(WriteItems(InvoiceEntries(data).value, items, i), writes[..j]);
        InvoiceOf(data, m);
        WithInvoiceTwice(data, m, Put(m, writes[j].0, writes[j].1));
      }
      var res := SetInvoiceField(cur, writes[j].0, writes[j].1);
      if res.Err? {
        return res;
      }
      cur := res.value;
      PutAllSnoc(WriteItems(InvoiceEntries(data).value, items, i), writes, j);
    }
    assert writes[..|writes|] == writes;
    return Ok(cur);
  }

  /** One more write after the first `j`. */
  lemma PutAllSnoc(m: seq<(string, Value)>, ws: seq<(string, Value)>, j: nat)
    requires j < |ws|
    ensures PutAll(m, ws[..j + 1]) == Put(PutAll(m, ws[..j]), ws[j].0, ws[j].1)
  {
    assert ws[..j + 1][..j] == ws[..j];
  }

  /** Replacing the invoice entries makes them what is then read back. */
  lemma InvoiceOf(data: Value, m: seq<(string, Value)>)
    requires !data.Leaf? && InvoiceEntries(data).Ok?
    ensures InvoiceEntries(WithInvoice(data, m)) == Ok(m)
  {
    var inv := Invoices(data).value;
    PutLookup(Entries(data), "invoices", Map(Put(inv, "invoice", Map(m))), "invoices");
    PutLookup(inv, "invoice", Map(m), "invoice");
  }

  /** Replacing the invoice entries twice is replacing them once, with the second. */
  lemma WithInvoiceTwice(data: Value, m1: seq<(string, Value)>, m2: seq<(string, Value)>)
    requires !data.Leaf? && InvoiceEntries(data).Ok?
    ensures InvoiceEntries(WithInvoice(data, m1)).Ok?
    ensures WithInvoice(WithInvoice(data, m1), m2) == WithInvoice(data, m2)
  {
    var inv := Invoices(data).value;
    var once := WithInvoice(data, m1);
    InvoiceOf(data, m1);
    PutLookup(Entries(data), "invoices", Map(Put(inv, "invoice", Map(m1))), "invoices");
    assert Invoices(once) == Ok(Put(inv, "invoice", Map(m1)));
    PutTwice(inv, "invoice", Map(m1), Map(m2));
    PutTwice(Entries(data), "invoices", Map(Put(inv, "invoice", Map(m1))), Map(Put(inv, "invoice", Map(m2))));
  }

  // ---------------------------------------------------------------------
  // Keys.

  /** No field name holds a digit. */
  lemma NameHasNoDigit(f: ItemField, k: nat)
    requires k < |FieldName(f)|
    ensures !IsDigit(FieldName(f)[k])
  {
  }

  /** Two fields written with the same suffix have different keys. */
  lemma SameSuffixKeys(f: ItemField, g: ItemField, s: string)
    ensures FieldName(f) + s == FieldName(g) + s ==> f == g
  {
    var a, b := FieldName(f) + s, FieldName(g) + s;
    assert a[..|a| - |s|] == FieldName(f);
    assert b[..|b| - |s|] == FieldName(g);
  }

  /** A field name followed by a number determines both. */
  lemma NumberedKeysDiffer(f: ItemField, g: ItemField, a: nat, b: nat)
    requires FieldName(f) + NatToString(a) == FieldName(g) + NatToString(b)
    ensures f == g && a == b
  {
    var x, p, q := FieldName(f) + NatToString(a), FieldName(f), FieldName(g);
    if |p| < |q| {
      assert x[|p|] == NatToString(a)[0];
      assert x[|p|] == q[|p|];
      NameHasNoDigit(g, |p|);
      assert false;
    } else if |q| < |p| {
      assert x[|q|] == NatToString(b)[0];
      assert x[|q|] == p[|q|];
      NameHasNoDigit(f, |q|);
      assert false;
    } else {
      assert p == x[..|p|] == q;
      assert NatToString(a) == x[|p|..] == NatToString(b);
      NatToStringInjective(a, b);
    }
  }

  /** Every field of every item has a key of its own. */
  lemma ItemKeyInjective(f: ItemField, g: ItemField, count: nat, i: nat, j: nat)
    requires i < count && j < count
    ensures ItemKey(f, count, i) == ItemKey(g, count, j) ==> f == g && i == j
  {
    if count > 1 {
      if ItemKey(f, count, i) == ItemKey(g, count, j) {
        NumberedKeysDiffer(f, g, i + 1, j + 1);
      }
    } else {
      SameSuffixKeys(f, g, "");
    }
  }

  /** A single item's keys carry no suffix; with several, the first item's carry `1`. */
  lemma FirstItemSuffix(count: nat)
    requires count > 0
    ensures Suffix(count, 0) == if count == 1 then "" else "1"
  {
  }

  /** Some field of some item is written under `k`. */
  ghost predicate IsItemKey(k: string, count: nat)
  {
    exists f: ItemField, i: nat :: i < count && ItemKey(f, count, i) == k
  }

  // ---------------------------------------------------------------------
  // What the writes leave behind.

  /** Writes under other keys leave a key's entry alone. */
  lemma {:induction false} PutAllOther(m: seq<(string, Value)>, ws: seq<(string, Value)>, k: string)
    requires forall j :: 0 <= j < |ws| ==> ws[j].0 != k
    ensures Lookup(PutAll(m, ws), k) == Lookup(m, k)
    decreases |ws|
  {
    if ws != [] {
      var init := ws[..|ws| - 1];
      PutAllOther(m, init, k);
      PutLookup(PutAll(m, init), ws[|ws| - 1].0, ws[|ws| - 1].1, k);
    }
  }

  /** A key holds what was last written under it. */
  lemma {:induction false} PutAllHit(m: seq<(string, Value)>, ws: seq<(string, Value)>, j: nat)
    requires j < |ws|
    requires forall j' :: j < j' < |ws| ==> ws[j'].0 != ws[j].0
    ensures Lookup(PutAll(m, ws), ws[j].0) == Some(ws[j].1)
    decreases |ws|
  {
    var last := |ws| - 1;
    var init := ws[..last];
    PutLookup(PutAll(m, init), ws[last].0, ws[last].1, ws[j].0);
    if j < last {
      assert init[j] == ws[j];
      PutAllHit(m, init, j);
    }
  }

  /** After the first `i` items, each field of each of them is stored under its key. */
  lemma {:induction false} ItemsWritten(m: seq<(string, Value)>, items: seq<LineItem>, i: nat, i0: nat, f: ItemField)
    requires i0 < i <= |items|
    ensures Lookup(WriteItems(m, items, i), ItemKey(f, |items|, i0)) == Some(Leaf(FieldValue(items[i0], f)))
    decreases i
  {
    var prev := WriteItems(m, items, i - 1);
    WriteItemsNext(m, items, i - 1);
    if i - 1 == i0 {
      WrittenNow(prev, items[i0], |items|, i0, f);
    } else {
      ItemsWritten(m, items, i - 1, i0, f);
      WrittenBefore(prev, items[i - 1], |items|, i - 1, i0, f);
    }
  }

  /** Writing one more item is one more turn of six writes. */
  lemma WriteItemsNext(m: seq<(string, Value)>, items: seq<LineItem>, i: nat)
    requires i < |items|
    ensures WriteItems(m, items, i + 1) == PutAll(WriteItems(m, items, i), ItemWrites(items[i], |items|, i))
  {
  }

  /** The turn for item `index` stores each of its fields under its key. */
  lemma WrittenNow(prev: seq<(string, Value)>, item: LineItem, count: nat, index: nat, f: ItemField)
    requires index < count
    ensures Lookup(PutAll(prev, ItemWrites(item, count, index)), ItemKey(f, count, index)) == Some(Leaf(FieldValue(item, f)))
  {
    var ws := ItemWrites(item, count, index);
    var j := FieldPos(f);
    forall j' | j < j' < |ws|
      ensures ws[j'].0 != ws[j].0
    {
      ItemKeyInjective(Fields()[j'], f, count, index, index);
    }
    PutAllHit(prev, ws, j);
  }

  /** The turn for item `index` leaves the keys of another item alone. */
  lemma WrittenBefore(prev: seq<(string, Value)>, item: LineItem, count: nat, index: nat, i0: nat, f: ItemField)
    requires index < count && i0 < count && i0 != index
    ensures Lookup(PutAll(prev, ItemWrites(item, count, index)), ItemKey(f, count, i0)) == Lookup(prev, ItemKey(f, count, i0))
  {
    var ws := ItemWrites(item, count, index);
    forall j' | 0 <= j' < |ws|
      ensures ws[j'].0 != ItemKey(f, count, i0)
    {
      ItemKeyInjective(Fields()[j'], f, count, index, i0);
    }
    PutAllOther(prev, ws, ItemKey(f, count, i0));
  }

  /** Keys that are no item's key keep their entries. */
  lemma {:induction false} OthersKept(m: seq<(string, Value)>, items: seq<LineItem>, i: nat, k: string)
    requires i <= |items| && !IsItemKey(k, |items|)
    ensures Lookup(WriteItems(m, items, i), k) == Lookup(m, k)
    decreases i
  {
    if i > 0 {
      OthersKept(m, items, i - 1, k);
      var ws := ItemWrites(items[i - 1], |items|, i - 1);
      forall j | 0 <= j < |ws|
        ensures ws[j].0 != k
      {
        assert ws[j].0 == ItemKey(Fields()[j], |items|, i - 1);
      }
      PutAllOther(WriteItems(m, items, i - 1), ws, k);
    }
  }

  // ---------------------------------------------------------------------
  // `addItemsToInvoice`, end to end.

  /** No items leave the payload as it was; otherwise it fails exactly when the write path meets a string. */
  lemma AddItemsOutcome(data: Value, items: seq<LineItem>)
    requires !data.Leaf?
    ensures items == [] ==> AddItems(data, items) == Ok(data)
    ensures AddItems(data, items).Err? <==> items != [] && InvoiceEntries(data).Err?
    ensures AddItems(data, items).Err? ==> AddItems(data, items).error == Error
  {
  }

  /** Every field of every item is stored in `$data['invoices']['invoice']` under its key. */
  lemma ItemStored(data: Value, items: seq<LineItem>, i: nat, f: ItemField)
    requires !data.Leaf? && AddItems(data, items).Ok? && i < |items|
    ensures InvoiceEntries(AddItems(data, items).value).Ok?
    ensures Lookup(InvoiceEntries(AddItems(data, items).value).value, ItemKey(f, |items|, i)) == Some(Leaf(FieldValue(items[i], f)))
  {
    var m := InvoiceEntries(data).value;
    InvoiceOf(data, WriteItems(m, items, |items|));
    ItemsWritten(m, items, |items|, i, f);
  }

  /** Entries of `$data['invoices']['invoice']` under any other key are unchanged. */
  lemma InvoiceOthersUnchanged(data: Value, items: seq<LineItem>, k: string)
    requires !data.Leaf? && AddItems(data, items).Ok? && items != []
    requires !IsItemKey(k, |items|)
    ensures InvoiceEntries(AddItems(data, items).value).Ok?
    ensures Lookup(InvoiceEntries(AddItems(data, items).value).value, k) == Lookup(InvoiceEntries(data).value, k)
  {
    var m := InvoiceEntries(data).value;
    InvoiceOf(data, WriteItems(m, items, |items|));
    OthersKept(m, items, |items|, k);
  }

  /** Outside `$data['invoices']['invoice']` nothing changes: other top-level keys, and the other keys of `invoices`. */
  lemma OutsideUnchanged(data: Value, items: seq<LineItem>, k: string)
    requires !data.Leaf? && AddItems(data, items).Ok? && items != []
    ensures k != "invoices" ==> Lookup(Entries(AddItems(data, items).value), k) == Lookup(Entries(data), k)
    ensures Invoices(AddItems(data, items).value).Ok?
    ensures k != "invoice" ==> Lookup(Invoices(AddItems(data, items).value).value, k) == Lookup(Invoices(data).value, k)
  {
    var m := WriteItems(InvoiceEntries(data).value, items, |items|);
    var inv := Invoices(data).value;
    PutLookup(Entries(data), "invoices", Map(Put(inv, "invoice", Map(m))), k);
    PutLookup(Entries(data), "invoices", Map(Put(inv, "invoice", Map(m))), "invoices");
    PutLookup(inv, "invoice", Map(m), k);
  }
}
