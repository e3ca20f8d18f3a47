/**
 * The order in which `Object.entries` lists an object's own string-keyed properties
 * (section 10.1.11.1, OrdinaryOwnPropertyKeys, of ECMA-262): first the keys that are
 * array indices, in ascending numeric order, then every other key in the order it
 * was created. A parsed object creates its keys in the order of the JSON text.
 */
module ObjectKeys {
  import opened Text
  import opened Js
  import Seqs

  /** The largest array index, 2^32 - 2. */
  const MaxIndex: nat := 0xFFFF_FFFE

  /**
   * An array index: the canonical decimal form (no leading zero) of a number up to
   * `MaxIndex`. Nine digits always fit; ten digits fit when their value does.
   */
  predicate IsIndexKey(k: string) {
    && 1 <= |k| <= 10 && AllDigits(k) && (k[0] != '0' || |k| == 1)
    && (|k| == 10 ==> DigitsValue(k) <= MaxIndex)
  }

  /** The numeric value of an index key; other keys are never compared by it. */
  function KeyIndex(k: string): nat {
    if IsIndexKey(k) then DigitsValue(k) else 0
  }

  predicate IndexEntry(e: (string, Json)) {
    IsIndexKey(e.0)
  }

  predicate NamedEntry(e: (string, Json)) {
    !IsIndexKey(e.0)
  }

  /** The numeric value an entry is ordered by. */
  function EntryIndex(e: (string, Json)): nat {
    KeyIndex(e.0)
  }

  /** The index entries of `fields`, in creation order. */
  function IndexEntries(fields: seq<(string, Json)>): seq<(string, Json)>
    decreases |fields|
  {
    if fields == [] then []
    else (if IsIndexKey(fields[0].0) then [fields[0]] else []) + IndexEntries(fields[1..])
  }

  /** The entries of `fields` whose keys are not array indices, in creation order. */
  function NamedEntries(fields: seq<(string, Json)>): seq<(string, Json)>
    decreases |fields|
  {
    if fields == [] then []
    else (if IsIndexKey(fields[0].0) then [] else [fields[0]]) + NamedEntries(fields[1..])
  }

  /** `e` placed into `es` after every entry whose index is not larger. */
  function Insert(e: (string, Json), es: seq<(string, Json)>): seq<(string, Json)>
    decreases |es|
  {
    if es == [] then [e]
    else if KeyIndex(e.0) < KeyIndex(es[0].0) then [e] + es
    else [es[0]] + Insert(e, es[1..])
  }

  /** A stable insertion sort of entries by their index. */
  function SortByIndex(es: seq<(string, Json)>): seq<(string, Json)>
    decreases |es|
  {
    if es == [] then [] else Insert(es[|es| - 1], SortByIndex(es[..|es| - 1]))
  }

  /**
   * `Object.entries(o)` for an object whose fields were created in the order of `fields`:
   * the index keys first, in ascending numeric order, then the other keys in creation order.
   */
  function Entries(fields: seq<(string, Json)>): seq<(string, Json)> {
    SortByIndex(IndexEntries(fields)) + NamedEntries(fields)
  }

  lemma {:induction false} IndexEntriesFilter(fields: seq<(string, Json)>)
    ensures IndexEntries(fields) == Seqs.Filter(fields, IndexEntry)
    ensures NamedEntries(fields) == Seqs.Filter(fields, NamedEntry)
    decreases |fields|
  {
    if fields != [] {
      IndexEntriesFilter(fields[1..]);
    }
  }

  lemma {:induction false} InsertIsInsertBy(e: (string, Json), es: seq<(string, Json)>)
    requires Seqs.AscendingBy(es, EntryIndex)
    ensures Insert(e, es) == Seqs.InsertBy(e, es, EntryIndex)
    decreases |es|
  {
    if es != [] && KeyIndex(e.0) >= KeyIndex(es[0].0) {
      var tail := es[1..];
      assert Seqs.AscendingBy(tail, EntryIndex) by {
        forall i, j | 0 <= i < j < |tail| ensures EntryIndex(tail[i]) <= EntryIndex(tail[j]) {
          assert tail[i] == es[i + 1] && tail[j] == es[j + 1];
        }
      }
      InsertIsInsertBy(e, tail);
    }
  }

  lemma {:induction false} SortByIndexIsSortBy(es: seq<(string, Json)>)
    ensures SortByIndex(es) == Seqs.SortBy(es, EntryIndex)
    decreases |es|
  {
    if es != [] {
      var init := es[..|es| - 1];
      SortByIndexIsSortBy(init);
      InsertIsInsertBy(es[|es| - 1], Seqs.SortBy(init, EntryIndex));
    }
  }

  /**
   * The entries are the object's fields, reordered: the first `n` are its index keys, in
   * ascending numeric order, and the rest are its other keys in creation order.
   */
  lemma EntriesOrder(fields: seq<(string, Json)>)
    ensures var r := Entries(fields);
      multiset(r) == multiset(fields)
    ensures var r := Entries(fields);
      var n := |Seqs.Filter(fields, IndexEntry)|;
      n <= |r| && Seqs.AscendingBy(r[..n], EntryIndex) && (forall i :: 0 <= i < n ==> IsIndexKey(r[i].0))
      && r[n..] == Seqs.Filter(fields, NamedEntry)
  {
    var indexed := Seqs.Filter(fields, IndexEntry);
    var sorted := Seqs.SortBy(indexed, EntryIndex);
    var named := Seqs.Filter(fields, NamedEntry);
    IndexEntriesFilter(fields);
    SortByIndexIsSortBy(indexed);
    Seqs.FilterSplit(fields, IndexEntry, NamedEntry);
    SortedIndexKeys(indexed, sorted);
    var r := sorted + named;
    assert Entries(fields) == r;
    assert r[..|indexed|] == sorted && r[|indexed|..] == named;
  }

  /** A reordering of index entries holds index entries only, as many as before. */
  lemma SortedIndexKeys(indexed: seq<(string, Json)>, sorted: seq<(string, Json)>)
    requires forall x :: x in indexed ==> IndexEntry(x)
    requires multiset(sorted) == multiset(indexed)
    ensures |sorted| == |indexed|
    ensures forall i :: 0 <= i < |sorted| ==> IsIndexKey(sorted[i].0)
  {
    assert |sorted| == |multiset(sorted)| == |indexed|;
    forall i | 0 <= i < |sorted| ensures IsIndexKey(sorted[i].0) {
      assert sorted[i] in multiset(indexed);
      assert sorted[i] in indexed;
      assert IndexEntry(sorted[i]);
    }
  }

  /** An object without index keys lists its fields in creation order. */
  lemma EntriesWithoutIndexKeys(fields: seq<(string, Json)>)
    requires forall i :: 0 <= i < |fields| ==> !IsIndexKey(fields[i].0)
    ensures Entries(fields) == fields
  {
    IndexEntriesFilter(fields);
    Seqs.FilterNone(fields, IndexEntry);
    Seqs.FilterAll(fields, NamedEntry);
  }

  /** A key with a non-digit character is never an index key. */
  lemma NonDigitKey(k: string, i: nat)
    requires i < |k| && !IsDigit(k[i])
    ensures !IsIndexKey(k)
  {
  }

  /** `"1"` is the array index 1. */
  lemma OneIsIndexKey()
    ensures IsIndexKey("1") && KeyIndex("1") == 1
  {
    assert "1"[..0] == "";
  }

  /** An index key created after another key is still listed before it. */
  lemma IndexKeyListedFirst(a: string, va: Json, b: string, vb: Json)
    requires !IsIndexKey(a) && IsIndexKey(b)
    ensures Entries([(a, va), (b, vb)]) == [(b, vb), (a, va)]
  {
    var fields := [(a, va), (b, vb)];
    assert fields[1..] == [(b, vb)] && fields[1..][1..] == [];
    var tail := [(b, vb)];
    assert tail[1..] == [];
    assert IndexEntries(tail) == [(b, vb)] + IndexEntries([]);
    assert NamedEntries(tail) == [] + NamedEntries([]);
    assert IndexEntries(fields) == [] + IndexEntries(tail);
    assert NamedEntries(fields) == [(a, va)] + NamedEntries(tail);
    assert [(b, vb)][..0] == [];
    assert SortByIndex([(b, vb)]) == Insert((b, vb), []) == [(b, vb)];
  }

  /**
   * A parsed value with every object's fields put in `Object.entries` order, at every depth.
   * A search that lists an object's entries reads them in this order.
   */
  function InEntriesOrder(j: Json): (r: Json)
    ensures j.JObj? <==> r.JObj?
    ensures j.JArr? <==> r.JArr?
    ensures j.JArr? ==> |r.items| == |j.items|
    decreases j
  {
    match j
    case JObj(fields) =>
      JObj(Entries(seq(|fields|, i requires 0 <= i < |fields| => (fields[i].0, InEntriesOrder(fields[i].1)))))
    case JArr(items) => JArr(seq(|items|, i requires 0 <= i < |items| => InEntriesOrder(items[i])))
    case _ => j
  }

  /** Putting an object's values in order and then its fields: the two steps `InEntriesOrder` takes. */
  lemma InEntriesOrderObject(fields: seq<(string, Json)>, ordered: seq<(string, Json)>)
    requires |ordered| == |fields|
    requires forall i :: 0 <= i < |fields| ==> ordered[i] == (fields[i].0, InEntriesOrder(fields[i].1))
    ensures InEntriesOrder(JObj(fields)) == JObj(Entries(ordered))
  {
    var vs := seq(|fields|, i requires 0 <= i < |fields| => (fields[i].0, InEntriesOrder(fields[i].1)));
    assert vs == ordered;
  }

  /** An object of strings without index keys is already in entries order. */
  lemma FlatObjectInOrder(fields: seq<(string, Json)>)
    requires forall i :: 0 <= i < |fields| ==> !IsIndexKey(fields[i].0) && fields[i].1.JStr?
    ensures InEntriesOrder(JObj(fields)) == JObj(fields)
  {
    InEntriesOrderObject(fields, fields);
    EntriesWithoutIndexKeys(fields);
  }
}
