/** Plain JavaScript objects used as dictionaries: the property names every
    object inherits from `Object.prototype`, and the order in which
    `Object.keys` and `Object.entries` list an object's own keys. */
module JsObject {
  import opened Text
  import opened Sorting

  /** Names every JavaScript object inherits from `Object.prototype`;
      looking one of them up on an object literal or a parsed JSON object
      finds a truthy value even though no such key was ever set. */
  const InheritedNames: seq<string> := [
    "constructor", "hasOwnProperty", "isPrototypeOf", "propertyIsEnumerable", "toLocaleString",
    "toString", "valueOf", "__proto__", "__defineGetter__", "__defineSetter__",
    "__lookupGetter__", "__lookupSetter__"]

  /** A key JavaScript treats as an array index: "0", or decimal digits
      without a leading zero, below 2^32 - 1. */
  predicate IsIndexKey(key: string) {
    key != [] && AllDigits(key) && (key[0] != '0' || |key| == 1) && DigitsValue(key) < 0xFFFF_FFFF
  }

  /** The numeric value of a key made of digits (0 for any other key). */
  function KeyValue(key: string): nat {
    if AllDigits(key) then DigitsValue(key) else 0
  }

  predicate IndexEntry<V>(e: (string, V)) { IsIndexKey(e.0) }

  predicate NamedEntry<V>(e: (string, V)) { !IsIndexKey(e.0) }

  /** Index keys are listed in ascending numeric order. */
  predicate IndexBefore<V>(a: (string, V), b: (string, V)) { KeyValue(a.0) <= KeyValue(b.0) }

  /** `Object.entries` of an object whose own keys were first set in the
      order of `es`: the array-index keys in ascending numeric order, then
      every other key in insertion order. */
  function EntriesOrder<V>(es: seq<(string, V)>): seq<(string, V)> {
    SortBy(Filter(es, IndexEntry), IndexBefore) + Filter(es, NamedEntry)
  }

  /** The entries are listed once each, as they were set; the index keys
      come first in ascending order, the other keys follow in insertion
      order. */
  lemma EntriesOrderSpec<V(!new)>(es: seq<(string, V)>)
    ensures multiset(EntriesOrder(es)) == multiset(es)
    ensures var n := |Filter(es, IndexEntry<V>)|;
      var r := EntriesOrder(es);
      (forall k :: 0 <= k < n ==> IsIndexKey(r[k].0)) &&
      (forall i, j :: 0 <= i < j < n ==> KeyValue(r[i].0) <= KeyValue(r[j].0)) &&
      r[n..] == Filter(es, NamedEntry)
  {
    var idx := Filter(es, IndexEntry);
    var sorted := SortBy(idx, IndexBefore);
    assert TotalPreorder(IndexBefore<V>);
    SortBySorted(idx, IndexBefore);
    FilterPartition(es, IndexEntry, NamedEntry);
    forall k | 0 <= k < |idx| ensures IsIndexKey(sorted[k].0) {
      assert sorted[k] in multiset(idx);
      assert IndexEntry(sorted[k]);
    }
  }

  /** Without index keys, the entries keep their insertion order. */
  lemma EntriesOrderNamed<V>(es: seq<(string, V)>)
    requires forall k :: 0 <= k < |es| ==> !IsIndexKey(es[k].0)
    ensures EntriesOrder(es) == es
  {
    FilterNone(es, IndexEntry);
    FilterKeepsAll(es, NamedEntry);
  }

  /** An index key set after another key is still listed before it. */
  lemma IndexKeyFirst<V>(a: (string, V), b: (string, V))
    requires !IsIndexKey(a.0) && IsIndexKey(b.0)
    ensures EntriesOrder([a, b]) == [b, a]
  {
    var idx, named := Filter([a, b], IndexEntry), Filter([a, b], NamedEntry);
    assert idx == [b] by {
      assert [a, b][1..] == [b] && !IndexEntry(a) && IndexEntry(b);
      assert Filter([b], IndexEntry) == [b] + Filter([b][1..], IndexEntry);
    }
    assert named == [a] by {
      assert [a, b][1..] == [b] && NamedEntry(a) && !NamedEntry(b);
      assert Filter([b], NamedEntry) == Filter([b][1..], NamedEntry);
    }
    assert SortBy([b], IndexBefore) == [b] by {
      assert [b][..0] == [];
    }
    assert EntriesOrder([a, b]) == SortBy(idx, IndexBefore) + named;
  }

  /** A year such as "2020" is an index key; a word is not. */
  lemma YearIsIndexKey()
    ensures IsIndexKey("2020")
  {
    assert AllDigits("2020");
    assert "2020"[..3] == "202" && "202"[..2] == "20" && "20"[..1] == "2" && "2"[..0] == "";
    assert DigitsValue("2020") == 2020;
  }
}

