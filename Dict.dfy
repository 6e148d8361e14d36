/**
 * A JavaScript plain object used as a dictionary from card id to an amount
 * (`{ [cardId: string]: number }`). JavaScript lists integer-like keys
 * (`"0"`, `"42"`) first in ascending order and every other key in insertion
 * order; card ids (`card-1`, `card-<timestamp>`) are never integer-like, so
 * `Object.keys`, `Object.values` and `Object.entries` walk the keys in
 * insertion order, and the model is an association list: assigning an
 * existing key overwrites it in place, assigning a new key appends it.
 */
module Dict {
  import opened Wrappers

  datatype Entry = Entry(key: string, value: real)

  type Dict = seq<Entry>

  function Keys(d: Dict): (r: seq<string>)
    ensures |r| == |d| && forall i :: 0 <= i < |d| ==> r[i] == d[i].key
  {
    seq(|d|, i requires 0 <= i < |d| => d[i].key)
  }

  predicate HasKey(d: Dict, k: string)
  {
    exists i :: 0 <= i < |d| && d[i].key == k
  }

  /** No key occurs twice; every dictionary built with Set has this shape. */
  ghost predicate DistinctKeys(d: Dict)
  {
    forall i, j :: 0 <= i < j < |d| ==> d[i].key != d[j].key
  }

  /** The position of key `k`, the first one if it occurred twice. */
  function IndexOf(d: Dict, k: string): (r: Option<nat>)
    ensures r.Some? ==> r.value < |d| && d[r.value].key == k
    decreases |d|
  {
    if d == [] then None
    else if d[0].key == k then Some(0)
    else match IndexOf(d[1..], k)
      case None => None
      case Some(i) => Some(i + 1)
  }

  /** The first position of `k` is its first occurrence; there is none exactly when `k` is not a key. */
  lemma {:induction false} IndexOfFacts(d: Dict, k: string)
    ensures var r := IndexOf(d, k);
      && (r.Some? ==> forall i :: 0 <= i < r.value ==> d[i].key != k)
      && (r.None? <==> !HasKey(d, k))
    decreases |d|
  {
    if d != [] && d[0].key != k {
      IndexOfFacts(d[1..], k);
      if HasKey(d, k) {
        var i :| 0 <= i < |d| && d[i].key == k;
        assert d[1..][i - 1].key == k;
      }
    }
  }

  /** `d[k]`, or None when `k` is not a key (JavaScript's `undefined`). */
  function Lookup(d: Dict, k: string): Option<real>
  {
    match IndexOf(d, k)
    case None => None
    case Some(i) => Some(d[i].value)
  }

  /** `d[k] || 0`: a missing key reads as zero. */
  function Get(d: Dict, k: string): real
  {
    Lookup(d, k).GetOr(0.0)
  }

  /** `d[k] = v`: overwrite in place, or append a new key at the end. */
  function Set(d: Dict, k: string, v: real): (r: Dict)
  {
    match IndexOf(d, k)
    case None => d + [Entry(k, v)]
    case Some(i) => d[i := Entry(k, v)]
  }

  lemma SetSame(d: Dict, k: string, v: real)
    ensures Lookup(Set(d, k, v), k) == Some(v)
    ensures Get(Set(d, k, v), k) == v
    ensures HasKey(Set(d, k, v), k)
  {
    var r := Set(d, k, v);
    IndexOfFacts(d, k);
    IndexOfFacts(r, k);
    match IndexOf(d, k)
    case None =>
      assert r[|d|].key == k;
      assert IndexOf(r, k) == Some(|d|);
    case Some(i) =>
      assert r[i].key == k;
      assert IndexOf(r, k) == Some(i);
  }

  /** `d[k]` is defined exactly when `k` is a key. */
  lemma LookupDefined(d: Dict, k: string)
    ensures Lookup(d, k).Some? <==> HasKey(d, k)
  {
    IndexOfFacts(d, k);
  }

  lemma SetOther(d: Dict, k: string, v: real, j: string)
    requires j != k
    ensures Lookup(Set(d, k, v), j) == Lookup(d, j)
    ensures Get(Set(d, k, v), j) == Get(d, j)
    ensures HasKey(Set(d, k, v), j) <==> HasKey(d, j)
  {
    LookupDefined(d, j);
    LookupDefined(Set(d, k, v), j);
    match IndexOf(d, k)
    case None =>
      IndexOfAppend(d, Entry(k, v), j);
    case Some(i) =>
      IndexOfUpdate(d, i, Entry(k, v), j);
  }

  lemma {:induction false} IndexOfAppend(d: Dict, e: Entry, j: string)
    requires e.key != j
    ensures IndexOf(d + [e], j) == IndexOf(d, j)
    ensures forall i :: 0 <= i < |d| ==> (d + [e])[i] == d[i]
    decreases |d|
  {
    if d == [] {
      assert IndexOf([e], j) == IndexOf([e][1..], j);
    } else {
      assert (d + [e])[1..] == d[1..] + [e];
      IndexOfAppend(d[1..], e, j);
    }
  }

  lemma {:induction false} IndexOfUpdate(d: Dict, i: nat, e: Entry, j: string)
    requires i < |d| && d[i].key != j && e.key != j
    ensures IndexOf(d[i := e], j) == IndexOf(d, j)
    decreases |d|
  {
    if i > 0 {
      assert d[i := e][1..] == d[1..][i - 1 := e];
      IndexOfUpdate(d[1..], i - 1, e, j);
    }
  }

  lemma SetKeys(d: Dict, k: string, v: real)
    ensures HasKey(d, k) ==> Keys(Set(d, k, v)) == Keys(d)
    ensures !HasKey(d, k) ==> Keys(Set(d, k, v)) == Keys(d) + [k]
    ensures DistinctKeys(d) ==> DistinctKeys(Set(d, k, v))
  {
    IndexOfFacts(d, k);
  }

  /** With distinct keys, the key at position `j` is found at position `j`. */
  lemma IndexOfDistinct(d: Dict, j: nat)
    requires DistinctKeys(d) && j < |d|
    ensures IndexOf(d, d[j].key) == Some(j)
    ensures Get(d, d[j].key) == d[j].value
  {
    assert HasKey(d, d[j].key);
    IndexOfFacts(d, d[j].key);
  }

  /** A missing key reads as zero. */
  lemma GetMissing(d: Dict, k: string)
    requires !HasKey(d, k)
    ensures Get(d, k) == 0.0
  {
    IndexOfFacts(d, k);
  }

  lemma {:induction false} IndexOfSameKeys(a: Dict, b: Dict, k: string)
    requires Keys(a) == Keys(b)
    ensures IndexOf(a, k) == IndexOf(b, k)
    decreases |a|
  {
    if a != [] {
      assert Keys(a[1..]) == Keys(a)[1..] && Keys(b[1..]) == Keys(b)[1..];
      IndexOfSameKeys(a[1..], b[1..], k);
    }
  }

  /** `Object.values(d).reduce((sum, x) => sum + x, 0)`. */
  function SumValues(d: Dict): real
    decreases |d|
  {
    if d == [] then 0.0 else d[0].value + SumValues(d[1..])
  }

  lemma {:induction false} SumValuesAppend(d: Dict, e: Entry)
    ensures SumValues(d + [e]) == SumValues(d) + e.value
    decreases |d|
  {
    if d == [] {
      assert [e][1..] == [];
    } else {
      assert (d + [e])[1..] == d[1..] + [e];
      SumValuesAppend(d[1..], e);
    }
  }

  lemma {:induction false} SumValuesUpdate(d: Dict, i: nat, e: Entry)
    requires i < |d|
    ensures SumValues(d[i := e]) == SumValues(d) - d[i].value + e.value
    decreases |d|
  {
    if i > 0 {
      assert d[i := e][1..] == d[1..][i - 1 := e];
      SumValuesUpdate(d[1..], i - 1, e);
    }
  }

  /** Assigning `d[k] = v` changes the sum of the values by `v` less the old `d[k] || 0`. */
  lemma SumValuesSet(d: Dict, k: string, v: real)
    ensures SumValues(Set(d, k, v)) == SumValues(d) - Get(d, k) + v
  {
    match IndexOf(d, k)
    case None =>
      SumValuesAppend(d, Entry(k, v));
    case Some(i) =>
      SumValuesUpdate(d, i, Entry(k, v));
  }

  /** `Object.keys(d).forEach(k => d[k] = f(d[k]))`: same keys, same order, new values. */
  function MapValues(d: Dict, f: real -> real): (r: Dict)
    ensures |r| == |d|
    ensures forall i :: 0 <= i < |d| ==> r[i] == Entry(d[i].key, f(d[i].value))
  {
    seq(|d|, i requires 0 <= i < |d| => Entry(d[i].key, f(d[i].value)))
  }

  /** Reading a mapped dictionary reads the original and applies `f`. */
  lemma LookupMapValues(d: Dict, f: real -> real, k: string)
    ensures Keys(MapValues(d, f)) == Keys(d)
    ensures Lookup(MapValues(d, f), k) == if HasKey(d, k) then Some(f(Get(d, k))) else None
    ensures HasKey(MapValues(d, f), k) <==> HasKey(d, k)
  {
    var r := MapValues(d, f);
    assert Keys(r) == Keys(d);
    IndexOfSameKeys(r, d, k);
    IndexOfFacts(d, k);
    IndexOfFacts(r, k);
  }
}
