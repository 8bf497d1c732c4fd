/** A JavaScript `Map<string, number>` as the engine uses it: an association
    list in insertion order.  `set` on a present key replaces its value where
    it stands; on a new key it appends.  `get(k) || 0` is Get. */
module Assoc {

  type Table = seq<(string, real)>

  /** The keys in insertion order, as `Array.from(map.keys())`. */
  function Keys(t: Table): (r: seq<string>)
    ensures |r| == |t|
    ensures forall i :: 0 <= i < |t| ==> r[i] == t[i].0
  {
    if t == [] then [] else [t[0].0] + Keys(t[1..])
  }

  /** `map.has(k)`. */
  predicate Has(t: Table, k: string) {
    t != [] && (t[0].0 == k || Has(t[1..], k))
  }

  /** `map.get(k) || 0`: the value stored under `k`, or 0 when `k` is absent. */
  function Get(t: Table, k: string): real {
    if t == [] then 0.0 else if t[0].0 == k then t[0].1 else Get(t[1..], k)
  }

  /** Has agrees with the key list. */
  lemma {:induction false} HasIsInKeys(t: Table, k: string)
    ensures Has(t, k) <==> k in Keys(t)
  {
    if t != [] {
      HasIsInKeys(t[1..], k);
      assert Keys(t) == [t[0].0] + Keys(t[1..]);
    }
  }

  /** An absent key reads as 0. */
  lemma {:induction false} GetAbsent(t: Table, k: string)
    requires !Has(t, k)
    ensures Get(t, k) == 0.0
  {
    if t != [] {
      GetAbsent(t[1..], k);
    }
  }

  /** A present key's value is stored beside it. */
  lemma {:induction false} GetIsStored(t: Table, k: string)
    requires Has(t, k)
    ensures (k, Get(t, k)) in t
  {
    if t[0].0 != k {
      GetIsStored(t[1..], k);
    }
  }

  /** `map.set(k, v)`. */
  function Set(t: Table, k: string, v: real): Table
  {
    if t == [] then [(k, v)]
    else if t[0].0 == k then [(k, v)] + t[1..]
    else [t[0]] + Set(t[1..], k, v)
  }

  /** After `set(k, v)`, `k` reads `v` and every other key reads as before. */
  lemma {:induction false} SetGet(t: Table, k: string, v: real, j: string)
    ensures Get(Set(t, k, v), j) == if j == k then v else Get(t, j)
  {
    if t != [] && t[0].0 != k {
      SetGet(t[1..], k, v, j);
      assert Set(t, k, v)[1..] == Set(t[1..], k, v);
    }
  }

  /** `set(k, v)` adds `k` and removes nothing. */
  lemma {:induction false} SetHas(t: Table, k: string, v: real, j: string)
    ensures Has(Set(t, k, v), j) <==> Has(t, j) || j == k
  {
    if t != [] && t[0].0 != k {
      SetHas(t[1..], k, v, j);
      assert Set(t, k, v)[1..] == Set(t[1..], k, v);
    }
  }

  /** `set` keeps the insertion order: an existing key keeps its place, a new
      key goes last. */
  lemma {:induction false} SetKeys(t: Table, k: string, v: real)
    ensures Keys(Set(t, k, v)) == if Has(t, k) then Keys(t) else Keys(t) + [k]
  {
    if t != [] && t[0].0 != k {
      SetKeys(t[1..], k, v);
      assert Keys(t) == [t[0].0] + Keys(t[1..]);
      assert Set(t, k, v)[1..] == Set(t[1..], k, v);
      assert Keys(Set(t, k, v)) == [t[0].0] + Keys(Set(t[1..], k, v));
    }
  }

  /** No key occurs twice: every table the engine builds with Set has this. */
  ghost predicate DistinctKeys(t: Table) {
    forall i, j :: 0 <= i < j < |t| ==> t[i].0 != t[j].0
  }

  lemma SetKeepsKeysDistinct(t: Table, k: string, v: real)
    requires DistinctKeys(t)
    ensures DistinctKeys(Set(t, k, v))
  {
    var r := Set(t, k, v);
    SetKeys(t, k, v);
    HasIsInKeys(t, k);
    forall i, j | 0 <= i < j < |r| ensures r[i].0 != r[j].0 {
      assert Keys(r)[i] == r[i].0 && Keys(r)[j] == r[j].0;
      if j < |t| {
        assert Keys(t)[i] == t[i].0 && Keys(t)[j] == t[j].0;
      } else {
        assert Keys(t)[i] == t[i].0;
      }
    }
  }

  /** In a table without repeated keys, the value Get finds for a key is
      the one stored beside it. */
  lemma GetOfEntry(t: Table, i: nat)
    requires DistinctKeys(t) && i < |t|
    ensures Get(t, t[i].0) == t[i].1
  {
    if i > 0 {
      GetOfEntry(t[1..], i - 1);
    }
  }

  /** `map.set(k, (map.get(k) || 0) + w)`. */
  function Add(t: Table, k: string, w: real): Table {
    Set(t, k, Get(t, k) + w)
  }

  /** Adds `w` under every key of `keys` in turn, as a `keys.forEach` whose
      body is Add. */
  function AddAll(t: Table, keys: seq<string>, w: real): Table {
    if keys == [] then t
    else Add(AddAll(t, keys[..|keys| - 1], w), keys[|keys| - 1], w)
  }

  /** `w` once for every occurrence of `k` in `keys`. */
  function PerOccurrence(keys: seq<string>, k: string, w: real): real {
    if keys == [] then 0.0
    else PerOccurrence(keys[..|keys| - 1], k, w) + (if keys[|keys| - 1] == k then w else 0.0)
  }

  /** Adding `w` once per occurrence: a key listed twice receives `w` twice. */
  lemma {:induction false} AddAllGet(t: Table, keys: seq<string>, w: real, k: string)
    ensures Get(AddAll(t, keys, w), k) == Get(t, k) + PerOccurrence(keys, k, w)
  {
    if keys != [] {
      var n := |keys| - 1;
      var prev := AddAll(t, keys[..n], w);
      AddAllGet(t, keys[..n], w, k);
      SetGet(prev, keys[n], Get(prev, keys[n]) + w, k);
    }
  }

  /** The keys present after AddAll are those present before, plus `keys`. */
  lemma {:induction false} AddAllHas(t: Table, keys: seq<string>, w: real, k: string)
    ensures Has(AddAll(t, keys, w), k) <==> Has(t, k) || k in keys
  {
    if keys != [] {
      var n := |keys| - 1;
      var prev := AddAll(t, keys[..n], w);
      AddAllHas(t, keys[..n], w, k);
      SetHas(prev, keys[n], Get(prev, keys[n]) + w, k);
      assert k in keys <==> k in keys[..n] || k == keys[n] by {
        assert keys == keys[..n] + [keys[n]];
      }
    }
  }

  lemma {:induction false} AddAllKeepsKeysDistinct(t: Table, keys: seq<string>, w: real)
    requires DistinctKeys(t)
    ensures DistinctKeys(AddAll(t, keys, w))
  {
    if keys != [] {
      var n := |keys| - 1;
      AddAllKeepsKeysDistinct(t, keys[..n], w);
      assert AddAll(t, keys, w) == Set(AddAll(t, keys[..n], w), keys[n], Get(AddAll(t, keys[..n], w), keys[n]) + w);
      SetKeepsKeysDistinct(AddAll(t, keys[..n], w), keys[n], Get(AddAll(t, keys[..n], w), keys[n]) + w);
    }
  }

  /** The sum of `get(k) || 0` over `keys`, one term per listed key. */
  function SumOver(t: Table, keys: seq<string>): real {
    if keys == [] then 0.0
    else SumOver(t, keys[..|keys| - 1]) + Get(t, keys[|keys| - 1])
  }
}
