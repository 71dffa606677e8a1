/** The "smart" loading shared by the ticket history and the wishlist pages: probe one
  * storage key per candidate user id, concatenate every stored array, and collapse the
  * result through a JavaScript `Map` keyed by each record's `id`. */
module HistoryMerge {

  import opened Base
  import opened Js
  import opened Storage

  /** The user fields the loaders probe, in order. */
  const LoadFields: seq<string> := ["email", "uid", "id", "username", "userId"]

  /** The user fields whose keys the clearing and removal operations touch (no `userId`). */
  const ClearFields: seq<string> := ["email", "uid", "id", "username"]

  /** `[user.f1, user.f2, ...].filter(Boolean)`. */
  function CandidateIds(user: JsObject, fields: seq<string>): (ids: seq<JsValue>)
    ensures |ids| <= |fields|
    ensures forall v :: v in ids ==> Truthy(v)
    ensures forall v :: v in ids <==> exists f :: f in fields && Prop(user, f) == v && Truthy(v)
  {
    if fields == [] then []
    else
      var rest := CandidateIds(user, fields[..|fields| - 1]);
      var f := fields[|fields| - 1];
      assert fields == fields[..|fields| - 1] + [f];
      if Truthy(Prop(user, f)) then rest + [Prop(user, f)] else rest
  }

  /** The storage key of each id: `${prefix}${id}`. */
  function KeysFor(prefix: string, ids: seq<JsValue>): (keys: seq<string>)
    ensures |keys| == |ids|
    ensures forall i :: 0 <= i < |ids| ==> keys[i] == prefix + ToStr(ids[i])
  {
    seq(|ids|, i requires 0 <= i < |ids| => prefix + ToStr(ids[i]))
  }

  /** `ks` without repetitions, each element kept at its first occurrence. */
  function Distinct<K(==)>(ks: seq<K>): (d: seq<K>)
    ensures NoDuplicates(d)
    ensures |d| <= |ks|
    ensures forall i :: 0 <= i < |d| ==> d[i] in ks
    ensures forall i :: 0 <= i < |ks| ==> ks[i] in d
  {
    if ks == [] then []
    else
      var d := Distinct(ks[..|ks| - 1]);
      var k := ks[|ks| - 1];
      assert forall i :: 0 <= i < |ks| - 1 ==> ks[i] == ks[..|ks| - 1][i];
      if k in d then d else d + [k]
  }

  /** The index of the first occurrence of `k`. */
  function FirstIndex<K(==)>(ks: seq<K>, k: K): (i: nat)
    requires k in ks
    ensures i < |ks| && ks[i] == k
    ensures k !in ks[..i]
  {
    var init := ks[..|ks| - 1];
    if k in init then FirstIndex(init, k) else |ks| - 1
  }

  /** `Distinct` keeps the elements in the order of their first occurrences. */
  lemma {:induction false} DistinctKeepsFirstOccurrenceOrder<K>(ks: seq<K>)
    ensures forall i, j :: 0 <= i < j < |Distinct(ks)| ==>
      FirstIndex(ks, Distinct(ks)[i]) < FirstIndex(ks, Distinct(ks)[j])
  {
    if ks != [] {
      var init, k := ks[..|ks| - 1], ks[|ks| - 1];
      DistinctKeepsFirstOccurrenceOrder(init);
      var d0 := Distinct(init);
      var d := Distinct(ks);
      forall x | x in d0
        ensures FirstIndex(ks, x) == FirstIndex(init, x)
      {
        assert x in init;
      }
      if k !in d0 {
        assert d == d0 + [k];
        assert k !in init;
        forall i, j | 0 <= i < j < |d|
          ensures FirstIndex(ks, d[i]) < FirstIndex(ks, d[j])
        {
          assert d[i] == d0[i];
          if j < |d0| {
            assert d[j] == d0[j];
          }
        }
      }
    }
  }

  /** What one key contributes to the merge: its array, or nothing when the key is absent,
    * blank, not an array, or not parseable. */
  function Contribution<T>(entries: map<string, Stored<T>>, key: string): seq<T> {
    if key in entries && entries[key].ArrayOf? then entries[key].items else []
  }

  /** The concatenation of the contributions of `keys`, in order. */
  function Gather<T>(entries: map<string, Stored<T>>, keys: seq<string>): seq<T> {
    if keys == [] then []
    else Gather(entries, keys[..|keys| - 1]) + Contribution(entries, keys[|keys| - 1])
  }

  lemma KeysForStep(prefix: string, ids: seq<JsValue>, i: nat)
    requires i < |ids|
    ensures KeysFor(prefix, ids[..i + 1]) == KeysFor(prefix, ids[..i]) + [prefix + ToStr(ids[i])]
  {
  }

  lemma DistinctStep<K>(ks: seq<K>, k: K)
    ensures Distinct(ks + [k]) == if k in Distinct(ks) then Distinct(ks) else Distinct(ks) + [k]
  {
    assert (ks + [k])[..|ks|] == ks;
  }

  lemma GatherStep<T>(entries: map<string, Stored<T>>, keys: seq<string>, key: string)
    ensures Gather(entries, keys + [key]) == Gather(entries, keys) + Contribution(entries, key)
  {
    assert (keys + [key])[..|keys|] == keys;
  }

  /** One probe of the loop: reading the next id's key extends the keys read by that key
    * unless it was read before, and the records found by its contribution. */
  lemma ProbeStep<T>(entries: map<string, Stored<T>>, prefix: string, ids: seq<JsValue>, i: nat, probed: seq<string>)
    requires i < |ids|
    requires probed == Distinct(KeysFor(prefix, ids[..i]))
    ensures var key := prefix + ToStr(ids[i]);
      && Distinct(KeysFor(prefix, ids[..i + 1])) == (if key in probed then probed else probed + [key])
      && Gather(entries, probed + [key]) == Gather(entries, probed) + Contribution(entries, key)
  {
    var key := prefix + ToStr(ids[i]);
    KeysForStep(prefix, ids, i);
    DistinctStep(KeysFor(prefix, ids[..i]), key);
    GatherStep(entries, probed, key);
  }

  /** The probing loop of both loaders: read `${prefix}${id}` for each id, skipping a key
    * already read, and append every array found. Returns the merged records and the keys
    * read, in the order they were read. */
  method CollectStored<T>(store: Store<Stored<T>>, prefix: string, ids: seq<JsValue>)
    returns (found: seq<T>, probed: seq<string>)
    ensures probed == Distinct(KeysFor(prefix, ids))
    ensures found == Gather(store.items, probed)
  {
    found, probed := [], [];
    var checkedKeys: set<string> := {};
    var i := 0;
    while i < |ids|
      invariant 0 <= i <= |ids|
      invariant probed == Distinct(KeysFor(prefix, ids[..i]))
      invariant forall k :: k in checkedKeys <==> k in probed
      invariant found == Gather(store.items, probed)
    {
      var key := prefix + ToStr(ids[i]);
      ProbeStep(store.items, prefix, ids, i, probed);
      if key !in checkedKeys {
        checkedKeys := checkedKeys + {key};
        var stored := store.GetItem(key);
        probed := probed + [key];
        assert Contribution(store.items, key) ==
          if stored.Some? && stored.value.ArrayOf? then stored.value.items else [];
        if stored.Some? && stored.value.ArrayOf? {
          found := found + stored.value.items;
        }
      }
      i := i + 1;
    }
    assert ids[..i] == ids;
  }

  /** The key of each record, in order. */
  function KeysOf<T, K>(xs: seq<T>, key: T -> K): (ks: seq<K>)
    ensures |ks| == |xs|
    ensures forall i :: 0 <= i < |xs| ==> ks[i] == key(xs[i])
  {
    seq(|xs|, i requires 0 <= i < |xs| => key(xs[i]))
  }

  /** The position of the entry with key `k`, if any. */
  function IndexOfKey<T, K(==)>(acc: seq<T>, k: K, key: T -> K): (r: Option<nat>)
    ensures r.Some? ==> r.value < |acc| && key(acc[r.value]) == k
    ensures r.None? ==> forall i :: 0 <= i < |acc| ==> key(acc[i]) != k
  {
    if acc == [] then None
    else if key(acc[|acc| - 1]) == k then Some(|acc| - 1)
    else IndexOfKey(acc[..|acc| - 1], k, key)
  }

  /** `map.set(key(x), x)` on a `Map` whose values, in insertion order, are `acc`: an existing
    * key keeps its position and takes the new value; a new key goes last. */
  function MapSet<T, K(==)>(acc: seq<T>, x: T, key: T -> K): seq<T> {
    match IndexOfKey(acc, key(x), key)
    case Some(i) => acc[i := x]
    case None => acc + [x]
  }

  /** `Array.from(new Map(xs.map(x => [key(x), x])).values())`. */
  function Dedup<T, K(==)>(xs: seq<T>, key: T -> K): seq<T> {
    if xs == [] then [] else MapSet(Dedup(xs[..|xs| - 1], key), xs[|xs| - 1], key)
  }

  /** The last record of `xs` with key `k`. */
  function LastWithKey<T, K(==)>(xs: seq<T>, key: T -> K, k: K): (r: T)
    requires k in KeysOf(xs, key)
    ensures key(r) == k && r in xs
  {
    var init := xs[..|xs| - 1];
    if key(xs[|xs| - 1]) == k then xs[|xs| - 1]
    else
      assert KeysOf(init, key) == KeysOf(xs, key)[..|xs| - 1];
      LastWithKey(init, key, k)
  }

  /** What the `Map` round trip keeps: one record per key, the keys in the order of their
    * first occurrence, each with the value of its last occurrence. */
  lemma {:induction false} DedupKeepsFirstPositionLastValue<T, K(!new)>(xs: seq<T>, key: T -> K)
    ensures KeysOf(Dedup(xs, key), key) == Distinct(KeysOf(xs, key))
    ensures forall i :: 0 <= i < |Dedup(xs, key)| ==>
      Dedup(xs, key)[i] == LastWithKey(xs, key, key(Dedup(xs, key)[i]))
  {
    if xs != [] {
      var init, x := xs[..|xs| - 1], xs[|xs| - 1];
      DedupKeepsFirstPositionLastValue(init, key);
      var acc := Dedup(init, key);
      var ks0 := KeysOf(init, key);
      var ks := KeysOf(xs, key);
      assert ks == ks0 + [key(x)];
      assert ks[..|ks| - 1] == ks0;
      var d0 := Distinct(ks0);
      assert KeysOf(acc, key) == d0;
      var r := Dedup(xs, key);
      match IndexOfKey(acc, key(x), key)
      case Some(j) =>
        assert r == acc[j := x];
        assert key(x) in d0;
        assert KeysOf(r, key) == KeysOf(acc, key);
        forall i | 0 <= i < |r|
          ensures r[i] == LastWithKey(xs, key, key(r[i]))
        {
          if i != j {
            assert key(r[i]) == d0[i] != d0[j] == key(x);
          }
        }
      case None =>
        assert r == acc + [x];
        assert key(x) !in d0;
        assert KeysOf(r, key) == d0 + [key(x)];
        forall i | 0 <= i < |r|
          ensures r[i] == LastWithKey(xs, key, key(r[i]))
        {
          if i < |acc| {
            assert key(r[i]) == d0[i] != key(x);
          }
        }
    }
  }

  /** No two records of the merged list share an id. */
  lemma DedupHasDistinctKeys<T, K(!new)>(xs: seq<T>, key: T -> K)
    ensures NoDuplicates(KeysOf(Dedup(xs, key), key))
    ensures forall x :: x in xs ==> key(x) in KeysOf(Dedup(xs, key), key)
  {
    DedupKeepsFirstPositionLastValue(xs, key);
    forall x | x in xs
      ensures key(x) in KeysOf(Dedup(xs, key), key)
    {
      var i :| 0 <= i < |xs| && xs[i] == x;
      assert KeysOf(xs, key)[i] == key(x);
    }
  }
}
