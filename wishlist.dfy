/** The wishlist page: merge every `wishlist_<id>` list of the signed-in user, one movie
  * per id, most recently merged id first; remove a movie from the page and from storage;
  * resolve a movie's poster URL. */
module Wishlist {

  import opened Base
  import opened Js
  import opened Storage
  import opened Records
  import opened HistoryMerge

  const WishlistPrefix := "wishlist_"

  /** The list the page shows after reading `keys`: the `Map` merge of every stored movie,
    * reversed. */
  function WishlistOf(entries: map<string, Stored<Movie>>, keys: seq<string>): seq<Movie> {
    Backwards(Dedup(Gather(entries, keys), MovieId))
  }

  lemma KeysOfBackwards(xs: seq<Movie>)
    ensures KeysOf(Backwards(xs), MovieId) == Backwards(KeysOf(xs, MovieId))
  {
  }

  lemma BackwardsNoDuplicates(ks: seq<JsValue>)
    requires NoDuplicates(ks)
    ensures NoDuplicates(Backwards(ks))
  {
    var r := Backwards(ks);
    forall i, j | 0 <= i < j < |r|
      ensures r[i] != r[j]
    {
      assert r[i] == ks[|ks| - 1 - i] && r[j] == ks[|ks| - 1 - j];
    }
  }

  /** One movie per id, every stored id shown, each movie the last stored version of its id,
    * and the ids in the reverse order of their first appearance in the merge. */
  lemma WishlistOfCorrect(entries: map<string, Stored<Movie>>, keys: seq<string>)
    ensures NoDuplicates(KeysOf(WishlistOf(entries, keys), MovieId))
    ensures KeysOf(WishlistOf(entries, keys), MovieId) ==
      Backwards(Distinct(KeysOf(Gather(entries, keys), MovieId)))
    ensures forall m :: m in Gather(entries, keys) ==> m.id in KeysOf(WishlistOf(entries, keys), MovieId)
    ensures forall m :: m in WishlistOf(entries, keys) ==>
      m.id in KeysOf(Gather(entries, keys), MovieId) &&
      m == LastWithKey(Gather(entries, keys), MovieId, m.id)
  {
    var all := Gather(entries, keys);
    var merged := Dedup(all, MovieId);
    DedupKeepsFirstPositionLastValue(all, MovieId);
    DedupHasDistinctKeys(all, MovieId);
    KeysOfBackwards(merged);
    BackwardsNoDuplicates(KeysOf(merged, MovieId));
    WishlistMembers(all);
  }

  lemma WishlistMembers(all: seq<Movie>)
    ensures forall m :: m in all ==> m.id in KeysOf(Backwards(Dedup(all, MovieId)), MovieId)
    ensures forall m :: m in Backwards(Dedup(all, MovieId)) ==>
      m.id in KeysOf(all, MovieId) && m == LastWithKey(all, MovieId, m.id)
  {
    forall m | m in all
      ensures m.id in KeysOf(Backwards(Dedup(all, MovieId)), MovieId)
    {
      StoredIdShown(all, m);
    }
    forall m | m in Backwards(Dedup(all, MovieId))
      ensures m.id in KeysOf(all, MovieId) && m == LastWithKey(all, MovieId, m.id)
    {
      ShownIsLastVersion(all, m);
    }
  }

  lemma StoredIdShown(all: seq<Movie>, m: Movie)
    requires m in all
    ensures m.id in KeysOf(Backwards(Dedup(all, MovieId)), MovieId)
  {
    var merged := Dedup(all, MovieId);
    DedupHasDistinctKeys(all, MovieId);
    var km := KeysOf(merged, MovieId);
    assert m.id in km;
    var i :| 0 <= i < |km| && km[i] == m.id;
    KeysOfBackwards(merged);
    assert Backwards(km)[|km| - 1 - i] == m.id;
  }

  lemma ShownIsLastVersion(all: seq<Movie>, m: Movie)
    requires m in Backwards(Dedup(all, MovieId))
    ensures m.id in KeysOf(all, MovieId) && m == LastWithKey(all, MovieId, m.id)
  {
    var merged := Dedup(all, MovieId);
    var shown := Backwards(merged);
    var i :| 0 <= i < |shown| && shown[i] == m;
    var j := |merged| - 1 - i;
    assert m == merged[j];
    DedupKeepsFirstPositionLastValue(all, MovieId);
    assert KeysOf(merged, MovieId)[j] == m.id;
    assert m.id in Distinct(KeysOf(all, MovieId));
  }

  /** `wishlist.filter(item => item.id !== movieId)`. */
  function KeepStrict(items: seq<Movie>, movieId: JsValue): seq<Movie> {
    Filter(items, (m: Movie) => m.id != movieId)
  }

  /** `parsed.filter(m => m.id != movieId)`: the stored copy drops every loosely equal id. */
  function KeepLoose(items: seq<Movie>, movieId: JsValue): seq<Movie> {
    Filter(items, (m: Movie) => !LooseEq(m.id, movieId))
  }

  /** The stored entries after the removal loop, and whether it ran to the end. */
  datatype PurgeResult = PurgeResult(entries: map<string, Stored<Movie>>, completed: bool)

  /** The storage side of `removeFromWishlist`, key by key: an absent or blank key is
    * skipped, an array is rewritten without the loosely matching movies, and any other
    * stored value makes `JSON.parse` or `.filter` throw, which ends the loop there. */
  function Purge(entries: map<string, Stored<Movie>>, keys: seq<string>, movieId: JsValue): PurgeResult
  {
    if keys == [] then PurgeResult(entries, true)
    else
      var k := keys[0];
      if k !in entries || entries[k].Blank? then Purge(entries, keys[1..], movieId)
      else if entries[k].ArrayOf? then
        Purge(entries[k := ArrayOf(KeepLoose(entries[k].items, movieId))], keys[1..], movieId)
      else PurgeResult(entries, false)
  }

  /** Every listed key that is present holds nothing left to remove. */
  predicate Clean(entries: map<string, Stored<Movie>>, keys: seq<string>, movieId: JsValue) {
    forall k :: k in keys && k in entries ==>
      entries[k].Blank? ||
      (entries[k].ArrayOf? && forall m :: m in entries[k].items ==> !LooseEq(m.id, movieId))
  }

  /** The removal creates no key, and a key it is not given keeps its value. */
  lemma {:induction false} PurgeFrame(entries: map<string, Stored<Movie>>, keys: seq<string>, movieId: JsValue)
    ensures Purge(entries, keys, movieId).entries.Keys == entries.Keys
    ensures forall k :: k in entries && k !in keys ==>
      Purge(entries, keys, movieId).entries[k] == entries[k]
  {
    if keys != [] {
      var k := keys[0];
      if k !in entries || entries[k].Blank? {
        PurgeFrame(entries, keys[1..], movieId);
      } else if entries[k].ArrayOf? {
        PurgeFrame(entries[k := ArrayOf(KeepLoose(entries[k].items, movieId))], keys[1..], movieId);
      }
    }
  }

  /** A removal that runs to the end leaves its keys clean; one that stops met a listed key
    * holding something other than an array. */
  lemma {:induction false} PurgeOutcome(entries: map<string, Stored<Movie>>, keys: seq<string>, movieId: JsValue)
    ensures Purge(entries, keys, movieId).completed ==> Clean(Purge(entries, keys, movieId).entries, keys, movieId)
    ensures !Purge(entries, keys, movieId).completed ==>
      exists k :: k in keys && k in entries && (entries[k].OtherJson? || entries[k].Unparseable?)
  {
    if keys != [] {
      var k := keys[0];
      var r := Purge(entries, keys, movieId);
      if k !in entries || entries[k].Blank? {
        PurgeOutcome(entries, keys[1..], movieId);
        PurgeFrame(entries, keys[1..], movieId);
        if !r.completed {
          var k' :| k' in keys[1..] && k' in entries && (entries[k'].OtherJson? || entries[k'].Unparseable?);
          assert k' in keys;
        }
      } else if entries[k].ArrayOf? {
        var next := entries[k := ArrayOf(KeepLoose(entries[k].items, movieId))];
        PurgeOutcome(next, keys[1..], movieId);
        PurgeFrame(next, keys[1..], movieId);
        if r.completed {
          forall k' | k' in keys && k' in r.entries
            ensures r.entries[k'].Blank? ||
              (r.entries[k'].ArrayOf? && forall m :: m in r.entries[k'].items ==> !LooseEq(m.id, movieId))
          {
            if k' !in keys[1..] {
              assert k' == k;
            }
          }
        } else {
          var k' :| k' in keys[1..] && k' in next && (next[k'].OtherJson? || next[k'].Unparseable?);
          assert k' != k && k' in keys;
        }
      }
    }
  }

  /** Removing from clean keys changes nothing. */
  lemma {:induction false} PurgeClean(entries: map<string, Stored<Movie>>, keys: seq<string>, movieId: JsValue)
    requires Clean(entries, keys, movieId)
    ensures Purge(entries, keys, movieId) == PurgeResult(entries, true)
  {
    if keys != [] {
      var k := keys[0];
      assert Clean(entries, keys[1..], movieId);
      if k in entries && entries[k].ArrayOf? {
        FilterIdempotent(entries[k].items, (m: Movie) => !LooseEq(m.id, movieId));
        assert entries[k := ArrayOf(KeepLoose(entries[k].items, movieId))] == entries;
      }
      PurgeClean(entries, keys[1..], movieId);
    }
  }

  /** Removing the same movie twice is removing it once. */
  lemma PurgeIdempotent(entries: map<string, Stored<Movie>>, keys: seq<string>, movieId: JsValue)
    requires Purge(entries, keys, movieId).completed
    ensures Purge(Purge(entries, keys, movieId).entries, keys, movieId) == Purge(entries, keys, movieId)
  {
    PurgeOutcome(entries, keys, movieId);
    PurgeClean(Purge(entries, keys, movieId).entries, keys, movieId);
  }

  /** The two filters disagree on a string id: removing the movie with numeric id 5 keeps
    * a movie whose id is the string "5" on the page but drops it from storage. */
  lemma StrictAndLooseDisagree(m: Movie)
    requires m.id == Str("5")
    ensures KeepStrict([m], Num(5)) == [m]
    ensures KeepLoose([m], Num(5)) == []
  {
    assert LooseEq(m.id, Num(5)) by {
      NumLooselyEqualsItsString(5);
    }
  }

  const PosterPlaceholder := "http" + "s://placehold.co/300x450?text=No+Poster"
  const PosterBase := "http" + "s://image.tmdb.org/t/p/w500"

  /** `movie.poster_path || movie.poster_url || movie.image || ""`. */
  function PosterPath(m: Movie): (p: string)
    ensures p == "" <==> m.posterPath == "" && m.posterUrl == "" && m.image == ""
    ensures p in {m.posterPath, m.posterUrl, m.image}
    ensures m.posterPath != "" ==> p == m.posterPath
    ensures m.posterPath == "" && m.posterUrl != "" ==> p == m.posterUrl
    ensures m.posterPath == "" && m.posterUrl == "" ==> p == m.image
  {
    if m.posterPath != "" then m.posterPath
    else if m.posterUrl != "" then m.posterUrl
    else m.image
  }

  /** `getPosterUrl`: the placeholder when the movie has no poster field, an absolute
    * `http` path unchanged, and any other path under the TMDB image base. */
  function PosterUrl(m: Movie): (url: string)
  {
    var path := PosterPath(m);
    if path == "" then PosterPlaceholder
    else if |path| >= 4 && path[..4] == "http" then path
    else PosterBase + path
  }

  /** The poster URL always starts with `http`, and it is the first non-empty poster field
    * itself exactly when that field already does. */
  lemma PosterUrlAbsolute(m: Movie)
    ensures |PosterUrl(m)| >= 4 && PosterUrl(m)[..4] == "http"
    ensures PosterPath(m) == "" ==> PosterUrl(m) == PosterPlaceholder
    ensures PosterPath(m) != "" ==>
      (PosterUrl(m) == PosterPath(m) <==> |PosterPath(m)| >= 4 && PosterPath(m)[..4] == "http")
    ensures PosterPath(m) != "" ==> PosterUrl(m)[|PosterUrl(m)| - |PosterPath(m)|..] == PosterPath(m)
    ensures PosterPath(m) != "" && !(|PosterPath(m)| >= 4 && PosterPath(m)[..4] == "http") ==>
      PosterUrl(m) == PosterBase + PosterPath(m)
  {
    var path := PosterPath(m);
    if path != "" && !(|path| >= 4 && path[..4] == "http") {
      var url := PosterBase + path;
      assert url[..4] == PosterBase[..4];
      assert url[|url| - |path|..] == path;
      assert |url| > |path|;
    }
  }

  /** Resolving an already resolved URL gives it back. */
  lemma PosterUrlIdempotent(m: Movie)
    ensures PosterUrl(m.(posterPath := PosterUrl(m))) == PosterUrl(m)
  {
    PosterUrlAbsolute(m);
  }

  class WishlistPage {
    var wishlist: seq<Movie>

    constructor ()
      ensures wishlist == []
    {
      wishlist := [];
    }

    /** `loadWishlistSmart`: with no user nothing is read and nothing changes; otherwise
      * the keys of the truthy ids are read once each and the merge is shown reversed. */
    method LoadWishlistSmart(user: Option<JsObject>, store: Store<Stored<Movie>>)
      returns (probed: seq<string>)
      modifies this
      ensures user.None? ==> probed == [] && wishlist == old(wishlist)
      ensures user.Some? ==>
        && probed == Distinct(KeysFor(WishlistPrefix, CandidateIds(user.value, LoadFields)))
        && wishlist == WishlistOf(store.items, probed)
    {
      probed := [];
      if user.None? {
        return;
      }
      var ids := CandidateIds(user.value, LoadFields);
      var all;
      all, probed := CollectStored(store, WishlistPrefix, ids);
      var unique := Dedup(all, MovieId);
      var movies := new Movie[|unique|](i requires 0 <= i < |unique| => unique[i]);
      assert movies[..] == unique;
      Reverse(movies);
      wishlist := movies[..];
    }

    /** `removeFromWishlist`: with no user nothing changes. Otherwise the page keeps the
      * movies whose id is strictly different from `movieId`, then the `wishlist_<id>` key
      * of each truthy `email`, `uid`, `id`, `username` is purged in turn; `completed` is
      * false when a stored value that is not an array stopped the loop. */
    method RemoveFromWishlist(user: Option<JsObject>, movieId: JsValue, store: Store<Stored<Movie>>)
      returns (completed: bool)
      modifies this, store
      ensures user.None? ==>
        completed && wishlist == old(wishlist) && store.items == old(store.items)
      ensures user.Some? ==>
        && wishlist == KeepStrict(old(wishlist), movieId)
        && var r := Purge(old(store.items), KeysFor(WishlistPrefix, CandidateIds(user.value, ClearFields)), movieId);
           store.items == r.entries && completed == r.completed
    {
      if user.None? {
        return true;
      }
      wishlist := KeepStrict(wishlist, movieId);
      var ids := CandidateIds(user.value, ClearFields);
      ghost var keys := KeysFor(WishlistPrefix, ids);
      var i := 0;
      while i < |ids|
        invariant 0 <= i <= |ids|
        invariant wishlist == KeepStrict(old(wishlist), movieId)
        invariant Purge(old(store.items), keys, movieId) == Purge(store.items, keys[i..], movieId)
      {
        var key := WishlistPrefix + ToStr(ids[i]);
        assert keys[i..][0] == key && keys[i..][1..] == keys[i + 1..];
        var stored := store.GetItem(key);
        if stored.Some? && !stored.value.Blank? {
          if !stored.value.ArrayOf? {
            return false;
          }
          store.SetItem(key, ArrayOf(KeepLoose(stored.value.items, movieId)));
        }
        i := i + 1;
      }
      return true;
    }
  }
}
