/** The ticket history page: merge every `tickets_<id>` list of the signed-in user, one
  * record per ticket id, newest booking first; and clear those lists on request. */
module MyTickets {

  import opened Base
  import opened Js
  import opened Storage
  import opened Records
  import opened HistoryMerge

  const TicketPrefix := "tickets_"

  /** Newest booking first: no ticket is followed by a later booking. */
  predicate NewestFirst(ts: seq<Ticket>) {
    forall i, j :: 0 <= i < j < |ts| ==> ts[i].bookingDate >= ts[j].bookingDate
  }

  /** The tickets booked at instant `d`, in order. */
  function BookedAt(ts: seq<Ticket>, d: int): seq<Ticket> {
    if ts == [] then []
    else (if ts[0].bookingDate == d then [ts[0]] else []) + BookedAt(ts[1..], d)
  }

  /** Puts `t` ahead of the first ticket booked no later than it. */
  function InsertNewestFirst(t: Ticket, sorted: seq<Ticket>): seq<Ticket> {
    if sorted == [] then [t]
    else if sorted[0].bookingDate <= t.bookingDate then [t] + sorted
    else [sorted[0]] + InsertNewestFirst(t, sorted[1..])
  }

  /** `tickets.sort((a, b) => b.booking_date - a.booking_date)`, a stable sort. */
  function SortNewestFirst(ts: seq<Ticket>): seq<Ticket> {
    if ts == [] then [] else InsertNewestFirst(ts[0], SortNewestFirst(ts[1..]))
  }

  lemma {:induction false} InsertNewestFirstPermutes(t: Ticket, s: seq<Ticket>)
    ensures multiset(InsertNewestFirst(t, s)) == multiset(s) + multiset{t}
  {
    if s != [] && s[0].bookingDate > t.bookingDate {
      InsertNewestFirstPermutes(t, s[1..]);
      assert s == [s[0]] + s[1..];
    }
  }

  /** Inserting keeps every booking time at most `b` when it already was. */
  lemma {:induction false} InsertNewestFirstBounded(t: Ticket, s: seq<Ticket>, b: int)
    requires t.bookingDate <= b
    requires forall u :: u in s ==> u.bookingDate <= b
    ensures forall u :: u in InsertNewestFirst(t, s) ==> u.bookingDate <= b
  {
    if s != [] && s[0].bookingDate > t.bookingDate {
      InsertNewestFirstBounded(t, s[1..], b);
    }
  }

  /** A ticket no older than the newest one goes in front of a sorted list, keeping it sorted. */
  lemma ConsNewestFirst(t: Ticket, s: seq<Ticket>)
    requires NewestFirst(s)
    requires forall u :: u in s ==> u.bookingDate <= t.bookingDate
    ensures NewestFirst([t] + s)
  {
    var r := [t] + s;
    forall i, j | 0 <= i < j < |r|
      ensures r[i].bookingDate >= r[j].bookingDate
    {
      assert r[j] == s[j - 1] && r[j] in s;
      if i > 0 {
        assert r[i] == s[i - 1];
      }
    }
  }

  /** The tail of a sorted list is sorted and no newer than its head. */
  lemma NewestFirstTail(s: seq<Ticket>)
    requires s != [] && NewestFirst(s)
    ensures NewestFirst(s[1..])
    ensures forall u :: u in s[1..] ==> u.bookingDate <= s[0].bookingDate
  {
    forall i, j | 0 <= i < j < |s[1..]|
      ensures s[1..][i].bookingDate >= s[1..][j].bookingDate
    {
      assert s[1..][i] == s[i + 1] && s[1..][j] == s[j + 1];
    }
    forall u | u in s[1..] ensures u.bookingDate <= s[0].bookingDate {
      var k :| 0 <= k < |s[1..]| && s[1..][k] == u;
      assert s[1..][k] == s[k + 1];
    }
  }

  lemma {:induction false} InsertNewestFirstSorted(t: Ticket, s: seq<Ticket>)
    requires NewestFirst(s)
    ensures NewestFirst(InsertNewestFirst(t, s))
  {
    if s == [] {
      assert InsertNewestFirst(t, s) == [t];
    } else if s[0].bookingDate <= t.bookingDate {
      NewestFirstTail(s);
      ConsNewestFirst(t, s);
    } else {
      NewestFirstTail(s);
      InsertNewestFirstSorted(t, s[1..]);
      InsertNewestFirstBounded(t, s[1..], s[0].bookingDate);
      ConsNewestFirst(s[0], InsertNewestFirst(t, s[1..]));
    }
  }

  /** The tickets booked at `d` in a list with a head: the head if it was, then the rest's. */
  lemma BookedAtCons(x: Ticket, xs: seq<Ticket>, d: int)
    ensures BookedAt([x] + xs, d) == (if x.bookingDate == d then [x] else []) + BookedAt(xs, d)
  {
    assert ([x] + xs)[1..] == xs;
  }

  lemma {:induction false} InsertNewestFirstStable(t: Ticket, s: seq<Ticket>, d: int)
    ensures BookedAt(InsertNewestFirst(t, s), d) ==
      (if t.bookingDate == d then [t] else []) + BookedAt(s, d)
  {
    if s == [] {
      BookedAtCons(t, [], d);
    } else if s[0].bookingDate <= t.bookingDate {
      BookedAtCons(t, s, d);
    } else {
      var tail := s[1..];
      assert s == [s[0]] + tail;
      InsertNewestFirstStable(t, tail, d);
      BookedAtCons(s[0], InsertNewestFirst(t, tail), d);
      BookedAtCons(s[0], tail, d);
      var mine := if t.bookingDate == d then [t] else [];
      var head := if s[0].bookingDate == d then [s[0]] else [];
      assert mine == [] || head == [];
      assert head + (mine + BookedAt(tail, d)) == mine + (head + BookedAt(tail, d));
    }
  }

  /** The history order: newest first, the same tickets, and tickets booked at the same
    * instant keep the order they had (the sort is stable). */
  lemma {:induction false} SortNewestFirstCorrect(ts: seq<Ticket>)
    ensures NewestFirst(SortNewestFirst(ts))
    ensures multiset(SortNewestFirst(ts)) == multiset(ts)
    ensures forall d :: BookedAt(SortNewestFirst(ts), d) == BookedAt(ts, d)
  {
    if ts != [] {
      var rest := SortNewestFirst(ts[1..]);
      SortNewestFirstCorrect(ts[1..]);
      InsertNewestFirstSorted(ts[0], rest);
      InsertNewestFirstPermutes(ts[0], rest);
      assert ts == [ts[0]] + ts[1..];
      forall d
        ensures BookedAt(SortNewestFirst(ts), d) == BookedAt(ts, d)
      {
        InsertNewestFirstStable(ts[0], rest, d);
      }
    }
  }

  /** No two tickets share an id. */
  predicate UniqueIds(ts: seq<Ticket>) {
    forall i, j :: 0 <= i < j < |ts| ==> ts[i].id != ts[j].id
  }

  lemma {:induction false} InsertNewestFirstKeepsUniqueIds(t: Ticket, s: seq<Ticket>)
    requires UniqueIds(s)
    requires forall u :: u in s ==> u.id != t.id
    ensures UniqueIds(InsertNewestFirst(t, s))
  {
    var r := InsertNewestFirst(t, s);
    if s == [] {
    } else if s[0].bookingDate <= t.bookingDate {
      forall i, j | 0 <= i < j < |r|
        ensures r[i].id != r[j].id
      {
        assert r[j] == s[j - 1];
        if i > 0 {
          assert r[i] == s[i - 1];
        }
      }
    } else {
      var rest := InsertNewestFirst(t, s[1..]);
      assert UniqueIds(s[1..]) by {
        forall i, j | 0 <= i < j < |s[1..]|
          ensures s[1..][i].id != s[1..][j].id
        {
          assert s[1..][i] == s[i + 1] && s[1..][j] == s[j + 1];
        }
      }
      InsertNewestFirstKeepsUniqueIds(t, s[1..]);
      InsertNewestFirstPermutes(t, s[1..]);
      assert r == [s[0]] + rest;
      forall i, j | 0 <= i < j < |r|
        ensures r[i].id != r[j].id
      {
        assert r[j] == rest[j - 1];
        if i == 0 {
          assert rest[j - 1] in multiset(rest);
          if rest[j - 1] != t {
            assert rest[j - 1] in multiset(s[1..]);
            var k :| 0 <= k < |s[1..]| && s[1..][k] == rest[j - 1];
            assert s[1..][k] == s[k + 1];
          }
        } else {
          assert r[i] == rest[i - 1];
        }
      }
    }
  }

  /** Sorting keeps the ids unique. */
  lemma {:induction false} SortNewestFirstKeepsUniqueIds(ts: seq<Ticket>)
    requires UniqueIds(ts)
    ensures UniqueIds(SortNewestFirst(ts))
  {
    if ts != [] {
      var rest := SortNewestFirst(ts[1..]);
      assert UniqueIds(ts[1..]) by {
        forall i, j | 0 <= i < j < |ts[1..]|
          ensures ts[1..][i].id != ts[1..][j].id
        {
          assert ts[1..][i] == ts[i + 1] && ts[1..][j] == ts[j + 1];
        }
      }
      SortNewestFirstKeepsUniqueIds(ts[1..]);
      SortNewestFirstCorrect(ts[1..]);
      forall u | u in rest
        ensures u.id != ts[0].id
      {
        assert u in multiset(ts[1..]);
        var k :| 0 <= k < |ts[1..]| && ts[1..][k] == u;
        assert ts[1..][k] == ts[k + 1];
      }
      InsertNewestFirstKeepsUniqueIds(ts[0], rest);
    }
  }

  /** The list the page shows after reading `keys`: merged, one per id, newest first. */
  function TicketHistory(entries: map<string, Stored<Ticket>>, keys: seq<string>): seq<Ticket> {
    SortNewestFirst(Dedup(Gather(entries, keys), TicketId))
  }

  /** The merged tickets, before sorting, hold one ticket per id. */
  lemma MergedUniqueIds(all: seq<Ticket>)
    ensures UniqueIds(Dedup(all, TicketId))
  {
    var merged := Dedup(all, TicketId);
    DedupHasDistinctKeys(all, TicketId);
    var km := KeysOf(merged, TicketId);
    forall i, j | 0 <= i < j < |merged|
      ensures merged[i].id != merged[j].id
    {
      assert km[i] == merged[i].id && km[j] == merged[j].id;
    }
  }

  /** Every stored ticket's id is among the merged tickets. */
  lemma MergedCoversIds(all: seq<Ticket>)
    ensures forall t :: t in all ==> exists u :: u in Dedup(all, TicketId) && u.id == t.id
  {
    var merged := Dedup(all, TicketId);
    DedupHasDistinctKeys(all, TicketId);
    var km := KeysOf(merged, TicketId);
    forall t | t in all
      ensures exists u :: u in merged && u.id == t.id
    {
      var i :| 0 <= i < |merged| && km[i] == t.id;
      assert merged[i].id == t.id;
    }
  }

  /** Each merged ticket is the last stored version of its id. */
  lemma MergedLastVersions(all: seq<Ticket>)
    ensures forall t :: t in Dedup(all, TicketId) ==>
      t.id in KeysOf(all, TicketId) && t == LastWithKey(all, TicketId, t.id)
  {
    var merged := Dedup(all, TicketId);
    DedupKeepsFirstPositionLastValue(all, TicketId);
    var km := KeysOf(merged, TicketId);
    forall t | t in merged
      ensures t.id in KeysOf(all, TicketId) && t == LastWithKey(all, TicketId, t.id)
    {
      var i :| 0 <= i < |merged| && merged[i] == t;
      assert km[i] == t.id;
      assert t.id in Distinct(KeysOf(all, TicketId));
    }
  }

  /** The shown history holds one ticket per id, every stored id appears, each ticket is the
    * last stored version of its id, and the list is ordered newest first. */
  lemma TicketHistoryCorrect(entries: map<string, Stored<Ticket>>, keys: seq<string>)
    ensures NewestFirst(TicketHistory(entries, keys))
    ensures UniqueIds(TicketHistory(entries, keys))
    ensures forall t :: t in Gather(entries, keys) ==>
      exists u :: u in TicketHistory(entries, keys) && u.id == t.id
    ensures forall t :: t in TicketHistory(entries, keys) ==>
      t.id in KeysOf(Gather(entries, keys), TicketId) &&
      t == LastWithKey(Gather(entries, keys), TicketId, t.id)
  {
    var all := Gather(entries, keys);
    var merged := Dedup(all, TicketId);
    var shown := SortNewestFirst(merged);
    SortNewestFirstCorrect(merged);
    MergedUniqueIds(all);
    MergedCoversIds(all);
    MergedLastVersions(all);
    SortNewestFirstKeepsUniqueIds(merged);
    forall t | t in shown
      ensures t in merged
    {
      assert t in multiset(merged);
    }
    forall t | t in all
      ensures exists u :: u in shown && u.id == t.id
    {
      var u :| u in merged && u.id == t.id;
      assert u in multiset(shown);
    }
  }

  /** The keys `clearHistory` removes for `user`. */
  function ClearedKeys(user: JsObject): seq<string> {
    KeysFor(TicketPrefix, CandidateIds(user, ClearFields))
  }

  class TicketsPage {
    var tickets: seq<Ticket>

    constructor ()
      ensures tickets == []
    {
      tickets := [];
    }

    /** `loadTicketsSmart`: with no user nothing is read and nothing changes; otherwise
      * the keys of the truthy ids are read once each and the page shows their history. */
    method LoadTicketsSmart(user: Option<JsObject>, store: Store<Stored<Ticket>>)
      returns (probed: seq<string>)
      modifies this
      ensures user.None? ==> probed == [] && tickets == old(tickets)
      ensures user.Some? ==>
        && probed == Distinct(KeysFor(TicketPrefix, CandidateIds(user.value, LoadFields)))
        && tickets == TicketHistory(store.items, probed)
    {
      probed := [];
      if user.None? {
        return;
      }
      var ids := CandidateIds(user.value, LoadFields);
      var all;
      all, probed := CollectStored(store, TicketPrefix, ids);
      var unique := Dedup(all, TicketId);
      tickets := SortNewestFirst(unique);
    }

    /** `clearHistory`: after confirmation, removes `tickets_<id>` for the truthy `email`,
      * `uid`, `id` and `username` (not `userId`) and empties the list; other keys stay. */
    method ClearHistory(user: Option<JsObject>, confirmed: bool, store: Store<Stored<Ticket>>)
      modifies this, store
      ensures user.None? || !confirmed ==> tickets == old(tickets) && store.items == old(store.items)
      ensures user.Some? && confirmed ==>
        && tickets == []
        && store.items == old(store.items) - (set k | k in ClearedKeys(user.value))
    {
      if user.None? || !confirmed {
        return;
      }
      var ids := CandidateIds(user.value, ClearFields);
      var keys := KeysFor(TicketPrefix, ids);
      var i := 0;
      while i < |ids|
        invariant 0 <= i <= |ids|
        invariant store.items == old(store.items) - (set k | k in keys[..i])
      {
        store.RemoveItem(TicketPrefix + ToStr(ids[i]));
        assert keys[..i + 1] == keys[..i] + [keys[i]];
        i := i + 1;
      }
      assert keys[..i] == keys;
      tickets := [];
    }
  }

  /** Clearing leaves the `userId` list in place unless another cleared id names the same key. */
  lemma ClearKeepsUserIdList(user: JsObject)
    requires Truthy(Prop(user, "userId"))
    requires forall f :: f in ClearFields ==> ToStr(Prop(user, f)) != ToStr(Prop(user, "userId"))
    ensures TicketPrefix + ToStr(Prop(user, "userId")) !in ClearedKeys(user)
  {
    var keys := ClearedKeys(user);
    var ids := CandidateIds(user, ClearFields);
    forall i | 0 <= i < |keys|
      ensures keys[i] != TicketPrefix + ToStr(Prop(user, "userId"))
    {
      assert ids[i] in ids;
      var f :| f in ClearFields && Prop(user, f) == ids[i];
      assert ToStr(ids[i]) != ToStr(Prop(user, "userId"));
      assert keys[i] == TicketPrefix + ToStr(ids[i]);
      assert keys[i][|TicketPrefix|..] == ToStr(ids[i]);
    }
  }
}
