/** The seat selection of the booking page: a list of seat numbers in the order they were
  * picked, capped at `maxSeats`, where picking a selected seat again unselects it; and the
  * comma-joined form in which the selection is sent to the payment endpoint. */
module Selection {

  import opened Base
  import opened Text

  /** No seat twice, and no more than `maxSeats` seats (a cap below one admits only the
    * empty selection). */
  predicate ValidSelection(sel: seq<string>, maxSeats: int) {
    NoDuplicates(sel) && (sel == [] || |sel| <= maxSeats)
  }

  /** The selection `toggleSeat(seat)` leaves behind. */
  function Toggled(sel: seq<string>, seat: string, maxSeats: int): seq<string> {
    if seat in sel then Without(sel, seat)
    else if |sel| >= maxSeats then sel
    else sel + [seat]
  }

  /** Whether `toggleSeat(seat)` raises the "maximum seats" alert. */
  predicate CapReached(sel: seq<string>, seat: string, maxSeats: int) {
    seat !in sel && |sel| >= maxSeats
  }

  /** Toggling keeps a selection valid. */
  lemma ToggledValid(sel: seq<string>, seat: string, maxSeats: int)
    requires ValidSelection(sel, maxSeats)
    ensures ValidSelection(Toggled(sel, seat, maxSeats), maxSeats)
  {
    if seat in sel {
      WithoutShortens(sel, seat);
    }
  }

  /** What toggling does to membership: the toggled seat flips, unless the cap stops it
    * from being added, and every other seat keeps its status. The size moves by one,
    * except when the cap alert fires, which changes nothing. */
  lemma ToggledMembership(sel: seq<string>, seat: string, maxSeats: int)
    requires NoDuplicates(sel)
    ensures seat in Toggled(sel, seat, maxSeats) <==> seat !in sel && |sel| < maxSeats
    ensures forall s :: s != seat ==> (s in Toggled(sel, seat, maxSeats) <==> s in sel)
    ensures seat in sel ==> |Toggled(sel, seat, maxSeats)| == |sel| - 1
    ensures !CapReached(sel, seat, maxSeats) && seat !in sel ==>
      && |Toggled(sel, seat, maxSeats)| == |sel| + 1
      && Toggled(sel, seat, maxSeats)[..|sel|] == sel
      && Toggled(sel, seat, maxSeats)[|sel|] == seat
    ensures seat in sel ==> Toggled(sel, seat, maxSeats) == Filter(sel, Unequal(seat))
    ensures CapReached(sel, seat, maxSeats) ==> Toggled(sel, seat, maxSeats) == sel
  {
    if seat in sel {
      WithoutShortens(sel, seat);
      WithoutIsFilter(sel, seat);
    } else if |sel| < maxSeats {
      assert (sel + [seat])[..|sel|] == sel;
    }
  }

  /** Picking a new seat and picking it again restores the selection. */
  lemma ToggleTwiceRestores(sel: seq<string>, seat: string, maxSeats: int)
    requires seat !in sel
    ensures Toggled(Toggled(sel, seat, maxSeats), seat, maxSeats) == sel
  {
    if |sel| < maxSeats {
      var added := sel + [seat];
      assert added[..|sel|] == sel;
      assert Without(added, seat) == Without(sel, seat);
    }
  }

  /** `xs.join(sep)`. */
  function Join(xs: seq<string>, sep: char): (s: string)
    ensures xs == [] ==> s == ""
    ensures |xs| == 1 ==> s == xs[0]
  {
    if xs == [] then ""
    else if |xs| == 1 then xs[0]
    else xs[0] + [sep] + Join(xs[1..], sep)
  }

  /** `s.split(sep)`. */
  function Split(s: string, sep: char): (parts: seq<string>)
    ensures |parts| >= 1
    decreases |s|
  {
    var head := BeforeFirst(s, sep);
    if |head| == |s| then [s]
    else [head] + Split(s[|head| + 1..], sep)
  }

  /** Splitting `h + sep + rest` where `h` has no separator yields `h`, then the parts of `rest`. */
  lemma SplitAfter(h: string, sep: char, rest: string)
    requires sep !in h
    ensures Split(h + [sep] + rest, sep) == [h] + Split(rest, sep)
  {
    var s := h + [sep] + rest;
    BeforeFirstOfJoined(h, sep, rest);
    assert s[|h| + 1..] == rest;
  }

  /** The joined seat list splits back into the selection, provided it is not empty and
    * no seat number contains the separator. */
  lemma {:induction false} SplitJoin(xs: seq<string>, sep: char)
    requires xs != []
    requires forall i :: 0 <= i < |xs| ==> sep !in xs[i]
    ensures Split(Join(xs, sep), sep) == xs
  {
    if |xs| == 1 {
      BeforeFirstUnique(xs[0], sep, xs[0]);
    } else {
      var tail := xs[1..];
      assert forall i :: 0 <= i < |tail| ==> sep !in tail[i] by {
        forall i | 0 <= i < |tail| ensures sep !in tail[i] { assert tail[i] == xs[i + 1]; }
      }
      SplitAfter(xs[0], sep, Join(tail, sep));
      SplitJoin(tail, sep);
      assert xs == [xs[0]] + tail;
    }
  }
}
