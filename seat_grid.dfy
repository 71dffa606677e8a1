/** The seat map of the booking page: the studio's flat seat list grouped into rows keyed
  * by the first character of each seat number, the rows in ascending string order, and
  * the seats of each row sorted in place by the number after that first character. */
module SeatGrid {

  import opened Base
  import opened Text
  import opened HistoryMerge

  /** A seat as the studio endpoint lists it. */
  datatype RawSeat = RawSeat(seatNumber: string, isAvailable: bool)

  /** A seat as the grid holds it: its number (also its `id_seat`), its availability, and
    * `_num`, the parsed suffix, `None` standing for `NaN`. */
  datatype GridSeat = GridSeat(seatNumber: string, isAvailable: bool, num: Option<int>)

  datatype Row = Row(rowLabel: string, seats: seq<GridSeat>)

  /** `seatNumber.charAt(0)`: the first character, or "" for an empty seat number. */
  function RowLabel(seatNumber: string): (l: string)
    ensures |l| <= 1 && l <= seatNumber
    ensures seatNumber != "" ==> |l| == 1
  {
    if seatNumber == "" then "" else [seatNumber[0]]
  }

  /** The white space `parseInt` skips before the number (JavaScript's `WhiteSpace` and
    * `LineTerminator` characters). */
  predicate IsJsSpace(c: char) {
    c == ' ' || c == '\t' || c == '\n' || c == '\r' || c == '\U{B}' || c == '\U{C}' ||
    c == '\U{A0}' || c == '\U{1680}' || ('\U{2000}' <= c <= '\U{200A}') || c == '\U{2028}' ||
    c == '\U{2029}' || c == '\U{202F}' || c == '\U{205F}' || c == '\U{3000}' || c == '\U{FEFF}'
  }

  /** The longest prefix made of decimal digits. */
  function DigitPrefix(s: string): (d: string)
    ensures d <= s && AllDigits(d)
    ensures |d| < |s| ==> !IsDigit(s[|d|])
  {
    if s != [] && IsDigit(s[0]) then [s[0]] + DigitPrefix(s[1..]) else []
  }

  /** `parseInt(s, 10)`: leading white space, an optional sign, then as many decimal digits
    * as there are; `None` (`NaN`) when there is no digit. */
  function ParseInt(s: string): Option<int> {
    if s != [] && IsJsSpace(s[0]) then ParseInt(s[1..]) else ParseSigned(s)
  }

  /** `parseInt` after the white space: an optional sign, then the digits. */
  function ParseSigned(t: string): Option<int> {
    var negative := t != [] && t[0] == '-';
    var unsigned := if t != [] && (t[0] == '-' || t[0] == '+') then t[1..] else t;
    var digits := DigitPrefix(unsigned);
    if digits == [] then None
    else Some(if negative then 0 - ParseDigits(digits) else ParseDigits(digits) as int)
  }

  lemma {:induction false} DigitPrefixOfNumber(a: string, rest: string)
    requires AllDigits(a)
    requires rest == [] || !IsDigit(rest[0])
    ensures DigitPrefix(a + rest) == a
  {
    if a != [] {
      assert (a + rest)[1..] == a[1..] + rest;
      DigitPrefixOfNumber(a[1..], rest);
    } else {
      assert a + rest == rest;
    }
  }

  /** `parseInt` reads a decimal number back from the front of a string, whatever follows
    * it that is not a digit. */
  lemma ParseIntOfNumber(n: nat, rest: string)
    requires rest == [] || !IsDigit(rest[0])
    ensures ParseInt(NatToString(n) + rest) == Some(n)
  {
    var a := NatToString(n);
    var t := a + rest;
    assert t[0] == a[0] && IsDigit(t[0]);
    assert !IsJsSpace(t[0]);
    assert t[0] != '-' && t[0] != '+';
    DigitPrefixOfNumber(a, rest);
    ParseNatToString(n);
  }

  /** `{...seat, id_seat: seat.seat_number, _num: parseInt(seat.seat_number.slice(1), 10)}`. */
  function ToGridSeat(r: RawSeat): (g: GridSeat)
    ensures g.seatNumber == r.seatNumber && g.isAvailable == r.isAvailable
  {
    var suffix := if r.seatNumber == "" then "" else r.seatNumber[1..];
    GridSeat(r.seatNumber, r.isAvailable, ParseInt(suffix))
  }

  /** A seat numbered `<letter><n>` gets `n` as its `_num`. */
  lemma ToGridSeatNumber(letter: char, n: nat, available: bool)
    ensures ToGridSeat(RawSeat([letter] + NatToString(n), available)).num == Some(n)
  {
    var sn := [letter] + NatToString(n);
    assert sn[1..] == NatToString(n) + "";
    ParseIntOfNumber(n, "");
  }

  /** The comparator `a._num - b._num` is positive. A `NaN` difference counts as zero. */
  predicate GreaterNum(a: GridSeat, b: GridSeat) {
    a.num.Some? && b.num.Some? && a.num.value > b.num.value
  }

  /** Inserts `x` after the last seat of `sorted` that the comparator does not place after it. */
  function InsertByNum(sorted: seq<GridSeat>, x: GridSeat): seq<GridSeat> {
    if sorted == [] then [x]
    else if GreaterNum(sorted[|sorted| - 1], x) then InsertByNum(sorted[..|sorted| - 1], x) + [sorted[|sorted| - 1]]
    else sorted + [x]
  }

  /** The row order: insertion sort by `_num`, seat by seat from the left. */
  function SortByNum(s: seq<GridSeat>): seq<GridSeat> {
    if s == [] then [] else InsertByNum(SortByNum(s[..|s| - 1]), s[|s| - 1])
  }

  predicate AllNumbered(s: seq<GridSeat>) {
    forall x :: x in s ==> x.num.Some?
  }

  /** No seat is followed by one with a smaller number. */
  predicate NumOrdered(s: seq<GridSeat>) {
    forall i, j :: 0 <= i < j < |s| ==> !GreaterNum(s[i], s[j])
  }

  lemma {:induction false} InsertByNumPermutes(sorted: seq<GridSeat>, x: GridSeat)
    ensures multiset(InsertByNum(sorted, x)) == multiset(sorted) + multiset{x}
  {
    if sorted != [] && GreaterNum(sorted[|sorted| - 1], x) {
      InsertByNumPermutes(sorted[..|sorted| - 1], x);
      assert sorted == sorted[..|sorted| - 1] + [sorted[|sorted| - 1]];
    }
  }

  lemma {:induction false} InsertByNumOrdered(sorted: seq<GridSeat>, x: GridSeat)
    requires NumOrdered(sorted) && AllNumbered(sorted) && x.num.Some?
    ensures NumOrdered(InsertByNum(sorted, x))
  {
    if sorted != [] {
      var init, last := sorted[..|sorted| - 1], sorted[|sorted| - 1];
      var r := InsertByNum(sorted, x);
      if GreaterNum(last, x) {
        var r' := InsertByNum(init, x);
        assert NumOrdered(init) by {
          forall i, j | 0 <= i < j < |init|
            ensures !GreaterNum(init[i], init[j])
          {
            assert init[i] == sorted[i] && init[j] == sorted[j];
          }
        }
        InsertByNumOrdered(init, x);
        InsertByNumPermutes(init, x);
        assert r == r' + [last];
        forall i | 0 <= i < |r'|
          ensures !GreaterNum(r'[i], last)
        {
          assert r'[i] in multiset(r');
          if r'[i] != x {
            assert r'[i] in multiset(init);
            var k :| 0 <= k < |init| && init[k] == r'[i];
            assert init[k] == sorted[k];
          }
        }
        forall i, j | 0 <= i < j < |r|
          ensures !GreaterNum(r[i], r[j])
        {
          assert r[i] == r'[i];
          if j < |r'| {
            assert r[j] == r'[j];
          }
        }
      } else {
        forall i, j | 0 <= i < j < |r|
          ensures !GreaterNum(r[i], r[j])
        {
          if j == |sorted| {
            assert sorted[i] in sorted && last in sorted;
            assert r[j] == x && r[i] == sorted[i];
            if i < |sorted| - 1 {
              assert !GreaterNum(sorted[i], last);
            }
          } else {
            assert r[i] == sorted[i] && r[j] == sorted[j];
          }
        }
      }
    }
  }

  /** Sorting a row rearranges its seats and no more; when every seat number of the row
    * has a numeric suffix the seats come out in ascending order of it. */
  lemma {:induction false} SortByNumCorrect(s: seq<GridSeat>)
    ensures multiset(SortByNum(s)) == multiset(s)
    ensures AllNumbered(s) ==> NumOrdered(SortByNum(s))
  {
    if s != [] {
      var init, last := s[..|s| - 1], s[|s| - 1];
      SortByNumCorrect(init);
      InsertByNumPermutes(SortByNum(init), last);
      assert s == init + [last];
      if AllNumbered(s) {
        assert AllNumbered(init);
        forall x | x in SortByNum(init)
          ensures x.num.Some?
        {
          assert x in multiset(SortByNum(init));
        }
        InsertByNumOrdered(SortByNum(init), last);
      }
    }
  }

  lemma InsertByNumShift(s: seq<GridSeat>, j: nat, x: GridSeat)
    requires 0 < j <= |s| && GreaterNum(s[j - 1], x)
    ensures InsertByNum(s[..j], x) == InsertByNum(s[..j - 1], x) + [s[j - 1]]
  {
    assert s[..j][..j - 1] == s[..j - 1];
  }

  lemma InsertByNumStop(s: seq<GridSeat>, j: nat, x: GridSeat)
    requires j <= |s| && (j == 0 || !GreaterNum(s[j - 1], x))
    ensures InsertByNum(s[..j], x) == s[..j] + [x]
  {
  }

  lemma SortByNumStep(s: seq<GridSeat>, i: nat)
    requires i < |s|
    ensures SortByNum(s[..i + 1]) == InsertByNum(SortByNum(s[..i]), s[i])
  {
    assert s[..i + 1][..i] == s[..i];
  }

  lemma ShiftStep(sorted: seq<GridSeat>, j: nat, x: GridSeat)
    requires 0 < j <= |sorted| && GreaterNum(sorted[j - 1], x)
    requires InsertByNum(sorted, x) == InsertByNum(sorted[..j], x) + sorted[j..]
    ensures InsertByNum(sorted, x) == InsertByNum(sorted[..j - 1], x) + sorted[j - 1..]
  {
    InsertByNumShift(sorted, j, x);
    assert sorted[j - 1..] == [sorted[j - 1]] + sorted[j..];
  }

  lemma StopStep(sorted: seq<GridSeat>, j: nat, x: GridSeat)
    requires j <= |sorted| && (j == 0 || !GreaterNum(sorted[j - 1], x))
    requires InsertByNum(sorted, x) == InsertByNum(sorted[..j], x) + sorted[j..]
    ensures InsertByNum(sorted, x) == sorted[..j] + [x] + sorted[j..]
  {
    InsertByNumStop(sorted, j, x);
  }

  /** The inner loop of the insertion sort: moves the seats of `a[..i]` that sort after `x`
    * one place right, from the back, and returns the gap left for `x`. */
  method ShiftLarger(a: array<GridSeat>, i: nat, x: GridSeat) returns (j: nat)
    requires i < a.Length
    modifies a
    ensures j <= i
    ensures forall k :: 0 <= k < j ==> a[k] == old(a[k])
    ensures forall k :: j < k <= i ==> a[k] == old(a[k - 1])
    ensures forall k :: i < k < a.Length ==> a[k] == old(a[k])
    ensures InsertByNum(old(a[..i]), x) == old(a[..i])[..j] + [x] + old(a[..i])[j..]
  {
    ghost var sorted := a[..i];
    j := i;
    assert sorted[..j] == sorted && sorted[j..] == [];
    while j > 0 && GreaterNum(a[j - 1], x)
      invariant 0 <= j <= i
      invariant forall k :: 0 <= k < j ==> a[k] == sorted[k]
      invariant forall k :: j < k <= i ==> a[k] == sorted[k - 1]
      invariant forall k :: i < k < a.Length ==> a[k] == old(a[k])
      invariant InsertByNum(sorted, x) == InsertByNum(sorted[..j], x) + sorted[j..]
    {
      ShiftStep(sorted, j, x);
      a[j] := a[j - 1];
      j := j - 1;
    }
    StopStep(sorted, j, x);
  }

  /** One step of the insertion sort: with `a[..i]` already in order, shifts the seats of
    * that prefix that sort after `a[i]` one place right and puts `a[i]` into the gap. */
  method InsertAt(a: array<GridSeat>, i: nat)
    requires i < a.Length
    modifies a
    ensures a[..i + 1] == InsertByNum(old(a[..i]), old(a[i]))
    ensures a[i + 1..] == old(a[i + 1..])
  {
    var x := a[i];
    ghost var sorted := a[..i];
    var j := ShiftLarger(a, i, x);
    a[j] := x;
    ghost var expected := sorted[..j] + [x] + sorted[j..];
    forall k | 0 <= k <= i
      ensures a[k] == expected[k]
    {
      if k < j {
        assert expected[k] == sorted[k];
      } else if k > j {
        assert expected[k] == sorted[k - 1];
      }
    }
    assert a[..i + 1] == expected;
  }

  /** `row.sort((a, b) => a._num - b._num)` in place: an insertion sort over the row. */
  method SortRow(a: array<GridSeat>)
    modifies a
    ensures a[..] == SortByNum(old(a[..]))
  {
    ghost var original := a[..];
    var i := 0;
    while i < a.Length
      invariant 0 <= i <= a.Length
      invariant a[..i] == SortByNum(original[..i])
      invariant a[i..] == original[i..]
    {
      SortByNumStep(original, i);
      assert a[i] == original[i];
      InsertAt(a, i);
      assert a[i + 1..] == original[i + 1..];
      i := i + 1;
    }
    assert original[..a.Length] == original;
  }

  /** The seats of `raw` whose row is `rowKey`, as grid seats, in list order. */
  function RowSeats(raw: seq<RawSeat>, rowKey: string): (r: seq<GridSeat>)
    ensures forall g :: g in r ==> RowLabel(g.seatNumber) == rowKey
    ensures |r| <= |raw|
  {
    if raw == [] then []
    else
      RowSeats(raw[..|raw| - 1], rowKey) +
      (if RowLabel(raw[|raw| - 1].seatNumber) == rowKey then [ToGridSeat(raw[|raw| - 1])] else [])
  }

  /** The row label of each seat, in list order. */
  function LabelList(raw: seq<RawSeat>): (ls: seq<string>)
    ensures |ls| == |raw|
    ensures forall i :: 0 <= i < |raw| ==> ls[i] == RowLabel(raw[i].seatNumber)
  {
    seq(|raw|, i requires 0 <= i < |raw| => RowLabel(raw[i].seatNumber))
  }

  /** Inserts `x` into an ascending list of labels. */
  function InsertLabel(sorted: seq<string>, x: string): seq<string> {
    if sorted == [] then [x]
    else if LexLess(x, sorted[0]) then [x] + sorted
    else [sorted[0]] + InsertLabel(sorted[1..], x)
  }

  /** `Object.keys(grouped).sort()`: the labels in ascending string order. */
  function SortLabels(ls: seq<string>): seq<string> {
    if ls == [] then [] else InsertLabel(SortLabels(ls[1..]), ls[0])
  }

  predicate StrictlyAscending(ls: seq<string>) {
    forall i, j :: 0 <= i < j < |ls| ==> LexLess(ls[i], ls[j])
  }

  lemma {:induction false} InsertLabelPermutes(sorted: seq<string>, x: string)
    ensures multiset(InsertLabel(sorted, x)) == multiset(sorted) + multiset{x}
  {
    if sorted != [] && !LexLess(x, sorted[0]) {
      InsertLabelPermutes(sorted[1..], x);
      assert sorted == [sorted[0]] + sorted[1..];
    }
  }

  lemma AscendingTail(sorted: seq<string>)
    requires sorted != [] && StrictlyAscending(sorted)
    ensures StrictlyAscending(sorted[1..])
    ensures forall y :: y in sorted[1..] ==> LexLess(sorted[0], y)
  {
    forall i, j | 0 <= i < j < |sorted[1..]|
      ensures LexLess(sorted[1..][i], sorted[1..][j])
    {
      assert sorted[1..][i] == sorted[i + 1] && sorted[1..][j] == sorted[j + 1];
    }
    forall y | y in sorted[1..]
      ensures LexLess(sorted[0], y)
    {
      var k :| 0 <= k < |sorted[1..]| && sorted[1..][k] == y;
      assert sorted[1..][k] == sorted[k + 1];
    }
  }

  lemma {:induction false} InsertLabelCorrect(sorted: seq<string>, x: string)
    requires StrictlyAscending(sorted) && x !in sorted
    ensures StrictlyAscending(InsertLabel(sorted, x))
  {
    var r := InsertLabel(sorted, x);
    if sorted == [] {
    } else if LexLess(x, sorted[0]) {
      forall i, j | 0 <= i < j < |r|
        ensures LexLess(r[i], r[j])
      {
        assert r[j] == sorted[j - 1];
        if i == 0 {
          if j > 1 {
            LexLessTransitive(x, sorted[0], sorted[j - 1]);
          }
        } else {
          assert r[i] == sorted[i - 1];
        }
      }
    } else {
      var rest := InsertLabel(sorted[1..], x);
      AscendingTail(sorted);
      InsertLabelCorrect(sorted[1..], x);
      InsertLabelPermutes(sorted[1..], x);
      LexLessTotal(x, sorted[0]);
      assert r == [sorted[0]] + rest;
      forall y | y in rest
        ensures LexLess(sorted[0], y)
      {
        assert y in multiset(rest);
      }
      forall i, j | 0 <= i < j < |r|
        ensures LexLess(r[i], r[j])
      {
        assert r[j] == rest[j - 1];
        if i > 0 {
          assert r[i] == rest[i - 1];
        }
      }
    }
  }

  /** Sorting distinct labels gives them in strictly ascending order, each once. */
  lemma {:induction false} SortLabelsCorrect(ls: seq<string>)
    requires NoDuplicates(ls)
    ensures StrictlyAscending(SortLabels(ls))
    ensures multiset(SortLabels(ls)) == multiset(ls)
  {
    if ls != [] {
      assert ls == [ls[0]] + ls[1..];
      assert NoDuplicates(ls[1..]) by {
        forall i, j | 0 <= i < j < |ls[1..]|
          ensures ls[1..][i] != ls[1..][j]
        {
          assert ls[1..][i] == ls[i + 1] && ls[1..][j] == ls[j + 1];
        }
      }
      SortLabelsCorrect(ls[1..]);
      assert ls[0] !in ls[1..];
      assert ls[0] !in multiset(SortLabels(ls[1..]));
      InsertLabelCorrect(SortLabels(ls[1..]), ls[0]);
      InsertLabelPermutes(SortLabels(ls[1..]), ls[0]);
    }
  }

  /** The row labels of the grid: each label of the list once, in ascending order. */
  function GridLabels(raw: seq<RawSeat>): seq<string> {
    SortLabels(Distinct(LabelList(raw)))
  }

  /** The grid `load` builds from a seat list. */
  function GridOf(raw: seq<RawSeat>): (rows: seq<Row>)
    ensures |rows| == |GridLabels(raw)|
  {
    var labels := GridLabels(raw);
    seq(|labels|, i requires 0 <= i < |labels| => Row(labels[i], SortByNum(RowSeats(raw, labels[i]))))
  }

  /** The rows are in strictly ascending label order and hold the seats of their label
    * and no other, rearranged by the row sort, and ordered by number when every suffix
    * is numeric. */
  lemma GridOfRows(raw: seq<RawSeat>)
    ensures forall i, j :: 0 <= i < j < |GridOf(raw)| ==> LexLess(GridOf(raw)[i].rowLabel, GridOf(raw)[j].rowLabel)
    ensures forall i :: 0 <= i < |GridOf(raw)| ==>
      multiset(GridOf(raw)[i].seats) == multiset(RowSeats(raw, GridOf(raw)[i].rowLabel))
    ensures forall i, g :: 0 <= i < |GridOf(raw)| && g in GridOf(raw)[i].seats ==>
      RowLabel(g.seatNumber) == GridOf(raw)[i].rowLabel
    ensures forall i :: 0 <= i < |GridOf(raw)| && AllNumbered(GridOf(raw)[i].seats) ==>
      NumOrdered(GridOf(raw)[i].seats)
  {
    var rows := GridOf(raw);
    SortLabelsCorrect(Distinct(LabelList(raw)));
    forall i | 0 <= i < |rows|
      ensures multiset(rows[i].seats) == multiset(RowSeats(raw, rows[i].rowLabel))
      ensures AllNumbered(rows[i].seats) ==> NumOrdered(rows[i].seats)
      ensures forall g :: g in rows[i].seats ==> RowLabel(g.seatNumber) == rows[i].rowLabel
    {
      var row := RowSeats(raw, rows[i].rowLabel);
      SortByNumCorrect(row);
      if AllNumbered(rows[i].seats) {
        forall x | x in row
          ensures x.num.Some?
        {
          assert x in multiset(rows[i].seats);
        }
      }
      forall g | g in rows[i].seats
        ensures RowLabel(g.seatNumber) == rows[i].rowLabel
      {
        assert g in multiset(row);
      }
    }
  }

  lemma {:induction false} RowSeatsHasSeat(raw: seq<RawSeat>, k: nat)
    requires k < |raw|
    ensures ToGridSeat(raw[k]) in RowSeats(raw, RowLabel(raw[k].seatNumber))
  {
    var init := raw[..|raw| - 1];
    if k < |raw| - 1 {
      assert init[k] == raw[k];
      RowSeatsHasSeat(init, k);
    }
  }

  /** Every listed seat is in exactly one row: the row of its rowKey. */
  lemma GridOfCoversSeats(raw: seq<RawSeat>, k: nat)
    requires k < |raw|
    ensures exists i :: (0 <= i < |GridOf(raw)| && GridOf(raw)[i].rowLabel == RowLabel(raw[k].seatNumber) &&
      ToGridSeat(raw[k]) in GridOf(raw)[i].seats)
    ensures forall i :: 0 <= i < |GridOf(raw)| && ToGridSeat(raw[k]) in GridOf(raw)[i].seats ==>
      GridOf(raw)[i].rowLabel == RowLabel(raw[k].seatNumber)
  {
    var rows := GridOf(raw);
    var rowKey := RowLabel(raw[k].seatNumber);
    var ls := LabelList(raw);
    GridOfRows(raw);
    SortLabelsCorrect(Distinct(ls));
    assert ls[k] == rowKey;
    assert rowKey in Distinct(ls);
    assert rowKey in multiset(GridLabels(raw));
    var i :| 0 <= i < |GridLabels(raw)| && GridLabels(raw)[i] == rowKey;
    RowSeatsHasSeat(raw, k);
    SortByNumCorrect(RowSeats(raw, rowKey));
    assert ToGridSeat(raw[k]) in multiset(rows[i].seats);
  }

  lemma RowSeatsStep(raw: seq<RawSeat>, i: nat, rowKey: string)
    requires i < |raw|
    ensures RowSeats(raw[..i + 1], rowKey) == RowSeats(raw[..i], rowKey) +
      (if RowLabel(raw[i].seatNumber) == rowKey then [ToGridSeat(raw[i])] else [])
  {
    assert raw[..i + 1][..i] == raw[..i];
  }

  lemma LabelListStep(raw: seq<RawSeat>, i: nat)
    requires i < |raw|
    ensures LabelList(raw[..i + 1]) == LabelList(raw[..i]) + [RowLabel(raw[i].seatNumber)]
  {
  }

  /** The accumulator of the `reduce` after the seats of `raw`: seat by seat, the array of
    * the seat's row, created empty on first use, with the seat pushed onto it. */
  function Grouped(raw: seq<RawSeat>): map<string, seq<GridSeat>> {
    if raw == [] then map[]
    else
      var acc := Grouped(raw[..|raw| - 1]);
      var seat := raw[|raw| - 1];
      var row := RowLabel(seat.seatNumber);
      acc[row := (if row in acc then acc[row] else []) + [ToGridSeat(seat)]]
  }

  /** The accumulator has an array for exactly the row labels that occur, and each array
    * holds the seats of its row in list order. */
  lemma {:induction false} GroupedRows(raw: seq<RawSeat>)
    ensures forall l :: l in Grouped(raw) <==> l in LabelList(raw)
    ensures forall l :: l in Grouped(raw) ==> Grouped(raw)[l] == RowSeats(raw, l)
    ensures forall l :: l !in Grouped(raw) ==> RowSeats(raw, l) == []
  {
    if raw != [] {
      var init := raw[..|raw| - 1];
      GroupedRows(init);
      assert LabelList(raw) == LabelList(init) + [RowLabel(raw[|raw| - 1].seatNumber)];
    }
  }

  lemma GroupedStep(raw: seq<RawSeat>, i: nat)
    requires i < |raw|
    ensures Grouped(raw[..i + 1]) == var acc := Grouped(raw[..i]); var row := RowLabel(raw[i].seatNumber);
      acc[row := (if row in acc then acc[row] else []) + [ToGridSeat(raw[i])]]
  {
    assert raw[..i + 1][..i] == raw[..i];
  }

  /** One seat of the `reduce`: the accumulator after the seat `raw[i]`, given the one
    * after `raw[..i]`. */
  lemma GroupedPush(raw: seq<RawSeat>, i: nat, grouped: map<string, seq<GridSeat>>)
    requires i < |raw| && grouped == Grouped(raw[..i])
    ensures var row := RowLabel(raw[i].seatNumber);
      var created := if row in grouped then grouped else grouped[row := []];
      created[row := created[row] + [ToGridSeat(raw[i])]] == Grouped(raw[..i + 1])
  {
    GroupedStep(raw, i);
  }

  /** One seat of the `reduce`: a row label joins the key list exactly when the seat
    * creates its array. */
  lemma KeysPush(raw: seq<RawSeat>, i: nat, grouped: map<string, seq<GridSeat>>, keys: seq<string>)
    requires i < |raw| && grouped == Grouped(raw[..i]) && keys == Distinct(LabelList(raw[..i]))
    ensures var row := RowLabel(raw[i].seatNumber);
      (if row in grouped then keys else keys + [row]) == Distinct(LabelList(raw[..i + 1]))
  {
    LabelListStep(raw, i);
    DistinctStep(LabelList(raw[..i]), RowLabel(raw[i].seatNumber));
    GroupedRows(raw[..i]);
  }

  /** The `reduce` of `load`: pushes each seat onto the array of its row, creating the
    * array on the row's first seat. Returns the arrays and their keys in creation order. */
  method GroupByRow(raw: seq<RawSeat>) returns (grouped: map<string, seq<GridSeat>>, keys: seq<string>)
    ensures grouped == Grouped(raw)
    ensures keys == Distinct(LabelList(raw))
  {
    grouped, keys := map[], [];
    var i := 0;
    while i < |raw|
      invariant 0 <= i <= |raw|
      invariant grouped == Grouped(raw[..i])
      invariant keys == Distinct(LabelList(raw[..i]))
    {
      var seat := raw[i];
      var row := RowLabel(seat.seatNumber);
      GroupedPush(raw, i, grouped);
      KeysPush(raw, i, grouped, keys);
      if row !in grouped {
        grouped := grouped[row := []];
        keys := keys + [row];
      }
      grouped := grouped[row := grouped[row] + [ToGridSeat(seat)]];
      i := i + 1;
    }
    assert raw[..i] == raw;
  }

  /** Every label of the grid has an array in the accumulator, holding its row's seats. */
  lemma GroupedHasGridRow(raw: seq<RawSeat>, r: nat)
    requires r < |GridLabels(raw)|
    ensures GridLabels(raw)[r] in Grouped(raw)
    ensures Grouped(raw)[GridLabels(raw)[r]] == RowSeats(raw, GridLabels(raw)[r])
  {
    var keys := Distinct(LabelList(raw));
    SortLabelsCorrect(keys);
    GroupedRows(raw);
    assert GridLabels(raw)[r] in multiset(keys);
  }

  /** The next row of the grid, given its label and the array of its seats. */
  lemma GridOfNext(raw: seq<RawSeat>, r: nat, sortedRow: seq<GridSeat>)
    requires r < |GridLabels(raw)|
    requires sortedRow == SortByNum(RowSeats(raw, GridLabels(raw)[r]))
    ensures GridOf(raw)[..r + 1] == GridOf(raw)[..r] + [Row(GridLabels(raw)[r], sortedRow)]
  {
    var grid := GridOf(raw);
    assert grid[r] == Row(GridLabels(raw)[r], sortedRow);
    assert grid[..r + 1] == grid[..r] + [grid[r]];
  }

  /** One row's sort: the row's array copied out of the accumulator and sorted in place. */
  method SortedRow(arr: seq<GridSeat>) returns (sorted: seq<GridSeat>)
    ensures sorted == SortByNum(arr)
  {
    var seats := new GridSeat[|arr|](k requires 0 <= k < |arr| => arr[k]);
    assert seats[..] == arr;
    SortRow(seats);
    sorted := seats[..];
  }

  /** The grouping of `load`: the `reduce` into row arrays, an in-place sort of every row,
    * and the rows in the sorted order of their labels. */
  method GroupSeats(raw: seq<RawSeat>) returns (rows: seq<Row>)
    ensures rows == GridOf(raw)
  {
    var grouped, keys := GroupByRow(raw);
    var labels := SortLabels(keys);
    rows := [];
    var r := 0;
    while r < |labels|
      invariant 0 <= r <= |labels| == |GridOf(raw)|
      invariant rows == GridOf(raw)[..r]
    {
      var rowKey := labels[r];
      GroupedHasGridRow(raw, r);
      var sorted := SortedRow(grouped[rowKey]);
      GridOfNext(raw, r, sorted);
      rows := rows + [Row(rowKey, sorted)];
      r := r + 1;
    }
    assert GridOf(raw)[..r] == GridOf(raw);
  }
}
