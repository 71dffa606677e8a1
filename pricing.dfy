/** The booking page's price breakdown, in whole rupiah: a subtotal per seat, an 11% tax
  * rounded to the nearest rupiah (halves up), and a flat admin fee charged only when at
  * least one seat is selected. */
module Pricing {

  import opened Js

  const AdminFee := 3000
  const DefaultTicketPrice := 50000
  const DefaultMaxSeats := 8

  /** `props.x || d` for a numeric prop: an absent or zero prop falls back to `d`. */
  function OrDefault(prop: int, d: int): (r: int)
    ensures Num(r) == Or(Num(prop), Num(d))
  {
    if prop != 0 then prop else d
  }

  /** `selectedSeats.length * ticketPrice`. */
  function SubTotal(count: nat, price: int): (s: int)
    ensures count == 0 ==> s == 0
    ensures price >= 0 ==> s >= 0
  {
    count * price
  }

  /** `Math.round(subTotal * 0.11)` computed exactly: the integer nearest to 11% of the
    * subtotal, a half rounded towards positive infinity. */
  function TaxAmount(subTotal: int): (t: int)
    ensures 100 * t - 50 <= 11 * subTotal < 100 * t + 50
  {
    (subTotal * 11 + 50) / 100
  }

  /** The rounding condition has exactly one solution, so `TaxAmount` is the only rounding
    * of 11% that breaks ties upwards. */
  lemma TaxAmountUnique(subTotal: int, t: int)
    requires 100 * t - 50 <= 11 * subTotal < 100 * t + 50
    ensures t == TaxAmount(subTotal)
  {
    var u := TaxAmount(subTotal);
    assert 100 * (t - u) < 100 && 100 * (u - t) < 100;
  }

  /** `subTotal + taxAmount + (selectedSeats.length > 0 ? adminFee : 0)`. */
  function GrandTotal(count: nat, price: int): int {
    SubTotal(count, price) + TaxAmount(SubTotal(count, price)) + (if count > 0 then AdminFee else 0)
  }

  /** An empty selection costs nothing; a non-empty one costs the subtotal, its tax and
    * exactly one admin fee. */
  lemma GrandTotalParts(count: nat, price: int)
    ensures count == 0 ==> GrandTotal(count, price) == 0
    ensures count > 0 ==> GrandTotal(count, price) - SubTotal(count, price) - TaxAmount(SubTotal(count, price)) == AdminFee
  {
  }

  /** At the default price the tax is exact (5500 per seat), so a booking of `n > 0` seats
    * costs `55500 * n + 3000`. */
  lemma DefaultPriceTotals(n: nat)
    ensures TaxAmount(SubTotal(n, DefaultTicketPrice)) == 5500 * n
    ensures n > 0 ==> GrandTotal(n, DefaultTicketPrice) == 55500 * n + AdminFee
  {
    TaxAmountUnique(50000 * n, 5500 * n);
  }

  /** With a non-negative price, one more seat never lowers the total. */
  lemma {:induction false} GrandTotalMonotone(count: nat, price: int)
    requires price >= 0
    ensures GrandTotal(count, price) <= GrandTotal(count + 1, price)
  {
    var s, s' := count * price, (count + 1) * price;
    assert s' == s + price;
    var t, t' := TaxAmount(s), TaxAmount(s');
    assert 100 * t - 50 <= 11 * s && 11 * s' < 100 * t' + 50;
    assert t <= t';
  }
}
