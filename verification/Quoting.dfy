/** The rental price breakdown, and what billing a rental in several pieces can cost. */
module Quoting {
  import opened Domain

  const MS_PER_DAY := 24 * 60 * 60 * 1000
  const BPS := 10000

  function CeilDiv(a: int, b: int): int
    requires b > 0
  {
    (a + b - 1) / b
  }

  /** Math.round on the fraction `num / den`: nearest integer, halves upwards. */
  function RoundDiv(num: int, den: int): int
    requires den > 0
  {
    (2 * num + den) / (2 * den)
  }

  function Nights(from: Time, to: Time): nat {
    var days := CeilDiv(to - from, MS_PER_DAY);
    if days < 1 then 1 else days
  }

  function ServiceFee(rental: nat, bps: nat): nat {
    assert 0 <= rental * bps;
    RoundDiv(rental * bps, BPS)
  }

  /** None stands for BOOKING_DATE_RANGE_INVALID. */
  function ComputeQuote(listing: Listing, from: Time, to: Time, quantity: nat): Option<Quote> {
    if to <= from then None
    else
      var nights := Nights(from, to);
      var rental: nat := listing.price * nights * quantity;
      var service := ServiceFee(rental, listing.commissionBps);
      var deposit: nat := (if listing.deposit.Some? then listing.deposit.value else 0) * quantity;
      Some(Quote(nights, rental, service, deposit, rental + service + deposit))
  }

  /** Rounding is exact to half a unit, both ways. */
  lemma RoundDivBounds(num: int, den: int)
    requires den > 0
    ensures -den <= 2 * (den * RoundDiv(num, den) - num) <= den
  {
    var q := RoundDiv(num, den);
    var rest := (2 * num + den) % (2 * den);
    assert 2 * num + den == 2 * den * q + rest;
    assert 2 * den * q == 2 * (den * q);
  }

  lemma ServiceFeeBounds(rental: nat, bps: nat)
    ensures -BPS <= 2 * (BPS * ServiceFee(rental, bps) - rental * bps) <= BPS
    ensures rental == 0 ==> ServiceFee(rental, bps) == 0
  {
    RoundDivBounds(rental * bps, BPS);
  }

  /** Cutting a span in two costs at most one extra night and never saves one. */
  lemma NightsSplit(a: Time, b: Time, c: Time)
    requires a < b < c
    ensures Nights(a, c) <= Nights(a, b) + Nights(b, c) <= Nights(a, c) + 1
  {
    var m := MS_PER_DAY;
    var x, y, z := CeilDiv(b - a, m), CeilDiv(c - b, m), CeilDiv(c - a, m);
    assert m * (x - 1) < b - a <= m * x;
    assert m * (y - 1) < c - b <= m * y;
    assert m * (z - 1) < c - a <= m * z;
    assert m * (z - 1) < m * (x + y);
    assert m * (x + y - 2) < m * z;
  }

  /** The ends a rental has had, oldest first: `stops[0]` is the pickup, every later stop a return date. */
  predicate Increasing(stops: seq<Time>) {
    forall i, j :: 0 <= i < j < |stops| ==> stops[i] < stops[j]
  }

  function NightsBilled(stops: seq<Time>): nat {
    if |stops| <= 1 then 0
    else NightsBilled(stops[..|stops| - 1]) + Nights(stops[|stops| - 2], stops[|stops| - 1])
  }

  /** A rental extended k times is billed at least its whole span and at most k nights more. */
  lemma {:induction false} NightsBilledBounds(stops: seq<Time>)
    requires |stops| >= 2 && Increasing(stops)
    ensures Nights(stops[0], stops[|stops| - 1]) <= NightsBilled(stops)
    ensures NightsBilled(stops) <= Nights(stops[0], stops[|stops| - 1]) + (|stops| - 2)
  {
    var n := |stops| - 1;
    if n == 1 {
      assert NightsBilled(stops[..1]) == 0;
    } else {
      NightsBilledBounds(stops[..n]);
      NightsSplit(stops[0], stops[n - 1], stops[n]);
    }
  }
}
