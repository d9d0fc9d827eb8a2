/** What a rental extended piece by piece is billed, over whole runs with a fixed price and commission. */
module Billing {
  import opened Domain
  import Cancellation
  import opened Filtering
  import opened Quoting
  import opened Rules
  import opened CaseFile
  import opened Simulation
  import opened Invariants
  import opened Accounts
  import opened Runs
  import Lifecycle

  // ---------- the charges in the ledger ----------

  /** The CHARGE rows add up to the total once paid for, to nothing before. */
  predicate ChargesMatch(f: File) {
    Sum(f.rows, Charge) == if f.b.paid.Some? then f.b.total else 0
  }

  lemma PaidMovesMatch(owner: Id -> Id, f: File, m: Move)
    requires Basic(f) && ChargesMatch(f) && Enabled(owner, f, m) && (m.MApprove? || m.MExtend?)
    ensures ChargesMatch(Apply(owner, f, m))
  {
    var amount := if m.MApprove? then f.b.total else Last(f.reqs).rental + Last(f.reqs).service;
    SumPost(f.id, Charge, amount, Some(f.b.renter), None, Charge);
    Concat(f.rows, PostCharge(f, amount), Charge);
  }

  lemma CompletionsMatch(owner: Id -> Id, f: File, m: Move)
    requires Basic(f) && ChargesMatch(f) && Enabled(owner, f, m) && (m.MInspectClean? || m.MResolve?)
    ensures ChargesMatch(Apply(owner, f, m))
  {
    CompletionRows(owner, f, m);
    var f' := Apply(owner, f, m);
    BasicKept(owner, f, m);
    PayoutSum(owner, f', Charge);
    Concat(f.rows, Payout(owner, f'), Charge);
  }

  lemma OtherMovesMatch(owner: Id -> Id, f: File, m: Move)
    requires Basic(f) && ChargesMatch(f) && Enabled(owner, f, m)
    requires !m.MApprove? && !m.MExtend? && !m.MInspectClean? && !m.MResolve?
    ensures ChargesMatch(Apply(owner, f, m))
  {
    Units(f.rows);
    if m.MCancel? && f.b.status == Confirmed {
      FeesNonNegative(f);
      Cancellation.RefundWithinTotal(f.b.policy, f.b.startsAt, m.now, f.b.total, f.b.deposit);
      SumPost(f.id, Refund, RefundAt(f.b, m.now), Some(f.b.renter), None, Charge);
      Concat(f.rows, PostRefund(f, RefundAt(f.b, m.now)), Charge);
    }
  }

  lemma FeesNonNegative(f: File)
    requires Basic(f)
    ensures 0 <= f.b.deposit <= f.b.total && 0 <= f.b.rental
  {
  }

  lemma ChargesKept(owner: Id -> Id, f: File, m: Move)
    requires Basic(f) && ChargesMatch(f) && Enabled(owner, f, m)
    ensures ChargesMatch(Apply(owner, f, m))
  {
    if m.MApprove? || m.MExtend? {
      PaidMovesMatch(owner, f, m);
    } else if m.MInspectClean? || m.MResolve? {
      CompletionsMatch(owner, f, m);
    } else {
      OtherMovesMatch(owner, f, m);
    }
  }

  ghost predicate AllCharged(s: State) {
    AllBasic(s) && forall id :: 0 <= id < |s.bookings| ==> ChargesMatch(FileOf(s, id))
  }

  lemma BornCharged(id: Id, b: Booking, q: Quote, actor: Id, now: Time, reference: string)
    requires b.paid.None? && b.total == q.total
    ensures ChargesMatch(Newborn(id, b, q, actor, now, reference))
  {
    SumPost(id, Charge, q.total, Some(b.renter), None, Charge);
    Units(Post(id, Charge, q.total, Some(b.renter), None));
  }

  lemma StepCharged(owner: Id -> Id, s: State, e: Event)
    requires AllCharged(s) && Owned(owner, e.env)
    ensures AllCharged(Next(e.env, s, e.action))
  {
    StepBasic(owner, e.env, s, e.action);
    if Step(e.env, s, e.action).Done? {
      var s' := Next(e.env, s, e.action);
      forall id | 0 <= id < |s'.bookings| ensures ChargesMatch(FileOf(s', id)) {
        FileAfter(owner, e.env, s, e.action, id);
        if id < |s.bookings| {
          ChargesKept(owner, FileOf(s, id), MoveOn(e.env, s, e.action, id));
        } else {
          var (b, q) := Inserted(e.env, s, e.action);
          InsertedSound(e.env, s, e.action);
          BornCharged(id, b, q, e.action.actor, e.env.now, e.action.reference);
        }
      }
    }
  }

  /**
   * In every run, a booking's CHARGE rows add up to its total once its stage passes REQUESTED and to nothing
   * before, and its fees are the original quote plus its approved extensions.
   */
  lemma {:induction false} RunCharged(owner: Id -> Id, events: seq<Event>)
    requires OwnedRun(owner, events)
    ensures AllCharged(Run(events))
    ensures forall id :: 0 <= id < |Run(events).bookings| ==>
              var f := FileOf(Run(events), id);
              && Sum(f.rows, Charge) == (if f.b.stage != Requested then f.b.total else 0)
              && f.b.total == f.b.rental + f.b.service + f.b.deposit
              && f.b.rental == f.o.quote.rental + ApprovedRental(f.reqs)
              && f.b.service == f.o.quote.service + ApprovedService(f.reqs)
  {
    if events == [] {
    } else {
      var init, last := events[..|events| - 1], events[|events| - 1];
      RunCharged(owner, init);
      StepCharged(owner, Run(init), last);
    }
  }

  // ---------- the stops of a rental ----------

  /** Pickup, the original return, then every approved later return. */
  function Stops(start: Time, end: Time, reqs: seq<ExtensionRequest>): (stops: seq<Time>)
    ensures |stops| >= 2 && stops[0] == start
  {
    if reqs == [] then [start, end]
    else
      Stops(start, end, reqs[..|reqs| - 1])
      + if Last(reqs).status == Approved then [Last(reqs).requestedEndsAt] else []
  }

  ghost predicate ChainOk(end: Time, reqs: seq<ExtensionRequest>) {
    forall k :: 0 <= k < |reqs| ==>
      reqs[k].currentEndsAt == EndAfter(end, reqs[..k]) && reqs[k].currentEndsAt < reqs[k].requestedEndsAt
  }

  lemma ChainPrefix(end: Time, reqs: seq<ExtensionRequest>)
    requires reqs != [] && ChainOk(end, reqs)
    ensures ChainOk(end, reqs[..|reqs| - 1])
  {
    var init := reqs[..|reqs| - 1];
    forall k | 0 <= k < |init| ensures init[k] == reqs[k] && init[..k] == reqs[..k] { }
  }

  lemma {:induction false} StopsStep(start: Time, end: Time, reqs: seq<ExtensionRequest>)
    requires reqs != []
    ensures var init, r := Stops(start, end, reqs[..|reqs| - 1]), Last(reqs);
            Stops(start, end, reqs) == if r.status == Approved then init + [r.requestedEndsAt] else init
  {
  }

  lemma IncreasingSnoc(stops: seq<Time>, stop: Time)
    requires stops != [] && Increasing(stops) && Last(stops) < stop
    ensures Increasing(stops + [stop])
  {
  }

  /** The approved ends strictly increase, up to where the booking ends now. */
  lemma {:induction false} StopsIncrease(start: Time, end: Time, reqs: seq<ExtensionRequest>)
    requires start < end && ChainOk(end, reqs)
    ensures Increasing(Stops(start, end, reqs))
    ensures Last(Stops(start, end, reqs)) == EndAfter(end, reqs)
  {
    if reqs == [] {
    } else {
      var init, r := reqs[..|reqs| - 1], Last(reqs);
      ChainPrefix(end, reqs);
      StopsIncrease(start, end, init);
      StopsStep(start, end, reqs);
      assert r.currentEndsAt == EndAfter(end, init);
      if r.status == Approved { IncreasingSnoc(Stops(start, end, init), r.requestedEndsAt); }
    }
  }

  /** In any run a booking's approved extensions form a strictly increasing chain ending at its present end. */
  lemma {:induction false} RunChain(owner: Id -> Id, events: seq<Event>, id: Id)
    requires OwnedRun(owner, events) && id < |Run(events).bookings|
    ensures var f := FileOf(Run(events), id);
            var stops := Stops(f.b.startsAt, f.o.endsAt, f.reqs);
            Increasing(stops) && Last(stops) == f.b.endsAt
  {
    RunBasic(owner, events);
    var f := FileOf(Run(events), id);
    StopsIncrease(f.b.startsAt, f.o.endsAt, f.reqs);
  }

  /**
   * In any run a pending request starts where its booking now ends, asks for a later end, and is the only
   * pending one of its booking.
   */
  lemma {:induction false} RunPending(owner: Id -> Id, events: seq<Event>, k: Id, j: Id)
    requires OwnedRun(owner, events) && k < |Run(events).requests| && j < |Run(events).requests|
    requires Run(events).requests[k].status == RequestPending
    ensures var s := Run(events);
            var r := s.requests[k];
            && r.booking < |s.bookings|
            && r.currentEndsAt == s.bookings[r.booking].endsAt < r.requestedEndsAt
            && (s.requests[j].status == RequestPending && s.requests[j].booking == r.booking ==> j == k)
  {
    RunBasic(owner, events);
    var s := Run(events);
    PendingIsLast(s, k);
    if s.requests[j].status == RequestPending && s.requests[j].booking == s.requests[k].booking {
      PendingIsLast(s, j);
      if j < k { SlotsDiffer(s.requests, j, k); }
      if k < j { SlotsDiffer(s.requests, k, j); }
    }
  }

  lemma PendingIsLast(s: State, k: Id)
    requires AllBasic(s) && k < |s.requests| && s.requests[k].status == RequestPending
    ensures s.requests[k].booking < |s.bookings|
    ensures var f := FileOf(s, s.requests[k].booking);
            && f.reqs != [] && Slot(s.requests, RequestBooking, k) == |f.reqs| - 1 && Last(f.reqs) == s.requests[k]
            && s.requests[k].currentEndsAt == f.b.endsAt < s.requests[k].requestedEndsAt
  {
    var f := FileOf(s, s.requests[k].booking);
    OfUpdate(s.requests, RequestBooking, k, s.requests[k], f.id);
    assert f.reqs[|f.reqs| - 1].currentEndsAt == EndAfter(f.o.endsAt, f.reqs[..|f.reqs| - 1]);
  }

  /** Different rows of one booking sit in different slots. */
  lemma SlotsDiffer(requests: seq<ExtensionRequest>, j: nat, k: nat)
    requires j < k < |requests| && requests[j].booking == requests[k].booking
    ensures Slot(requests, RequestBooking, j) < Slot(requests, RequestBooking, k)
  {
    var id := requests[j].booking;
    assert requests[..k] == requests[..j] + [requests[j]] + requests[j + 1..k];
    OfAround(requests[..j], requests[j], requests[j + 1..k], RequestBooking, id);
  }

  // ---------- fixed prices ----------

  /** Every piece of the rental was priced at `price` a night and `bps` commission. */
  ghost predicate Priced(f: File, price: nat, bps: nat) {
    && f.o.quote.rental == price * Nights(f.b.startsAt, f.o.endsAt) * f.b.quantity
    && f.o.quote.service == ServiceFee(f.o.quote.rental, bps)
    && forall k :: 0 <= k < |f.reqs| ==>
         && f.reqs[k].rental == price * Nights(f.reqs[k].currentEndsAt, f.reqs[k].requestedEndsAt)
         && f.reqs[k].service == ServiceFee(f.reqs[k].rental, bps)
  }

  /** The catalog quotes this listing at a fixed price and commission. */
  ghost predicate FixedPrice(env: Env, listing: Id, price: nat, bps: nat) {
    listing in env.catalog ==> env.catalog[listing].price == price && env.catalog[listing].commissionBps == bps
  }

  lemma PricedKept(owner: Id -> Id, f: File, m: Move, price: nat, bps: nat)
    requires Enabled(owner, f, m) && Priced(f, price, bps)
    requires m.MRequest? ==> && m.rental == price * Nights(f.b.endsAt, m.newEndsAt)
                             && m.service == ServiceFee(m.rental, bps)
    ensures Priced(Apply(owner, f, m), price, bps)
  {
  }

  lemma RequestPriced(env: Env, s: State, a: Action, price: nat, bps: nat)
    requires Step(env, s, a).Done? && a.RequestExtension? && FixedPrice(env, s.bookings[a.booking].listing, price, bps)
    ensures var m := MoveOf(env, s, a);
            && m.MRequest? && m.newEndsAt == a.newEndsAt
            && m.rental == price * Nights(s.bookings[a.booking].endsAt, a.newEndsAt)
            && m.service == ServiceFee(m.rental, bps)
  {
  }

  lemma BornPriced(env: Env, s: State, a: Action, price: nat, bps: nat)
    requires Fresh(env, s, a) && FixedPrice(env, a.listing, price, bps)
    ensures var (b, q) := Inserted(env, s, a);
            b.listing == a.listing && Priced(Newborn(|s.bookings|, b, q, a.actor, env.now, a.reference), price, bps)
  {
  }

  ghost predicate AllPriced(s: State, listing: Id, price: nat, bps: nat) {
    AllBasic(s) && forall id :: 0 <= id < |s.bookings| && s.bookings[id].listing == listing ==>
      Priced(FileOf(s, id), price, bps)
  }

  lemma MoveRequests(env: Env, s: State, a: Action, id: Id)
    requires Step(env, s, a).Done?
    ensures MoveOn(env, s, a, id).MRequest? ==> a.RequestExtension? && a.booking == id
  {
  }

  lemma StepPriced(owner: Id -> Id, s: State, e: Event, listing: Id, price: nat, bps: nat)
    requires AllPriced(s, listing, price, bps) && Owned(owner, e.env) && FixedPrice(e.env, listing, price, bps)
    ensures AllPriced(Next(e.env, s, e.action), listing, price, bps)
  {
    StepBasic(owner, e.env, s, e.action);
    if Step(e.env, s, e.action).Done? {
      var s' := Next(e.env, s, e.action);
      forall id | 0 <= id < |s'.bookings| && s'.bookings[id].listing == listing
        ensures Priced(FileOf(s', id), price, bps)
      {
        FileAfter(owner, e.env, s, e.action, id);
        if id < |s.bookings| {
          var f, m := FileOf(s, id), MoveOn(e.env, s, e.action, id);
          Lifecycle.TermsKept(owner, f, m);
          MoveRequests(e.env, s, e.action, id);
          if m.MRequest? { RequestPriced(e.env, s, e.action, price, bps); }
          PricedKept(owner, f, m, price, bps);
        } else {
          BornPriced(e.env, s, e.action, price, bps);
        }
      }
    }
  }

  lemma {:induction false} RunPriced(owner: Id -> Id, events: seq<Event>, listing: Id, price: nat, bps: nat)
    requires OwnedRun(owner, events) && forall k :: 0 <= k < |events| ==> FixedPrice(events[k].env, listing, price, bps)
    ensures AllPriced(Run(events), listing, price, bps)
  {
    if events == [] {
    } else {
      var init, last := events[..|events| - 1], events[|events| - 1];
      RunPriced(owner, init, listing, price, bps);
      StepPriced(owner, Run(init), last, listing, price, bps);
    }
  }

  // ---------- the bill ----------

  function ApprovedCount(reqs: seq<ExtensionRequest>): nat {
    if reqs == [] then 0 else ApprovedCount(reqs[..|reqs| - 1]) + if Last(reqs).status == Approved then 1 else 0
  }

  ghost predicate RequestsPriced(reqs: seq<ExtensionRequest>, price: nat, bps: nat) {
    forall k :: 0 <= k < |reqs| ==>
      && reqs[k].rental == price * Nights(reqs[k].currentEndsAt, reqs[k].requestedEndsAt)
      && reqs[k].service == ServiceFee(reqs[k].rental, bps)
  }

  lemma {:induction false} StopAdded(stops: seq<Time>, stop: Time)
    requires |stops| >= 2
    ensures NightsBilled(stops + [stop]) == NightsBilled(stops) + Nights(Last(stops), stop)
  {
    assert (stops + [stop])[..|stops + [stop]| - 1] == stops;
  }

  /** Extensions are billed the nights between the stops they add. */
  lemma {:induction false} ExtensionsBill(start: Time, end: Time, reqs: seq<ExtensionRequest>, price: nat, bps: nat)
    requires start < end && ChainOk(end, reqs) && RequestsPriced(reqs, price, bps)
    ensures var stops := Stops(start, end, reqs);
            && |stops| == 2 + ApprovedCount(reqs)
            && ApprovedRental(reqs) + price * Nights(start, end) == price * NightsBilled(stops)
  {
    if reqs == [] {
      assert Stops(start, end, reqs)[..1] == [start];
    } else {
      var init, r := reqs[..|reqs| - 1], Last(reqs);
      ChainPrefix(end, reqs);
      ExtensionsBill(start, end, init, price, bps);
      StopsStep(start, end, reqs);
      if r.status == Approved {
        var stops := Stops(start, end, init);
        StopsIncrease(start, end, init);
        assert Last(stops) == r.currentEndsAt;
        StopAdded(stops, r.requestedEndsAt);
        Distribute(price, NightsBilled(stops), Nights(r.currentEndsAt, r.requestedEndsAt));
      }
    }
  }

  /** The rounding errors of their fees stay small. */
  lemma {:induction false} ExtensionsFees(reqs: seq<ExtensionRequest>, price: nat, bps: nat)
    requires RequestsPriced(reqs, price, bps)
    ensures var err := BPS * ApprovedService(reqs) - ApprovedRental(reqs) * bps;
            -(BPS * ApprovedCount(reqs)) <= 2 * err <= BPS * ApprovedCount(reqs)
  {
    if reqs == [] {
    } else {
      var init, r := reqs[..|reqs| - 1], Last(reqs);
      ExtensionsFees(init, price, bps);
      if r.status == Approved {
        ServiceFeeBounds(r.rental, bps);
        AddErrors(ApprovedService(init), ApprovedRental(init), r.service, r.rental, bps, ApprovedCount(init), 1);
      }
    }
  }

  /** At least the nights of one booking over the whole span and at most one more per extension. */
  predicate RentalBounded(f: File, price: nat) {
    var nights := Nights(f.b.startsAt, f.b.endsAt);
    price * nights <= f.b.rental <= price * (nights + ApprovedCount(f.reqs))
  }

  /** Within half a minor unit of the exact commission for every piece billed. */
  predicate ServiceBounded(f: File, bps: nat) {
    var k := ApprovedCount(f.reqs);
    -(BPS * (k + 1)) <= 2 * (BPS * f.b.service - f.b.rental * bps) <= BPS * (k + 1)
  }

  /**
   * With price and commission fixed, a one-unit rental extended k times is billed at least the nights of one
   * booking over the whole span and at most k more, and its service fees are within (k+1)/2 minor units of
   * the exact share.
   */
  lemma {:induction false} RunSplitBilling(owner: Id -> Id, events: seq<Event>, id: Id, price: nat, bps: nat)
    requires OwnedRun(owner, events) && id < |Run(events).bookings| && Run(events).bookings[id].quantity == 1
    requires forall k :: 0 <= k < |events| ==> FixedPrice(events[k].env, Run(events).bookings[id].listing, price, bps)
    ensures RentalBounded(FileOf(Run(events), id), price) && ServiceBounded(FileOf(Run(events), id), bps)
  {
    RunPriced(owner, events, Run(events).bookings[id].listing, price, bps);
    var f := FileOf(Run(events), id);
    RentalWithin(f, price, bps);
    ServiceWithin(f, price, bps);
  }

  lemma RentalWithin(f: File, price: nat, bps: nat)
    requires Basic(f) && Priced(f, price, bps) && f.b.quantity == 1
    ensures RentalBounded(f, price)
  {
    var stops := Stops(f.b.startsAt, f.o.endsAt, f.reqs);
    var nights := Nights(f.b.startsAt, f.b.endsAt);
    StopsIncrease(f.b.startsAt, f.o.endsAt, f.reqs);
    ExtensionsBill(f.b.startsAt, f.o.endsAt, f.reqs, price, bps);
    NightsBilledBounds(stops);
    ScaleBounds(price, nights, NightsBilled(stops), nights + ApprovedCount(f.reqs));
    assert f.b.rental == price * NightsBilled(stops);
  }

  lemma ServiceWithin(f: File, price: nat, bps: nat)
    requires Basic(f) && Priced(f, price, bps)
    ensures ServiceBounded(f, bps)
  {
    ExtensionsFees(f.reqs, price, bps);
    ServiceFeeBounds(f.o.quote.rental, bps);
    AddErrors(f.o.quote.service, f.o.quote.rental, ApprovedService(f.reqs), ApprovedRental(f.reqs), bps, 1,
              ApprovedCount(f.reqs));
  }

  /** Rounding errors add up. */
  lemma AddErrors(s0: nat, r0: nat, s1: nat, r1: nat, bps: nat, k0: nat, k1: nat)
    requires -(BPS * k0) <= 2 * (BPS * s0 - r0 * bps) <= BPS * k0
    requires -(BPS * k1) <= 2 * (BPS * s1 - r1 * bps) <= BPS * k1
    ensures -(BPS * (k0 + k1)) <= 2 * (BPS * (s0 + s1) - (r0 + r1) * bps) <= BPS * (k0 + k1)
  {
    assert (r0 + r1) * bps == r0 * bps + r1 * bps;
  }

  lemma ScaleBounds(price: nat, low: nat, mid: nat, high: nat)
    requires low <= mid <= high
    ensures price * low <= price * mid <= price * high
  {
  }

  /** Extensions forget the quantity: the bill scales with the quantity exactly when there is nothing to scale. */
  lemma QuantityForgottenIff(f: File, price: nat, bps: nat)
    requires Basic(f) && Priced(f, price, bps)
    ensures var stops := Stops(f.b.startsAt, f.o.endsAt, f.reqs);
            f.b.rental == price * NightsBilled(stops) * f.b.quantity
            <==> f.b.quantity == 1 || price == 0 || ApprovedCount(f.reqs) == 0
  {
    var stops := Stops(f.b.startsAt, f.o.endsAt, f.reqs);
    var first, all, q := Nights(f.b.startsAt, f.o.endsAt), NightsBilled(stops), f.b.quantity;
    StopsIncrease(f.b.startsAt, f.o.endsAt, f.reqs);
    ExtensionsBill(f.b.startsAt, f.o.endsAt, f.reqs, price, bps);
    ExtraNights(f.b.startsAt, f.o.endsAt, f.reqs);
    Products(price, first, all, q);
  }

  lemma {:induction false} ExtraNights(start: Time, end: Time, reqs: seq<ExtensionRequest>)
    requires start < end && ChainOk(end, reqs)
    ensures NightsBilled(Stops(start, end, reqs)) >= Nights(start, end)
    ensures NightsBilled(Stops(start, end, reqs)) == Nights(start, end) <==> ApprovedCount(reqs) == 0
  {
    if reqs == [] {
      assert Stops(start, end, reqs)[..1] == [start];
    } else {
      var init, r := reqs[..|reqs| - 1], Last(reqs);
      ChainPrefix(end, reqs);
      ExtraNights(start, end, init);
      StopsStep(start, end, reqs);
      if r.status == Approved {
        StopAdded(Stops(start, end, init), r.requestedEndsAt);
      }
    }
  }

  lemma Products(price: nat, first: nat, all: nat, q: Positive)
    requires first <= all
    ensures price * first * q + (price * all - price * first) == price * all * q
       <==> q == 1 || price == 0 || all == first
  {
    var base, extra := price * first, price * (all - first);
    Distribute(price, first, all - first);
    assert price * all == base + extra;
    Distribute(q, base, extra);
    assert (base + extra) * q == base * q + extra * q;
    ZeroProduct(price, all - first);
    SelfProduct(extra, q);
  }

  lemma Distribute(a: nat, b: nat, c: nat)
    ensures a * (b + c) == a * b + a * c
  {
  }

  lemma ZeroProduct(a: nat, b: nat)
    ensures a * b == 0 <==> a == 0 || b == 0
  {
  }

  lemma SelfProduct(p: nat, q: Positive)
    ensures p == p * q <==> p == 0 || q == 1
  {
    if q >= 2 { assert p * q >= p * 2; }
  }
}
