/** The booking service: every action as the source carries it out, step by step on the tables. */
module Bookings {
  import opened Domain
  import opened Quoting
  import opened Cancellation
  import opened Availability
  import opened Rules
  import opened Database
  import opened Finance
  import opened Lifecycle

  // ---------- composing single steps ----------

  /** `b` moved to `p`. */
  function To(b: Booking, p: Point): Booking { b.(stage := p.stage, status := p.status) }

  /** The constraint objects to no step. */
  ghost predicate Clear(env: Env, bookings: seq<Booking>, id: Id, b: Booking, steps: seq<Point>) {
    !(env.exclusion && exists k :: 0 <= k < |steps| && Excluded(bookings, id, To(b, steps[k])))
  }

  /** The constraint compares a row with the others, not with what the row was before. */
  lemma ExcludedFrame(bookings: seq<Booking>, id: Id, now: Booking, b: Booking)
    requires id < |bookings|
    ensures Excluded(bookings[id := now], id, b) == Excluded(bookings, id, b)
  {
    var changed := bookings[id := now];
    if Excluded(bookings, id, b) {
      var j :| 0 <= j < |bookings| && j != id && bookings[j].Blocking()
               && bookings[j].Unit() == b.Unit() && Overlaps(bookings[j].Span(), b.Span());
      assert changed[j] == bookings[j];
    }
    if Excluded(changed, id, b) {
      var j :| 0 <= j < |changed| && j != id && changed[j].Blocking()
               && changed[j].Unit() == b.Unit() && Overlaps(changed[j].Span(), b.Span());
      assert changed[j] == bookings[j];
    }
  }

  lemma ClearFrame(env: Env, bookings: seq<Booking>, id: Id, now: Booking, b: Booking, steps: seq<Point>)
    requires id < |bookings|
    ensures Clear(env, bookings[id := now], id, b, steps) == Clear(env, bookings, id, b, steps)
  {
    forall k | 0 <= k < |steps|
      ensures Excluded(bookings[id := now], id, To(b, steps[k])) == Excluded(bookings, id, To(b, steps[k]))
    {
      ExcludedFrame(bookings, id, now, To(b, steps[k]));
    }
  }

  lemma {:induction false} TrailConcat(id: Id, from: Point, xs: seq<Point>, ys: seq<Point>, actor: Id, now: Time)
    requires xs != []
    ensures Trail(id, from, xs + ys, actor, now) ==
            Trail(id, from, xs, actor, now) + Trail(id, xs[|xs| - 1], ys, actor, now)
    decreases |xs|
  {
    assert (xs + ys)[1..] == xs[1..] + ys;
    if |xs| == 1 {
      assert xs[1..] == [] && [] + ys == ys;
    } else {
      TrailConcat(id, xs[0], xs[1..], ys, actor, now);
    }
  }

  /** What walking `steps` without new ledger rows leaves. */
  function Walked(s: State, id: Id, b: Booking, steps: seq<Point>, actor: Id, now: Time): State
    requires id < |s.bookings| && steps != []
  {
    Commit(s, id, To(b, steps[|steps| - 1]), [], Trail(id, b.At(), steps, actor, now))
  }

  lemma HistoryTwice(history: seq<HistoryRow>, id: Id, from: Point, xs: seq<Point>, ys: seq<Point>, actor: Id,
                     now: Time)
    requires xs != []
    ensures (history + Trail(id, from, xs, actor, now)) + Trail(id, xs[|xs| - 1], ys, actor, now)
         == history + Trail(id, from, xs + ys, actor, now)
  {
    TrailConcat(id, from, xs, ys, actor, now);
  }

  lemma WalkedTwice(s: State, id: Id, b: Booking, xs: seq<Point>, ys: seq<Point>, actor: Id, now: Time)
    requires id < |s.bookings| && xs != [] && ys != []
    ensures Walked(Walked(s, id, b, xs, actor, now), id, To(b, xs[|xs| - 1]), ys, actor, now)
         == Walked(s, id, b, xs + ys, actor, now)
  {
    HistoryTwice(s.history, id, b.At(), xs, ys, actor, now);
    assert (xs + ys)[|xs + ys| - 1] == ys[|ys| - 1];
    assert s.ledger + [] == s.ledger;
    assert s.bookings[id := To(b, xs[|xs| - 1])][id := To(b, ys[|ys| - 1])] == s.bookings[id := To(b, ys[|ys| - 1])];
  }

  lemma ClearTwice(env: Env, s: State, id: Id, b: Booking, xs: seq<Point>, ys: seq<Point>, actor: Id)
    requires id < |s.bookings| && xs != []
    ensures var mid := Walked(s, id, b, xs, actor, env.now);
            Clear(env, s.bookings, id, b, xs + ys)
            <==> Clear(env, s.bookings, id, b, xs) && Clear(env, mid.bookings, id, To(b, xs[|xs| - 1]), ys)
  {
    ClearFrame(env, s.bookings, id, To(b, xs[|xs| - 1]), To(b, xs[|xs| - 1]), ys);
    if !Clear(env, s.bookings, id, b, xs) {
      var k :| 0 <= k < |xs| && Excluded(s.bookings, id, To(b, xs[k]));
      assert (xs + ys)[k] == xs[k];
    }
    if !Clear(env, s.bookings, id, To(b, xs[|xs| - 1]), ys) {
      var k :| 0 <= k < |ys| && Excluded(s.bookings, id, To(To(b, xs[|xs| - 1]), ys[k]));
      assert (xs + ys)[|xs| + k] == ys[k];
    }
    if !Clear(env, s.bookings, id, b, xs + ys) {
      var k :| 0 <= k < |xs + ys| && Excluded(s.bookings, id, To(b, (xs + ys)[k]));
      if k >= |xs| { assert To(To(b, xs[|xs| - 1]), ys[k - |xs|]) == To(b, (xs + ys)[k]); }
    }
  }

  /** The rule's walk is the walk on tables that already hold the new ledger rows. */
  lemma WalkIs(env: Env, s: State, id: Id, b: Booking, txs: seq<Transaction>, steps: seq<Point>, actor: Id)
    requires id < |s.bookings| && steps != [] && b.At() == s.bookings[id].At()
    ensures Walk(env, s, id, b, txs, steps, actor) ==
            if Clear(env, s.bookings, id, b, steps)
            then Done(Walked(s.(ledger := s.ledger + txs), id, b, steps, actor, env.now), id)
            else Failed(ExclusionViolation)
  {
    assert s.ledger + txs + [] == s.ledger + txs;
    forall k | 0 <= k < |steps|
      ensures To(b, steps[k]) == b.(stage := steps[k].stage, status := steps[k].status) { }
  }

  class BookingService {
    const db: Tables
    const finance: FinanceService

    constructor (db: Tables, finance: FinanceService)
      requires finance.db == db
      ensures this.db == db && this.finance == finance && Wired()
    {
      this.db, this.finance := db, finance;
    }

    /** The services share one set of tables. */
    ghost predicate Wired() { finance.db == db }

    // ---------- step loop ----------

    method RecordTransition(id: Id, from: Option<Point>, to: Point, actor: Id, now: Time)
      modifies db
      ensures db.View() == old(db.View()).(history := old(db.history) + [HistoryRow(id, from, to, actor, now)])
    {
      db.AppendHistory(HistoryRow(id, from, to, actor, now));
    }

    /** Applies each step in order, writing one history row per step; stops where the constraint refuses a save. */
    method RunSteps(env: Env, id: Id, booking: Booking, steps: seq<Point>, actor: Id)
      returns (ok: bool, current: Booking)
      requires id < |db.bookings| && steps != []
      modifies db
      ensures ok <==> Clear(env, old(db.bookings), id, booking, steps)
      ensures ok ==> current == To(booking, steps[|steps| - 1])
                     && db.View() == Walked(old(db.View()), id, booking, steps, actor, env.now)
    {
      current := booking;
      ghost var before := db.View();
      var i := 0;
      while i < |steps|
        invariant 0 <= i <= |steps|
        invariant i == 0 ==> current == booking && db.View() == before
        invariant i > 0 ==> current == To(booking, steps[i - 1])
                            && db.View() == Walked(before, id, booking, steps[..i], actor, env.now)
        invariant Clear(env, before.bookings, id, booking, steps[..i])
      {
        var from, to := current.At(), steps[i];
        ghost var done, here := steps[..i], db.View();
        assert steps[..i + 1] == done + [to];
        if i > 0 {
          ClearTwice(env, before, id, booking, done, [to], actor);
          WalkedTwice(before, id, booking, done, [to], actor, env.now);
        } else {
          assert done + [to] == [to];
        }
        assert [to][0] == to;
        current := To(current, to);
        var saved := db.SaveBooking(env, id, current);
        if !saved {
          assert !Clear(env, here.bookings, id, current, [to]);
          assert !Clear(env, before.bookings, id, booking, steps[..i + 1]);
          ClearPrefix(env, before.bookings, id, booking, steps, i + 1);
          return false, current;
        }
        RecordTransition(id, Some(from), to, actor, env.now);
        OneStep(here, id, if i == 0 then booking else To(booking, steps[i - 1]), to, actor, env.now);
        i := i + 1;
      }
      assert steps[..i] == steps;
      return true, current;
    }

    /** Three runSteps calls in a row, as create, approve and a clean inspection make them. */
    method RunThree(env: Env, id: Id, booking: Booking, p: Point, q: Point, r: Point, actor: Id) returns (ok: bool)
      requires id < |db.bookings|
      modifies db
      ensures ok <==> Clear(env, old(db.bookings), id, booking, [p, q, r])
      ensures ok ==> db.View() == Walked(old(db.View()), id, booking, [p, q, r], actor, env.now)
    {
      ghost var before := db.View();
      ThreeSteps(env, before, id, booking, p, q, r, actor);
      var first, b1 := RunSteps(env, id, booking, [p], actor);
      if !first {
        return false;
      }
      var second, b2 := RunSteps(env, id, b1, [q], actor);
      if !second {
        return false;
      }
      var third, b3 := RunSteps(env, id, b2, [r], actor);
      return third;
    }

    method SetStatusOnly(env: Env, id: Id, booking: Booking, status: Status, actor: Id)
      returns (ok: bool, current: Booking)
      requires id < |db.bookings|
      modifies db
      ensures ok <==> Clear(env, old(db.bookings), id, booking, [Point(booking.stage, status)])
      ensures ok ==> current == To(booking, Point(booking.stage, status))
                     && db.View() == Walked(old(db.View()), id, booking, [Point(booking.stage, status)], actor, env.now)
    {
      ghost var before := db.View();
      var from := booking.At();
      current := booking.(status := status);
      assert [Point(booking.stage, status)][0] == Point(booking.stage, status);
      ok := db.SaveBooking(env, id, current);
      if ok {
        RecordTransition(id, Some(from), current.At(), actor, env.now);
        OneStep(before, id, booking, Point(booking.stage, status), actor, env.now);
      }
    }

    // ---------- creating ----------

    /** The first active asset without a conflicting booking. */
    method PickAsset(assets: seq<Id>, w: Window, buffer: nat) returns (asset: Option<Id>)
      ensures asset == FirstFree(db.bookings, assets, w, buffer)
    {
      var i := 0;
      while i < |assets|
        invariant 0 <= i <= |assets|
        invariant FirstFree(db.bookings, assets, w, buffer) == FirstFree(db.bookings, assets[i..], w, buffer)
      {
        assert assets[i..][1..] == assets[i + 1..];
        var conflict := HasOverlapForAsset(db.bookings, assets[i], w, buffer, None);
        if !conflict {
          return Some(assets[i]);
        }
        i := i + 1;
      }
      return None;
    }

    method CheckAdmission(id: Id, listing: Listing, w: Window, quantity: Positive) returns (admission: Admission)
      ensures admission == Admit(db.bookings, id, listing, w, quantity)
    {
      if |listing.activeAssets| > 0 {
        if quantity > 1 {
          return Rejected(QuantityInvalid);
        }
        var asset := PickAsset(listing.activeAssets, w, listing.buffer);
        if asset.None? {
          return Rejected(DatesUnavailable);
        }
        return Admitted(asset);
      }
      if quantity > listing.quantityAvailable {
        return Rejected(QuantityInvalid);
      }
      var booked := BookedQuantity(db.bookings, id, w, listing.buffer);
      if booked + quantity > listing.quantityAvailable {
        return Rejected(DatesUnavailable);
      }
      return Admitted(None);
    }

    /** The inserting transaction. */
    method InsertNew(env: Env, booking: Booking, quote: Quote, actor: Id, reference: string) returns (r: Reply)
      requires Wired()
      modifies db
      ensures Performs(Insert(env, old(db.View()), booking, quote, actor, reference), old(db.View()), db.View(), r)
    {
      var before := db.View();
      var id := |db.bookings|;
      var error := db.InsertBooking(env, booking, Original(quote, booking.endsAt));
      if error.Some? {
        return Refused(error.value);
      }
      RecordTransition(id, None, booking.At(), actor, env.now);
      ghost var created := db.View();
      if booking.mode == OnRequest {
        return Ok(id);
      }
      var paid := booking.(paid := Some(reference));
      finance.RecordCharge(id, booking, quote.total, reference);
      WalkIs(env, created, id, paid, Posted(RenterRow(Charge, id, booking, quote.total, None, Some(reference))),
             TO_RESERVED, actor);
      var ok := RunThree(env, id, paid, Point(Accepted, Pending), Point(Payment, Pending), Point(Reserved, Confirmed),
                         actor);
      if !ok {
        db.Rollback(before);
        return Refused(ExclusionViolation);
      }
      return Ok(id);
    }

    method Create(env: Env, actor: Id, listingId: Id, from: Time, to: Time, quantity: Positive,
                  key: Option<string>, reference: string) returns (r: Reply)
      requires Wired()
      modifies db
      ensures Performs(CreateOutcome(env, old(db.View()),
                                     Action.Create(actor, listingId, from, to, quantity, key, reference)),
                       old(db.View()), db.View(), r)
    {
      ghost var a := Action.Create(actor, listingId, from, to, quantity, key, reference);
      if key.Some? && key.value != "" {
        var existing := FindByKey(db.bookings, key.value);
        if existing.Some? {
          return Ok(existing.value);
        }
      }
      if listingId !in env.catalog {
        return Refused(NotFound);
      }
      var listing := env.catalog[listingId];
      if !listing.live {
        return Refused(ListingNotLive);
      }
      if from > to {
        return Refused(InvalidRange);
      }
      if IsBlocked(listing, Window(from, to)) {
        return Refused(DatesUnavailable);
      }
      var admission := CheckAdmission(listingId, listing, Window(from, to), quantity);
      if admission.Rejected? {
        return Refused(admission.error);
      }
      var quote := ComputeQuote(listing, from, to, quantity);
      if quote.None? {
        return Refused(DateRangeInvalid);
      }
      var q := quote.value;
      var booking := Booking(listingId, admission.asset, actor, quantity, from, to, Pending, Requested, listing.mode,
                             q.rental, q.service, q.deposit, q.total, listing.policy, key, None);
      assert booking == NewBooking(a, listing, admission.asset, q);
      r := InsertNew(env, booking, q, actor, reference);
    }

    /** quantityAvailable, quantityBooked and quantityFree for a window; None if the listing or range is no good. */
    method GetAvailableQuantity(env: Env, listingId: Id, w: Window) returns (answer: Option<(nat, nat, nat)>)
      ensures answer.None? <==> listingId !in env.catalog
                                || var padded := Padded(w, env.catalog[listingId].buffer); padded.from > padded.to
      ensures answer.Some? ==>
                var listing := env.catalog[listingId];
                && answer.value.2 == QuantityFree(db.bookings, listingId, listing, w)
                && (listing.activeAssets != [] ==>
                      answer.value.0 == |listing.activeAssets| == answer.value.1 + answer.value.2)
                && (listing.activeAssets == [] ==>
                      answer.value.0 == listing.quantityAvailable
                      && answer.value.1 == BookedQuantity(db.bookings, listingId, w, listing.buffer))
    {
      if listingId !in env.catalog {
        return None;
      }
      var listing := env.catalog[listingId];
      if Padded(w, listing.buffer).from > Padded(w, listing.buffer).to {
        return None;
      }
      if |listing.activeAssets| > 0 {
        var free: nat := 0;
        var i := 0;
        while i < |listing.activeAssets|
          invariant 0 <= i <= |listing.activeAssets| && free <= i
          invariant free == FreeAssets(db.bookings, listing.activeAssets[..i], w, listing.buffer)
        {
          assert listing.activeAssets[..i + 1][..i] == listing.activeAssets[..i];
          var conflict := HasOverlapForAsset(db.bookings, listing.activeAssets[i], w, listing.buffer, None);
          if !conflict {
            free := free + 1;
          }
          i := i + 1;
        }
        assert listing.activeAssets[..i] == listing.activeAssets;
        return Some((|listing.activeAssets|, |listing.activeAssets| - free, free));
      }
      var booked := BookedQuantity(db.bookings, listingId, w, listing.buffer);
      return Some((listing.quantityAvailable, booked,
                   if listing.quantityAvailable < booked then 0 else listing.quantityAvailable - booked));
    }

    // ---------- approving, declining, cancelling ----------

    method Approve(env: Env, id: Id, actor: Id, reference: string) returns (r: Reply)
      requires Wired()
      modifies db
      ensures Performs(ApproveOutcome(env, old(db.View()), Action.Approve(id, actor, reference)), old(db.View()),
                       db.View(), r)
    {
      if id >= |db.bookings| {
        return Refused(NotFound);
      }
      var booking := db.bookings[id];
      if booking.mode != OnRequest || booking.status != Pending {
        return Refused(NotApprovable);
      }
      var before := db.View();
      finance.RecordCharge(id, booking, booking.total, reference);
      var paid := booking.(paid := Some(reference));
      WalkIs(env, before, id, paid, Posted(RenterRow(Charge, id, booking, booking.total, None, Some(reference))),
             TO_RESERVED, actor);
      var ok := RunThree(env, id, paid, Point(Accepted, Pending), Point(Payment, Pending), Point(Reserved, Confirmed),
                         actor);
      if !ok {
        db.Rollback(before);
        return Refused(ExclusionViolation);
      }
      return Ok(id);
    }

    method Decline(env: Env, id: Id, actor: Id) returns (r: Reply)
      modifies db
      ensures Performs(DeclineOutcome(env, old(db.View()), Action.Decline(id, actor)), old(db.View()), db.View(), r)
    {
      if id >= |db.bookings| {
        return Refused(NotFound);
      }
      var booking := db.bookings[id];
      if booking.status != Pending {
        return Refused(NotApprovable);
      }
      var before := db.View();
      assert before.ledger + [] == before.ledger;
      WalkIs(env, before, id, booking, [], [Point(booking.stage, Declined)], actor);
      var ok, current := SetStatusOnly(env, id, booking, Declined, actor);
      if !ok {
        db.Rollback(before);
        return Refused(ExclusionViolation);
      }
      return Ok(id);
    }

    method Cancel(env: Env, id: Id, actor: Id) returns (r: Reply)
      requires Wired()
      modifies db
      ensures Performs(CancelOutcome(env, old(db.View()), Action.Cancel(id, actor)), old(db.View()), db.View(), r)
    {
      if id >= |db.bookings| {
        return Refused(NotFound);
      }
      var booking := db.bookings[id];
      if !booking.IsBeforePickup() || booking.status == Cancelled {
        return Refused(InvalidTransition);
      }
      var before := db.View();
      if booking.status == Confirmed {
        var refunded := ComputeRefund(booking.policy, booking.startsAt, env.now, booking.total, booking.deposit);
        finance.RecordRefund(id, booking, refunded.refund);
      } else {
        assert before.ledger + [] == before.ledger;
      }
      WalkIs(env, before, id, booking, CancelRefund(env, id, booking), [Point(booking.stage, Cancelled)], actor);
      var ok, current := SetStatusOnly(env, id, booking, Cancelled, actor);
      if !ok {
        db.Rollback(before);
        return Refused(ExclusionViolation);
      }
      return Ok(id);
    }

    /** A pure read: what cancelling now would give back. */
    method PreviewCancellationRefund(env: Env, id: Id) returns (preview: Option<Refunded>)
      ensures preview == if id < |db.bookings| then Some(Preview(db.bookings[id], env.now)) else None
    {
      if id >= |db.bookings| {
        return None;
      }
      var booking := db.bookings[id];
      if booking.status != Confirmed {
        var isPending := booking.status == Pending;
        return Some(Refunded(if isPending then booking.total else 0, if isPending then 100 else 0,
                             if isPending then 0 else booking.total));
      }
      return Some(ComputeRefund(booking.policy, booking.startsAt, env.now, booking.total, booking.deposit));
    }

    // ---------- handing over and returning ----------

    /** Looks at the stage and at nothing else. */
    method AssertStage(id: Id, allowed: set<Stage>) returns (error: Option<Error>)
      ensures error == if id >= |db.bookings| then Some(NotFound)
                       else if db.bookings[id].stage !in allowed then Some(InvalidTransition) else None
    {
      if id >= |db.bookings| {
        return Some(NotFound);
      }
      return if db.bookings[id].stage in allowed then None else Some(InvalidTransition);
    }

    method RunFromStages(env: Env, id: Id, allowed: set<Stage>, steps: seq<Point>, actor: Id) returns (r: Reply)
      requires steps != []
      modifies db
      ensures Performs(FromStages(env, old(db.View()), id, allowed, steps, actor), old(db.View()), db.View(), r)
    {
      var error := AssertStage(id, allowed);
      if error.Some? {
        return Refused(error.value);
      }
      var before := db.View();
      assert before.ledger + [] == before.ledger;
      WalkIs(env, before, id, before.bookings[id], [], steps, actor);
      var ok, current := RunSteps(env, id, db.bookings[id], steps, actor);
      if !ok {
        db.Rollback(before);
        return Refused(ExclusionViolation);
      }
      return Ok(id);
    }

    method ConfirmHandover(env: Env, id: Id, actor: Id) returns (r: Reply)
      modifies db
      ensures Performs(Step(env, old(db.View()), Action.ConfirmHandover(id, actor)), old(db.View()), db.View(), r)
    {
      r := RunFromStages(env, id, {Reserved, Ready},
                         [Point(Ready, Confirmed), Point(PickedUp, Confirmed), Point(Active, Confirmed)], actor);
    }

    method ScheduleReturn(env: Env, id: Id, actor: Id) returns (r: Reply)
      modifies db
      ensures Performs(Step(env, old(db.View()), Action.ScheduleReturn(id, actor)), old(db.View()), db.View(), r)
    {
      r := RunFromStages(env, id, {Active}, [Point(ReturnSched, Confirmed)], actor);
    }

    method ConfirmReturn(env: Env, id: Id, actor: Id) returns (r: Reply)
      modifies db
      ensures Performs(Step(env, old(db.View()), Action.ConfirmReturn(id, actor)), old(db.View()), db.View(), r)
    {
      r := RunFromStages(env, id, {ReturnSched, Active}, [Point(Returned, Confirmed)], actor);
    }

    // ---------- inspecting and finalizing ----------

    method RecordInspection(env: Env, id: Id, actor: Id, damageFound: bool) returns (r: Reply)
      requires Wired()
      modifies db
      ensures Performs(InspectOutcome(env, old(db.View()), Action.RecordInspection(id, actor, damageFound)),
                       old(db.View()), db.View(), r)
    {
      var error := AssertStage(id, {Returned});
      if error.Some? {
        return Refused(error.value);
      }
      if damageFound {
        r := InspectDamage(env, id, actor);
      } else {
        r := InspectClean(env, id, actor);
      }
    }

    /** No damage: the deposit goes back, the booking completes, the provider is credited. */
    method InspectClean(env: Env, id: Id, actor: Id) returns (r: Reply)
      requires Wired() && id < |db.bookings| && db.bookings[id].stage == Returned
      modifies db
      ensures Performs(InspectOutcome(env, old(db.View()), Action.RecordInspection(id, actor, false)),
                       old(db.View()), db.View(), r)
    {
      var booking := db.bookings[id];
      var before := db.View();
      var listed := booking.listing in env.catalog;
      ghost var release := ReleaseRows(id, booking, booking.deposit, None);
      ghost var steps := [Point(Inspected, Confirmed), Point(DepositReleased, Confirmed), Point(Closed, Completed)];
      assert steps == [Point(Inspected, Confirmed)] + TO_COMPLETED;
      ghost var earned := if listed then CleanRows(id, booking, env.catalog[booking.listing].provider) else [];
      WalkIs(env, before, id, booking, earned, steps, actor);
      if booking.deposit > 0 {
        finance.RecordDepositRelease(id, booking, booking.deposit, None);
      } else {
        assert before.ledger + release == before.ledger;
      }
      var ok := RunThree(env, id, booking, Point(Inspected, Confirmed), Point(DepositReleased, Confirmed),
                         Point(Closed, Completed), actor);
      if !ok {
        db.Rollback(before);
        return Refused(ExclusionViolation);
      }
      if !listed {
        db.Rollback(before);
        return Refused(NotFound);
      }
      var provider := env.catalog[booking.listing].provider;
      ghost var earning := Posted(ProviderRow(ProviderEarning, id, provider, booking.rental, None));
      LedgerLast(before, id, booking, release, earning, steps, actor, env.now);
      finance.RecordProviderEarning(id, provider, booking.rental);
      return Ok(id);
    }

    /** Damage: parked as disputed at INSPECTED, with an open dispute. */
    method InspectDamage(env: Env, id: Id, actor: Id) returns (r: Reply)
      requires id < |db.bookings| && db.bookings[id].stage == Returned
      modifies db
      ensures Performs(InspectOutcome(env, old(db.View()), Action.RecordInspection(id, actor, true)),
                       old(db.View()), db.View(), r)
    {
      var booking := db.bookings[id];
      var before := db.View();
      assert before.ledger + [] == before.ledger;
      ghost var xs, ys := [Point(Inspected, Confirmed)], [Point(Inspected, Disputed)];
      assert xs + ys == [Point(Inspected, Confirmed), Point(Inspected, Disputed)];
      WalkIs(env, before, id, booking, [], xs + ys, actor);
      WalkedTwice(before, id, booking, xs, ys, actor, env.now);
      ClearTwice(env, before, id, booking, xs, ys, actor);
      var first, inspected := RunSteps(env, id, booking, [Point(Inspected, Confirmed)], actor);
      if !first {
        db.Rollback(before);
        return Refused(ExclusionViolation);
      }
      var second, disputed := SetStatusOnly(env, id, inspected, Disputed, actor);
      if !second {
        db.Rollback(before);
        return Refused(ExclusionViolation);
      }
      var stored := db.InsertDispute(Dispute(id, actor, Open, None, None, None, None, None));
      if !stored {
        db.Rollback(before);
        return Refused(UniqueViolation);
      }
      return Ok(id);
    }

    /** The ledger rows of a resolved dispute. */
    method RecordResolution(id: Id, booking: Booking, provider: Id, deduction: nat, dispute: Id)
      requires Wired()
      modifies db
      ensures db.View() == old(db.View()).(ledger := old(db.ledger)
                                           + FinalizeRows(id, booking, provider, deduction, dispute))
    {
      var release := if booking.deposit - deduction < 0 then 0 else booking.deposit - deduction;
      ghost var before := db.View();
      ghost var x := ReleaseRows(id, booking, release, Some(dispute));
      ghost var y := Posted(ProviderRow(ProviderForfeitCredit, id, provider, deduction, Some(dispute)));
      ghost var z := Posted(ProviderRow(ProviderEarning, id, provider, booking.rental, None));
      if release > 0 {
        finance.RecordDepositRelease(id, booking, release, Some(dispute));
      } else {
        assert before.ledger + x == before.ledger;
      }
      if deduction > 0 {
        finance.RecordProviderForfeitCredit(id, provider, deduction, dispute);
      } else {
        assert before.ledger + x + y == before.ledger + x;
      }
      finance.RecordProviderEarning(id, provider, booking.rental);
      assert before.ledger + x + y + z == before.ledger + (x + y + z);
    }

    /** From disputed back to confirmed, then on to completion; the constraint is consulted again on the way. */
    method RunResolution(env: Env, id: Id, booking: Booking, actor: Id) returns (ok: bool)
      requires id < |db.bookings|
      modifies db
      ensures ok <==> Clear(env, old(db.bookings), id, booking, [Point(booking.stage, Confirmed)] + TO_COMPLETED)
      ensures ok ==> db.View() ==
                     Walked(old(db.View()), id, booking, [Point(booking.stage, Confirmed)] + TO_COMPLETED, actor,
                            env.now)
    {
      ghost var steps := [Point(booking.stage, Confirmed), Point(DepositReleased, Confirmed), Point(Closed, Completed)];
      assert steps == [Point(booking.stage, Confirmed)] + TO_COMPLETED;
      ThreeSteps(env, db.View(), id, booking, steps[0], steps[1], steps[2], actor);
      var first, undisputed := SetStatusOnly(env, id, booking, Confirmed, actor);
      if !first {
        return false;
      }
      var second, released := RunSteps(env, id, undisputed, [Point(DepositReleased, Confirmed)], actor);
      if !second {
        return false;
      }
      var third, completed := RunSteps(env, id, released, [Point(Closed, Completed)], actor);
      return third;
    }

    /**
     * Releases what the deduction leaves of the deposit, credits the provider and completes the booking, within
     * the caller's transaction: on an error the caller rolls back.
     */
    method FinalizeDispute(env: Env, id: Id, deduction: nat, actor: Id, dispute: Id) returns (error: Option<Error>)
      requires Wired()
      modifies db
      ensures var s := old(db.View());
              if id >= |s.bookings| || s.bookings[id].listing !in env.catalog then error == Some(NotFound)
              else
                var b := s.bookings[id];
                match Walk(env, s, id, b, FinalizeRows(id, b, env.catalog[b.listing].provider, deduction, dispute),
                           [Point(b.stage, Confirmed)] + TO_COMPLETED, actor)
                case Failed(e) => error == Some(e)
                case Done(walked, _) => error == None && db.View() == walked
    {
      if id >= |db.bookings| {
        return Some(NotFound);
      }
      var booking := db.bookings[id];
      if booking.listing !in env.catalog {
        return Some(NotFound);
      }
      var provider := env.catalog[booking.listing].provider;
      ghost var before := db.View();
      WalkIs(env, before, id, booking, FinalizeRows(id, booking, provider, deduction, dispute),
             [Point(booking.stage, Confirmed)] + TO_COMPLETED, actor);
      RecordResolution(id, booking, provider, deduction, dispute);
      var ok := RunResolution(env, id, booking, actor);
      return if ok then None else Some(ExclusionViolation);
    }

    // ---------- extensions ----------

    method AssertExtensionWindowAvailable(id: Id, listing: Listing, newEndsAt: Time) returns (error: Option<Error>)
      requires id < |db.bookings|
      ensures error == ExtensionError(db.bookings, id, listing, newEndsAt)
    {
      var booking := db.bookings[id];
      var w := Window(booking.endsAt, newEndsAt);
      if w.from > w.to {
        return Some(InvalidRange);
      }
      if IsBlocked(listing, w) {
        return Some(DatesUnavailable);
      }
      var conflict;
      if booking.asset.Some? {
        conflict := HasOverlapForAsset(db.bookings, booking.asset.value, w, listing.buffer, Some(id));
      } else {
        conflict := HasOverlap(db.bookings, booking.listing, w, listing.buffer, Some(id));
      }
      return if conflict then Some(DatesUnavailable) else None;
    }

    method RequestExtension(env: Env, id: Id, renter: Id, newEndsAt: Time) returns (r: Reply)
      modifies db
      ensures Performs(RequestExtensionOutcome(env, old(db.View()), Action.RequestExtension(id, renter, newEndsAt)),
                       old(db.View()), db.View(), r)
    {
      var wrongStage := AssertStage(id, {Active});
      if wrongStage.Some? {
        return Refused(wrongStage.value);
      }
      var booking := db.bookings[id];
      if booking.renter != renter {
        return Refused(Forbidden);
      }
      if newEndsAt <= booking.endsAt {
        return Refused(DateRangeInvalid);
      }
      if booking.listing !in env.catalog {
        return Refused(NotFound);
      }
      var listing := env.catalog[booking.listing];
      var error := AssertExtensionWindowAvailable(id, listing, newEndsAt);
      if error.Some? {
        return Refused(error.value);
      }
      var quote := ComputeQuote(listing, booking.endsAt, newEndsAt, 1);
      if quote.None? {
        return Refused(DateRangeInvalid);
      }
      var k := |db.requests|;
      var ok := db.InsertRequest(ExtensionRequest(id, renter, booking.endsAt, newEndsAt, RequestPending,
                                                  quote.value.rental, quote.value.service, None, None));
      return if ok then Ok(k) else Refused(UniqueViolation);
    }

    method ApproveExtension(env: Env, k: Id, actor: Id, reference: string) returns (r: Reply)
      requires Wired()
      modifies db
      ensures Performs(ApproveExtensionOutcome(env, old(db.View()), Action.ApproveExtension(k, actor, reference)),
                       old(db.View()), db.View(), r)
    {
      if k >= |db.requests| {
        return Refused(NotFound);
      }
      var request := db.requests[k];
      var id := request.booking;
      if request.status != RequestPending {
        return Refused(ExtensionInvalidState);
      }
      if id >= |db.bookings| || db.bookings[id].listing !in env.catalog {
        return Refused(NotFound);
      }
      var booking := db.bookings[id];
      var error := AssertExtensionWindowAvailable(id, env.catalog[booking.listing], request.requestedEndsAt);
      if error.Some? {
        return Refused(error.value);
      }
      var additional := request.rental + request.service;
      var longer := booking.(endsAt := request.requestedEndsAt, rental := booking.rental + request.rental,
                             service := booking.service + request.service, total := booking.total + additional,
                             paid := Some(reference));
      var saved := db.SaveBooking(env, id, longer);
      if !saved {
        return Refused(ExclusionViolation);
      }
      finance.RecordCharge(id, longer, additional, reference);
      RecordTransition(id, Some(Point(Active, booking.status)), Point(Active, booking.status), actor, env.now);
      db.SaveRequest(k, request.(status := Approved, decidedBy := Some(actor), decidedAt := Some(env.now)));
      return Ok(id);
    }

    method DeclineExtension(env: Env, k: Id, actor: Id) returns (r: Reply)
      modifies db
      ensures Performs(CloseExtensionOutcome(env, old(db.View()), Action.DeclineExtension(k, actor)),
                       old(db.View()), db.View(), r)
    {
      if k >= |db.requests| {
        return Refused(NotFound);
      }
      var request := db.requests[k];
      if request.status != RequestPending {
        return Refused(ExtensionInvalidState);
      }
      db.SaveRequest(k, request.(status := RequestDeclined, decidedBy := Some(actor), decidedAt := Some(env.now)));
      return Ok(k);
    }

    method CancelExtensionRequest(env: Env, k: Id, renter: Id) returns (r: Reply)
      modifies db
      ensures Performs(CloseExtensionOutcome(env, old(db.View()), Action.CancelExtension(k, renter)),
                       old(db.View()), db.View(), r)
    {
      if k >= |db.requests| {
        return Refused(NotFound);
      }
      var request := db.requests[k];
      if request.status != RequestPending {
        return Refused(ExtensionInvalidState);
      }
      if request.requestedBy != renter {
        return Refused(Forbidden);
      }
      db.SaveRequest(k, request.(status := RequestCancelled));
      return Ok(k);
    }
  }

  /** Ledger rows may be written after the steps as well as before. */
  lemma LedgerLast(s: State, id: Id, b: Booking, xs: seq<Transaction>, ys: seq<Transaction>, steps: seq<Point>,
                   actor: Id, now: Time)
    requires id < |s.bookings| && steps != []
    ensures var walked := Walked(s.(ledger := s.ledger + xs), id, b, steps, actor, now);
            walked.(ledger := walked.ledger + ys)
              == Walked(s.(ledger := s.ledger + (xs + ys)), id, b, steps, actor, now)
  {
    assert s.ledger + xs + [] + ys == s.ledger + (xs + ys) + [];
  }

  lemma ThreeSteps(env: Env, s: State, id: Id, b: Booking, p: Point, q: Point, r: Point, actor: Id)
    requires id < |s.bookings|
    ensures var s1 := Walked(s, id, b, [p], actor, env.now);
            var s2 := Walked(s1, id, To(b, p), [q], actor, env.now);
            && Walked(s2, id, To(To(b, p), q), [r], actor, env.now) == Walked(s, id, b, [p, q, r], actor, env.now)
            && (Clear(env, s.bookings, id, b, [p, q, r])
                <==> && Clear(env, s.bookings, id, b, [p])
                     && Clear(env, s1.bookings, id, To(b, p), [q])
                     && Clear(env, s2.bookings, id, To(To(b, p), q), [r]))
  {
    WalkedTwice(s, id, b, [p], [q], actor, env.now);
    ClearTwice(env, s, id, b, [p], [q], actor);
    assert [p] + [q] == [p, q] && [p, q] + [r] == [p, q, r];
    WalkedTwice(s, id, b, [p, q], [r], actor, env.now);
    ClearTwice(env, s, id, b, [p, q], [r], actor);
    assert To(To(b, p), q) == To(b, q);
  }

  lemma ClearPrefix(env: Env, bookings: seq<Booking>, id: Id, b: Booking, steps: seq<Point>, n: nat)
    requires n <= |steps| && !Clear(env, bookings, id, b, steps[..n])
    ensures !Clear(env, bookings, id, b, steps)
  {
    var k :| 0 <= k < n && Excluded(bookings, id, To(b, steps[..n][k]));
    assert steps[k] == steps[..n][k];
  }

  lemma OneStep(s: State, id: Id, b: Booking, to: Point, actor: Id, now: Time)
    requires id < |s.bookings|
    ensures Walked(s, id, b, [to], actor, now) ==
            s.(bookings := s.bookings[id := To(b, to)],
               history := s.history + [HistoryRow(id, Some(b.At()), to, actor, now)])
  {
    assert Trail(id, b.At(), [to], actor, now) == [HistoryRow(id, Some(b.At()), to, actor, now)] + [];
    assert s.ledger + [] == s.ledger;
  }
}
