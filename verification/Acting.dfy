/**
 * What each action on a booking promises, spelled out: when it goes through, why it does not, and every row it
 * leaves, in the terms of the tables and without the rules the services share.
 */
module Acting {
  import opened Domain
  import opened Availability
  import opened Rules
  import opened Windows
  import opened Creating
  import Cancellation

  // ---------- the constraint and the step loop ----------

  /** Nobody else takes the booking's unit during its dates, or the constraint is not installed. */
  ghost predicate HasPlace(env: Env, s: State, id: Id)
    requires id < |s.bookings|
  {
    env.exclusion ==>
      forall j :: 0 <= j < |s.bookings| && j != id && SameUnit(s.bookings[j], s.bookings[id]) ==>
        !Taken(s.bookings[j], s.bookings[id].startsAt, s.bookings[id].endsAt)
  }

  lemma {:induction false} MayBlockIff(env: Env, s: State, id: Id, b: Booking, p: Point)
    requires id < |s.bookings| && b.(paid := s.bookings[id].paid) == s.bookings[id]
    requires p.status == Pending || p.status == Confirmed
    ensures env.exclusion && Excluded(s.bookings, id, b.(stage := p.stage, status := p.status))
       <==> !HasPlace(env, s, id)
  {
    ExcludedIff(s.bookings, id, b.(stage := p.stage, status := p.status));
  }

  lemma WalkOfOne(env: Env, s: State, id: Id, b: Booking, txs: seq<Transaction>, p: Point, actor: Id)
    requires id < |s.bookings| && b.(paid := s.bookings[id].paid) == s.bookings[id]
    ensures Walk(env, s, id, b, txs, [p], actor) ==
            if (p.status == Pending || p.status == Confirmed) && !HasPlace(env, s, id) then Failed(ExclusionViolation)
            else Done(s.(bookings := s.bookings[id := b.(stage := p.stage, status := p.status)],
                         ledger := s.ledger + txs,
                         history := s.history + [HistoryRow(id, Some(s.bookings[id].At()), p, actor, env.now)]), id)
  {
    var from := s.bookings[id].At();
    assert [p][1..] == [] && Trail(id, p, [], actor, env.now) == [];
    assert Trail(id, from, [p], actor, env.now) == [HistoryRow(id, Some(from), p, actor, env.now)];
    assert [p][0] == p;
    if p.status == Pending || p.status == Confirmed { MayBlockIff(env, s, id, b, p); }
  }

  lemma WalkOfTwo(env: Env, s: State, id: Id, b: Booking, txs: seq<Transaction>, p: Point, q: Point, actor: Id)
    requires id < |s.bookings| && b.(paid := s.bookings[id].paid) == s.bookings[id] && p.status == Confirmed
    ensures Walk(env, s, id, b, txs, [p, q], actor) ==
            if !HasPlace(env, s, id) then Failed(ExclusionViolation)
            else Done(s.(bookings := s.bookings[id := b.(stage := q.stage, status := q.status)],
                         ledger := s.ledger + txs,
                         history := s.history + [HistoryRow(id, Some(s.bookings[id].At()), p, actor, env.now),
                                                 HistoryRow(id, Some(p), q, actor, env.now)]), id)
  {
    var from := s.bookings[id].At();
    assert [p, q][1..] == [q] && [q][1..] == [] && Trail(id, q, [], actor, env.now) == [];
    assert Trail(id, p, [q], actor, env.now) == [HistoryRow(id, Some(p), q, actor, env.now)];
    assert [p, q][0] == p && [p, q][1] == q;
    MayBlockIff(env, s, id, b, p);
    if q.status == Pending || q.status == Confirmed { MayBlockIff(env, s, id, b, q); }
  }

  lemma WalkOfThree(env: Env, s: State, id: Id, b: Booking, txs: seq<Transaction>, p: Point, q: Point, r: Point,
                    actor: Id)
    requires id < |s.bookings| && b.(paid := s.bookings[id].paid) == s.bookings[id]
    requires p.status == Pending || p.status == Confirmed
    ensures Walk(env, s, id, b, txs, [p, q, r], actor) ==
            if !HasPlace(env, s, id) then Failed(ExclusionViolation)
            else Done(s.(bookings := s.bookings[id := b.(stage := r.stage, status := r.status)],
                         ledger := s.ledger + txs,
                         history := s.history + [HistoryRow(id, Some(s.bookings[id].At()), p, actor, env.now),
                                                 HistoryRow(id, Some(p), q, actor, env.now),
                                                 HistoryRow(id, Some(q), r, actor, env.now)]), id)
  {
    TrailOfThree(id, s.bookings[id].At(), p, q, r, actor, env.now);
    assert [p, q, r][0] == p && [p, q, r][1] == q && [p, q, r][2] == r;
    MayBlockIff(env, s, id, b, p);
    if q.status == Pending || q.status == Confirmed { MayBlockIff(env, s, id, b, q); }
    if r.status == Pending || r.status == Confirmed { MayBlockIff(env, s, id, b, r); }
  }

  /** A row of the ledger, if it is for anything. */
  function Row(t: Transaction): seq<Transaction> { if t.amount > 0 then [t] else [] }

  // ---------- before pickup ----------

  /** Approval charges the whole total and reserves, and only for a pending request-to-book. */
  lemma ApproveIs(env: Env, s: State, id: Id, actor: Id, reference: string)
    ensures Step(env, s, Approve(id, actor, reference)) ==
            if id >= |s.bookings| then Failed(NotFound)
            else
              var b := s.bookings[id];
              if b.mode != OnRequest || b.status != Pending then Failed(NotApprovable)
              else if !HasPlace(env, s, id) then Failed(ExclusionViolation)
              else Done(s.(bookings := s.bookings[id := b.(stage := Reserved, status := Confirmed,
                                                           paid := Some(reference))],
                           ledger := s.ledger
                             + Row(Transaction(id, Charge, b.total, Some(b.renter), None, None, None, Some(reference))),
                           history := s.history
                             + [HistoryRow(id, Some(b.At()), Point(Accepted, Pending), actor, env.now),
                                HistoryRow(id, Some(Point(Accepted, Pending)), Point(Payment, Pending), actor, env.now),
                                HistoryRow(id, Some(Point(Payment, Pending)), Point(Reserved, Confirmed), actor,
                                           env.now)]),
                        id)
  {
    if id < |s.bookings| {
      var b := s.bookings[id];
      WalkOfThree(env, s, id, b.(paid := Some(reference)),
                  Row(Transaction(id, Charge, b.total, Some(b.renter), None, None, None, Some(reference))),
                  Point(Accepted, Pending), Point(Payment, Pending), Point(Reserved, Confirmed), actor);
    }
  }

  /** Declining leaves the stage, and costs nothing. */
  lemma DeclineIs(env: Env, s: State, id: Id, actor: Id)
    ensures Step(env, s, Decline(id, actor)) ==
            if id >= |s.bookings| then Failed(NotFound)
            else
              var b := s.bookings[id];
              if b.status != Pending then Failed(NotApprovable)
              else Done(s.(bookings := s.bookings[id := b.(status := Declined)],
                           history := s.history
                             + [HistoryRow(id, Some(b.At()), Point(b.stage, Declined), actor, env.now)]), id)
  {
    if id < |s.bookings| {
      WalkOfOne(env, s, id, s.bookings[id], [], Point(s.bookings[id].stage, Declined), actor);
      assert s.ledger + [] == s.ledger;
    }
  }

  /** Cancelling before pickup refunds a confirmed booking by its policy, and nobody else. */
  lemma CancelIs(env: Env, s: State, id: Id, actor: Id)
    ensures Step(env, s, Cancel(id, actor)) ==
            if id >= |s.bookings| then Failed(NotFound)
            else
              var b := s.bookings[id];
              if b.stage !in {Requested, Accepted, Payment, Reserved, Ready} || b.status == Cancelled
              then Failed(InvalidTransition)
              else
                var refund := Cancellation.ComputeRefund(b.policy, b.startsAt, env.now, b.total, b.deposit).refund;
                Done(s.(bookings := s.bookings[id := b.(status := Cancelled)],
                        ledger := s.ledger
                          + (if b.status == Confirmed
                             then Row(Transaction(id, Refund, refund, Some(b.renter), None, None, None, None)) else []),
                        history := s.history
                          + [HistoryRow(id, Some(b.At()), Point(b.stage, Cancelled), actor, env.now)]), id)
  {
    if id < |s.bookings| {
      var b := s.bookings[id];
      WalkOfOne(env, s, id, b, CancelRefund(env, id, b), Point(b.stage, Cancelled), actor);
    }
  }

  // ---------- out and back ----------

  /** Handover goes by the stage alone, and passes READY and PICKEDUP on its way to ACTIVE. */
  lemma HandoverIs(env: Env, s: State, id: Id, actor: Id)
    ensures Step(env, s, ConfirmHandover(id, actor)) ==
            if id >= |s.bookings| then Failed(NotFound)
            else
              var b := s.bookings[id];
              if b.stage != Reserved && b.stage != Ready then Failed(InvalidTransition)
              else if !HasPlace(env, s, id) then Failed(ExclusionViolation)
              else Done(s.(bookings := s.bookings[id := b.(stage := Active, status := Confirmed)],
                           history := s.history
                             + [HistoryRow(id, Some(b.At()), Point(Ready, Confirmed), actor, env.now),
                                HistoryRow(id, Some(Point(Ready, Confirmed)), Point(PickedUp, Confirmed), actor,
                                           env.now),
                                HistoryRow(id, Some(Point(PickedUp, Confirmed)), Point(Active, Confirmed), actor,
                                           env.now)]),
                        id)
  {
    if id < |s.bookings| {
      WalkOfThree(env, s, id, s.bookings[id], [], Point(Ready, Confirmed), Point(PickedUp, Confirmed),
                  Point(Active, Confirmed), actor);
      assert s.ledger + [] == s.ledger;
    }
  }

  lemma ScheduleReturnIs(env: Env, s: State, id: Id, actor: Id)
    ensures Step(env, s, ScheduleReturn(id, actor)) ==
            if id >= |s.bookings| then Failed(NotFound)
            else
              var b := s.bookings[id];
              if b.stage != Active then Failed(InvalidTransition)
              else if !HasPlace(env, s, id) then Failed(ExclusionViolation)
              else Done(s.(bookings := s.bookings[id := b.(stage := ReturnSched, status := Confirmed)],
                           history := s.history
                             + [HistoryRow(id, Some(b.At()), Point(ReturnSched, Confirmed), actor, env.now)]), id)
  {
    if id < |s.bookings| {
      WalkOfOne(env, s, id, s.bookings[id], [], Point(ReturnSched, Confirmed), actor);
      assert s.ledger + [] == s.ledger;
    }
  }

  /** The return may be confirmed without having been scheduled. */
  lemma ConfirmReturnIs(env: Env, s: State, id: Id, actor: Id)
    ensures Step(env, s, ConfirmReturn(id, actor)) ==
            if id >= |s.bookings| then Failed(NotFound)
            else
              var b := s.bookings[id];
              if b.stage != ReturnSched && b.stage != Active then Failed(InvalidTransition)
              else if !HasPlace(env, s, id) then Failed(ExclusionViolation)
              else Done(s.(bookings := s.bookings[id := b.(stage := Returned, status := Confirmed)],
                           history := s.history
                             + [HistoryRow(id, Some(b.At()), Point(Returned, Confirmed), actor, env.now)]), id)
  {
    if id < |s.bookings| {
      WalkOfOne(env, s, id, s.bookings[id], [], Point(Returned, Confirmed), actor);
      assert s.ledger + [] == s.ledger;
    }
  }

  // ---------- inspection ----------

  /** Without damage the deposit goes back whole, the provider earns the rental, and the booking completes. */
  lemma CleanInspectionIs(env: Env, s: State, id: Id, actor: Id)
    ensures Step(env, s, RecordInspection(id, actor, false)) ==
            if id >= |s.bookings| then Failed(NotFound)
            else
              var b := s.bookings[id];
              if b.stage != Returned then Failed(InvalidTransition)
              else if !HasPlace(env, s, id) then Failed(ExclusionViolation)
              else if b.listing !in env.catalog then Failed(NotFound)
              else
                var provider := env.catalog[b.listing].provider;
                Done(s.(bookings := s.bookings[id := b.(stage := Closed, status := Completed)],
                        ledger := s.ledger
                          + (Row(Transaction(id, DepositRelease, b.deposit, Some(b.renter), None, None, None, None))
                             + Row(Transaction(id, ProviderEarning, b.rental, None, Some(provider), None, None, None))),
                        history := s.history
                          + [HistoryRow(id, Some(b.At()), Point(Inspected, Confirmed), actor, env.now),
                             HistoryRow(id, Some(Point(Inspected, Confirmed)), Point(DepositReleased, Confirmed),
                                        actor, env.now),
                             HistoryRow(id, Some(Point(DepositReleased, Confirmed)), Point(Closed, Completed), actor,
                                        env.now)]),
                     id)
  {
    if id < |s.bookings| {
      var b := s.bookings[id];
      var steps := [Point(Inspected, Confirmed)] + TO_COMPLETED;
      assert steps == [Point(Inspected, Confirmed), Point(DepositReleased, Confirmed), Point(Closed, Completed)];
      var earned := if b.listing in env.catalog then CleanRows(id, b, env.catalog[b.listing].provider) else [];
      WalkOfThree(env, s, id, b, earned, Point(Inspected, Confirmed), Point(DepositReleased, Confirmed),
                  Point(Closed, Completed), actor);
    }
  }

  /** With damage the booking is parked as DISPUTED at INSPECTED, with an open dispute and nothing paid. */
  lemma DamagedInspectionIs(env: Env, s: State, id: Id, actor: Id)
    ensures Step(env, s, RecordInspection(id, actor, true)) ==
            if id >= |s.bookings| then Failed(NotFound)
            else
              var b := s.bookings[id];
              if b.stage != Returned then Failed(InvalidTransition)
              else if !HasPlace(env, s, id) then Failed(ExclusionViolation)
              else if exists k :: 0 <= k < |s.disputes| && s.disputes[k].booking == id then Failed(UniqueViolation)
              else Done(s.(bookings := s.bookings[id := b.(stage := Inspected, status := Disputed)],
                           disputes := s.disputes + [Dispute(id, actor, Open, None, None, None, None, None)],
                           history := s.history
                             + [HistoryRow(id, Some(b.At()), Point(Inspected, Confirmed), actor, env.now),
                                HistoryRow(id, Some(Point(Inspected, Confirmed)), Point(Inspected, Disputed), actor,
                                           env.now)]),
                        id)
  {
    if id < |s.bookings| {
      WalkOfTwo(env, s, id, s.bookings[id], [], Point(Inspected, Confirmed), Point(Inspected, Disputed), actor);
      assert s.ledger + [] == s.ledger;
    }
  }
}
