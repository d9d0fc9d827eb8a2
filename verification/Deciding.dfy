/** What proposing, answering and resolving a dispute, and settling and paying, promise, spelled out. */
module Deciding {
  import opened Domain
  import opened Rules
  import opened Acting

  // ---------- disputes ----------

  /** The rows and the history of a booking finalised with `deduction` withheld, if it can be. */
  ghost function Finalised(env: Env, s: State, k: Id, resolved: Dispute, deduction: nat, actor: Id): Outcome
    requires k < |s.disputes| && resolved.booking < |s.bookings|
  {
    var id, b := resolved.booking, s.bookings[resolved.booking];
    if b.listing !in env.catalog then Failed(NotFound)
    else if !HasPlace(env, s, id) then Failed(ExclusionViolation)
    else
      var provider := env.catalog[b.listing].provider;
      Done(s.(bookings := s.bookings[id := b.(stage := Closed, status := Completed)],
              disputes := s.disputes[k := resolved],
              ledger := s.ledger
                + (Row(Transaction(id, DepositRelease, b.deposit - deduction, Some(b.renter), None, Some(k), None,
                                   None))
                   + Row(Transaction(id, ProviderForfeitCredit, deduction, None, Some(provider), Some(k), None, None))
                   + Row(Transaction(id, ProviderEarning, b.rental, None, Some(provider), None, None, None))),
              history := s.history
                + [HistoryRow(id, Some(b.At()), Point(b.stage, Confirmed), actor, env.now),
                   HistoryRow(id, Some(Point(b.stage, Confirmed)), Point(DepositReleased, Confirmed), actor, env.now),
                   HistoryRow(id, Some(Point(DepositReleased, Confirmed)), Point(Closed, Completed), actor, env.now)]),
           k)
  }

  lemma FinalizeIs(env: Env, s: State, k: Id, resolved: Dispute, deduction: nat, actor: Id)
    requires k < |s.disputes| && resolved.booking < |s.bookings|
    ensures Finalize(env, s, k, resolved, deduction, actor) == Finalised(env, s, k, resolved, deduction, actor)
  {
    var id, b := resolved.booking, s.bookings[resolved.booking];
    if b.listing in env.catalog {
      var provider := env.catalog[b.listing].provider;
      var steps := [Point(b.stage, Confirmed)] + TO_COMPLETED;
      assert steps == [Point(b.stage, Confirmed), Point(DepositReleased, Confirmed), Point(Closed, Completed)];
      WalkOfThree(env, s, id, b, FinalizeRows(id, b, provider, deduction, k), Point(b.stage, Confirmed),
                  Point(DepositReleased, Confirmed), Point(Closed, Completed), actor);
    }
  }

  /** A proposal may be made on an open or contested dispute, up to the deposit, and replaces the one before. */
  lemma ProposeIs(env: Env, s: State, k: Id, actor: Id, amount: nat)
    ensures Step(env, s, ProposeDeduction(k, actor, amount)) ==
            if k >= |s.disputes| then Failed(NotFound)
            else
              var d := s.disputes[k];
              if d.status == Proposed || d.status == Resolved then Failed(DisputeInvalidState)
              else if d.booking >= |s.bookings| then Failed(NotFound)
              else if amount > s.bookings[d.booking].deposit then Failed(DeductionExceedsDeposit)
              else Done(s.(disputes := s.disputes[k := d.(status := Proposed, proposed := Some(amount),
                                                          proposedBy := Some(actor))]), k)
  {
  }

  /** The renter answers a proposal: a rejection contests the dispute, an acceptance finalises at what was proposed. */
  lemma RespondIs(env: Env, s: State, k: Id, actor: Id, accept: bool)
    ensures Step(env, s, RespondToProposal(k, actor, accept)) ==
            if k >= |s.disputes| then Failed(NotFound)
            else
              var d := s.disputes[k];
              if d.status != Proposed then Failed(DisputeInvalidState)
              else if d.booking >= |s.bookings| then Failed(NotFound)
              else if s.bookings[d.booking].renter != actor then Failed(Forbidden)
              else if !accept then Done(s.(disputes := s.disputes[k := d.(status := Contested)]), k)
              else
                Finalised(env, s, k,
                          d.(status := Resolved, final := d.proposed, resolution := Some(Agreed),
                             resolvedBy := Some(actor)),
                          if d.proposed.Some? then d.proposed.value else 0, actor)
  {
    if k < |s.disputes| && s.disputes[k].booking < |s.bookings| {
      var d := s.disputes[k];
      FinalizeIs(env, s, k, Settled(d, d.proposed, Agreed, actor), if d.proposed.Some? then d.proposed.value else 0,
                 actor);
    }
  }

  /** An admin resolves any unresolved dispute, at an amount within the deposit. */
  lemma AdminResolveIs(env: Env, s: State, k: Id, actor: Id, amount: nat)
    ensures Step(env, s, AdminResolve(k, actor, amount)) ==
            if k >= |s.disputes| then Failed(NotFound)
            else
              var d := s.disputes[k];
              if d.status == Resolved then Failed(DisputeInvalidState)
              else if d.booking >= |s.bookings| then Failed(NotFound)
              else if amount > s.bookings[d.booking].deposit then Failed(DeductionExceedsDeposit)
              else
                Finalised(env, s, k,
                          d.(status := Resolved, final := Some(amount), resolution := Some(AdminDecided),
                             resolvedBy := Some(actor)), amount, actor)
  {
    if k < |s.disputes| && s.disputes[k].booking < |s.bookings| {
      FinalizeIs(env, s, k, Settled(s.disputes[k], Some(amount), AdminDecided, actor), amount, actor);
    }
  }

  // ---------- settlements ----------

  /** The rows a settlement takes: the provider's earnings and forfeits that no settlement has. */
  predicate Owing(t: Transaction, provider: Id) {
    (t.kind == ProviderEarning || t.kind == ProviderForfeitCredit) && t.provider == Some(provider)
      && t.settlement == None
  }

  function Owed(ledger: seq<Transaction>, provider: Id): int {
    if ledger == [] then 0
    else Owed(ledger[1..], provider) + if Owing(ledger[0], provider) then ledger[0].amount else 0
  }

  lemma {:induction false} OwedIs(ledger: seq<Transaction>, provider: Id)
    ensures Owed(ledger, provider) == SumUnsettled(ledger, provider)
  {
    if |ledger| <= 1 {
      if ledger != [] { assert ledger[1..] == [] && ledger[..0] == []; }
    } else {
      var n := |ledger| - 1;
      OwedIs(ledger[1..], provider);
      OwedIs(ledger[..n], provider);
      OwedIs(ledger[1..][..n - 1], provider);
      assert ledger[1..][..n - 1] == ledger[..n][1..];
    }
  }

  /** A settlement is made for what is owed, if anything, and takes exactly the owing rows. */
  lemma {:induction false} SettleIs(env: Env, s: State, provider: Id)
    ensures var o, owed := Step(env, s, CreateSettlement(provider)), Owed(s.ledger, provider);
            if owed <= 0 || (forall i :: 0 <= i < |s.ledger| ==> !Owing(s.ledger[i], provider))
            then o == Failed(NoUnsettledBalance)
            else
              && o.Done? && o.id == |s.settlements| && |o.state.ledger| == |s.ledger|
              && o.state == s.(settlements := s.settlements + [Settlement(provider, owed, None)],
                               ledger := o.state.ledger)
              && forall i :: 0 <= i < |s.ledger| ==>
                   o.state.ledger[i] == if Owing(s.ledger[i], provider) then s.ledger[i].(settlement := Some(o.id))
                                        else s.ledger[i]
  {
    OwedIs(s.ledger, provider);
    forall i | 0 <= i < |s.ledger| ensures IsUnsettled(s.ledger[i], provider) <==> Owing(s.ledger[i], provider) { }
    if i :| 0 <= i < |s.ledger| && Owing(s.ledger[i], provider) { assert IsUnsettled(s.ledger[i], provider); }
  }

  /** A settlement is paid once: the second attempt is refused and the first reference stays. */
  lemma MarkPaidIs(env: Env, s: State, k: Id, reference: string)
    ensures Step(env, s, MarkSettlementPaid(k, reference)) ==
            if k >= |s.settlements| then Failed(NotFound)
            else if s.settlements[k].paidReference != None then Failed(SettlementAlreadyPaid)
            else Done(s.(settlements := s.settlements[k := s.settlements[k].(paidReference := Some(reference))]), k)
  {
  }

  /** No settlement is lost, and a paid one stays as it is. */
  ghost predicate PaidKept(s: State, s': State) {
    && |s.settlements| <= |s'.settlements|
    && forall k :: 0 <= k < |s.settlements| && s.settlements[k].paidReference != None ==>
         s'.settlements[k] == s.settlements[k]
  }

  lemma PaidTransitive(s: State, t: State, u: State)
    requires PaidKept(s, t) && PaidKept(t, u)
    ensures PaidKept(s, u)
  {
  }

  lemma {:induction false} ChainKeepsPaid(states: seq<State>, i: nat, j: nat)
    requires i <= j < |states| && forall k :: 0 < k < |states| ==> PaidKept(states[k - 1], states[k])
    ensures PaidKept(states[i], states[j])
    decreases j - i
  {
    if i == j {
    } else {
      ChainKeepsPaid(states, i, j - 1);
      PaidTransitive(states[i], states[j - 1], states[j]);
    }
  }

  lemma LinkKeepsPaid(events: seq<Event>, k: nat)
    requires k < |events|
    ensures PaidKept(Before(events, k), Before(events, k + 1))
  {
    RunStep(events, k);
    StepKeepsPaid(events[k].env, Before(events, k), events[k].action);
  }

  lemma StepKeepsPaid(env: Env, s: State, a: Action)
    ensures PaidKept(s, Next(env, s, a))
  {
  }

  /** The reference and total of a paid settlement stay at every later point of a run. */
  lemma {:induction false} RunPaidOnce(events: seq<Event>, i: nat, j: nat)
    requires i <= j <= |events|
    ensures PaidKept(Before(events, i), Before(events, j))
  {
    var states := seq(|events| + 1, k requires 0 <= k <= |events| => Before(events, k));
    forall k | 0 < k < |states| ensures PaidKept(states[k - 1], states[k]) {
      LinkKeepsPaid(events, k - 1);
    }
    ChainKeepsPaid(states, i, j);
  }
}
