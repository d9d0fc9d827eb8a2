/** Deposits and disputes over whole runs: every deposit is paid out once, whole, and a resolution is final. */
module Deposits {
  import opened Domain
  import opened Filtering
  import opened Availability
  import opened Rules
  import opened CaseFile
  import opened Simulation
  import opened Invariants
  import opened Accounts
  import opened Runs
  import Cancellation
  import Creating
  import Lifecycle

  /** Released to the renter plus forfeited to the provider: the whole deposit at completion, nothing before. */
  predicate DepositMatch(f: File) {
    Sum(f.rows, DepositRelease) + Sum(f.rows, ProviderForfeitCredit)
    == if f.b.status == Completed then f.b.deposit else 0
  }

  lemma ChargeMovesMatch(owner: Id -> Id, f: File, m: Move)
    requires Basic(f) && DepositMatch(f) && Enabled(owner, f, m) && (m.MApprove? || m.MExtend?)
    ensures DepositMatch(Apply(owner, f, m))
  {
    var amount := if m.MApprove? then f.b.total else Last(f.reqs).rental + Last(f.reqs).service;
    SumPost(f.id, Charge, amount, Some(f.b.renter), None, DepositRelease);
    SumPost(f.id, Charge, amount, Some(f.b.renter), None, ProviderForfeitCredit);
    Concat(f.rows, PostCharge(f, amount), DepositRelease);
    Concat(f.rows, PostCharge(f, amount), ProviderForfeitCredit);
  }

  lemma CompletionsMatch(owner: Id -> Id, f: File, m: Move)
    requires Basic(f) && DepositMatch(f) && Enabled(owner, f, m) && (m.MInspectClean? || m.MResolve?)
    ensures DepositMatch(Apply(owner, f, m))
  {
    CompletionRows(owner, f, m);
    var f' := Apply(owner, f, m);
    BasicKept(owner, f, m);
    PayoutSum(owner, f', DepositRelease);
    PayoutSum(owner, f', ProviderForfeitCredit);
    Concat(f.rows, Payout(owner, f'), DepositRelease);
    Concat(f.rows, Payout(owner, f'), ProviderForfeitCredit);
    assert f.b.status != Completed;
  }

  lemma CancelMatches(owner: Id -> Id, f: File, m: Move)
    requires Basic(f) && DepositMatch(f) && Enabled(owner, f, m) && m.MCancel?
    ensures DepositMatch(Apply(owner, f, m))
  {
    if f.b.status == Confirmed {
      Cancellation.RefundWithinTotal(f.b.policy, f.b.startsAt, m.now, f.b.total, f.b.deposit);
      var rows := PostRefund(f, RefundAt(f.b, m.now));
      SumPost(f.id, Refund, RefundAt(f.b, m.now), Some(f.b.renter), None, DepositRelease);
      SumPost(f.id, Refund, RefundAt(f.b, m.now), Some(f.b.renter), None, ProviderForfeitCredit);
      Concat(f.rows, rows, DepositRelease);
      Concat(f.rows, rows, ProviderForfeitCredit);
    } else {
      Units(f.rows);
    }
  }

  lemma OtherMovesMatch(owner: Id -> Id, f: File, m: Move)
    requires Basic(f) && DepositMatch(f) && Enabled(owner, f, m)
    requires !m.MApprove? && !m.MExtend? && !m.MInspectClean? && !m.MResolve? && !m.MCancel?
    ensures DepositMatch(Apply(owner, f, m))
  {
    Units(f.rows);
  }

  lemma DepositsKept(owner: Id -> Id, f: File, m: Move)
    requires Basic(f) && DepositMatch(f) && Enabled(owner, f, m)
    ensures DepositMatch(Apply(owner, f, m))
  {
    if m.MApprove? || m.MExtend? {
      ChargeMovesMatch(owner, f, m);
    } else if m.MInspectClean? || m.MResolve? {
      CompletionsMatch(owner, f, m);
    } else if m.MCancel? {
      CancelMatches(owner, f, m);
    } else {
      OtherMovesMatch(owner, f, m);
    }
  }

  lemma BornDeposits(id: Id, b: Booking, q: Quote, actor: Id, now: Time, reference: string)
    requires b.status == Pending
    ensures DepositMatch(Newborn(id, b, q, actor, now, reference))
  {
    SumPost(id, Charge, q.total, Some(b.renter), None, DepositRelease);
    SumPost(id, Charge, q.total, Some(b.renter), None, ProviderForfeitCredit);
    Units(Post(id, Charge, q.total, Some(b.renter), None));
  }

  ghost predicate AllDeposits(s: State) {
    AllBasic(s) && forall id :: 0 <= id < |s.bookings| ==> DepositMatch(FileOf(s, id))
  }

  lemma StepDeposits(owner: Id -> Id, s: State, e: Event)
    requires AllDeposits(s) && Owned(owner, e.env)
    ensures AllDeposits(Next(e.env, s, e.action))
  {
    StepBasic(owner, e.env, s, e.action);
    if Step(e.env, s, e.action).Done? {
      var s' := Next(e.env, s, e.action);
      forall id | 0 <= id < |s'.bookings| ensures DepositMatch(FileOf(s', id)) {
        FileAfter(owner, e.env, s, e.action, id);
        if id < |s.bookings| {
          DepositsKept(owner, FileOf(s, id), MoveOn(e.env, s, e.action, id));
        } else {
          var (b, q) := Inserted(e.env, s, e.action);
          InsertedSound(e.env, s, e.action);
          BornDeposits(id, b, q, e.action.actor, e.env.now, e.action.reference);
        }
      }
    }
  }

  /**
   * In every run, what was released plus what was forfeited of a booking's deposit is the whole deposit once
   * the booking is completed, and nothing before: no dispute is finalised twice.
   */
  lemma {:induction false} RunDeposits(owner: Id -> Id, events: seq<Event>)
    requires OwnedRun(owner, events)
    ensures AllDeposits(Run(events))
  {
    if events == [] {
    } else {
      var init, last := events[..|events| - 1], events[|events| - 1];
      RunDeposits(owner, init);
      StepDeposits(owner, Run(init), last);
    }
  }

  // ---------- disputes ----------

  predicate DisputeInStep(b: Booking, d: Dispute) {
    && (b.status == Disputed <==> d.status != Resolved)
    && (d.status == Resolved ==> b.status == Completed && d.final.Some?)
    && (d.proposed.Some? ==> 0 <= d.proposed.value <= b.deposit)
    && (d.final.Some? ==> 0 <= d.final.value <= b.deposit)
  }

  lemma DisputeFile(s: State, k: Id)
    requires AllBasic(s) && k < |s.disputes|
    ensures s.disputes[k].booking < |s.bookings|
    ensures FileOf(s, s.disputes[k].booking).disputes == [s.disputes[k]]
  {
    var f := FileOf(s, s.disputes[k].booking);
    OfUpdate(s.disputes, DisputeBooking, k, s.disputes[k], f.id);
    assert Basic(f);
  }

  lemma UndisputedFile(s: State, id: Id)
    requires AllBasic(s) && id < |s.bookings| && forall k :: 0 <= k < |s.disputes| ==> s.disputes[k].booking != id
    ensures s.bookings[id].status != Disputed
  {
    OfNone(s.disputes, DisputeBooking, id);
    assert Basic(FileOf(s, id));
  }

  lemma DisputeAgrees(s: State, k: Id)
    requires AllBasic(s) && k < |s.disputes|
    ensures s.disputes[k].booking < |s.bookings| && DisputeInStep(s.bookings[s.disputes[k].booking], s.disputes[k])
  {
    DisputeFile(s, k);
    assert Basic(FileOf(s, s.disputes[k].booking));
  }

  /**
   * In every run a booking is DISPUTED exactly while it has an unresolved dispute, proposed and final deductions
   * stay within its deposit, and a resolved dispute has completed its booking.
   */
  lemma {:induction false} RunDisputes(owner: Id -> Id, events: seq<Event>)
    requires OwnedRun(owner, events)
    ensures forall k :: 0 <= k < |Run(events).disputes| ==>
              var d := Run(events).disputes[k];
              d.booking < |Run(events).bookings| && DisputeInStep(Run(events).bookings[d.booking], d)
    ensures forall id :: 0 <= id < |Run(events).bookings| && Run(events).bookings[id].status == Disputed ==>
              exists k :: 0 <= k < |Run(events).disputes| && Run(events).disputes[k].booking == id
  {
    RunBasic(owner, events);
    var s := Run(events);
    forall k | 0 <= k < |s.disputes|
      ensures s.disputes[k].booking < |s.bookings| && DisputeInStep(s.bookings[s.disputes[k].booking], s.disputes[k])
    {
      DisputeAgrees(s, k);
    }
    forall id | 0 <= id < |s.bookings| && s.bookings[id].status == Disputed
      ensures exists k :: 0 <= k < |s.disputes| && s.disputes[k].booking == id
    {
      if forall k :: 0 <= k < |s.disputes| ==> s.disputes[k].booking != id { UndisputedFile(s, id); }
    }
  }

  /** A resolved dispute is never touched again. */
  lemma ResolvedForGood(owner: Id -> Id, f: File, m: Move)
    requires Basic(f) && Enabled(owner, f, m) && |f.disputes| == 1 && f.disputes[0].status == Resolved
    ensures Apply(owner, f, m).disputes == f.disputes
  {
  }

  // ---------- as many deposits as units ----------

  /** The catalog asks this deposit for each unit of the listing, whatever else changes. */
  predicate AsksDeposit(env: Env, listing: Id, deposit: nat) {
    listing in env.catalog ==>
      deposit == if env.catalog[listing].deposit.Some? then env.catalog[listing].deposit.value else 0
  }

  ghost predicate AllDeposited(s: State, listing: Id, deposit: nat) {
    forall id :: 0 <= id < |s.bookings| && s.bookings[id].listing == listing ==>
      s.bookings[id].deposit == deposit * s.bookings[id].quantity
  }

  lemma StepDeposited(owner: Id -> Id, s: State, e: Event, listing: Id, deposit: nat)
    requires AllBasic(s) && Owned(owner, e.env) && AllDeposited(s, listing, deposit)
             && AsksDeposit(e.env, listing, deposit)
    ensures AllDeposited(Next(e.env, s, e.action), listing, deposit)
  {
    if Step(e.env, s, e.action).Done? {
      var s' := Next(e.env, s, e.action);
      if e.action.Create? {
        if Creating.Replays(s, e.action) {
          Creating.ReplayAnswers(e.env, s, e.action);
        } else {
          Creating.CreateStores(e.env, s, e.action);
          forall id | 0 <= id < |s.bookings| ensures s'.bookings[id] == s.bookings[id] {
            assert s'.bookings[..|s.bookings|][id] == s.bookings[id];
          }
        }
      } else {
        StepSameSize(e.env, s, e.action);
        forall id | 0 <= id < |s.bookings|
          ensures s'.bookings[id] == s.bookings[id].(status := s'.bookings[id].status, stage := s'.bookings[id].stage,
                    paid := s'.bookings[id].paid, endsAt := s'.bookings[id].endsAt, rental := s'.bookings[id].rental,
                    service := s'.bookings[id].service, total := s'.bookings[id].total)
        {
          FileMoved(owner, s, e, id);
          Lifecycle.TermsKept(owner, FileOf(s, id), MoveOn(e.env, s, e.action, id));
        }
      }
    }
  }

  /**
   * While a listing's deposit stays what it is, every booking of it has that deposit once for each unit, and so much
   * is released and forfeited when it completes.
   */
  lemma {:induction false} RunDepositPerUnit(owner: Id -> Id, events: seq<Event>, listing: Id, deposit: nat)
    requires OwnedRun(owner, events) && forall k :: 0 <= k < |events| ==> AsksDeposit(events[k].env, listing, deposit)
    ensures WellFormed(Run(events)) && AllDeposited(Run(events), listing, deposit)
    ensures forall id :: 0 <= id < |Run(events).bookings| && Run(events).bookings[id].listing == listing
                         && Run(events).bookings[id].status == Completed ==>
              var f := FileOf(Run(events), id);
              Sum(f.rows, DepositRelease) + Sum(f.rows, ProviderForfeitCredit) == deposit * f.b.quantity
  {
    RunDeposits(owner, events);
    if events == [] {
    } else {
      var init, last := events[..|events| - 1], events[|events| - 1];
      RunDepositPerUnit(owner, init, listing, deposit);
      RunBasic(owner, init);
      StepDeposited(owner, Run(init), last, listing, deposit);
    }
    forall id | 0 <= id < |Run(events).bookings| && Run(events).bookings[id].listing == listing
                && Run(events).bookings[id].status == Completed
      ensures var f := FileOf(Run(events), id);
              Sum(f.rows, DepositRelease) + Sum(f.rows, ProviderForfeitCredit) == deposit * f.b.quantity
    {
      assert DepositMatch(FileOf(Run(events), id));
    }
  }

  // ---------- a resolution may be refused ----------

  /** The listing is known, and the constraint lets the booking be CONFIRMED in passing. */
  predicate CanFinalize(env: Env, s: State, d: Dispute) {
    && d.booking < |s.bookings| && s.bookings[d.booking].listing in env.catalog
    && !(env.exclusion && Excluded(s.bookings, d.booking, s.bookings[d.booking].(status := Confirmed)))
  }

  lemma ExcludedAnywhere(bookings: seq<Booking>, id: Id, b: Booking, stage: Stage)
    ensures Excluded(bookings, id, b.(stage := stage)) == Excluded(bookings, id, b)
  {
  }

  lemma FinalizeDoneIff(env: Env, s: State, k: Id, resolved: Dispute, deduction: nat, actor: Id)
    requires k < |s.disputes|
    ensures Finalize(env, s, k, resolved, deduction, actor).Done? <==> CanFinalize(env, s, resolved)
  {
    if resolved.booking < |s.bookings| && s.bookings[resolved.booking].listing in env.catalog {
      var id, b := resolved.booking, s.bookings[resolved.booking];
      var steps := [Point(b.stage, Confirmed)] + TO_COMPLETED;
      assert steps == [Point(b.stage, Confirmed), Point(DepositReleased, Confirmed), Point(Closed, Completed)];
      assert b.(stage := b.stage, status := Confirmed) == b.(status := Confirmed);
      ExcludedAnywhere(s.bookings, id, b.(status := Confirmed), DepositReleased);
      assert steps[0] == Point(b.stage, Confirmed);
      forall k | 0 <= k < |steps|
        ensures Excluded(s.bookings, id, b.(stage := steps[k].stage, status := steps[k].status)) ==>
                  Excluded(s.bookings, id, b.(status := Confirmed)) { }
    }
  }

  /**
   * An admin's resolution goes through exactly for an unresolved dispute, within the deposit, of a booking that may
   * still be CONFIRMED: one whose place another booking took while it was DISPUTED cannot be resolved.
   */
  lemma AdminDoneIff(env: Env, s: State, a: Action)
    requires AllBasic(s) && a.AdminResolve? && a.dispute < |s.disputes|
    ensures var d := s.disputes[a.dispute];
            && d.booking < |s.bookings|
            && (Step(env, s, a).Done? <==>
                  d.status != Resolved && a.amount <= s.bookings[d.booking].deposit && CanFinalize(env, s, d))
  {
    var d := s.disputes[a.dispute];
    DisputeFile(s, a.dispute);
    FinalizeDoneIff(env, s, a.dispute, Settled(d, Some(a.amount), AdminDecided, a.actor), a.amount, a.actor);
  }

  /** And so does a renter's acceptance of a proposal. */
  lemma AcceptDoneIff(env: Env, s: State, a: Action)
    requires AllBasic(s) && a.RespondToProposal? && a.accept && a.dispute < |s.disputes|
    ensures var d := s.disputes[a.dispute];
            && d.booking < |s.bookings|
            && (Step(env, s, a).Done? <==>
                  d.status == Proposed && s.bookings[d.booking].renter == a.actor && CanFinalize(env, s, d))
  {
    var d := s.disputes[a.dispute];
    DisputeFile(s, a.dispute);
    FinalizeDoneIff(env, s, a.dispute, Settled(d, d.proposed, Agreed, a.actor), Deduction(d.proposed), a.actor);
  }

  // ---------- resolved once ----------

  /** No dispute is lost, and a resolved one stays as it is. */
  ghost predicate ResolvedKept(s: State, s': State) {
    && |s.disputes| <= |s'.disputes|
    && forall k :: 0 <= k < |s.disputes| && s.disputes[k].status == Resolved ==> s'.disputes[k] == s.disputes[k]
  }

  lemma FinalizeKeepsResolved(env: Env, s: State, k: Id, d: Dispute, deduction: nat, actor: Id)
    requires k < |s.disputes| && s.disputes[k].status != Resolved && Finalize(env, s, k, d, deduction, actor).Done?
    ensures ResolvedKept(s, Finalize(env, s, k, d, deduction, actor).state)
  {
  }

  lemma StepKeepsResolved(env: Env, s: State, a: Action)
    ensures ResolvedKept(s, Next(env, s, a))
  {
    if Step(env, s, a).Done? {
      if a.AdminResolve? {
        var d := s.disputes[a.dispute];
        FinalizeKeepsResolved(env, s, a.dispute, Settled(d, Some(a.amount), AdminDecided, a.actor), a.amount, a.actor);
      } else if a.RespondToProposal? && a.accept {
        var d := s.disputes[a.dispute];
        FinalizeKeepsResolved(env, s, a.dispute, Settled(d, d.proposed, Agreed, a.actor), Deduction(d.proposed),
                              a.actor);
      } else {
        OthersKeepResolved(env, s, a);
      }
    }
  }

  lemma OthersKeepResolved(env: Env, s: State, a: Action)
    requires Step(env, s, a).Done? && !a.AdminResolve? && !(a.RespondToProposal? && a.accept)
    ensures ResolvedKept(s, Step(env, s, a).state)
  {
  }

  lemma ResolvedTransitive(s: State, t: State, u: State)
    requires ResolvedKept(s, t) && ResolvedKept(t, u)
    ensures ResolvedKept(s, u)
  {
  }

  lemma {:induction false} ChainKeepsResolved(states: seq<State>, i: nat, j: nat)
    requires i <= j < |states| && forall k :: 0 < k < |states| ==> ResolvedKept(states[k - 1], states[k])
    ensures ResolvedKept(states[i], states[j])
    decreases j - i
  {
    if i == j {
    } else {
      ChainKeepsResolved(states, i, j - 1);
      ResolvedTransitive(states[i], states[j - 1], states[j]);
    }
  }

  lemma LinkKeepsResolved(events: seq<Event>, k: nat)
    requires k < |events|
    ensures ResolvedKept(Before(events, k), Before(events, k + 1))
  {
    RunStep(events, k);
    StepKeepsResolved(events[k].env, Before(events, k), events[k].action);
  }

  /** A dispute resolved at one point of a run is unchanged at every later point: it is finalised once. */
  lemma {:induction false} RunResolvedForGood(events: seq<Event>, i: nat, j: nat)
    requires i <= j <= |events|
    ensures ResolvedKept(Before(events, i), Before(events, j))
  {
    var states := seq(|events| + 1, k requires 0 <= k <= |events| => Before(events, k));
    forall k | 0 < k < |states| ensures ResolvedKept(states[k - 1], states[k]) {
      LinkKeepsResolved(events, k - 1);
    }
    ChainKeepsResolved(states, i, j);
  }
}
