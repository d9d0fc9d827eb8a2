/** Where all the money is, after every run. */
module Conservation {
  import opened Domain
  import opened Filtering
  import opened Rules
  import opened CaseFile
  import opened Simulation
  import opened Accounts
  import opened Settlements
  import opened Runs

  /** What the platform still holds, over the first `n` bookings. */
  function RetainedBelow(s: State, n: nat): int
    requires n <= |s.bookings| == |s.originals|
  {
    if n == 0 then 0 else RetainedBelow(s, n - 1) + Retained(FileOf(s, n - 1))
  }

  /**
   * Charges, minus refunds, released deposits, settlements, unsettled provider credits, service fees of
   * completed bookings, penalties of cancelled ones and the totals of charged bookings still open.
   */
  function Imbalance(s: State): int
    requires |s.bookings| == |s.originals|
  {
    LedgerSum(s.ledger, Charge) - LedgerSum(s.ledger, Refund) - LedgerSum(s.ledger, DepositRelease)
    - SettlementTotals(s.settlements) - TotalUnsettled(s.ledger) - RetainedBelow(s, |s.bookings|)
  }

  // ---------- from the ledger to the files ----------

  /** The ledger's rows of one kind for bookings below `n`. */
  function SumBelow(ledger: seq<Transaction>, kind: Kind, n: nat): int {
    if ledger == [] then 0
    else
      var last := ledger[|ledger| - 1];
      SumBelow(ledger[..|ledger| - 1], kind, n) + if last.kind == kind && last.booking < n then last.amount else 0
  }

  lemma {:induction false} SumBelowStep(ledger: seq<Transaction>, kind: Kind, n: nat)
    ensures SumBelow(ledger, kind, n + 1) == SumBelow(ledger, kind, n) + Sum(Of(Entries(ledger), EntryBooking, n), kind)
    ensures SumBelow(ledger, kind, 0) == 0
  {
    if ledger == [] {
    } else {
      var init, last := ledger[..|ledger| - 1], ledger[|ledger| - 1];
      SumBelowStep(init, kind, n);
      assert Entries(ledger)[..|ledger| - 1] == Entries(init);
      if last.booking == n {
        SumSnoc(Of(Entries(init), EntryBooking, n), EntryOf(last), kind);
      } else {
        Units(Of(Entries(init), EntryBooking, n));
      }
    }
  }

  lemma {:induction false} SumBelowAll(ledger: seq<Transaction>, kind: Kind, n: nat)
    requires forall k :: 0 <= k < |ledger| ==> ledger[k].booking < n
    ensures SumBelow(ledger, kind, n) == LedgerSum(ledger, kind)
  {
    if ledger == [] {
    } else {
      SumBelowAll(ledger[..|ledger| - 1], kind, n);
    }
  }

  function GapBelow(s: State, n: nat): int
    requires n <= |s.bookings| == |s.originals|
  {
    if n == 0 then 0 else GapBelow(s, n - 1) + Gap(FileOf(s, n - 1))
  }

  lemma {:induction false} GapsSplit(s: State, n: nat)
    requires WellFormed(s) && n <= |s.bookings|
    ensures GapBelow(s, n) ==
            SumBelow(s.ledger, Charge, n) - SumBelow(s.ledger, Refund, n) - SumBelow(s.ledger, DepositRelease, n)
            - SumBelow(s.ledger, ProviderEarning, n) - SumBelow(s.ledger, ProviderForfeitCredit, n)
            - RetainedBelow(s, n)
  {
    if n == 0 {
      SumBelowStep(s.ledger, Charge, 0);
      SumBelowStep(s.ledger, Refund, 0);
      SumBelowStep(s.ledger, DepositRelease, 0);
      SumBelowStep(s.ledger, ProviderEarning, 0);
      SumBelowStep(s.ledger, ProviderForfeitCredit, 0);
    } else {
      GapsSplit(s, n - 1);
      SumBelowStep(s.ledger, Charge, n - 1);
      SumBelowStep(s.ledger, Refund, n - 1);
      SumBelowStep(s.ledger, DepositRelease, n - 1);
      SumBelowStep(s.ledger, ProviderEarning, n - 1);
      SumBelowStep(s.ledger, ProviderForfeitCredit, n - 1);
    }
  }

  /** The platform-wide imbalance is the sum of the bookings' gaps. */
  lemma {:induction false} ImbalanceIsGaps(s: State)
    requires WellFormed(s) && Partitioned(s)
    ensures Imbalance(s) == GapBelow(s, |s.bookings|)
  {
    GapsSplit(s, |s.bookings|);
    SumBelowAll(s.ledger, Charge, |s.bookings|);
    SumBelowAll(s.ledger, Refund, |s.bookings|);
    SumBelowAll(s.ledger, DepositRelease, |s.bookings|);
    SumBelowAll(s.ledger, ProviderEarning, |s.bookings|);
    SumBelowAll(s.ledger, ProviderForfeitCredit, |s.bookings|);
    CreditsAddUp(s);
  }

  /** When every file but `t` is balanced, the sum of the gaps is the gap of `t`. */
  lemma {:induction false} GapBelowOne(s: State, n: nat, t: Id)
    requires WellFormed(s) && n <= |s.bookings| && t < |s.bookings|
    requires forall id :: 0 <= id < |s.bookings| && id != t ==> Gap(FileOf(s, id)) == 0
    ensures GapBelow(s, n) == if t < n then Gap(FileOf(s, t)) else 0
  {
    if n == 0 {
    } else {
      GapBelowOne(s, n - 1, t);
    }
  }

  lemma {:induction false} GapBelowZero(s: State, n: nat)
    requires WellFormed(s) && n <= |s.bookings|
    requires forall id :: 0 <= id < |s.bookings| ==> Gap(FileOf(s, id)) == 0
    ensures GapBelow(s, n) == 0
  {
    if n == 0 {
    } else {
      GapBelowZero(s, n - 1);
    }
  }

  // ---------- runs ----------

  ghost predicate Sound(owner: Id -> Id, s: State) {
    && AllBasic(s)
    && Partitioned(s)
    && forall id :: 0 <= id < |s.bookings| ==> Accounted(owner, FileOf(s, id)) && RefundedOnce(FileOf(s, id))
  }

  /**
   * What a caller can check before acting: hand over only a confirmed booking, or one that was never refunded;
   * approve an extension only before completion, or for nothing.
   */
  predicate SafeEvent(s: State, e: Event)
    requires |s.bookings| == |s.originals|
  {
    var a := e.action;
    && ExtendsBeforeCompletion(s, e)
    && (a.ConfirmHandover? && Step(e.env, s, a).Done? ==>
          s.bookings[a.booking].status == Confirmed || Refunds(FileOf(s, a.booking).rows) == [])
  }

  lemma HandsOverIff(s: State, e: Event, id: Id)
    requires |s.bookings| == |s.originals| && Step(e.env, s, e.action).Done? && Target(s, e.action) == Some(id)
    requires id < |s.bookings|
    ensures (e.action.ConfirmHandover? ==> s.bookings[id].status == Confirmed || Refunds(FileOf(s, id).rows) == [])
       <==> HandsOverUnrefunded(FileOf(s, id), MoveOn(e.env, s, e.action, id))
  {
  }

  lemma SafeIsSafe(s: State, e: Event, id: Id)
    requires AllBasic(s) && Step(e.env, s, e.action).Done? && Target(s, e.action) == Some(id)
    requires id < |s.bookings|
    ensures SafeEvent(s, e) <==> Safe(FileOf(s, id), MoveOn(e.env, s, e.action, id))
  {
    ExtendsInTimeIff(s, e, id);
    HandsOverIff(s, e, id);
  }

  /** The files other than the target stay as they are, newborns start balanced. */
  lemma BystandersSound(owner: Id -> Id, s: State, e: Event, id: Id)
    requires Sound(owner, s) && Owned(owner, e.env) && Step(e.env, s, e.action).Done?
    requires id < |Step(e.env, s, e.action).state.bookings| && Target(s, e.action) != Some(id)
    ensures var s' := Step(e.env, s, e.action).state;
            WellFormed(s') && Accounted(owner, FileOf(s', id)) && RefundedOnce(FileOf(s', id))
  {
    FileAfter(owner, e.env, s, e.action, id);
    if id >= |s.bookings| {
      var (b, q) := Inserted(e.env, s, e.action);
      BornAccounted(owner, id, b, q, e.action.actor, e.env.now, e.action.reference);
    }
  }

  lemma SafeStep(owner: Id -> Id, s: State, e: Event)
    requires Sound(owner, s) && Owned(owner, e.env) && SafeEvent(s, e)
    ensures Sound(owner, Next(e.env, s, e.action))
  {
    if Step(e.env, s, e.action).Done? {
      var s' := Next(e.env, s, e.action);
      StepBasic(owner, e.env, s, e.action);
      PartitionKept(e.env, s, e.action);
      forall id | 0 <= id < |s'.bookings| ensures Accounted(owner, FileOf(s', id)) && RefundedOnce(FileOf(s', id)) {
        if Target(s, e.action) == Some(id) && id < |s.bookings| {
          FileAfter(owner, e.env, s, e.action, id);
          SafeIsSafe(s, e, id);
          AccountsKept(owner, FileOf(s, id), MoveOn(e.env, s, e.action, id));
          RefundsKept(owner, FileOf(s, id), MoveOn(e.env, s, e.action, id));
        } else {
          BystandersSound(owner, s, e, id);
        }
      }
    }
  }

  lemma SoundBalances(owner: Id -> Id, s: State)
    requires Sound(owner, s)
    ensures Imbalance(s) == 0
  {
    ImbalanceIsGaps(s);
    forall id | 0 <= id < |s.bookings| ensures Gap(FileOf(s, id)) == 0 {
      Balanced(owner, FileOf(s, id));
    }
    GapBelowZero(s, |s.bookings|);
  }

  lemma UnsafeTarget(owner: Id -> Id, s: State, e: Event, t: Id)
    requires Sound(owner, s) && Owned(owner, e.env) && Step(e.env, s, e.action).Done? && !SafeEvent(s, e)
    requires Target(s, e.action) == Some(t) && t < |s.bookings|
    ensures t < |Step(e.env, s, e.action).state.bookings| && WellFormed(Step(e.env, s, e.action).state)
    ensures Gap(FileOf(Step(e.env, s, e.action).state, t)) != 0
  {
    FileMoved(owner, s, e, t);
    SafeIsSafe(s, e, t);
    MoveConservesIff(owner, FileOf(s, t), MoveOn(e.env, s, e.action, t));
  }

  lemma BystanderBalanced(owner: Id -> Id, s: State, e: Event, id: Id)
    requires Sound(owner, s) && Owned(owner, e.env) && Step(e.env, s, e.action).Done?
    requires id < |Step(e.env, s, e.action).state.bookings| && Target(s, e.action) != Some(id)
    ensures WellFormed(Step(e.env, s, e.action).state) && Gap(FileOf(Step(e.env, s, e.action).state, id)) == 0
  {
    StepBasic(owner, e.env, s, e.action);
    BystandersSound(owner, s, e, id);
    Balanced(owner, FileOf(Step(e.env, s, e.action).state, id));
  }

  lemma UnsafeStep(owner: Id -> Id, s: State, e: Event)
    requires Sound(owner, s) && Owned(owner, e.env) && !SafeEvent(s, e)
    ensures Imbalance(Next(e.env, s, e.action)) != 0
  {
    var s' := Next(e.env, s, e.action);
    var t := Target(s, e.action).value;
    UnsafeTarget(owner, s, e, t);
    PartitionKept(e.env, s, e.action);
    forall id | 0 <= id < |s'.bookings| && id != t ensures Gap(FileOf(s', id)) == 0 {
      BystanderBalanced(owner, s, e, id);
    }
    ImbalanceIsGaps(s');
    GapBelowOne(s', |s'.bookings|, t);
  }

  lemma {:induction false} SoundWhileSafe(owner: Id -> Id, events: seq<Event>, k: nat)
    requires OwnedRun(owner, events) && k <= |events|
    requires forall j :: 0 <= j < k ==> SafeEvent(Before(events, j), events[j])
    ensures Sound(owner, Before(events, k))
  {
    if k == 0 {
      assert events[..0] == [];
    } else {
      SoundWhileSafe(owner, events, k - 1);
      RunStep(events, k - 1);
      SafeStep(owner, Before(events, k - 1), events[k - 1]);
    }
  }

  lemma BalancedStepSafe(owner: Id -> Id, s: State, e: Event)
    requires Sound(owner, s) && Owned(owner, e.env) && Imbalance(Next(e.env, s, e.action)) == 0
    ensures SafeEvent(s, e)
  {
    if !SafeEvent(s, e) { UnsafeStep(owner, s, e); }
  }

  lemma {:induction false} SafeWhileBalanced(owner: Id -> Id, events: seq<Event>, k: nat)
    requires OwnedRun(owner, events) && k < |events|
    requires forall j :: 0 <= j <= |events| ==> Imbalance(Before(events, j)) == 0
    ensures Sound(owner, Before(events, k)) && SafeEvent(Before(events, k), events[k])
  {
    if k == 0 {
      assert events[..0] == [];
    } else {
      SafeWhileBalanced(owner, events, k - 1);
      RunStep(events, k - 1);
      SafeStep(owner, Before(events, k - 1), events[k - 1]);
    }
    RunStep(events, k);
    assert Imbalance(Before(events, k + 1)) == 0;
    BalancedStepSafe(owner, Before(events, k), events[k]);
  }

  /**
   * Money is conserved at every point of a run exactly when no refunded booking is handed over and no
   * extension of a completed booking is charged.
   */
  lemma {:induction false} RunConservesIff(owner: Id -> Id, events: seq<Event>)
    requires OwnedRun(owner, events)
    ensures (forall k :: 0 <= k <= |events| ==> Imbalance(Before(events, k)) == 0)
       <==> (forall k :: 0 <= k < |events| ==> SafeEvent(Before(events, k), events[k]))
  {
    if forall k :: 0 <= k < |events| ==> SafeEvent(Before(events, k), events[k]) {
      forall k | 0 <= k <= |events| ensures Imbalance(Before(events, k)) == 0 {
        SoundWhileSafe(owner, events, k);
        SoundBalances(owner, Before(events, k));
      }
    }
    if forall k :: 0 <= k <= |events| ==> Imbalance(Before(events, k)) == 0 {
      forall k | 0 <= k < |events| ensures SafeEvent(Before(events, k), events[k]) {
        SafeWhileBalanced(owner, events, k);
      }
    }
  }
}
