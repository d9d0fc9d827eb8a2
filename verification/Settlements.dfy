/** Every provider credit is unsettled or belongs to exactly one settlement. */
module Settlements {
  import opened Domain
  import opened Rules

  function StampedSum(ledger: seq<Transaction>, settlement: Id): int {
    if ledger == [] then 0
    else
      var last := ledger[|ledger| - 1];
      StampedSum(ledger[..|ledger| - 1], settlement) + if last.settlement == Some(settlement) then last.amount else 0
  }

  /** Amounts are positive; credits carry a provider; only credits are stamped, by a settlement of their provider. */
  ghost predicate RowOk(t: Transaction, settlements: seq<Settlement>) {
    && t.amount > 0
    && (IsCredit(t) ==> t.provider.Some?)
    && (t.settlement.Some? ==>
          IsCredit(t) && t.settlement.value < |settlements|
            && t.provider == Some(settlements[t.settlement.value].provider))
  }

  ghost predicate RowsOk(ledger: seq<Transaction>, settlements: seq<Settlement>) {
    forall i :: 0 <= i < |ledger| ==> RowOk(ledger[i], settlements)
  }

  /** Each settlement's total is the sum of exactly the rows stamped with its id. */
  ghost predicate Partitioned(s: State) {
    && RowsOk(s.ledger, s.settlements)
    && forall k :: 0 <= k < |s.settlements| ==> s.settlements[k].total == StampedSum(s.ledger, k)
  }

  /** Rows an action other than settling appends. */
  predicate NewRow(t: Transaction) {
    t.amount > 0 && t.settlement.None? && (IsCredit(t) ==> t.provider.Some?)
  }

  ghost predicate Appends(s: State, s': State) {
    && |s.ledger| <= |s'.ledger| && s'.ledger[..|s.ledger|] == s.ledger
    && (forall i :: |s.ledger| <= i < |s'.ledger| ==> NewRow(s'.ledger[i]))
  }

  lemma CreateAppends(env: Env, s: State, a: Action)
    requires a.Create? && CreateOutcome(env, s, a).Done?
    ensures Appends(s, CreateOutcome(env, s, a).state) && CreateOutcome(env, s, a).state.settlements == s.settlements
  {
  }

  lemma FinalizeAppends(env: Env, s: State, k: Id, d: Dispute, deduction: nat, actor: Id)
    requires k < |s.disputes| && Finalize(env, s, k, d, deduction, actor).Done?
    ensures Appends(s, Finalize(env, s, k, d, deduction, actor).state)
    ensures Finalize(env, s, k, d, deduction, actor).state.settlements == s.settlements
  {
  }

  lemma EarlyAppends(env: Env, s: State, a: Action)
    requires a.Approve? || a.Decline? || a.Cancel?
    requires Step(env, s, a).Done?
    ensures Appends(s, Step(env, s, a).state) && Step(env, s, a).state.settlements == s.settlements
  {
  }

  lemma InspectAppends(env: Env, s: State, a: Action)
    requires a.RecordInspection? && InspectOutcome(env, s, a).Done?
    ensures Appends(s, InspectOutcome(env, s, a).state) && InspectOutcome(env, s, a).state.settlements == s.settlements
  {
  }

  lemma ExtendAppends(env: Env, s: State, a: Action)
    requires a.ApproveExtension? && a.request < |s.requests| && s.requests[a.request].booking < |s.bookings|
    ensures Appends(s, ExtendedState(env, s, a)) && ExtendedState(env, s, a).settlements == s.settlements
  {
  }

  /** No action but settling stamps, drops or rewrites a ledger row. */
  lemma StepAppends(env: Env, s: State, a: Action)
    requires Step(env, s, a).Done? && !a.CreateSettlement?
    ensures Appends(s, Step(env, s, a).state)
    ensures !a.MarkSettlementPaid? ==> Step(env, s, a).state.settlements == s.settlements
  {
    if a.Create? {
      CreateAppends(env, s, a);
    } else if a.Approve? || a.Decline? || a.Cancel? {
      EarlyAppends(env, s, a);
    } else if a.RecordInspection? {
      InspectAppends(env, s, a);
    } else if a.ApproveExtension? {
      ExtendAppends(env, s, a);
    } else if a.RespondToProposal? && a.accept {
      var d := s.disputes[a.dispute];
      FinalizeAppends(env, s, a.dispute, Settled(d, d.proposed, Agreed, a.actor),
                      if d.proposed.Some? then d.proposed.value else 0, a.actor);
    } else if a.AdminResolve? {
      var d := s.disputes[a.dispute];
      FinalizeAppends(env, s, a.dispute, Settled(d, Some(a.amount), AdminDecided, a.actor), a.amount, a.actor);
    }
  }

  // ---------- sums under appending and stamping ----------

  lemma {:induction false} SumsGrow(ledger: seq<Transaction>, ledger': seq<Transaction>, k: Id)
    requires |ledger| <= |ledger'| && ledger'[..|ledger|] == ledger
    requires forall i :: |ledger| <= i < |ledger'| ==> NewRow(ledger'[i])
    ensures StampedSum(ledger', k) == StampedSum(ledger, k)
    decreases |ledger'|
  {
    if |ledger| < |ledger'| {
      var init := ledger'[..|ledger'| - 1];
      assert init[..|ledger|] == ledger;
      SumsGrow(ledger, init, k);
    } else {
      assert ledger' == ledger;
    }
  }

  lemma StampedInit(ledger: seq<Transaction>, provider: Id, k: Id)
    requires ledger != []
    ensures Stamped(ledger, provider, k) ==
            Stamped(ledger[..|ledger| - 1], provider, k) + [Stamp(ledger[|ledger| - 1], provider, k)]
  {
  }

  /** The new id collects exactly the unsettled balance; every older settlement keeps its rows. */
  lemma {:induction false} StampSums(ledger: seq<Transaction>, settlements: seq<Settlement>, provider: Id, j: Id)
    requires RowsOk(ledger, settlements) && j <= |settlements|
    ensures StampedSum(Stamped(ledger, provider, |settlements|), j)
         == if j == |settlements| then SumUnsettled(ledger, provider) else StampedSum(ledger, j)
  {
    if ledger == [] {
    } else {
      var init := ledger[..|ledger| - 1];
      StampSums(init, settlements, provider, j);
      StampedInit(ledger, provider, |settlements|);
      var stamped := Stamped(ledger, provider, |settlements|);
      assert stamped[..|stamped| - 1] == Stamped(init, provider, |settlements|);
      assert RowOk(ledger[|ledger| - 1], settlements);
    }
  }

  lemma SettlePartitions(s: State, a: Action)
    requires Partitioned(s) && a.CreateSettlement? && SettleOutcome(s, a).Done?
    ensures Partitioned(SettleOutcome(s, a).state)
  {
    var s' := SettleOutcome(s, a).state;
    forall k | 0 <= k < |s'.settlements| ensures s'.settlements[k].total == StampedSum(s'.ledger, k) {
      StampSums(s.ledger, s.settlements, a.provider, k);
    }
    forall i | 0 <= i < |s'.ledger| ensures RowOk(s'.ledger[i], s'.settlements) {
      assert RowOk(s.ledger[i], s.settlements);
    }
  }

  /** Every action keeps the partition. */
  lemma PartitionKept(env: Env, s: State, a: Action)
    requires Partitioned(s) && Step(env, s, a).Done?
    ensures Partitioned(Step(env, s, a).state)
  {
    var s' := Step(env, s, a).state;
    if a.CreateSettlement? {
      SettlePartitions(s, a);
    } else {
      StepAppends(env, s, a);
      assert |s'.settlements| == |s.settlements|;
      forall i | 0 <= i < |s'.ledger| ensures RowOk(s'.ledger[i], s'.settlements) {
        if i < |s.ledger| { assert s'.ledger[i] == s.ledger[i] && RowOk(s.ledger[i], s.settlements); }
      }
      forall k | 0 <= k < |s'.settlements| ensures s'.settlements[k].total == StampedSum(s'.ledger, k) {
        SumsGrow(s.ledger, s'.ledger, k);
      }
    }
  }

  // ---------- what the partition means for a provider ----------

  /** Total of the provider's settlements. */
  function SettledTotal(settlements: seq<Settlement>, provider: Id): int {
    if settlements == [] then 0
    else
      var last := settlements[|settlements| - 1];
      SettledTotal(settlements[..|settlements| - 1], provider) + if last.provider == provider then last.total else 0
  }

  /** The provider's credits that are stamped with a settlement below `n`. */
  function StampedBelow(ledger: seq<Transaction>, provider: Id, n: nat): int {
    if ledger == [] then 0
    else
      var last := ledger[|ledger| - 1];
      StampedBelow(ledger[..|ledger| - 1], provider, n)
      + if IsCredit(last) && last.provider == Some(provider) && last.settlement.Some? && last.settlement.value < n
        then last.amount else 0
  }

  lemma {:induction false} StampedBelowStep(ledger: seq<Transaction>, settlements: seq<Settlement>, provider: Id,
                                            n: nat)
    requires RowsOk(ledger, settlements) && n < |settlements|
    ensures StampedBelow(ledger, provider, n + 1) == StampedBelow(ledger, provider, n)
            + if settlements[n].provider == provider then StampedSum(ledger, n) else 0
  {
    if ledger == [] {
    } else {
      StampedBelowStep(ledger[..|ledger| - 1], settlements, provider, n);
      assert RowOk(ledger[|ledger| - 1], settlements);
    }
  }

  lemma {:induction false} LifetimeSplits(ledger: seq<Transaction>, settlements: seq<Settlement>, provider: Id)
    requires RowsOk(ledger, settlements)
    ensures SumLifetime(ledger, provider) == SumUnsettled(ledger, provider)
            + StampedBelow(ledger, provider, |settlements|)
    ensures StampedBelow(ledger, provider, 0) == 0
  {
    if ledger == [] {
    } else {
      LifetimeSplits(ledger[..|ledger| - 1], settlements, provider);
      assert RowOk(ledger[|ledger| - 1], settlements);
    }
  }

  lemma {:induction false} SettledMatches(s: State, provider: Id, n: nat)
    requires Partitioned(s) && n <= |s.settlements|
    ensures StampedBelow(s.ledger, provider, n) == SettledTotal(s.settlements[..n], provider)
  {
    if n == 0 {
      LifetimeSplits(s.ledger, s.settlements, provider);
    } else {
      SettledMatches(s, provider, n - 1);
      StampedBelowStep(s.ledger, s.settlements, provider, n - 1);
      assert s.settlements[..n][..n - 1] == s.settlements[..n - 1];
    }
  }

  /** A provider's unsettled balance and settlements add up to everything ever earned. */
  lemma {:induction false} WalletAddsUp(s: State, provider: Id)
    requires Partitioned(s)
    ensures SumUnsettled(s.ledger, provider) + SettledTotal(s.settlements, provider) == SumLifetime(s.ledger, provider)
  {
    LifetimeSplits(s.ledger, s.settlements, provider);
    SettledMatches(s, provider, |s.settlements|);
    assert s.settlements[..|s.settlements|] == s.settlements;
  }

  /** A stamp, once set, is never changed by any action: no credit is paid out twice. */
  lemma StampsStay(env: Env, s: State, a: Action, i: Id)
    requires Step(env, s, a).Done? && i < |s.ledger|
    ensures var s' := Step(env, s, a).state;
            && i < |s'.ledger|
            && s'.ledger[i] == s.ledger[i].(settlement := s'.ledger[i].settlement)
            && (s.ledger[i].settlement.Some? ==> s'.ledger[i].settlement == s.ledger[i].settlement)
            && (s'.ledger[i].settlement != s.ledger[i].settlement ==>
                  a.CreateSettlement? && s'.ledger[i].settlement == Some(|s.settlements|)
                    && IsUnsettled(s.ledger[i], a.provider))
  {
    if !a.CreateSettlement? {
      StepAppends(env, s, a);
      var s' := Step(env, s, a).state;
      assert s'.ledger[i] == s'.ledger[..|s.ledger|][i];
    }
  }

  // ---------- the ledger as a whole ----------

  function TotalUnsettled(ledger: seq<Transaction>): int {
    if ledger == [] then 0
    else
      var last := ledger[|ledger| - 1];
      TotalUnsettled(ledger[..|ledger| - 1]) + if IsCredit(last) && last.settlement.None? then last.amount else 0
  }

  function SettlementTotals(settlements: seq<Settlement>): int {
    if settlements == [] then 0
    else SettlementTotals(settlements[..|settlements| - 1]) + settlements[|settlements| - 1].total
  }

  function LedgerSum(ledger: seq<Transaction>, kind: Kind): int {
    if ledger == [] then 0
    else
      var last := ledger[|ledger| - 1];
      LedgerSum(ledger[..|ledger| - 1], kind) + if last.kind == kind then last.amount else 0
  }

  function AllStampedBelow(ledger: seq<Transaction>, n: nat): int {
    if ledger == [] then 0
    else
      var last := ledger[|ledger| - 1];
      AllStampedBelow(ledger[..|ledger| - 1], n)
      + if last.settlement.Some? && last.settlement.value < n then last.amount else 0
  }

  lemma {:induction false} AllStampedStep(ledger: seq<Transaction>, n: nat)
    ensures AllStampedBelow(ledger, n + 1) == AllStampedBelow(ledger, n) + StampedSum(ledger, n)
    ensures AllStampedBelow(ledger, 0) == 0
  {
    if ledger == [] {
    } else {
      AllStampedStep(ledger[..|ledger| - 1], n);
    }
  }

  lemma {:induction false} AllSettledMatches(s: State, n: nat)
    requires Partitioned(s) && n <= |s.settlements|
    ensures AllStampedBelow(s.ledger, n) == SettlementTotals(s.settlements[..n])
  {
    if n == 0 {
      AllStampedStep(s.ledger, 0);
    } else {
      AllSettledMatches(s, n - 1);
      AllStampedStep(s.ledger, n - 1);
      assert s.settlements[..n][..n - 1] == s.settlements[..n - 1];
    }
  }

  lemma {:induction false} CreditsSplit(ledger: seq<Transaction>, settlements: seq<Settlement>)
    requires RowsOk(ledger, settlements)
    ensures LedgerSum(ledger, ProviderEarning) + LedgerSum(ledger, ProviderForfeitCredit)
         == TotalUnsettled(ledger) + AllStampedBelow(ledger, |settlements|)
  {
    if ledger == [] {
    } else {
      CreditsSplit(ledger[..|ledger| - 1], settlements);
      assert RowOk(ledger[|ledger| - 1], settlements);
    }
  }

  /** Platform-wide: all provider credits are settled or still unsettled. */
  lemma CreditsAddUp(s: State)
    requires Partitioned(s)
    ensures LedgerSum(s.ledger, ProviderEarning) + LedgerSum(s.ledger, ProviderForfeitCredit)
         == TotalUnsettled(s.ledger) + SettlementTotals(s.settlements)
  {
    CreditsSplit(s.ledger, s.settlements);
    AllSettledMatches(s, |s.settlements|);
    assert s.settlements[..|s.settlements|] == s.settlements;
  }

  // ---------- runs ----------

  /**
   * In every run: every ledger row is for a positive amount, each settlement's total is the sum of the rows stamped
   * with its id, and for every provider the unsettled balance plus the settlements is everything ever earned.
   */
  lemma {:induction false} RunPartitioned(events: seq<Event>)
    ensures Partitioned(Run(events)) && forall i :: 0 <= i < |Run(events).ledger| ==> Run(events).ledger[i].amount > 0
    ensures forall provider: Id ::
              SumUnsettled(Run(events).ledger, provider) + SettledTotal(Run(events).settlements, provider)
              == SumLifetime(Run(events).ledger, provider)
  {
    if events == [] {
    } else {
      var init, last := events[..|events| - 1], events[|events| - 1];
      RunPartitioned(init);
      if Step(last.env, Run(init), last.action).Done? { PartitionKept(last.env, Run(init), last.action); }
    }
    forall i | 0 <= i < |Run(events).ledger| ensures Run(events).ledger[i].amount > 0 {
      assert RowOk(Run(events).ledger[i], Run(events).settlements);
    }
    forall provider: Id
      ensures SumUnsettled(Run(events).ledger, provider) + SettledTotal(Run(events).settlements, provider)
           == SumLifetime(Run(events).ledger, provider)
    {
      WalletAddsUp(Run(events), provider);
    }
  }

  /** The same row, with the same stamp if it had one. */
  predicate KeepsStamp(t: Transaction, t': Transaction) {
    t' == t.(settlement := t'.settlement) && (t.settlement.Some? ==> t'.settlement == t.settlement)
  }

  /** No row is lost and no stamp is changed. */
  ghost predicate StampsKept(s: State, s': State) {
    |s.ledger| <= |s'.ledger| && forall row :: 0 <= row < |s.ledger| ==> KeepsStamp(s.ledger[row], s'.ledger[row])
  }

  lemma KeptTransitive(s: State, t: State, u: State)
    requires StampsKept(s, t) && StampsKept(t, u)
    ensures StampsKept(s, u)
  {
    forall row | 0 <= row < |s.ledger| ensures KeepsStamp(s.ledger[row], u.ledger[row]) {
      assert KeepsStamp(s.ledger[row], t.ledger[row]) && KeepsStamp(t.ledger[row], u.ledger[row]);
    }
  }

  lemma NextKeepsStamps(env: Env, s: State, a: Action)
    ensures StampsKept(s, Next(env, s, a))
  {
    if Step(env, s, a).Done? {
      forall row | 0 <= row < |s.ledger|
        ensures row < |Next(env, s, a).ledger| && KeepsStamp(s.ledger[row], Next(env, s, a).ledger[row])
      {
        StampsStay(env, s, a, row);
      }
      LedgerGrows(env, s, a);
    }
  }

  lemma LedgerGrows(env: Env, s: State, a: Action)
    requires Step(env, s, a).Done?
    ensures |s.ledger| <= |Step(env, s, a).state.ledger|
  {
    if !a.CreateSettlement? { StepAppends(env, s, a); }
  }

  /** If no link of a chain of states changes a stamp, the whole chain does not. */
  lemma {:induction false} ChainKeepsStamps(states: seq<State>, i: nat, j: nat)
    requires i <= j < |states| && forall k :: 0 < k < |states| ==> StampsKept(states[k - 1], states[k])
    ensures StampsKept(states[i], states[j])
    decreases j - i
  {
    if i == j {
    } else {
      ChainKeepsStamps(states, i, j - 1);
      KeptTransitive(states[i], states[j - 1], states[j]);
    }
  }

  lemma LinkKeepsStamps(events: seq<Event>, k: nat)
    requires k < |events|
    ensures StampsKept(Before(events, k), Before(events, k + 1))
  {
    RunStep(events, k);
    NextKeepsStamps(events[k].env, Before(events, k), events[k].action);
  }

  /** A credit stamped at one point of a run carries the same stamp at every later point. */
  lemma RunStampsStay(events: seq<Event>, i: nat, j: nat)
    requires i <= j <= |events|
    ensures StampsKept(Before(events, i), Before(events, j))
  {
    var states := seq(|events| + 1, k requires 0 <= k <= |events| => Before(events, k));
    forall k | 0 < k < |states| ensures StampsKept(states[k - 1], states[k]) {
      LinkKeepsStamps(events, k - 1);
    }
    ChainKeepsStamps(states, i, j);
  }

  // ---------- settling from a stale read ----------

  /** The rows `createSettlement` reads. */
  function UnsettledIds(ledger: seq<Transaction>, provider: Id): set<Id> {
    set i: Id | 0 <= i < |ledger| && IsUnsettled(ledger[i], provider)
  }

  /** The UPDATE stamps by id alone, whatever the rows carry by then. */
  function StampIds(ledger: seq<Transaction>, ids: set<Id>, settlement: Id): seq<Transaction> {
    seq(|ledger|, i requires 0 <= i < |ledger| =>
      if i in ids then ledger[i].(settlement := Some(settlement)) else ledger[i])
  }

  /** The write half of `createSettlement`, for rows and a total read earlier. */
  function SettleRead(s: State, provider: Id, ids: set<Id>, total: int): State {
    s.(settlements := s.settlements + [Settlement(provider, total, None)],
       ledger := StampIds(s.ledger, ids, |s.settlements|))
  }

  function SumOn(ledger: seq<Transaction>, ids: set<Id>): int {
    if ledger == [] then 0
    else
      var i := |ledger| - 1;
      SumOn(ledger[..i], ids) + if i in ids then ledger[i].amount else 0
  }

  /** What the stale write takes away from settlement `k`. */
  function Stolen(ledger: seq<Transaction>, ids: set<Id>, k: Id): int {
    if ledger == [] then 0
    else
      var i := |ledger| - 1;
      Stolen(ledger[..i], ids, k) + if i in ids && ledger[i].settlement == Some(k) then ledger[i].amount else 0
  }

  /** Read and written at once, the two halves are the atomic step. */
  lemma SettleAtOnce(s: State, a: Action)
    requires a.CreateSettlement? && SettleOutcome(s, a).Done?
    ensures SettleRead(s, a.provider, UnsettledIds(s.ledger, a.provider), SumUnsettled(s.ledger, a.provider))
         == SettleOutcome(s, a).state
  {
    assert StampIds(s.ledger, UnsettledIds(s.ledger, a.provider), |s.settlements|)
        == Stamped(s.ledger, a.provider, |s.settlements|);
  }

  lemma {:induction false} StampIdsSums(ledger: seq<Transaction>, settlements: seq<Settlement>, ids: set<Id>, k: Id)
    requires RowsOk(ledger, settlements) && k <= |settlements|
    ensures StampedSum(StampIds(ledger, ids, |settlements|), k) ==
            if k == |settlements| then SumOn(ledger, ids) else StampedSum(ledger, k) - Stolen(ledger, ids, k)
  {
    if ledger == [] {
    } else {
      var n := |ledger| - 1;
      StampIdsSums(ledger[..n], settlements, ids, k);
      assert StampIds(ledger, ids, |settlements|)[..n] == StampIds(ledger[..n], ids, |settlements|);
      assert RowOk(ledger[n], settlements);
    }
  }

  lemma {:induction false} StolenSign(ledger: seq<Transaction>, ids: set<Id>, k: Id)
    requires forall i :: i in ids && i < |ledger| ==> ledger[i].amount > 0
    ensures Stolen(ledger, ids, k) >= 0
    ensures Stolen(ledger, ids, k) == 0 <==> forall i :: i in ids && i < |ledger| ==> ledger[i].settlement != Some(k)
  {
    if ledger == [] {
    } else {
      var n := |ledger| - 1;
      StolenSign(ledger[..n], ids, k);
      if forall i :: i in ids && i < n ==> ledger[..n][i].settlement != Some(k) {
        forall i | i in ids && i < n ensures ledger[i].settlement != Some(k) { assert ledger[..n][i] == ledger[i]; }
      } else {
        var i :| i in ids && i < n && ledger[..n][i].settlement == Some(k);
        assert ledger[i].settlement == Some(k);
      }
    }
  }

  /**
   * Writing a settlement from rows read earlier keeps every settlement's total equal to its rows exactly when
   * those rows are all still unsettled, which the UPDATE does not check.
   */
  lemma {:induction false} StaleSettleIff(s: State, provider: Id, ids: set<Id>)
    requires Partitioned(s)
    requires forall i :: i in ids ==> i < |s.ledger| && IsCredit(s.ledger[i]) && s.ledger[i].provider == Some(provider)
    ensures Partitioned(SettleRead(s, provider, ids, SumOn(s.ledger, ids)))
       <==> forall i :: i in ids ==> s.ledger[i].settlement.None?
  {
    var s' := SettleRead(s, provider, ids, SumOn(s.ledger, ids));
    forall k | 0 <= k < |s'.settlements|
      ensures s'.settlements[k].total == StampedSum(s'.ledger, k)
         <==> k == |s.settlements| || forall i :: i in ids ==> s.ledger[i].settlement != Some(k)
    {
      assert forall i :: 0 <= i < |s.ledger| ==> RowOk(s.ledger[i], s.settlements);
      StampIdsSums(s.ledger, s.settlements, ids, k);
      StolenSign(s.ledger, ids, k);
    }
    forall i | 0 <= i < |s'.ledger| ensures RowOk(s'.ledger[i], s'.settlements) {
      assert RowOk(s.ledger[i], s.settlements);
    }
    if i :| i in ids && s.ledger[i].settlement.Some? {
      assert RowOk(s.ledger[i], s.settlements);
      var k := s.ledger[i].settlement.value;
      assert s'.settlements[k].total != StampedSum(s'.ledger, k);
    }
  }

  /** Two settlements written from the same read: the second always takes the rows of the first. */
  lemma DoubleSettleBreaks(s: State, a: Action)
    requires Partitioned(s) && a.CreateSettlement? && SettleOutcome(s, a).Done?
    ensures var once := SettleOutcome(s, a).state;
            && Partitioned(once)
            && !Partitioned(SettleRead(once, a.provider, UnsettledIds(s.ledger, a.provider),
                                       SumUnsettled(s.ledger, a.provider)))
  {
    var once, ids, k := SettleOutcome(s, a).state, UnsettledIds(s.ledger, a.provider), |s.settlements|;
    SettlePartitions(s, a);
    assert forall i :: 0 <= i < |once.ledger| ==> RowOk(once.ledger[i], once.settlements);
    StampIdsSums(once.ledger, once.settlements, ids, k);
    StolenSign(once.ledger, ids, k);
    var i :| 0 <= i < |s.ledger| && IsUnsettled(s.ledger[i], a.provider);
    assert i in ids && once.ledger[i].settlement == Some(k);
    var twice := SettleRead(once, a.provider, ids, SumUnsettled(s.ledger, a.provider));
    assert twice.settlements[k] == once.settlements[k] && once.settlements[k].total == StampedSum(once.ledger, k);
    assert twice.settlements[k].total != StampedSum(twice.ledger, k);
  }
}
