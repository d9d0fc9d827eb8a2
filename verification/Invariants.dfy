/** What stays true of every case file, move by move. */
module Invariants {
  import opened Domain
  import opened Rules
  import opened CaseFile

  // ---------- lifecycle ----------

  /** The ten committed combinations of stage and status. */
  predicate Legal(p: Point) {
    p in {Point(Requested, Pending), Point(Requested, Declined), Point(Requested, Cancelled),
          Point(Reserved, Confirmed), Point(Reserved, Cancelled), Point(Active, Confirmed),
          Point(ReturnSched, Confirmed), Point(Returned, Confirmed), Point(Inspected, Disputed),
          Point(Closed, Completed)}
  }

  predicate Lifecycle(f: File) {
    && Legal(f.b.At())
    && (f.b.paid.Some? <==> f.b.stage != Requested)
    && (f.b.status == Pending ==> f.b.mode == OnRequest)
    && f.b.startsAt < f.o.endsAt
    && f.hist != []
  }

  // ---------- extension chain and fees ----------

  /** Where the rental ends after the approved ones among `reqs`, starting from `end`. */
  function EndAfter(end: Time, reqs: seq<ExtensionRequest>): Time {
    if reqs == [] then end
    else if Last(reqs).status == Approved then Last(reqs).requestedEndsAt
    else EndAfter(end, reqs[..|reqs| - 1])
  }

  function ApprovedRental(reqs: seq<ExtensionRequest>): nat {
    if reqs == [] then 0
    else ApprovedRental(reqs[..|reqs| - 1]) + if Last(reqs).status == Approved then Last(reqs).rental else 0
  }

  function ApprovedService(reqs: seq<ExtensionRequest>): nat {
    if reqs == [] then 0
    else ApprovedService(reqs[..|reqs| - 1]) + if Last(reqs).status == Approved then Last(reqs).service else 0
  }

  /**
   * Every request starts where the approved ones before it left the rental and asks for a later end;
   * only the last can be pending; the booking ends where the approved requests lead.
   */
  ghost predicate Chained(f: File) {
    && (forall k :: 0 <= k < |f.reqs| ==>
          && f.reqs[k].currentEndsAt == EndAfter(f.o.endsAt, f.reqs[..k])
          && f.reqs[k].currentEndsAt < f.reqs[k].requestedEndsAt
          && (f.reqs[k].rental == 0 ==> f.reqs[k].service == 0)
          && (f.reqs[k].status == Approved ==> f.reqs[k].decidedAt.Some?))
    && (forall k :: 0 <= k < |f.reqs| - 1 ==> f.reqs[k].status != RequestPending)
    && f.b.endsAt == EndAfter(f.o.endsAt, f.reqs)
    && (f.reqs != [] ==> f.b.stage.Rank() >= Active.Rank())
  }

  /** Current fees are the original quote plus the approved extensions, and the total is their sum. */
  predicate FeesAddUp(f: File) {
    && f.o.quote.total == f.o.quote.rental + f.o.quote.service + f.o.quote.deposit
    && f.b.rental == f.o.quote.rental + ApprovedRental(f.reqs)
    && f.b.service == f.o.quote.service + ApprovedService(f.reqs)
    && f.b.deposit == f.o.quote.deposit
    && f.b.total == f.b.rental + f.b.service + f.b.deposit
  }

  // ---------- disputes ----------

  /** DISPUTED exactly while a dispute is unresolved; deductions stay within the deposit. */
  predicate Coupled(f: File) {
    && |f.disputes| <= 1
    && (f.b.status == Disputed <==> |f.disputes| == 1 && f.disputes[0].status != Resolved)
    && (|f.disputes| == 1 ==>
          var d := f.disputes[0];
          && f.b.stage.Rank() >= Inspected.Rank()
          && (d.proposed.Some? ==> d.proposed.value <= f.b.deposit)
          && (d.status == Proposed ==> d.proposed.Some?)
          && (d.status == Resolved <==> d.final.Some?)
          && (d.final.Some? ==> d.final.value <= f.b.deposit))
  }

  /** Holds of every file in every run, whatever the callers do. */
  ghost predicate Basic(f: File) {
    Lifecycle(f) && Chained(f) && FeesAddUp(f) && Coupled(f)
  }

  // ---------- history ----------

  /** Each row leaves from where the previous one arrived; the first leaves from nowhere. */
  predicate Path(hist: seq<HistoryRow>) {
    && (hist != [] ==> hist[0].from == None)
    && forall j, k :: 0 <= j < k == j + 1 < |hist| ==> hist[k].from == Some(hist[j].to)
  }

  predicate Replayable(f: File) {
    f.hist != [] && Path(f.hist) && Last(f.hist).to == f.b.At()
  }

  // ---------- lemmas about the chain functions ----------

  lemma ChainFrames(reqs: seq<ExtensionRequest>, last: ExtensionRequest)
    requires reqs != []
    ensures var reqs' := reqs[|reqs| - 1 := last];
            && reqs'[..|reqs| - 1] == reqs[..|reqs| - 1]
            && forall k :: 0 <= k < |reqs| ==> reqs'[..k] == reqs[..k]
  {
  }

  lemma ChainGrows(reqs: seq<ExtensionRequest>, r: ExtensionRequest)
    ensures (reqs + [r])[..|reqs|] == reqs
    ensures forall k :: 0 <= k <= |reqs| ==> (reqs + [r])[..k] == reqs[..k]
  {
  }

  // ---------- preservation ----------

  lemma BornBasic(id: Id, b: Booking, q: Quote, actor: Id, now: Time, reference: string)
    requires b.status == Pending && b.stage == Requested && b.paid.None? && b.startsAt < b.endsAt
    requires q.total == q.rental + q.service + q.deposit
    requires b.rental == q.rental && b.service == q.service && b.deposit == q.deposit && b.total == q.total
    ensures Basic(Newborn(id, b, q, actor, now, reference))
    ensures Replayable(Newborn(id, b, q, actor, now, reference))
  {
  }

  lemma EarlyLifecycle(owner: Id -> Id, f: File, m: Move)
    requires m.MApprove? || m.MDecline? || m.MCancel? || m.MHandover?
    requires Basic(f) && Enabled(owner, f, m)
    ensures Lifecycle(Apply(owner, f, m))
  {
  }

  lemma LateLifecycle(owner: Id -> Id, f: File, m: Move)
    requires m.MSchedule? || m.MReturn? || m.MInspectClean? || m.MInspectDamage? || m.MResolve?
    requires Basic(f) && Enabled(owner, f, m)
    ensures Lifecycle(Apply(owner, f, m))
  {
  }

  lemma LifecycleKept(owner: Id -> Id, f: File, m: Move)
    requires Basic(f) && Enabled(owner, f, m)
    ensures Lifecycle(Apply(owner, f, m))
  {
    if m.MApprove? || m.MDecline? || m.MCancel? || m.MHandover? {
      EarlyLifecycle(owner, f, m);
    } else if m.MSchedule? || m.MReturn? || m.MInspectClean? || m.MInspectDamage? || m.MResolve? {
      LateLifecycle(owner, f, m);
    }
  }

  /** A request that starts where the last approved one ends continues the chain. */
  lemma ChainedSnoc(f: File, r: ExtensionRequest)
    requires Chained(f) && f.b.stage.Rank() >= Active.Rank()
    requires forall k :: 0 <= k < |f.reqs| ==> f.reqs[k].status != RequestPending
    requires r.status == RequestPending && r.currentEndsAt == f.b.endsAt < r.requestedEndsAt
    requires r.rental == 0 ==> r.service == 0
    ensures Chained(f.(reqs := f.reqs + [r]))
  {
    ChainGrows(f.reqs, r);
    var reqs' := f.reqs + [r];
    assert EndAfter(f.o.endsAt, reqs') == EndAfter(f.o.endsAt, f.reqs);
    forall k | 0 <= k < |reqs'| ensures reqs'[k].currentEndsAt == EndAfter(f.o.endsAt, reqs'[..k]) {
      assert reqs'[..k] == f.reqs[..k];
      if k < |f.reqs| {
        assert reqs'[k] == f.reqs[k];
      } else {
        assert f.reqs[..k] == f.reqs;
      }
    }
  }

  lemma AskChained(owner: Id -> Id, f: File, m: Move)
    requires m.MRequest? && Basic(f) && Enabled(owner, f, m)
    ensures Chained(Apply(owner, f, m))
  {
    ChainedSnoc(f, ExtensionRequest(f.id, m.actor, f.b.endsAt, m.newEndsAt, RequestPending, m.rental, m.service,
                                    None, None));
  }

  lemma CloseChained(owner: Id -> Id, f: File, m: Move)
    requires m.MCloseRequest? && Basic(f) && Enabled(owner, f, m)
    ensures Chained(Apply(owner, f, m))
  {
    ChainFrames(f.reqs, Last(Apply(owner, f, m).reqs));
  }

  lemma ExtendChained(owner: Id -> Id, f: File, m: Move)
    requires m.MExtend? && Basic(f) && Enabled(owner, f, m)
    ensures Chained(Apply(owner, f, m))
  {
    ChainFrames(f.reqs, Decided(Last(f.reqs), Approved, m.actor, m.now));
  }

  /** Moves that leave requests, end and deposit alone; the stage only advances. */
  lemma StageFrames(owner: Id -> Id, f: File, m: Move)
    requires !m.MRequest? && !m.MCloseRequest? && !m.MExtend? && Enabled(owner, f, m)
    ensures var f' := Apply(owner, f, m);
            && f'.reqs == f.reqs && f'.o == f.o && f'.b.endsAt == f.b.endsAt && f'.b.startsAt == f.b.startsAt
            && f'.id == f.id && f'.b.renter == f.b.renter
  {
  }

  lemma EarlyRanks(owner: Id -> Id, f: File, m: Move)
    requires m.MApprove? || m.MDecline? || m.MCancel? || m.MHandover? || m.MSchedule?
    requires Basic(f) && Enabled(owner, f, m)
    ensures f.b.stage.Rank() <= Apply(owner, f, m).b.stage.Rank()
  {
  }

  lemma LateRanks(owner: Id -> Id, f: File, m: Move)
    requires m.MReturn? || m.MInspectClean? || m.MInspectDamage? || m.MResolve?
    requires Basic(f) && Enabled(owner, f, m)
    ensures f.b.stage.Rank() <= Apply(owner, f, m).b.stage.Rank()
  {
  }

  lemma StageRanks(owner: Id -> Id, f: File, m: Move)
    requires !m.MRequest? && !m.MCloseRequest? && !m.MExtend? && Basic(f) && Enabled(owner, f, m)
    ensures f.b.stage.Rank() <= Apply(owner, f, m).b.stage.Rank()
  {
    if m.MApprove? || m.MDecline? || m.MCancel? || m.MHandover? || m.MSchedule? {
      EarlyRanks(owner, f, m);
    } else if m.MReturn? || m.MInspectClean? || m.MInspectDamage? || m.MResolve? {
      LateRanks(owner, f, m);
    }
  }

  lemma StageChained(owner: Id -> Id, f: File, m: Move)
    requires !m.MRequest? && !m.MCloseRequest? && !m.MExtend? && Basic(f) && Enabled(owner, f, m)
    ensures Chained(Apply(owner, f, m))
  {
    StageFrames(owner, f, m);
    StageRanks(owner, f, m);
  }

  lemma ChainKept(owner: Id -> Id, f: File, m: Move)
    requires Basic(f) && Enabled(owner, f, m)
    ensures Chained(Apply(owner, f, m))
  {
    match m
    case MRequest(_, _, _, _) => AskChained(owner, f, m);
    case MCloseRequest(_) => CloseChained(owner, f, m);
    case MExtend(_, _, _) => ExtendChained(owner, f, m);
    case _ => StageChained(owner, f, m);
  }

  lemma ExtendFees(owner: Id -> Id, f: File, m: Move)
    requires m.MExtend? && Basic(f) && Enabled(owner, f, m)
    ensures FeesAddUp(Apply(owner, f, m))
  {
    ChainFrames(f.reqs, Decided(Last(f.reqs), Approved, m.actor, m.now));
  }

  lemma RequestFees(owner: Id -> Id, f: File, m: Move)
    requires (m.MRequest? || m.MCloseRequest?) && Basic(f) && Enabled(owner, f, m)
    ensures FeesAddUp(Apply(owner, f, m))
  {
    var f' := Apply(owner, f, m);
    if m.MRequest? {
      ChainGrows(f.reqs, Last(f'.reqs));
    } else {
      ChainFrames(f.reqs, Last(f'.reqs));
    }
  }

  lemma FeesKept(owner: Id -> Id, f: File, m: Move)
    requires Basic(f) && Enabled(owner, f, m)
    ensures FeesAddUp(Apply(owner, f, m))
  {
    match m
    case MRequest(_, _, _, _) => RequestFees(owner, f, m);
    case MCloseRequest(_) => RequestFees(owner, f, m);
    case MExtend(_, _, _) => ExtendFees(owner, f, m);
    case _ =>
  }

  lemma DisputeCoupled(owner: Id -> Id, f: File, m: Move)
    requires m.MInspectDamage? || m.MPropose? || m.MContest? || m.MResolve?
    requires Basic(f) && Enabled(owner, f, m)
    ensures Coupled(Apply(owner, f, m))
  {
  }

  /** These moves touch no dispute and neither start nor end one. */
  lemma DisputeFrames(owner: Id -> Id, f: File, m: Move)
    requires !m.MInspectDamage? && !m.MPropose? && !m.MContest? && !m.MResolve?
    requires Basic(f) && Enabled(owner, f, m)
    ensures var f' := Apply(owner, f, m);
            && f'.disputes == f.disputes && f'.b.deposit == f.b.deposit
            && (f'.b.status == Disputed <==> f.b.status == Disputed)
            && (f.b.stage.Rank() >= Inspected.Rank() ==> f'.b.stage == f.b.stage)
  {
  }

  lemma UndisputedCoupled(owner: Id -> Id, f: File, m: Move)
    requires !m.MInspectDamage? && !m.MPropose? && !m.MContest? && !m.MResolve?
    requires Basic(f) && Enabled(owner, f, m)
    ensures Coupled(Apply(owner, f, m))
  {
    DisputeFrames(owner, f, m);
  }

  lemma CouplingKept(owner: Id -> Id, f: File, m: Move)
    requires Basic(f) && Enabled(owner, f, m)
    ensures Coupled(Apply(owner, f, m))
  {
    if m.MInspectDamage? || m.MPropose? || m.MContest? || m.MResolve? {
      DisputeCoupled(owner, f, m);
    } else {
      UndisputedCoupled(owner, f, m);
    }
  }

  lemma BasicKept(owner: Id -> Id, f: File, m: Move)
    requires Basic(f) && Enabled(owner, f, m)
    ensures Basic(Apply(owner, f, m))
  {
    LifecycleKept(owner, f, m);
    ChainKept(owner, f, m);
    FeesKept(owner, f, m);
    CouplingKept(owner, f, m);
  }

  /** A trail leaves from `from`, visits the steps in order and connects them. */
  lemma {:induction false} TrailIsPath(id: Id, from: Point, steps: seq<Point>, actor: Id, now: Time)
    requires steps != []
    ensures var rows := Trail(id, from, steps, actor, now);
            && |rows| == |steps|
            && (forall k :: 0 <= k < |rows| ==> rows[k].from == Some(if k == 0 then from else steps[k - 1]))
            && (forall k :: 0 <= k < |rows| ==> rows[k].to == steps[k] && rows[k].at == now)
    decreases |steps|
  {
    if |steps| == 1 {
    } else {
      TrailIsPath(id, steps[0], steps[1..], actor, now);
    }
  }

  lemma PathAppend(hist: seq<HistoryRow>, rows: seq<HistoryRow>)
    requires hist != [] && rows != [] && Path(hist) && rows[0].from == Some(Last(hist).to)
    requires forall j, k :: 0 <= j < k == j + 1 < |rows| ==> rows[k].from == Some(rows[j].to)
    ensures Path(hist + rows) && Last(hist + rows) == Last(rows)
  {
  }

  lemma AlongReplayable(f: File, b: Booking, entries: seq<Entry>, steps: seq<Point>, actor: Id, now: Time)
    requires Replayable(f) && steps != []
    ensures Replayable(Along(f, b, entries, steps, actor, now))
  {
    TrailIsPath(f.id, f.b.At(), steps, actor, now);
    PathAppend(f.hist, Trail(f.id, f.b.At(), steps, actor, now));
  }

  /** The one move whose history row can lie: an approval logged as ACTIVE to ACTIVE. */
  predicate LogsTruly(f: File, m: Move) {
    m.MExtend? ==> f.b.stage == Active
  }

  lemma {:induction false} WalksReplay(owner: Id -> Id, f: File, m: Move)
    requires Replayable(f) && Enabled(owner, f, m) && !m.MExtend?
    ensures Replayable(Apply(owner, f, m))
  {
    var b := f.b;
    match m
    case MApprove(actor, now, reference) =>
      AlongReplayable(f, b.(paid := Some(reference)), PostCharge(f, b.total), TO_RESERVED, actor, now);
    case MDecline(actor, now) => AlongReplayable(f, b, [], [Point(b.stage, Declined)], actor, now);
    case MCancel(actor, now) =>
      AlongReplayable(f, b, if b.status == Confirmed then PostRefund(f, RefundAt(b, now)) else [],
                      [Point(b.stage, Cancelled)], actor, now);
    case MHandover(actor, now) => AlongReplayable(f, b, [], TO_ACTIVE, actor, now);
    case MSchedule(actor, now) => AlongReplayable(f, b, [], [Point(ReturnSched, Confirmed)], actor, now);
    case MReturn(actor, now) => AlongReplayable(f, b, [], [Point(Returned, Confirmed)], actor, now);
    case MInspectClean(actor, now, provider) =>
      AlongReplayable(f, b, PostRelease(f, b.deposit) + PostEarning(f, provider),
                      [Point(Inspected, Confirmed)] + TO_COMPLETED, actor, now);
    case MInspectDamage(actor, now) =>
      AlongReplayable(f, b, [], [Point(Inspected, Confirmed), Point(Inspected, Disputed)], actor, now);
    case MResolve(actor, now, provider, final, how) =>
      var deduction := Deduction(final);
      var release := if b.deposit - deduction < 0 then 0 else b.deposit - deduction;
      AlongReplayable(f, b, PostRelease(f, release) + PostForfeit(f, provider, deduction) + PostEarning(f, provider),
                      [Point(b.stage, Confirmed)] + TO_COMPLETED, actor, now);
    case _ =>
  }

  /** A history stays replayable through a move exactly when the move logs the stage the booking is at. */
  lemma ReplayKeptIff(owner: Id -> Id, f: File, m: Move)
    requires Replayable(f) && Enabled(owner, f, m)
    ensures Replayable(Apply(owner, f, m)) <==> LogsTruly(f, m)
  {
    if m.MExtend? {
      var hist := Apply(owner, f, m).hist;
      var n := |f.hist|;
      assert hist[n].from == Some(Point(Active, f.b.status)) && hist[n - 1] == f.hist[n - 1];
      if f.b.stage == Active {
        PathAppend(f.hist, hist[n..]);
        assert hist == f.hist + hist[n..];
      }
    } else {
      WalksReplay(owner, f, m);
    }
  }
}
