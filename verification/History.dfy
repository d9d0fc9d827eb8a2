/** The status history, row by row: which transitions are ever logged, and that every stage passed is logged once. */
module History {
  import opened Domain
  import opened Rules
  import opened CaseFile
  import opened Simulation
  import opened Invariants
  import opened Runs
  import opened Deposits
  import Creating
  import Acting
  import Extending
  import Deciding

  // ---------- the transitions there are ----------

  /** BOOKING_STAGE_ORDER. */
  const STAGES := [Requested, Accepted, Payment, Reserved, Ready, PickedUp, Active, ReturnSched, Returned, Inspected,
                   DepositReleased, Closed]

  /** Every transition a booking's history can show. */
  predicate Logs(from: Option<Point>, to: Point) {
    match from
    case None => to == Point(Requested, Pending)
    case Some(Point(Requested, Pending)) =>
      to in {Point(Accepted, Pending), Point(Requested, Declined), Point(Requested, Cancelled)}
    case Some(Point(Requested, Declined)) => to == Point(Requested, Cancelled)
    case Some(Point(Accepted, Pending)) => to == Point(Payment, Pending)
    case Some(Point(Payment, Pending)) => to == Point(Reserved, Confirmed)
    case Some(Point(Reserved, Confirmed)) => to in {Point(Ready, Confirmed), Point(Reserved, Cancelled)}
    case Some(Point(Reserved, Cancelled)) => to == Point(Ready, Confirmed)
    case Some(Point(Ready, Confirmed)) => to == Point(PickedUp, Confirmed)
    case Some(Point(PickedUp, Confirmed)) => to == Point(Active, Confirmed)
    case Some(Point(Active, status)) =>
      || to == Point(Active, status)
      || (status == Confirmed && to in {Point(ReturnSched, Confirmed), Point(Returned, Confirmed)})
    case Some(Point(ReturnSched, Confirmed)) => to == Point(Returned, Confirmed)
    case Some(Point(Returned, Confirmed)) => to == Point(Inspected, Confirmed)
    case Some(Point(Inspected, Confirmed)) => to in {Point(Inspected, Disputed), Point(DepositReleased, Confirmed)}
    case Some(Point(Inspected, Disputed)) => to == Point(Inspected, Confirmed)
    case Some(Point(DepositReleased, Confirmed)) => to == Point(Closed, Completed)
    case _ => false
  }

  ghost predicate AllLogged(history: seq<HistoryRow>) {
    forall k :: 0 <= k < |history| ==> Logs(history[k].from, history[k].to)
  }

  lemma AtLegal(s: State, id: Id)
    requires AllBasic(s) && id < |s.bookings|
    ensures Legal(s.bookings[id].At())
  {
    assert Basic(FileOf(s, id));
  }

  lemma CreateLogs(env: Env, s: State, a: Action)
    requires AllLogged(s.history) && a.Create? && Step(env, s, a).Done?
    ensures AllLogged(Step(env, s, a).state.history)
  {
    if Creating.Replays(s, a) {
      Creating.ReplayAnswers(env, s, a);
    } else {
      Creating.CreateStores(env, s, a);
    }
  }

  lemma EarlyLogs(env: Env, s: State, a: Action)
    requires AllBasic(s) && AllLogged(s.history) && Step(env, s, a).Done? && (a.Approve? || a.Decline?)
    ensures AllLogged(Step(env, s, a).state.history)
  {
    AtLegalWhenDone(env, s, a);
    match a
    case Approve(id, actor, reference) => Acting.ApproveIs(env, s, id, actor, reference);
    case Decline(id, actor) => Acting.DeclineIs(env, s, id, actor);
  }

  lemma ReservedLogs(env: Env, s: State, a: Action)
    requires AllBasic(s) && AllLogged(s.history) && Step(env, s, a).Done? && (a.Cancel? || a.ConfirmHandover?)
    ensures AllLogged(Step(env, s, a).state.history)
  {
    AtLegalWhenDone(env, s, a);
    match a
    case Cancel(id, actor) => Acting.CancelIs(env, s, id, actor);
    case ConfirmHandover(id, actor) => Acting.HandoverIs(env, s, id, actor);
  }

  lemma AtLegalWhenDone(env: Env, s: State, a: Action)
    requires AllBasic(s) && Step(env, s, a).Done? && (a.Approve? || a.Decline? || a.Cancel? || a.ConfirmHandover?)
    ensures a.booking < |s.bookings| && Legal(s.bookings[a.booking].At())
  {
    AtLegal(s, a.booking);
  }

  lemma ReturnLogs(env: Env, s: State, a: Action)
    requires AllBasic(s) && AllLogged(s.history) && Step(env, s, a).Done? && (a.ScheduleReturn? || a.ConfirmReturn?)
    ensures AllLogged(Step(env, s, a).state.history)
  {
    match a
    case ScheduleReturn(id, actor) => Acting.ScheduleReturnIs(env, s, id, actor); AtLegal(s, id);
    case ConfirmReturn(id, actor) => Acting.ConfirmReturnIs(env, s, id, actor); AtLegal(s, id);
  }

  lemma CleanLogs(env: Env, s: State, id: Id, actor: Id)
    requires AllBasic(s) && AllLogged(s.history) && Step(env, s, RecordInspection(id, actor, false)).Done?
    ensures AllLogged(Step(env, s, RecordInspection(id, actor, false)).state.history)
  {
    Acting.CleanInspectionIs(env, s, id, actor);
    AtLegal(s, id);
  }

  lemma DamageLogs(env: Env, s: State, id: Id, actor: Id)
    requires AllBasic(s) && AllLogged(s.history) && Step(env, s, RecordInspection(id, actor, true)).Done?
    ensures AllLogged(Step(env, s, RecordInspection(id, actor, true)).state.history)
  {
    Acting.DamagedInspectionIs(env, s, id, actor);
    AtLegal(s, id);
  }

  lemma DisputedAt(s: State, k: Id)
    requires AllBasic(s) && k < |s.disputes| && s.disputes[k].status != Resolved
    ensures s.disputes[k].booking < |s.bookings| && s.bookings[s.disputes[k].booking].At() == Point(Inspected, Disputed)
  {
    DisputeFile(s, k);
    assert Basic(FileOf(s, s.disputes[k].booking));
    AtLegal(s, s.disputes[k].booking);
  }

  lemma FinalisedLogs(env: Env, s: State, k: Id, resolved: Dispute, deduction: nat, actor: Id)
    requires AllLogged(s.history) && k < |s.disputes| && resolved.booking < |s.bookings|
    requires s.bookings[resolved.booking].At() == Point(Inspected, Disputed)
    requires Deciding.Finalised(env, s, k, resolved, deduction, actor).Done?
    ensures AllLogged(Deciding.Finalised(env, s, k, resolved, deduction, actor).state.history)
  {
  }

  lemma RespondLogs(env: Env, s: State, k: Id, actor: Id, accept: bool)
    requires AllBasic(s) && AllLogged(s.history) && Step(env, s, RespondToProposal(k, actor, accept)).Done?
    ensures AllLogged(Step(env, s, RespondToProposal(k, actor, accept)).state.history)
  {
    Deciding.RespondIs(env, s, k, actor, accept);
    if accept {
      var d := s.disputes[k];
      DisputedAt(s, k);
      FinalisedLogs(env, s, k,
                    d.(status := Resolved, final := d.proposed, resolution := Some(Agreed), resolvedBy := Some(actor)),
                    if d.proposed.Some? then d.proposed.value else 0, actor);
    }
  }

  lemma AdminLogs(env: Env, s: State, k: Id, actor: Id, amount: nat)
    requires AllBasic(s) && AllLogged(s.history) && Step(env, s, AdminResolve(k, actor, amount)).Done?
    ensures AllLogged(Step(env, s, AdminResolve(k, actor, amount)).state.history)
  {
    Deciding.AdminResolveIs(env, s, k, actor, amount);
    var d := s.disputes[k];
    DisputedAt(s, k);
    FinalisedLogs(env, s, k,
                  d.(status := Resolved, final := Some(amount), resolution := Some(AdminDecided),
                     resolvedBy := Some(actor)),
                  amount, actor);
  }

  lemma DisputeLogs(env: Env, s: State, a: Action)
    requires AllBasic(s) && AllLogged(s.history) && Step(env, s, a).Done?
    requires a.ProposeDeduction? || a.RespondToProposal? || a.AdminResolve?
    ensures AllLogged(Step(env, s, a).state.history)
  {
    match a
    case ProposeDeduction(k, actor, amount) => Deciding.ProposeIs(env, s, k, actor, amount);
    case RespondToProposal(k, actor, accept) => RespondLogs(env, s, k, actor, accept);
    case AdminResolve(k, actor, amount) => AdminLogs(env, s, k, actor, amount);
  }

  lemma OtherLogs(env: Env, s: State, a: Action)
    requires AllLogged(s.history) && Step(env, s, a).Done?
    requires a.RequestExtension? || a.ApproveExtension? || a.DeclineExtension? || a.CancelExtension?
             || a.CreateSettlement? || a.MarkSettlementPaid?
    ensures AllLogged(Step(env, s, a).state.history)
  {
    match a
    case RequestExtension(id, actor, newEndsAt) => Extending.RequestStores(env, s, id, actor, newEndsAt);
    case ApproveExtension(k, actor, reference) => Extending.ApproveExtensionIs(env, s, k, actor, reference);
    case DeclineExtension(k, actor) => Extending.DeclineExtensionIs(env, s, k, actor);
    case CancelExtension(k, actor) => Extending.CancelExtensionIs(env, s, k, actor);
    case CreateSettlement(provider) => Deciding.SettleIs(env, s, provider);
    case MarkSettlementPaid(k, reference) => Deciding.MarkPaidIs(env, s, k, reference);
  }

  lemma StepLogs(env: Env, s: State, a: Action)
    requires AllBasic(s) && AllLogged(s.history)
    ensures AllLogged(Next(env, s, a).history)
  {
    if Step(env, s, a).Done? {
      if a.Create? {
        CreateLogs(env, s, a);
      } else if a.Approve? || a.Decline? {
        EarlyLogs(env, s, a);
      } else if a.Cancel? || a.ConfirmHandover? {
        ReservedLogs(env, s, a);
      } else if a.ScheduleReturn? || a.ConfirmReturn? {
        ReturnLogs(env, s, a);
      } else if a.RecordInspection? {
        if a.damageFound { DamageLogs(env, s, a.booking, a.actor); } else { CleanLogs(env, s, a.booking, a.actor); }
      } else if a.ProposeDeduction? || a.RespondToProposal? || a.AdminResolve? {
        DisputeLogs(env, s, a);
      } else {
        OtherLogs(env, s, a);
      }
    }
  }

  /** In every run the history shows these transitions and no others. */
  lemma {:induction false} RunLogs(owner: Id -> Id, events: seq<Event>)
    requires OwnedRun(owner, events)
    ensures AllLogged(Run(events).history)
  {
    if events == [] {
    } else {
      var init, last := events[..|events| - 1], events[|events| - 1];
      RunLogs(owner, init);
      RunBasic(owner, init);
      StepLogs(last.env, Run(init), last.action);
    }
  }

  /** `to` is where `from` is in the stage order, or one further; only an unscheduled return skips one. */
  predicate OneOn(from: Stage, to: Stage) {
    || from == to || (from == Active && to == Returned)
    || exists k :: 0 <= k < 11 && STAGES[k] == from && STAGES[k + 1] == to
  }

  /**
   * No transition goes back, and a stage is entered as PENDING up to payment, as COMPLETED at the end, and as
   * CONFIRMED in between.
   */
  lemma LogsOneOn(from: Point, to: Point)
    requires Logs(Some(from), to)
    ensures OneOn(from.stage, to.stage)
    ensures from.stage != to.stage ==>
              to.status == if to.stage in {Accepted, Payment} then Pending else if to.stage == Closed then Completed
                           else Confirmed
  {
    var k := from.stage.Rank();
    if k < 11 && to.stage == STAGES[k + 1] { assert STAGES[k] == from.stage; }
  }

  /** The ranks of the model are the positions in the order. */
  lemma RanksAreThePositions(stage: Stage)
    ensures stage.Rank() < |STAGES| == 12 && STAGES[stage.Rank()] == stage
  {
  }

  // ---------- every stage passed, once ----------

  predicate Enters(row: HistoryRow, stage: Stage) {
    row.to.stage == stage && (row.from.Some? ==> row.from.value.stage != stage)
  }

  /** How often a history enters a stage. */
  function Entered(hist: seq<HistoryRow>, stage: Stage): nat {
    if hist == [] then 0
    else Entered(hist[..|hist| - 1], stage) + if Enters(hist[|hist| - 1], stage) then 1 else 0
  }

  /** The stages up to the present one are entered once, a scheduled return at most once, and the others never. */
  ghost predicate LoggedOnce(f: File) {
    forall stage: Stage ::
      if stage.Rank() > f.b.stage.Rank() then Entered(f.hist, stage) == 0
      else if stage == ReturnSched && f.b.stage != ReturnSched then Entered(f.hist, stage) <= 1
      else Entered(f.hist, stage) == 1
  }

  lemma {:induction false} EnteredMore(hist: seq<HistoryRow>, rows: seq<HistoryRow>, stage: Stage)
    ensures Entered(hist + rows, stage) == Entered(hist, stage) + Entered(rows, stage)
  {
    if rows == [] {
      assert hist + rows == hist;
    } else {
      assert (hist + rows)[..|hist + rows| - 1] == hist + rows[..|rows| - 1];
      EnteredMore(hist, rows[..|rows| - 1], stage);
    }
  }

  lemma {:induction false} EnteredOne(p: HistoryRow, stage: Stage)
    ensures Entered([p], stage) == if Enters(p, stage) then 1 else 0
  {
    assert [p][..0] == [] && Entered([], stage) == 0;
  }

  lemma {:induction false} EnteredTwo(p: HistoryRow, q: HistoryRow, stage: Stage)
    ensures Entered([p, q], stage) == (if Enters(p, stage) then 1 else 0) + if Enters(q, stage) then 1 else 0
  {
    assert [p, q] == [p] + [q];
    EnteredMore([p], [q], stage);
    EnteredOne(p, stage);
    EnteredOne(q, stage);
  }

  lemma {:induction false} EnteredThree(p: HistoryRow, q: HistoryRow, r: HistoryRow, stage: Stage)
    ensures Entered([p, q, r], stage)
         == (if Enters(p, stage) then 1 else 0) + (if Enters(q, stage) then 1 else 0)
            + if Enters(r, stage) then 1 else 0
  {
    assert [p, q, r] == [p, q] + [r];
    EnteredMore([p, q], [r], stage);
    EnteredTwo(p, q, stage);
    EnteredOne(r, stage);
  }

  lemma {:induction false} TrailOfTwo(id: Id, from: Point, p: Point, q: Point, actor: Id, now: Time)
    ensures Trail(id, from, [p], actor, now) == [HistoryRow(id, Some(from), p, actor, now)]
    ensures Trail(id, from, [p, q], actor, now)
         == [HistoryRow(id, Some(from), p, actor, now), HistoryRow(id, Some(p), q, actor, now)]
  {
    assert [p, q][1..] == [q] && [q][1..] == [] && [p][1..] == [];
    assert Trail(id, q, [], actor, now) == [] && Trail(id, p, [], actor, now) == [];
    assert Trail(id, p, [q], actor, now) == [HistoryRow(id, Some(p), q, actor, now)];
  }

  /** What one, two or three steps enter. */
  lemma {:induction false} TrailEnters(id: Id, from: Point, p: Point, q: Point, r: Point, actor: Id, now: Time,
                                       stage: Stage)
    ensures var one := if stage == p.stage != from.stage then 1 else 0;
            var two := one + if stage == q.stage != p.stage then 1 else 0;
            && Entered(Trail(id, from, [p], actor, now), stage) == one
            && Entered(Trail(id, from, [p, q], actor, now), stage) == two
            && Entered(Trail(id, from, [p, q, r], actor, now), stage)
               == two + if stage == r.stage != q.stage then 1 else 0
  {
    TrailOfTwo(id, from, p, q, actor, now);
    Creating.TrailOfThree(id, from, p, q, r, actor, now);
    var x, y, z := HistoryRow(id, Some(from), p, actor, now), HistoryRow(id, Some(p), q, actor, now),
                   HistoryRow(id, Some(q), r, actor, now);
    EnteredOne(x, stage);
    EnteredTwo(x, y, stage);
    EnteredThree(x, y, z, stage);
  }

  /** Steps that start at the present stage and enter each stage between it and the last once. */
  lemma OneStepLogged(f: File, p: Point, actor: Id, now: Time, b: Booking, entries: seq<Entry>)
    requires LoggedOnce(f)
    requires p.stage == f.b.stage || p.stage.Rank() == f.b.stage.Rank() + 1
             || (f.b.stage == Active && p.stage == Returned)
    ensures LoggedOnce(Along(f, b, entries, [p], actor, now))
  {
    forall stage: Stage
      ensures var f' := Along(f, b, entries, [p], actor, now);
              Entered(f'.hist, stage) == Entered(f.hist, stage) + if stage == p.stage != f.b.stage then 1 else 0
    {
      TrailEnters(f.id, f.b.At(), p, p, p, actor, now, stage);
      EnteredMore(f.hist, Trail(f.id, f.b.At(), [p], actor, now), stage);
    }
  }

  lemma TwoStepsLogged(f: File, p: Point, q: Point, actor: Id, now: Time, b: Booking, entries: seq<Entry>)
    requires LoggedOnce(f) && p.stage == q.stage && p.stage.Rank() == f.b.stage.Rank() + 1
    ensures LoggedOnce(Along(f, b, entries, [p, q], actor, now))
  {
    forall stage: Stage
      ensures var f' := Along(f, b, entries, [p, q], actor, now);
              Entered(f'.hist, stage) == Entered(f.hist, stage) + if stage == p.stage then 1 else 0
    {
      TrailEnters(f.id, f.b.At(), p, q, q, actor, now, stage);
      EnteredMore(f.hist, Trail(f.id, f.b.At(), [p, q], actor, now), stage);
    }
  }

  lemma ThreeStepsLogged(f: File, p: Point, q: Point, r: Point, actor: Id, now: Time, b: Booking, entries: seq<Entry>)
    requires LoggedOnce(f)
    requires p.stage == f.b.stage || p.stage.Rank() == f.b.stage.Rank() + 1
    requires q.stage.Rank() == p.stage.Rank() + 1 && r.stage.Rank() == q.stage.Rank() + 1
    requires f.b.stage != Active && p.stage != ReturnSched && q.stage != ReturnSched && r.stage != ReturnSched
    ensures LoggedOnce(Along(f, b, entries, [p, q, r], actor, now))
  {
    forall stage: Stage
      ensures var f' := Along(f, b, entries, [p, q, r], actor, now);
              Entered(f'.hist, stage) == Entered(f.hist, stage) + (if stage == p.stage != f.b.stage then 1 else 0)
                                         + (if stage == q.stage then 1 else 0) + if stage == r.stage then 1 else 0
    {
      TrailEnters(f.id, f.b.At(), p, q, r, actor, now, stage);
      EnteredMore(f.hist, Trail(f.id, f.b.At(), [p, q, r], actor, now), stage);
    }
  }

  lemma EarlyLoggedOnce(owner: Id -> Id, f: File, m: Move)
    requires Basic(f) && LoggedOnce(f) && Enabled(owner, f, m)
    requires m.MApprove? || m.MDecline? || m.MCancel? || m.MHandover? || m.MSchedule? || m.MReturn?
    ensures LoggedOnce(Apply(owner, f, m))
  {
    var b := f.b;
    match m
    case MApprove(actor, now, reference) =>
      ThreeStepsLogged(f, Point(Accepted, Pending), Point(Payment, Pending), Point(Reserved, Confirmed), actor, now,
                       b.(paid := Some(reference)), PostCharge(f, b.total));
    case MDecline(actor, now) => OneStepLogged(f, Point(b.stage, Declined), actor, now, b, []);
    case MCancel(actor, now) =>
      OneStepLogged(f, Point(b.stage, Cancelled), actor, now, b,
                    if b.status == Confirmed then PostRefund(f, RefundAt(b, now)) else []);
    case MHandover(actor, now) =>
      ThreeStepsLogged(f, Point(Ready, Confirmed), Point(PickedUp, Confirmed), Point(Active, Confirmed), actor, now, b,
                       []);
    case MSchedule(actor, now) => OneStepLogged(f, Point(ReturnSched, Confirmed), actor, now, b, []);
    case MReturn(actor, now) => OneStepLogged(f, Point(Returned, Confirmed), actor, now, b, []);
  }

  lemma InspectLoggedOnce(owner: Id -> Id, f: File, m: Move)
    requires Basic(f) && LoggedOnce(f) && Enabled(owner, f, m) && (m.MInspectClean? || m.MInspectDamage?)
    ensures LoggedOnce(Apply(owner, f, m))
  {
    var b := f.b;
    match m
    case MInspectClean(actor, now, provider) =>
      assert [Point(Inspected, Confirmed)] + TO_COMPLETED
          == [Point(Inspected, Confirmed), Point(DepositReleased, Confirmed), Point(Closed, Completed)];
      ThreeStepsLogged(f, Point(Inspected, Confirmed), Point(DepositReleased, Confirmed), Point(Closed, Completed),
                       actor, now, b, PostRelease(f, b.deposit) + PostEarning(f, provider));
    case MInspectDamage(actor, now) =>
      TwoStepsLogged(f, Point(Inspected, Confirmed), Point(Inspected, Disputed), actor, now, b, []);
  }

  lemma ResolveLoggedOnce(owner: Id -> Id, f: File, m: Move)
    requires Basic(f) && LoggedOnce(f) && Enabled(owner, f, m) && m.MResolve?
    ensures LoggedOnce(Apply(owner, f, m))
  {
    var b, deduction := f.b, Deduction(m.final);
    var release := if b.deposit - deduction < 0 then 0 else b.deposit - deduction;
    assert [Point(b.stage, Confirmed)] + TO_COMPLETED
        == [Point(b.stage, Confirmed), Point(DepositReleased, Confirmed), Point(Closed, Completed)];
    ThreeStepsLogged(f, Point(b.stage, Confirmed), Point(DepositReleased, Confirmed), Point(Closed, Completed),
                     m.actor, m.now, b,
                     PostRelease(f, release) + PostForfeit(f, m.provider, deduction) + PostEarning(f, m.provider));
  }

  lemma ExtendLoggedOnce(owner: Id -> Id, f: File, m: Move)
    requires Basic(f) && LoggedOnce(f) && Enabled(owner, f, m) && m.MExtend?
    ensures LoggedOnce(Apply(owner, f, m))
  {
    var row := HistoryRow(f.id, Some(Point(Active, f.b.status)), Point(Active, f.b.status), m.actor, m.now);
    forall stage: Stage ensures Entered(f.hist + [row], stage) == Entered(f.hist, stage) {
      EnteredMore(f.hist, [row], stage);
      EnteredOne(row, stage);
    }
  }

  lemma LoggedOnceKept(owner: Id -> Id, f: File, m: Move)
    requires Basic(f) && LoggedOnce(f) && Enabled(owner, f, m)
    ensures LoggedOnce(Apply(owner, f, m))
  {
    if m.MApprove? || m.MDecline? || m.MCancel? || m.MHandover? || m.MSchedule? || m.MReturn? {
      EarlyLoggedOnce(owner, f, m);
    } else if m.MInspectClean? || m.MInspectDamage? {
      InspectLoggedOnce(owner, f, m);
    } else if m.MResolve? {
      ResolveLoggedOnce(owner, f, m);
    } else if m.MExtend? {
      ExtendLoggedOnce(owner, f, m);
    }
  }

  lemma BornLoggedOnce(id: Id, b: Booking, q: Quote, actor: Id, now: Time, reference: string)
    requires b.status == Pending && b.stage == Requested
    ensures LoggedOnce(Newborn(id, b, q, actor, now, reference))
  {
    var first := HistoryRow(id, None, b.At(), actor, now);
    var f := File(id, b, Original(q, b.endsAt), [], [], [], [first]);
    forall stage: Stage ensures Entered([first], stage) == if stage == Requested then 1 else 0 {
      EnteredOne(first, stage);
    }
    if b.mode == Instant {
      ThreeStepsLogged(f, Point(Accepted, Pending), Point(Payment, Pending), Point(Reserved, Confirmed), actor, now,
                       b.(paid := Some(reference)), PostCharge(f, q.total));
    }
  }

  ghost predicate AllLoggedOnce(s: State) {
    AllBasic(s) && forall id :: 0 <= id < |s.bookings| ==> LoggedOnce(FileOf(s, id))
  }

  lemma StepLoggedOnce(owner: Id -> Id, s: State, e: Event)
    requires AllLoggedOnce(s) && Owned(owner, e.env)
    ensures AllLoggedOnce(Next(e.env, s, e.action))
  {
    StepBasic(owner, e.env, s, e.action);
    if Step(e.env, s, e.action).Done? {
      var s' := Next(e.env, s, e.action);
      forall id | 0 <= id < |s'.bookings| ensures LoggedOnce(FileOf(s', id)) {
        FileAfter(owner, e.env, s, e.action, id);
        if id < |s.bookings| {
          LoggedOnceKept(owner, FileOf(s, id), MoveOn(e.env, s, e.action, id));
        } else {
          var (b, q) := Inserted(e.env, s, e.action);
          InsertedSound(e.env, s, e.action);
          BornLoggedOnce(id, b, q, e.action.actor, e.env.now, e.action.reference);
        }
      }
    }
  }

  /** In every run, each booking's history enters every stage up to its present one exactly once. */
  lemma {:induction false} RunLoggedOnce(owner: Id -> Id, events: seq<Event>)
    requires OwnedRun(owner, events)
    ensures AllLoggedOnce(Run(events))
  {
    if events == [] {
    } else {
      var init, last := events[..|events| - 1], events[|events| - 1];
      RunLoggedOnce(owner, init);
      StepLoggedOnce(owner, Run(init), last);
    }
  }
}
