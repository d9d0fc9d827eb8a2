/** How far a booking can go: forward only, a bounded number of times, keeping what it was created with. */
module Lifecycle {
  import opened Domain
  import opened Cancellation
  import opened Rules
  import opened CaseFile
  import opened Simulation
  import opened Invariants
  import opened Runs

  // ---------- moves ----------

  predicate ChangesStage(m: Move) {
    !(m.Nothing? || m.MRequest? || m.MExtend? || m.MCloseRequest? || m.MPropose? || m.MContest?)
  }

  /** The number of lifecycle moves still possible; `guarded` if only confirmed bookings are handed over. */
  function Height(p: Point, guarded: bool): nat {
    match p
    case Point(Requested, Pending) => if guarded then 6 else 7
    case Point(Requested, Declined) => 1
    case Point(Requested, Cancelled) => 0
    case Point(Reserved, Confirmed) => if guarded then 5 else 6
    case Point(Reserved, Cancelled) => if guarded then 0 else 5
    case Point(Active, Confirmed) => 4
    case Point(ReturnSched, Confirmed) => 3
    case Point(Returned, Confirmed) => 2
    case Point(Inspected, Disputed) => 1
    case _ => 0
  }

  lemma HeightDrops(owner: Id -> Id, f: File, m: Move, guarded: bool)
    requires Basic(f) && Enabled(owner, f, m)
    requires guarded && m.MHandover? ==> f.b.status == Confirmed
    ensures var p, p' := f.b.At(), Apply(owner, f, m).b.At();
            if ChangesStage(m) then Height(p', guarded) < Height(p, guarded) else p' == p
  {
    MovesFollowEdges(owner, f, m);
    EdgeDrops(m, f.b.At(), Apply(owner, f, m).b.At(), guarded);
  }

  /** Every edge that changes something leads down. */
  lemma EdgeDrops(m: Move, p: Point, p': Point, guarded: bool)
    requires Edge(m, p, p') && (guarded && m.MHandover? ==> p.status == Confirmed)
    ensures if ChangesStage(m) then Height(p', guarded) < Height(p, guarded) else p' == p
    ensures p.stage.Rank() <= p'.stage.Rank()
  {
  }

  /** The lifecycle graph: where each move may start and where it ends. */
  predicate Edge(m: Move, p: Point, p': Point) {
    match m
    case MApprove(_, _, _) => p == Point(Requested, Pending) && p' == Point(Reserved, Confirmed)
    case MDecline(_, _) => p == Point(Requested, Pending) && p' == Point(Requested, Declined)
    case MCancel(_, _) =>
      || (p in {Point(Requested, Pending), Point(Requested, Declined)} && p' == Point(Requested, Cancelled))
      || (p == Point(Reserved, Confirmed) && p' == Point(Reserved, Cancelled))
    case MHandover(_, _) =>
      p in {Point(Reserved, Confirmed), Point(Reserved, Cancelled)} && p' == Point(Active, Confirmed)
    case MSchedule(_, _) => p == Point(Active, Confirmed) && p' == Point(ReturnSched, Confirmed)
    case MReturn(_, _) =>
      p in {Point(Active, Confirmed), Point(ReturnSched, Confirmed)} && p' == Point(Returned, Confirmed)
    case MInspectClean(_, _, _) => p == Point(Returned, Confirmed) && p' == Point(Closed, Completed)
    case MInspectDamage(_, _) => p == Point(Returned, Confirmed) && p' == Point(Inspected, Disputed)
    case MResolve(_, _, _, _, _) => p == Point(Inspected, Disputed) && p' == Point(Closed, Completed)
    case MRequest(_, _, _, _) => p == Point(Active, Confirmed) && p' == p
    case MPropose(_, _) => p == Point(Inspected, Disputed) && p' == p
    case MContest => p == Point(Inspected, Disputed) && p' == p
    case _ => p' == p
  }

  /** Every move follows an edge of the graph, although the checks look at stage or status alone. */
  lemma MovesFollowEdges(owner: Id -> Id, f: File, m: Move)
    requires Basic(f) && Enabled(owner, f, m)
    ensures Edge(m, f.b.At(), Apply(owner, f, m).b.At())
  {
  }

  /** In every run, every committed action on a booking follows its edge. */
  lemma StepFollowsEdge(owner: Id -> Id, s: State, e: Event, id: Id)
    requires AllBasic(s) && Owned(owner, e.env) && id < |s.bookings| && Step(e.env, s, e.action).Done?
    ensures id < |Step(e.env, s, e.action).state.bookings|
    ensures Edge(MoveOn(e.env, s, e.action, id), s.bookings[id].At(), Step(e.env, s, e.action).state.bookings[id].At())
  {
    StepMoves(owner, e.env, s, e.action, id);
    MovesFollowEdges(owner, FileOf(s, id), MoveOn(e.env, s, e.action, id));
  }

  /** Stages only advance. */
  lemma RankRises(owner: Id -> Id, f: File, m: Move)
    requires Basic(f) && Enabled(owner, f, m)
    ensures f.b.stage.Rank() <= Apply(owner, f, m).b.stage.Rank()
  {
    MovesFollowEdges(owner, f, m);
    EdgeDrops(m, f.b.At(), Apply(owner, f, m).b.At(), false);
  }

  /** Everything about a booking that is fixed when it is created. */
  predicate SameTerms(f: File, f': File) {
    && f'.id == f.id && f'.o == f.o
    && f'.b == f.b.(status := f'.b.status, stage := f'.b.stage, paid := f'.b.paid, endsAt := f'.b.endsAt,
                    rental := f'.b.rental, service := f'.b.service, total := f'.b.total)
  }

  lemma TermsKept(owner: Id -> Id, f: File, m: Move)
    requires Enabled(owner, f, m)
    ensures SameTerms(f, Apply(owner, f, m))
  {
  }

  // ---------- runs ----------

  predicate LifecycleAction(a: Action) {
    || a.Approve? || a.Decline? || a.Cancel? || a.ConfirmHandover? || a.ScheduleReturn? || a.ConfirmReturn?
    || a.RecordInspection? || a.AdminResolve? || (a.RespondToProposal? && a.accept)
  }

  /** Event `e` commits a lifecycle action on booking `id`. */
  predicate Advances(s: State, e: Event, id: Id) {
    LifecycleAction(e.action) && Step(e.env, s, e.action).Done? && Target(s, e.action) == Some(id)
  }

  function AdvanceCount(events: seq<Event>, id: Id): nat {
    if events == [] then 0
    else
      var init, last := events[..|events| - 1], events[|events| - 1];
      AdvanceCount(init, id) + if Advances(Run(init), last, id) then 1 else 0
  }

  /** Guard: only confirmed bookings are handed over. */
  predicate HandsOverConfirmed(s: State, e: Event) {
    e.action.ConfirmHandover? && Step(e.env, s, e.action).Done? ==> s.bookings[e.action.booking].status == Confirmed
  }

  lemma AdvanceIsMove(env: Env, s: State, a: Action)
    requires Step(env, s, a).Done? && Target(s, a).Some?
    ensures LifecycleAction(a) <==> ChangesStage(MoveOf(env, s, a))
    ensures a.ConfirmHandover? <==> MoveOf(env, s, a).MHandover?
  {
  }

  lemma AdvanceFile(owner: Id -> Id, s: State, e: Event, id: Id, guarded: bool)
    requires AllBasic(s) && Owned(owner, e.env) && id < |s.bookings| && Step(e.env, s, e.action).Done?
    requires guarded && MoveOn(e.env, s, e.action, id).MHandover? ==> s.bookings[id].status == Confirmed
    ensures var s' := Step(e.env, s, e.action).state;
            var p := s.bookings[id].At();
            var p' := if id < |s'.bookings| then s'.bookings[id].At() else Point(Requested, Pending);
            && id < |s'.bookings|
            && if ChangesStage(MoveOn(e.env, s, e.action, id)) then Height(p', guarded) < Height(p, guarded)
               else p' == p
  {
    StepMoves(owner, e.env, s, e.action, id);
    HeightDrops(owner, FileOf(s, id), MoveOn(e.env, s, e.action, id), guarded);
  }

  lemma AdvanceStep(owner: Id -> Id, s: State, e: Event, id: Id, guarded: bool)
    requires AllBasic(s) && Owned(owner, e.env) && id < |s.bookings| && (guarded ==> HandsOverConfirmed(s, e))
    ensures var s' := Next(e.env, s, e.action);
            && id < |s'.bookings|
            && Height(s'.bookings[id].At(), guarded) + (if Advances(s, e, id) then 1 else 0)
               <= Height(s.bookings[id].At(), guarded)
  {
    if Step(e.env, s, e.action).Done? {
      if Target(s, e.action) == Some(id) { AdvanceIsMove(e.env, s, e.action); }
      AdvanceFile(owner, s, e, id, guarded);
    }
  }

  lemma BornHeight(owner: Id -> Id, s: State, e: Event, id: Id, guarded: bool)
    requires AllBasic(s) && Owned(owner, e.env) && |s.bookings| <= id < |Next(e.env, s, e.action).bookings|
    ensures Height(Next(e.env, s, e.action).bookings[id].At(), guarded) <= if guarded then 6 else 7
    ensures !Advances(s, e, id)
  {
  }

  /** No action can target a booking that does not exist. */
  lemma NoTargetYet(s: State, e: Event, id: Id)
    requires WellFormed(s) && id >= |s.bookings|
    ensures !Advances(s, e, id)
  {
  }

  /**
   * A booking takes at most seven lifecycle actions over any run, and at most six when only confirmed
   * bookings are handed over.
   */
  lemma {:induction false} LifecycleBounded(owner: Id -> Id, events: seq<Event>, id: Id, guarded: bool)
    requires OwnedRun(owner, events)
    requires guarded ==> forall k :: 0 <= k < |events| ==> HandsOverConfirmed(Before(events, k), events[k])
    ensures var s := Run(events);
            AdvanceCount(events, id)
            + (if id < |s.bookings| then Height(s.bookings[id].At(), guarded) else 0) <= if guarded then 6 else 7
    ensures id >= |Run(events).bookings| ==> AdvanceCount(events, id) == 0
  {
    if events == [] {
    } else {
      var n := |events| - 1;
      var init := events[..n];
      forall k | 0 <= k < n && guarded ensures HandsOverConfirmed(Before(init, k), init[k]) {
        assert init[..k] == events[..k];
        assert HandsOverConfirmed(Before(events, k), events[k]);
      }
      LifecycleBounded(owner, init, id, guarded);
      RunBasic(owner, init);
      var s := Run(init);
      if guarded { assert Before(events, n) == s; assert HandsOverConfirmed(Before(events, n), events[n]); }
      if id < |s.bookings| {
        AdvanceStep(owner, s, events[n], id, guarded);
      } else {
        NoTargetYet(s, events[n], id);
        if id < |Run(events).bookings| { BornHeight(owner, s, events[n], id, guarded); }
      }
    }
  }

  /** Along a run a booking's stage never moves back and its terms never change. */
  lemma {:induction false} RunKeepsTerms(owner: Id -> Id, events: seq<Event>, i: nat, j: nat, id: Id)
    requires OwnedRun(owner, events) && i <= j <= |events| && id < |Before(events, i).bookings|
    ensures id < |Before(events, j).bookings|
    ensures var f, f' := FileOf(Before(events, i), id), FileOf(Before(events, j), id);
            SameTerms(f, f') && f.b.stage.Rank() <= f'.b.stage.Rank()
    decreases j - i
  {
    if i == j {
    } else {
      RunKeepsTerms(owner, events, i, j - 1, id);
      RunStep(events, j - 1);
      RunBasic(owner, events[..j - 1]);
      var s, e := Before(events, j - 1), events[j - 1];
      if Step(e.env, s, e.action).Done? {
        StepMoves(owner, e.env, s, e.action, id);
        TermsKept(owner, FileOf(s, id), MoveOn(e.env, s, e.action, id));
        RankRises(owner, FileOf(s, id), MoveOn(e.env, s, e.action, id));
      }
    }
  }

  // ---------- cancellation previews ----------

  /** previewCancellationRefund at time `at`. */
  function Preview(b: Booking, at: Time): Refunded {
    if b.status == Confirmed then ComputeRefund(b.policy, b.startsAt, at, b.total, b.deposit)
    else if b.status == Pending then Refunded(b.total, 100, 0)
    else Refunded(0, 0, b.total)
  }

  /** Before pickup a booking still has the fees it was created with. */
  lemma FeesBeforePickup(f: File)
    requires Basic(f) && f.b.stage.Rank() < Active.Rank()
    ensures f.b.total == f.o.quote.total && f.b.deposit == f.o.quote.deposit && f.o.quote.deposit <= f.o.quote.total
  {
    assert f.reqs == [];
  }

  /** The amount a cancellation at time `now` gives back. */
  function CancelAmount(b: Booking, now: Time): int { if b.status == Confirmed then RefundAt(b, now) else 0 }

  /** A pending booking is shown its whole total, a closed one nothing, a confirmed one what its policy gives. */
  lemma PreviewIs(b: Booking, at: Time)
    ensures Preview(b, at) ==
            match b.status
            case Confirmed => ComputeRefund(b.policy, b.startsAt, at, b.total, b.deposit)
            case Pending => Refunded(b.total, 100, 0)
            case _ => Refunded(0, 0, b.total)
  {
  }

  /** What the preview shows is what cancelling at that moment posts, except before anything was charged. */
  lemma PreviewAgreesIff(b: Booking, now: Time)
    ensures Preview(b, now).refund == CancelAmount(b, now) <==> b.status != Pending || b.total == 0
  {
  }

  lemma CancelPosts(env: Env, s: State, a: Action)
    requires a.Cancel? && Step(env, s, a).Done?
    ensures a.booking < |s.bookings| && s.bookings[a.booking].IsBeforePickup()
    ensures Next(env, s, a).ledger == s.ledger +
              Posted(RenterRow(Refund, a.booking, s.bookings[a.booking], CancelAmount(s.bookings[a.booking], env.now),
                               None, None))
  {
  }

  /** A cancellation goes through exactly from these points, one of them already closed: DECLINED. */
  lemma CancelDoneIff(env: Env, s: State, a: Action)
    requires AllBasic(s) && a.Cancel? && a.booking < |s.bookings|
    ensures Step(env, s, a).Done?
       <==> s.bookings[a.booking].At() in {Point(Requested, Pending), Point(Requested, Declined),
                                           Point(Reserved, Confirmed)}
  {
    assert Legal(FileOf(s, a.booking).b.At());
  }

  /** The refund a cancellation posts never exceeds what an earlier preview of the confirmed booking promised. */
  lemma PreviewBoundsRefund(owner: Id -> Id, events: seq<Event>, i: nat, j: nat, id: Id, at: Time)
    requires OwnedRun(owner, events) && i <= j < |events| && id < |Before(events, i).bookings|
    requires Before(events, i).bookings[id].status == Confirmed
    requires events[j].action.Cancel? && events[j].action.booking == id && at <= events[j].env.now
    requires Step(events[j].env, Before(events, j), events[j].action).Done?
    ensures id < |Before(events, j).bookings|
    ensures var s, s', now := Before(events, j), Before(events, j + 1), events[j].env.now;
            var amount := CancelAmount(s.bookings[id], now);
            && s'.ledger == s.ledger + Posted(RenterRow(Refund, id, s.bookings[id], amount, None, None))
            && amount <= Preview(Before(events, i).bookings[id], at).refund
  {
    var s, now := Before(events, j), events[j].env.now;
    RunStep(events, j);
    CancelPosts(events[j].env, s, events[j].action);
    RunKeepsTerms(owner, events, i, j, id);
    RunBasic(owner, events[..i]);
    RunBasic(owner, events[..j]);
    EarlyRefund(FileOf(Before(events, i), id), FileOf(s, id), at, now);
  }

  lemma EarlyRefund(f: File, g: File, at: Time, now: Time)
    requires Basic(f) && Basic(g) && SameTerms(f, g) && f.b.stage.Rank() <= g.b.stage.Rank()
    requires f.b.status == Confirmed && g.b.IsBeforePickup() && at <= now
    ensures CancelAmount(g.b, now) <= Preview(f.b, at).refund
  {
    FeesBeforePickup(g);
    FeesBeforePickup(f);
    RefundNeverGrows(f.b.policy, f.b.startsAt, at, now, f.b.total, f.b.deposit);
    RefundWithinTotal(f.b.policy, f.b.startsAt, at, f.b.total, f.b.deposit);
  }
}
