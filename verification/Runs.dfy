/** Invariants of whole runs, from the empty tables, over every sequence of actions. */
module Runs {
  import opened Domain
  import opened Rules
  import opened CaseFile
  import opened Simulation
  import opened Invariants
  import opened Accounts

  ghost predicate OwnedRun(owner: Id -> Id, events: seq<Event>) {
    forall k :: 0 <= k < |events| ==> Owned(owner, events[k].env)
  }

  ghost predicate AllBasic(s: State) {
    WellFormed(s) && forall id :: 0 <= id < |s.bookings| ==> Basic(FileOf(s, id))
  }

  // ---------- one step ----------

  /** The file after a committed action: the old one moved, or a newborn. */
  lemma FileAfter(owner: Id -> Id, env: Env, s: State, a: Action, id: Id)
    requires AllBasic(s) && Owned(owner, env) && Step(env, s, a).Done? && id < |Step(env, s, a).state.bookings|
    ensures var s' := Step(env, s, a).state;
            && WellFormed(s') && |s.bookings| <= |s'.bookings| <= |s.bookings| + 1
            && (id < |s.bookings| ==> Simulated(owner, env, s, a, id))
            && (id == |s.bookings| ==>
                  && Fresh(env, s, a)
                  && var (b, q) := Inserted(env, s, a);
                     FileOf(s', id) == Newborn(id, b, q, a.actor, env.now, a.reference))
  {
    if a.Create? {
      CreateMoves(env, s, a, id);
      if id < |s.bookings| { StepMoves(owner, env, s, a, id); }
    } else {
      StepSameSize(env, s, a);
      StepMoves(owner, env, s, a, id);
    }
  }

  /** A file that was there before is the old one, moved. */
  lemma FileMoved(owner: Id -> Id, s: State, e: Event, id: Id)
    requires AllBasic(s) && Owned(owner, e.env) && Step(e.env, s, e.action).Done? && id < |s.bookings|
    ensures var s' := Step(e.env, s, e.action).state;
            && id < |s'.bookings| && WellFormed(s')
            && Made(owner, FileOf(s, id), FileOf(s', id), MoveOn(e.env, s, e.action, id))
  {
    if !e.action.Create? { StepSameSize(e.env, s, e.action); }
    StepMoves(owner, e.env, s, e.action, id);
  }

  lemma InsertedSound(env: Env, s: State, a: Action)
    requires Fresh(env, s, a)
    ensures var (b, q) := Inserted(env, s, a);
            && b.status == Pending && b.stage == Requested && b.paid.None? && b.startsAt < b.endsAt
            && q.total == q.rental + q.service + q.deposit
            && b.rental == q.rental && b.service == q.service && b.deposit == q.deposit && b.total == q.total
  {
  }

  lemma StepBasic(owner: Id -> Id, env: Env, s: State, a: Action)
    requires AllBasic(s) && Owned(owner, env)
    ensures AllBasic(Next(env, s, a))
  {
    var s' := Next(env, s, a);
    if Step(env, s, a).Done? {
      if s'.bookings != [] { FileAfter(owner, env, s, a, 0); }
      else { StepGrows(env, s, a); }
      forall id | 0 <= id < |s'.bookings| ensures WellFormed(s') && Basic(FileOf(s', id)) {
        FileAfter(owner, env, s, a, id);
        if id < |s.bookings| {
          BasicKept(owner, FileOf(s, id), MoveOn(env, s, a, id));
        } else {
          var (b, q) := Inserted(env, s, a);
          InsertedSound(env, s, a);
          BornBasic(id, b, q, a.actor, env.now, a.reference);
        }
      }
    }
  }

  /** Without bookings the other booking tables are empty and stay so. */
  lemma StepGrows(env: Env, s: State, a: Action)
    requires WellFormed(s) && Step(env, s, a).Done? && Step(env, s, a).state.bookings == []
    ensures WellFormed(Step(env, s, a).state)
  {
    if !a.Create? { StepSameSize(env, s, a); }
  }

  /**
   * In every run, every file is Basic: a legal lifecycle point, paid exactly past REQUESTED, a correct
   * extension chain, fees that add up, and a dispute in step with the status.
   */
  lemma {:induction false} RunBasic(owner: Id -> Id, events: seq<Event>)
    requires OwnedRun(owner, events)
    ensures AllBasic(Run(events))
  {
    if events == [] {
    } else {
      var last := events[|events| - 1];
      RunBasic(owner, events[..|events| - 1]);
      StepBasic(owner, last.env, Run(events[..|events| - 1]), last.action);
    }
  }

  // ---------- history ----------

  ghost predicate AllReplayable(s: State) {
    WellFormed(s) && forall id :: 0 <= id < |s.bookings| ==> Replayable(FileOf(s, id))
  }

  /** An extension approval that goes through does so while its booking is ACTIVE. */
  predicate ApprovesActive(s: State, e: Event) {
    var a := e.action;
    a.ApproveExtension? && Step(e.env, s, a).Done? ==> s.bookings[s.requests[a.request].booking].stage == Active
  }

  lemma StepReplayIff(owner: Id -> Id, s: State, e: Event)
    requires AllBasic(s) && AllReplayable(s) && Owned(owner, e.env)
    ensures AllReplayable(Next(e.env, s, e.action)) <==> ApprovesActive(s, e)
  {
    if Step(e.env, s, e.action).Done? {
      var s' := Next(e.env, s, e.action);
      StepBasic(owner, e.env, s, e.action);
      forall id | 0 <= id < |s'.bookings|
        ensures id < |s.bookings| ==>
                  (Replayable(FileOf(s', id)) <==> LogsTruly(FileOf(s, id), MoveOn(e.env, s, e.action, id)))
        ensures id >= |s.bookings| ==> Replayable(FileOf(s', id))
      {
        FileAfter(owner, e.env, s, e.action, id);
        if id < |s.bookings| {
          ReplayKeptIff(owner, FileOf(s, id), MoveOn(e.env, s, e.action, id));
        } else {
          var (b, q) := Inserted(e.env, s, e.action);
          InsertedSound(e.env, s, e.action);
          BornBasic(id, b, q, e.action.actor, e.env.now, e.action.reference);
        }
      }
      if e.action.ApproveExtension? {
        var id := s.requests[e.action.request].booking;
        FileAfter(owner, e.env, s, e.action, id);
      }
    }
  }

  /**
   * Every booking's history is, at every point of a run, a connected path from nowhere to the booking's
   * present stage and status exactly when every approved extension is approved while ACTIVE.
   */
  lemma RunReplayIff(owner: Id -> Id, events: seq<Event>)
    requires OwnedRun(owner, events)
    ensures (forall k :: 0 <= k <= |events| ==> AllReplayable(Before(events, k)))
       <==> (forall k :: 0 <= k < |events| ==> ApprovesActive(Before(events, k), events[k]))
  {
    if forall k :: 0 <= k < |events| ==> ApprovesActive(Before(events, k), events[k]) {
      forall k | 0 <= k <= |events| ensures AllReplayable(Before(events, k)) {
        ReplayWhileActive(owner, events, k);
      }
    }
    if forall k :: 0 <= k <= |events| ==> AllReplayable(Before(events, k)) {
      forall k | 0 <= k < |events| ensures ApprovesActive(Before(events, k), events[k]) {
        RunBasic(owner, events[..k]);
        RunStep(events, k);
        assert AllReplayable(Before(events, k + 1));
        StepReplayIff(owner, Before(events, k), events[k]);
      }
    }
  }

  lemma {:induction false} ReplayWhileActive(owner: Id -> Id, events: seq<Event>, k: nat)
    requires OwnedRun(owner, events) && k <= |events|
    requires forall j :: 0 <= j < |events| ==> ApprovesActive(Before(events, j), events[j])
    ensures AllReplayable(Before(events, k))
  {
    if k == 0 {
      assert events[..0] == [];
    } else {
      ReplayWhileActive(owner, events, k - 1);
      RunBasic(owner, events[..k - 1]);
      RunStep(events, k - 1);
      StepReplayIff(owner, Before(events, k - 1), events[k - 1]);
    }
  }

  /** No extension is charged after its booking is completed, unless it is free. */
  predicate ExtendsBeforeCompletion(s: State, e: Event) {
    var a := e.action;
    a.ApproveExtension? && Step(e.env, s, a).Done? ==>
      var r := s.requests[a.request];
      s.bookings[r.booking].status != Completed || r.rental + r.service == 0
  }

  /** On the booking it is about, that is the guard of the move. */
  lemma ExtendsInTimeIff(s: State, e: Event, id: Id)
    requires AllBasic(s) && Step(e.env, s, e.action).Done? && Target(s, e.action) == Some(id) && id < |s.bookings|
    ensures ExtendsBeforeCompletion(s, e) <==> ExtendsInTime(FileOf(s, id), MoveOn(e.env, s, e.action, id))
  {
    if e.action.ApproveExtension? {
      RequestsFile(s, e.action.request, s.requests[e.action.request], id);
    }
  }
}
