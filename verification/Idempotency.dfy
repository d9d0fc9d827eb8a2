/** Idempotency keys: no two bookings share one, and repeating a create finds the first. */
module Idempotency {
  import opened Domain
  import opened Rules
  import opened CaseFile
  import opened Simulation
  import opened Runs
  import Lifecycle

  lemma {:induction false} FindByKeySpec(bookings: seq<Booking>, key: string)
    ensures match FindByKey(bookings, key)
            case Some(i) => i < |bookings| && bookings[i].key == Some(key)
            case None => forall i :: 0 <= i < |bookings| ==> bookings[i].key != Some(key)
  {
    if bookings == [] {
    } else {
      var n := |bookings| - 1;
      FindByKeySpec(bookings[..n], key);
      forall i | 0 <= i < n ensures bookings[..n][i] == bookings[i] { }
    }
  }

  ghost predicate KeysUnique(bookings: seq<Booking>) {
    forall i, j :: 0 <= i < j < |bookings| && bookings[i].key.Some? ==> bookings[i].key != bookings[j].key
  }

  /** The inserted row's key was nobody's. */
  lemma InsertedKey(env: Env, s: State, a: Action)
    requires a.Create? && CreateOutcome(env, s, a).Done?
    ensures var bs' := CreateOutcome(env, s, a).state.bookings;
            || bs' == s.bookings
            || (&& |bs'| == |s.bookings| + 1 && bs'[..|s.bookings|] == s.bookings && bs'[|s.bookings|].key == a.key
                && (a.key.Some? ==> FindByKey(s.bookings, a.key.value).None?))
  {
  }

  /** Rewritten rows keep their key. */
  lemma KeysStay(owner: Id -> Id, s: State, e: Event)
    requires AllBasic(s) && Owned(owner, e.env) && Step(e.env, s, e.action).Done? && !e.action.Create?
    ensures |Step(e.env, s, e.action).state.bookings| == |s.bookings|
    ensures forall id :: 0 <= id < |s.bookings| ==>
            Step(e.env, s, e.action).state.bookings[id].key == s.bookings[id].key
  {
    StepSameSize(e.env, s, e.action);
    forall id | 0 <= id < |s.bookings| ensures Step(e.env, s, e.action).state.bookings[id].key == s.bookings[id].key {
      StepMoves(owner, e.env, s, e.action, id);
      Lifecycle.TermsKept(owner, FileOf(s, id), MoveOn(e.env, s, e.action, id));
    }
  }

  /** In every run no two bookings carry the same key, the empty one included. */
  lemma {:induction false} RunKeysUnique(owner: Id -> Id, events: seq<Event>)
    requires OwnedRun(owner, events)
    ensures KeysUnique(Run(events).bookings)
  {
    if events == [] {
    } else {
      var init, e := events[..|events| - 1], events[|events| - 1];
      var s := Run(init);
      RunKeysUnique(owner, init);
      RunBasic(owner, init);
      if Step(e.env, s, e.action).Done? {
        if e.action.Create? {
          InsertedKey(e.env, s, e.action);
          if e.action.key.Some? { FindByKeySpec(s.bookings, e.action.key.value); }
          CreateKeys(s.bookings, Run(events).bookings);
        } else {
          KeysStay(owner, s, e);
        }
      }
    }
  }

  lemma CreateKeys(bs: seq<Booking>, bs': seq<Booking>)
    requires KeysUnique(bs)
    requires bs' == bs || (&& |bs'| == |bs| + 1 && bs'[..|bs|] == bs
                           && forall i :: 0 <= i < |bs| && bs[i].key.Some? ==> bs[i].key != bs'[|bs|].key)
    ensures KeysUnique(bs')
  {
    if bs' != bs {
      forall i | 0 <= i < |bs| ensures bs'[i] == bs[i] { assert bs'[..|bs|][i] == bs[i]; }
    }
  }

  /**
   * Sending the same keyed create again, by then or ever after, answers with the booking it made and changes
   * nothing; the empty key is the exception: it is never replayed and a second one is refused or fails.
   */
  lemma {:induction false} CreateRepeated(owner: Id -> Id, events: seq<Event>, id: Id, env: Env, a: Action)
    requires OwnedRun(owner, events) && id < |Run(events).bookings|
    requires a.Create? && a.key.Some? && Run(events).bookings[id].key == a.key
    ensures a.key.value != "" ==> Step(env, Run(events), a) == Done(Run(events), id)
    ensures a.key.value == "" ==> Step(env, Run(events), a).Failed?
  {
    RunKeysUnique(owner, events);
    FindByKeySpec(Run(events).bookings, a.key.value);
  }

  /**
   * The lookup goes by the key alone: a create answers with a booking of the caller's own exactly when no booking of
   * somebody else carries the key.
   */
  lemma {:induction false} CreateAnswersOwnIff(owner: Id -> Id, events: seq<Event>, env: Env, a: Action)
    requires OwnedRun(owner, events) && a.Create? && CreateOutcome(env, Run(events), a).Done?
    ensures var o, bs := CreateOutcome(env, Run(events), a), Run(events).bookings;
            && o.id < |o.state.bookings|
            && (o.state.bookings[o.id].renter == a.actor
                <==> forall i :: 0 <= i < |bs| && a.key.Some? && bs[i].key == a.key ==> bs[i].renter == a.actor)
  {
    RunKeysUnique(owner, events);
    if a.key.Some? { FindByKeySpec(Run(events).bookings, a.key.value); }
    AnswerOf(env, Run(events), a);
  }

  /** The answer is the booking found by its key, or a new one of the caller's. */
  lemma AnswerOf(env: Env, s: State, a: Action)
    requires a.Create? && CreateOutcome(env, s, a).Done?
    ensures var o := CreateOutcome(env, s, a);
            || (a.key.Some? && FindByKey(s.bookings, a.key.value) == Some(o.id) && o.state == s)
            || (&& o.id == |s.bookings| < |o.state.bookings| && o.state.bookings[o.id].renter == a.actor
                && (a.key.Some? ==> FindByKey(s.bookings, a.key.value).None?))
  {
  }
}
