/** Which runs leave tables that the migration turns back into their ledger. */
module BackfillRuns {
  import opened Domain
  import opened Filtering
  import opened Rules
  import opened CaseFile
  import opened Simulation
  import opened Invariants
  import opened Accounts
  import opened Runs
  import opened Backfill

  // ---------- while extensions are in time ----------

  lemma StepAccounted(owner: Id -> Id, s: State, e: Event)
    requires AllAccounted(owner, s) && Owned(owner, e.env) && ExtendsBeforeCompletion(s, e)
    ensures AllAccounted(owner, Next(e.env, s, e.action))
  {
    StepBasic(owner, e.env, s, e.action);
    if Step(e.env, s, e.action).Done? {
      var s' := Next(e.env, s, e.action);
      forall id | 0 <= id < |s'.bookings| ensures Accounted(owner, FileOf(s', id)) {
        FileAfter(owner, e.env, s, e.action, id);
        if id < |s.bookings| {
          MoveExtendsInTime(owner, s, e, id);
          AccountsKept(owner, FileOf(s, id), MoveOn(e.env, s, e.action, id));
        } else {
          var (b, q) := Inserted(e.env, s, e.action);
          BornAccounted(owner, id, b, q, e.action.actor, e.env.now, e.action.reference);
        }
      }
    }
  }

  lemma MoveExtendsInTime(owner: Id -> Id, s: State, e: Event, id: Id)
    requires AllBasic(s) && Step(e.env, s, e.action).Done? && id < |s.bookings| && ExtendsBeforeCompletion(s, e)
    ensures ExtendsInTime(FileOf(s, id), MoveOn(e.env, s, e.action, id))
  {
    if Target(s, e.action) == Some(id) { ExtendsInTimeIff(s, e, id); }
  }

  /** Event `j` charges no extension of a completed booking. */
  predicate Timely(events: seq<Event>, j: nat)
    requires j < |events|
  {
    ExtendsBeforeCompletion(Before(events, j), events[j])
  }

  lemma {:induction false} RunAccounted(owner: Id -> Id, events: seq<Event>, k: nat)
    requires OwnedRun(owner, events) && k <= |events|
    requires forall j :: 0 <= j < k ==> Timely(events, j)
    ensures AllAccounted(owner, Before(events, k))
  {
    if k == 0 {
      assert events[..0] == [];
    } else {
      RunAccounted(owner, events, k - 1);
      RunStep(events, k - 1);
      assert Timely(events, k - 1);
      StepAccounted(owner, Before(events, k - 1), events[k - 1]);
    }
  }

  // ---------- why extensions must be in time ----------

  /** Completed, and every earning on the live ledger is for less than the rental the booking now shows. */
  predicate Short(f: File) {
    f.b.status == Completed && f.b.rental > 0 && forall e :: e in f.rows && e.kind == ProviderEarning ==>
      e.amount < f.b.rental
  }

  lemma {:induction false} LiveKeeps(rows: seq<Entry>, e: Entry)
    ensures e in Live(rows) <==> e in rows && e.kind != Refund
  {
    if rows == [] {
    } else {
      var init, last := rows[..|rows| - 1], rows[|rows| - 1];
      LiveKeeps(init, e);
      assert rows == init + [last];
    }
  }

  lemma {:induction false} ExtensionsCharge(id: Id, renter: Id, reqs: seq<ExtensionRequest>)
    ensures forall e :: e in ExtensionCharges(id, renter, reqs) ==> e.kind == Charge
  {
    if reqs == [] {
    } else {
      ExtensionsCharge(id, renter, reqs[..|reqs| - 1]);
    }
  }

  /** A booking with the right rows earned its provider the rental, and nothing else. */
  lemma EarnedRental(owner: Id -> Id, f: File, e: Entry)
    requires Accounted(owner, f) && e in f.rows && e.kind == ProviderEarning
    ensures e.amount == f.b.rental
  {
    LiveKeeps(f.rows, e);
    if e in Charges(f) { ExtensionsCharge(f.id, f.b.renter, f.reqs); }
    assert e in Payout(owner, f);
  }

  /** A paid extension asks some rental: there is no commission on nothing. */
  lemma LateRental(f: File, m: Move)
    requires Basic(f) && !ExtendsInTime(f, m)
    ensures f.reqs != [] && Last(f.reqs).rental > 0 && f.b.status == Completed && m.MExtend?
  {
    assert f.reqs[|f.reqs| - 1] == Last(f.reqs);
  }

  /** Charging an extension of a completed booking raises its rental above what its provider earned. */
  lemma LateMakesShort(owner: Id -> Id, f: File, m: Move)
    requires Basic(f) && Accounted(owner, f) && Enabled(owner, f, m) && !ExtendsInTime(f, m)
    ensures Short(Apply(owner, f, m))
  {
    LateRental(f, m);
    var f' := Apply(owner, f, m);
    assert f'.b.rental == f.b.rental + Last(f.reqs).rental && f.b.rental >= 0;
    forall e | e in f'.rows && e.kind == ProviderEarning ensures e.amount < f'.b.rental {
      assert e in f.rows;
      EarnedRental(owner, f, e);
    }
  }

  /** Nothing a completed booking can still do makes up for it. */
  lemma ShortKept(owner: Id -> Id, f: File, m: Move)
    requires Basic(f) && Short(f) && Enabled(owner, f, m)
    ensures Short(Apply(owner, f, m))
  {
    assert m.Nothing? || m.MExtend? || m.MCloseRequest?;
    if m.MExtend? {
      var f' := Apply(owner, f, m);
      forall e | e in f'.rows && e.kind == ProviderEarning ensures e.amount < f'.b.rental {
        assert e in f.rows;
      }
    }
  }

  /** The migration credits the rental the booking shows, which no row of the live ledger does. */
  lemma ShortDiffers(owner: Id -> Id, s: State, id: Id)
    requires AllBasic(s) && id < |s.bookings| && Short(FileOf(s, id))
    ensures multiset(Entries(Rebuilt(owner, s))) != multiset(Live(Entries(s.ledger)))
  {
    var f := FileOf(s, id);
    var e := Entry(id, ProviderEarning, f.b.rental, None, Some(owner(f.b.listing)));
    BookingRebuilt(owner, s, id);
    assert PostEarning(f, owner(f.b.listing)) == [e];
    assert e in Payout(owner, f);
    assert e in RowsFor(Rebuilt(owner, s), id);
    OfMembers(Entries(Rebuilt(owner, s)), EntryBooking, id);
    OfMembers(Entries(s.ledger), EntryBooking, id);
    LiveKeeps(Entries(s.ledger), e);
    assert e in multiset(Entries(Rebuilt(owner, s))) && e !in multiset(Live(Entries(s.ledger)));
  }

  /** Some booking of the tables is short. */
  ghost predicate SomeShort(s: State) {
    WellFormed(s) && exists id :: 0 <= id < |s.bookings| && Short(FileOf(s, id))
  }

  lemma LateFileShort(owner: Id -> Id, s: State, e: Event, id: Id)
    requires AllAccounted(owner, s) && Owned(owner, e.env) && Step(e.env, s, e.action).Done? && id < |s.bookings|
    requires Target(s, e.action) == Some(id) && !ExtendsBeforeCompletion(s, e)
    ensures SomeShort(Step(e.env, s, e.action).state)
  {
    ExtendsInTimeIff(s, e, id);
    FileMoved(owner, s, e, id);
    LateMakesShort(owner, FileOf(s, id), MoveOn(e.env, s, e.action, id));
    assert Short(FileOf(Step(e.env, s, e.action).state, id));
  }

  lemma FileKeepsShort(owner: Id -> Id, s: State, e: Event, id: Id)
    requires AllBasic(s) && Owned(owner, e.env) && Step(e.env, s, e.action).Done? && id < |s.bookings|
             && Short(FileOf(s, id))
    ensures SomeShort(Step(e.env, s, e.action).state)
  {
    FileMoved(owner, s, e, id);
    ShortKept(owner, FileOf(s, id), MoveOn(e.env, s, e.action, id));
    assert Short(FileOf(Step(e.env, s, e.action).state, id));
  }

  lemma LateStepShort(owner: Id -> Id, s: State, e: Event)
    requires AllAccounted(owner, s) && Owned(owner, e.env) && !ExtendsBeforeCompletion(s, e)
    ensures SomeShort(Next(e.env, s, e.action))
  {
    LateFileShort(owner, s, e, s.requests[e.action.request].booking);
  }

  lemma StepKeepsShort(owner: Id -> Id, s: State, e: Event)
    requires AllBasic(s) && SomeShort(s) && Owned(owner, e.env)
    ensures SomeShort(Next(e.env, s, e.action))
  {
    if Step(e.env, s, e.action).Done? {
      var id :| 0 <= id < |s.bookings| && Short(FileOf(s, id));
      FileKeepsShort(owner, s, e, id);
    }
  }

  /** After the first late extension some booking is short for good. */
  lemma {:induction false} RunShort(owner: Id -> Id, events: seq<Event>, first: nat, k: nat)
    requires OwnedRun(owner, events) && first < k <= |events|
    requires !Timely(events, first) && forall j :: 0 <= j < first ==> Timely(events, j)
    ensures SomeShort(Before(events, k))
    decreases k
  {
    RunStep(events, k - 1);
    if k == first + 1 {
      RunAccounted(owner, events, first);
      LateStepShort(owner, Before(events, first), events[first]);
    } else {
      RunShort(owner, events, first, k - 1);
      RunBasic(owner, events[..k - 1]);
      StepKeepsShort(owner, Before(events, k - 1), events[k - 1]);
    }
  }

  lemma {:induction false} FirstLate(events: seq<Event>, k: nat) returns (first: nat)
    requires k < |events| && !Timely(events, k)
    ensures first <= k && !Timely(events, first) && forall j :: 0 <= j < first ==> Timely(events, j)
  {
    if j :| 0 <= j < k && !Timely(events, j) {
      first := FirstLate(events, j);
    } else {
      first := k;
    }
  }

  /**
   * Migrating the tables of a run reproduces its ledger, refunds aside, exactly when no extension of a completed
   * booking was charged and no paid booking was quoted at zero.
   */
  lemma {:induction false} RunBackfillsIff(owner: Id -> Id, events: seq<Event>)
    requires OwnedRun(owner, events)
    ensures AllBasic(Run(events))
    ensures multiset(Entries(Rebuilt(owner, Run(events)))) == multiset(Live(Entries(Run(events).ledger)))
       <==> && (forall j :: 0 <= j < |events| ==> Timely(events, j))
            && (forall id :: 0 <= id < |Run(events).bookings| ==> ChargedForSomething(FileOf(Run(events), id)))
  {
    RunBasic(owner, events);
    assert events[..|events|] == events;
    if j :| 0 <= j < |events| && !Timely(events, j) {
      var first := FirstLate(events, j);
      RunShort(owner, events, first, |events|);
      var id :| 0 <= id < |Run(events).bookings| && Short(FileOf(Run(events), id));
      ShortDiffers(owner, Run(events), id);
    } else {
      RunAccounted(owner, events, |events|);
      BackfillAgreesIff(owner, Run(events));
    }
  }
}
