/** Runs that break what holds of guarded runs: the guards of the run theorems are reachable and needed. */
module Witnesses {
  import opened Domain
  import opened Filtering
  import opened Quoting
  import opened Cancellation
  import opened Availability
  import opened Rules
  import opened CaseFile
  import opened Simulation
  import opened Accounts
  import opened Runs
  import opened Conservation
  import opened Backfill
  import opened BackfillRuns
  import opened Billing
  import opened Settlements
  import opened Idempotency
  import opened Turnaround
  import Photos
  import Lifecycle

  const DAY := MS_PER_DAY

  /** One instant-book listing of two units, flexible cancellation, no deposit, no commission. */
  function Shop(price: nat): Listing { Listing(0, true, Instant, Flexible, price, None, 0, 0, 2, [], []) }

  function At(price: nat, now: Time): Env { Env(map[0 := Shop(price)], now, true) }

  /** One night, starting on day ten. */
  function Book(price: nat, q: Positive): Event {
    Event(At(price, 0), Create(7, 0, 10 * DAY, 11 * DAY, q, None, "p"))
  }

  function Booked(price: nat, q: Positive): Booking {
    Booking(0, None, 7, q, 10 * DAY, 11 * DAY, Confirmed, Reserved, Instant, price * q, 0, 0, price * q, Flexible,
            None, Some("p"))
  }

  lemma AfterBooking(price: nat, q: Positive)
    requires q <= 2
    ensures var s := Next(Book(price, q).env, EMPTY, Book(price, q).action);
            && s.bookings == [Booked(price, q)] && s.requests == [] && |s.originals| == 1
            && s.originals[0].quote.total == price * q
            && s.ledger == Posted(RenterRow(Charge, 0, Booked(price, q), price * q, None, Some("p")))
  {
    var a := Book(price, q).action;
    var env := Book(price, q).env;
    var rental := price * q;
    assert Nights(a.from, a.to) == 1;
    assert ServiceFee(rental, 0) == 0;
    assert price * 1 * q == rental;
    assert ComputeQuote(Shop(price), a.from, a.to, q) == Some(Quote(1, rental, 0, 0, rental));
    assert Admit([], 0, Shop(price), Window(a.from, a.to), q) == Admitted(None);
    assert !IsBlocked(Shop(price), Window(a.from, a.to));
  }

  function Zero(l: Id): Id { 0 }

  function Do(action: Action): Event { Event(At(100, 0), action) }

  const CANCEL := Do(Cancel(0, 7))
  const HANDOVER := Do(ConfirmHandover(0, 1))
  const EXTEND := Do(RequestExtension(0, 7, 12 * DAY))
  const RETURN := Do(ConfirmReturn(0, 1))
  const INSPECT := Do(RecordInspection(0, 1, false))
  const APPROVE := Do(ApproveExtension(0, 1, "q"))

  /** The only booking in the table conflicts with nothing. */
  lemma AloneNotExcluded(b: Booking, b': Booking)
    ensures !Excluded([b], 0, b')
  {
  }

  lemma AfterFirst(events: seq<Event>, price: nat, q: Positive)
    requires events != [] && events[0] == Book(price, q)
    ensures Before(events, 1) == Next(Book(price, q).env, EMPTY, Book(price, q).action)
  {
    RunStep(events, 0);
    assert events[..0] == [];
  }

  // ---------- a refunded booking is handed over ----------

  lemma AfterCancel(s: State)
    requires s.bookings == [Booked(100, 1)]
    ensures var s' := Next(CANCEL.env, s, CANCEL.action);
            && s'.bookings == [Booked(100, 1).(status := Cancelled)]
            && s'.ledger == s.ledger + [RenterRow(Refund, 0, Booked(100, 1), 100, None, None)]
  {
    AloneNotExcluded(Booked(100, 1), Booked(100, 1).(status := Cancelled));
    assert ComputeRefund(Flexible, 10 * DAY, 0, 100, 0).refund == 100;
  }

  lemma RefundSeen(s: State, ledger: seq<Transaction>, t: Transaction)
    requires s.ledger == ledger + [t] && t.kind == Refund && t.booking == 0 && |s.bookings| == |s.originals| == 1
    ensures Refunds(FileOf(s, 0).rows) != []
  {
    EntriesConcat(ledger, [t]);
    assert Entries([t]) == [EntryOf(t)];
    OfAppend(Entries(ledger), [EntryOf(t)], EntryBooking, 0, 0);
    var mine := Of(Entries(ledger), EntryBooking, 0);
    assert (mine + [EntryOf(t)])[..|mine|] == mine;
  }

  lemma RevivalUnsafe(s: State)
    requires s.bookings == [Booked(100, 1).(status := Cancelled)] && |s.originals| == 1
    requires Refunds(FileOf(s, 0).rows) != []
    ensures !SafeEvent(s, HANDOVER)
  {
    forall k | 0 <= k < 3
      ensures !Excluded(s.bookings, 0, s.bookings[0].(stage := TO_ACTIVE[k].stage, status := TO_ACTIVE[k].status))
    {
      AloneNotExcluded(s.bookings[0], s.bookings[0].(stage := TO_ACTIVE[k].stage, status := TO_ACTIVE[k].status));
    }
  }

  lemma CancelledAndRefunded(events: seq<Event>)
    requires |events| >= 2 && events[..2] == [Book(100, 1), CANCEL]
    ensures var s := Before(events, 2);
            && s.bookings == [Booked(100, 1).(status := Cancelled)] && |s.originals| == 1
            && Refunds(FileOf(s, 0).rows) != []
  {
    assert events[0] == events[..2][0] && events[1] == events[..2][1];
    AfterFirst(events, 100, 1);
    AfterBooking(100, 1);
    RunStep(events, 1);
    AfterCancel(Before(events, 1));
    RefundSeen(Before(events, 2), Before(events, 1).ledger, RenterRow(Refund, 0, Booked(100, 1), 100, None, None));
  }

  /** A run that refunds a booking, then hands it over all the same. */
  lemma RefundedHandoverLosesMoney()
    ensures exists events :: OwnedRun(Zero, events) && !forall k :: 0 <= k <= |events| ==>
            Imbalance(Before(events, k)) == 0
  {
    var events := [Book(100, 1), CANCEL, HANDOVER];
    CancelledAndRefunded(events);
    RevivalUnsafe(Before(events, 2));
    assert !SafeEvent(Before(events, 2), events[2]);
    RunConservesIff(Zero, events);
  }

  // ---------- an extension approved after the return ----------

  function Out(q: Positive, stage: Stage, status: Status): Booking {
    Booked(100, q).(stage := stage, status := status)
  }

  const PENDING := ExtensionRequest(0, 7, 11 * DAY, 12 * DAY, RequestPending, 100, 0, None, None)

  lemma AfterHandover(s: State, q: Positive)
    requires s.bookings == [Booked(100, q)]
    ensures var s' := Next(HANDOVER.env, s, HANDOVER.action);
            s'.bookings == [Out(q, Active, Confirmed)] && s'.requests == s.requests && s'.ledger == s.ledger
  {
    forall k | 0 <= k < 3
      ensures !Excluded(s.bookings, 0, s.bookings[0].(stage := TO_ACTIVE[k].stage, status := TO_ACTIVE[k].status))
    {
      AloneNotExcluded(s.bookings[0], s.bookings[0].(stage := TO_ACTIVE[k].stage, status := TO_ACTIVE[k].status));
    }
  }

  lemma NobodyElse(b: Booking, w: Window, buffer: nat)
    ensures !HasOverlap([b], 0, w, buffer, Some(0))
  {
  }

  lemma AfterRequest(s: State, q: Positive)
    requires s.bookings == [Out(q, Active, Confirmed)] && s.requests == []
    ensures var s' := Next(EXTEND.env, s, EXTEND.action);
            s'.bookings == s.bookings && s'.requests == [PENDING]
  {
    var w := Window(11 * DAY, 12 * DAY);
    NobodyElse(Out(q, Active, Confirmed), w, 0);
    assert Nights(w.from, w.to) == 1;
    assert ServiceFee(100, 0) == 0;
    assert ComputeQuote(Shop(100), w.from, w.to, 1) == Some(Quote(1, 100, 0, 0, 100));
  }

  lemma AfterReturn(s: State, q: Positive)
    requires s.bookings == [Out(q, Active, Confirmed)]
    ensures var s' := Next(RETURN.env, s, RETURN.action);
            s'.bookings == [Out(q, Returned, Confirmed)] && s'.requests == s.requests && s'.ledger == s.ledger
  {
    AloneNotExcluded(s.bookings[0], Out(q, Returned, Confirmed));
  }

  lemma AfterInspect(s: State, q: Positive)
    requires s.bookings == [Out(q, Returned, Confirmed)]
    ensures var s' := Next(INSPECT.env, s, INSPECT.action);
            && s'.bookings == [Out(q, Closed, Completed)] && s'.requests == s.requests
            && s'.ledger == s.ledger + CleanRows(0, Out(q, Returned, Confirmed), 0)
  {
    var steps := [Point(Inspected, Confirmed)] + TO_COMPLETED;
    forall k | 0 <= k < 3
      ensures !Excluded(s.bookings, 0, s.bookings[0].(stage := steps[k].stage, status := steps[k].status))
    {
      AloneNotExcluded(s.bookings[0], s.bookings[0].(stage := steps[k].stage, status := steps[k].status));
    }
  }

  lemma ApprovalGoesThrough(s: State, q: Positive)
    requires |s.bookings| == 1 && s.bookings[0] == Out(q, s.bookings[0].stage, s.bookings[0].status)
             && s.requests == [PENDING]
    ensures Step(APPROVE.env, s, APPROVE.action).Done?
    ensures Next(APPROVE.env, s, APPROVE.action).bookings == [Extended(s.bookings[0], PENDING, "q")]
  {
    NobodyElse(s.bookings[0], Window(11 * DAY, 12 * DAY), 0);
    assert s.bookings == [s.bookings[0]];
    AloneNotExcluded(s.bookings[0], Extended(s.bookings[0], PENDING, "q"));
  }

  /** Booked, handed over, extension requested, returned. */
  lemma ReturnedWithRequest(events: seq<Event>)
    requires |events| >= 4 && events[..4] == [Book(100, 1), HANDOVER, EXTEND, RETURN]
    ensures Before(events, 4).bookings == [Out(1, Returned, Confirmed)] && Before(events, 4).requests == [PENDING]
  {
    assert events[0] == events[..4][0] && events[1] == events[..4][1];
    assert events[2] == events[..4][2] && events[3] == events[..4][3];
    AfterFirst(events, 100, 1);
    AfterBooking(100, 1);
    RunStep(events, 1);
    AfterHandover(Before(events, 1), 1);
    RunStep(events, 2);
    AfterRequest(Before(events, 2), 1);
    RunStep(events, 3);
    AfterReturn(Before(events, 3), 1);
  }

  /** A run whose history claims ACTIVE to ACTIVE for a booking already returned. */
  lemma LateApprovalBreaksHistory()
    ensures exists events :: OwnedRun(Zero, events) && !forall k :: 0 <= k <= |events| ==>
            AllReplayable(Before(events, k))
  {
    var events := [Book(100, 1), HANDOVER, EXTEND, RETURN, APPROVE];
    ReturnedWithRequest(events);
    ApprovalGoesThrough(Before(events, 4), 1);
    assert !ApprovesActive(Before(events, 4), events[4]);
    RunReplayIff(Zero, events);
  }

  /** A run that charges an extension after the provider's earning was paid out. */
  lemma LateApprovalLosesMoney()
    ensures exists events :: OwnedRun(Zero, events) && !forall k :: 0 <= k <= |events| ==>
            Imbalance(Before(events, k)) == 0
  {
    var events := [Book(100, 1), HANDOVER, EXTEND, RETURN, INSPECT, APPROVE];
    ApprovedLate(events);
    assert !SafeEvent(Before(events, 5), events[5]);
    RunConservesIff(Zero, events);
  }

  lemma ApprovedLate(events: seq<Event>)
    requires events == [Book(100, 1), HANDOVER, EXTEND, RETURN, INSPECT, APPROVE]
    ensures !ExtendsBeforeCompletion(Before(events, 5), events[5])
  {
    ReturnedWithRequest(events);
    RunStep(events, 4);
    AfterInspect(Before(events, 4), 1);
    ApprovalGoesThrough(Before(events, 5), 1);
  }

  ghost predicate NothingFree(events: seq<Event>) {
    forall id :: 0 <= id < |Run(events).bookings| ==> ChargedForSomething(FileOf(Run(events), id))
  }

  lemma OneBooking(events: seq<Event>)
    requires events == [Book(100, 1), HANDOVER, EXTEND, RETURN, INSPECT, APPROVE]
    ensures |Before(events, 6).bookings| == 1
  {
    ReturnedWithRequest(events);
    RunStep(events, 4);
    AfterInspect(Before(events, 4), 1);
    RunStep(events, 5);
    ApprovalGoesThrough(Before(events, 5), 1);
  }

  lemma FirstQuoted(events: seq<Event>)
    requires events != [] && events[0] == Book(100, 1)
    ensures |Before(events, 1).bookings| == 1 && FileOf(Before(events, 1), 0).o.quote.total == 100
  {
    AfterFirst(events, 100, 1);
    AfterBooking(100, 1);
  }

  /** Quoted at something, its only booking stays quoted at something. */
  lemma NothingFreeAfter(events: seq<Event>, n: nat)
    requires OwnedRun(Zero, events) && 1 <= n == |events| && |Before(events, n).bookings| == 1
    requires |Before(events, 1).bookings| == 1 && FileOf(Before(events, 1), 0).o.quote.total == 100
    ensures NothingFree(events)
  {
    Lifecycle.RunKeepsTerms(Zero, events, 1, n, 0);
    assert events[..n] == events;
  }

  lemma MisreadAndPaid(events: seq<Event>)
    requires events == [Book(100, 1), HANDOVER, EXTEND, RETURN, INSPECT, APPROVE]
    ensures Misread(events) && NothingFree(events)
  {
    ApprovedLate(events);
    MisreadWhenLate(events, 5);
    OneBooking(events);
    FirstQuoted(events);
    NothingFreeAfter(events, 6);
  }

  /** The same run, from whose tables the migration credits 200 where the ledger has 100, with no free booking in it. */
  lemma LateApprovalBackfillsDifferently()
    ensures exists events :: Misread(events) && NothingFree(events)
  {
    MisreadAndPaid([Book(100, 1), HANDOVER, EXTEND, RETURN, INSPECT, APPROVE]);
  }

  lemma MisreadWhenLate(events: seq<Event>, k: nat)
    requires OwnedRun(Zero, events) && k < |events| && !ExtendsBeforeCompletion(Before(events, k), events[k])
    ensures Misread(events)
  {
    RunBackfillsIff(Zero, events);
    assert !Timely(events, k);
  }

  // ---------- an extension forgets the quantity ----------

  /** A run with a listing's price unchanged, yet a booking of it pays less than price, nights and quantity say. */
  ghost predicate Undercharged(events: seq<Event>, price: nat, id: Id) {
    && id < |Run(events).bookings|
    && var b := Run(events).bookings[id];
       && (forall k :: 0 <= k < |events| ==> FixedPrice(events[k].env, b.listing, price, 0))
       && b.rental < price * Nights(b.startsAt, b.endsAt) * b.quantity
  }

  /** Two units booked, handed over, extended. */
  lemma {:induction false} ExtendedPair(events: seq<Event>)
    requires events == [Book(100, 2), HANDOVER, EXTEND, APPROVE]
    ensures Run(events).bookings == [Extended(Out(2, Active, Confirmed), PENDING, "q")]
  {
    AfterFirst(events, 100, 2);
    AfterBooking(100, 2);
    RunStep(events, 1);
    AfterHandover(Before(events, 1), 2);
    RunStep(events, 2);
    AfterRequest(Before(events, 2), 2);
    RunStep(events, 3);
    ApprovalGoesThrough(Before(events, 3), 2);
    assert events[..4] == events;
  }

  /** Two units booked for a night and kept for another: the second night is billed for one unit. */
  lemma QuantityIsForgotten()
    ensures exists events, price, id :: OwnedRun(Zero, events) && Undercharged(events, price, id)
  {
    var events := [Book(100, 2), HANDOVER, EXTEND, APPROVE];
    ExtendedPair(events);
    assert Nights(10 * DAY, 12 * DAY) == 2;
    assert OwnedRun(Zero, events) && Undercharged(events, 100, 0);
  }

  // ---------- a booking for nothing ----------

  lemma {:induction false} FreeBooking(events: seq<Event>)
    requires events == [Book(0, 1)]
    ensures var s := Run(events);
            |s.bookings| == 1 && !ChargedForSomething(FileOf(s, 0))
  {
    AfterFirst(events, 0, 1);
    AfterBooking(0, 1);
    assert events[..1] == events;
  }

  /** The migration turns the tables of the run into something else than its ledger. */
  ghost predicate Misread(events: seq<Event>) {
    && OwnedRun(Zero, events)
    && multiset(Entries(Rebuilt(Zero, Run(events)))) != multiset(Live(Entries(Run(events).ledger)))
  }

  /** A free instant booking, never extended: the migration invents a charge of zero the live ledger never had. */
  lemma FreeBookingBackfillsDifferently()
    ensures exists events :: Misread(events) && forall j :: 0 <= j < |events| ==> Timely(events, j)
  {
    var events := [Book(0, 1)];
    FreeBooking(events);
    MisreadWhenFree(events, 0);
    assert !events[0].action.ApproveExtension?;
  }

  lemma {:induction false} MisreadWhenFree(events: seq<Event>, id: Id)
    requires OwnedRun(Zero, events) && id < |Run(events).bookings| && !ChargedForSomething(FileOf(Run(events), id))
    ensures Misread(events)
  {
    RunBackfillsIff(Zero, events);
  }

  // ---------- two settlements from the same read ----------

  /** After the run, settling and then writing a second settlement from the same read mismatches totals and rows. */
  ghost predicate PaidTwice(events: seq<Event>, provider: Id) {
    var s, a := Run(events), CreateSettlement(provider);
    && OwnedRun(Zero, events) && SettleOutcome(s, a).Done?
    && !Partitioned(SettleRead(SettleOutcome(s, a).state, provider, UnsettledIds(s.ledger, provider),
                               SumUnsettled(s.ledger, provider)))
  }

  lemma {:induction false} EarnedOnce(events: seq<Event>)
    requires events == [Book(100, 1), HANDOVER, RETURN, INSPECT]
    ensures Run(events).ledger == [RenterRow(Charge, 0, Booked(100, 1), 100, None, Some("p"))]
                                  + [ProviderRow(ProviderEarning, 0, 0, 100, None)]
  {
    AfterFirst(events, 100, 1);
    AfterBooking(100, 1);
    RunStep(events, 1);
    AfterHandover(Before(events, 1), 1);
    RunStep(events, 2);
    AfterReturn(Before(events, 2), 1);
    RunStep(events, 3);
    AfterInspect(Before(events, 3), 1);
    assert events[..4] == events;
  }

  lemma {:induction false} PaidTwiceAfter(events: seq<Event>, charge: Transaction, earning: Transaction)
    requires OwnedRun(Zero, events) && Run(events).ledger == [charge] + [earning]
    requires !IsUnsettled(charge, 0) && IsUnsettled(earning, 0) && earning.amount == 100
    ensures PaidTwice(events, 0)
  {
    var ledger := Run(events).ledger;
    RunPartitioned(events);
    assert ledger[..1] == [charge] && [charge][..0] == [];
    assert SumUnsettled([charge], 0) == 0;
    assert ledger[1] == earning && SumUnsettled(ledger, 0) == 100;
    DoubleSettleBreaks(Run(events), CreateSettlement(0));
  }

  /** One completed rental; two requests to settle read its credit, and the second write takes it from the first. */
  lemma SettledTwice()
    ensures exists events, provider :: PaidTwice(events, provider)
  {
    var events := [Book(100, 1), HANDOVER, RETURN, INSPECT];
    EarnedOnce(events);
    PaidTwiceAfter(events, RenterRow(Charge, 0, Booked(100, 1), 100, None, Some("p")),
                   ProviderRow(ProviderEarning, 0, 0, 100, None));
  }

  // ---------- a photo submitted twice ----------

  /** One photo, submitted twice, is accepted and ends up at position one, leaving no cover. */
  lemma RepeatedPhotoLosesCover()
    ensures exists photos, listing, ids ::
              Photos.ValidTable(photos) && Photos.OrderAccepted(photos, listing, ids)
              && (forall i :: i in ids ==> i in photos)
              && !Photos.Contiguous(Photos.Renumbered(photos, ids), listing)
  {
    var photos := map[0 := Photos.Photo(0, "k", 0)];
    var ids := [0, 0];
    assert Photos.IdsOf(photos, 0) == {0} && forall l: Id :: l != 0 ==> Photos.IdsOf(photos, l) == {};
    assert ids[0] in Photos.IdSet(ids) && Photos.IdSet(ids) == {0};
    assert Photos.OrderAccepted(photos, 0, ids);
    assert !Photos.Distinct(ids) by { assert ids[0] == ids[1]; }
    Photos.ReorderContiguousIff(photos, 0, ids);
  }

  // ---------- a cancelled booking comes back too close to another ----------

  /** A single unit that needs a day between rentals. */
  const NARROW := Shop(100).(buffer := DAY, quantityAvailable := 1)

  function Narrowly(action: Action): Event { Event(Env(map[0 := NARROW], 0, true), action) }

  /** The one night of a rental starting on that day. */
  function Night(day: nat): Booking { Booked(100, 1).(startsAt := day * DAY, endsAt := (day + 1) * DAY) }

  function Reserve(day: nat): Event { Narrowly(Create(7, 0, day * DAY, (day + 1) * DAY, 1, None, "p")) }

  lemma NarrowBooking(s: State, day: nat)
    requires |s.bookings| <= 1 && forall i :: 0 <= i < |s.bookings| ==> !s.bookings[i].Blocking()
    ensures var s' := Next(Reserve(day).env, s, Reserve(day).action);
            && s'.bookings == s.bookings + [Night(day)]
            && s'.disputes == s.disputes
  {
    var w := Window(day * DAY, (day + 1) * DAY);
    assert Nights(w.from, w.to) == 1 && ServiceFee(100, 0) == 0;
    assert ComputeQuote(NARROW, w.from, w.to, 1) == Some(Quote(1, 100, 0, 0, 100));
    assert !HasOverlap(s.bookings, 0, w, DAY, None);
    BookedQuantityPositive(s.bookings, 0, w, DAY);
    assert Admit(s.bookings, 0, NARROW, w, 1) == Admitted(None);
    assert !IsBlocked(NARROW, w);
  }

  lemma NightTen()
    ensures Night(10) == Booked(100, 1)
  {
  }

  lemma NarrowCancel(s: State)
    requires s.bookings == [Booked(100, 1)]
    ensures var e := Narrowly(Cancel(0, 7));
            Next(e.env, s, e.action).bookings == [Booked(100, 1).(status := Cancelled)]
  {
    AloneNotExcluded(Booked(100, 1), Booked(100, 1).(status := Cancelled));
  }

  lemma NarrowHandover(s: State)
    requires s.bookings == [Booked(100, 1).(status := Cancelled), Night(11)]
    ensures var e := Narrowly(ConfirmHandover(0, 1));
            Next(e.env, s, e.action).bookings == [Out(1, Active, Confirmed), Night(11)]
  {
    forall k | 0 <= k < 3
      ensures !Excluded(s.bookings, 0, s.bookings[0].(stage := TO_ACTIVE[k].stage, status := TO_ACTIVE[k].status)) { }
  }

  /** The first day of the single unit is booked. */
  lemma NarrowFirst(events: seq<Event>)
    requires events != [] && events[0] == Reserve(10)
    ensures Before(events, 1).bookings == [Booked(100, 1)] && Before(events, 1).disputes == []
  {
    RunStep(events, 0);
    assert events[..0] == [];
    NarrowBooking(Before(events, 0), 10);
    NightTen();
    assert [] + [Night(10)] == [Night(10)];
  }

  /** Reserved, cancelled, and the next day reserved. */
  lemma NextDayTaken(events: seq<Event>)
    requires |events| >= 3 && events[0] == Reserve(10) && events[1] == Narrowly(Cancel(0, 7))
             && events[2] == Reserve(11)
    ensures Before(events, 3).bookings == [Booked(100, 1).(status := Cancelled), Night(11)]
  {
    NarrowFirst(events);
    RunStep(events, 1);
    NarrowCancel(Before(events, 1));
    RunStep(events, 2);
    NarrowBooking(Before(events, 2), 11);
  }

  /** Then the cancelled one is handed over. */
  lemma {:induction false} BackToBack(events: seq<Event>)
    requires events == [Reserve(10), Narrowly(Cancel(0, 7)), Reserve(11), Narrowly(ConfirmHandover(0, 1))]
    ensures Run(events).bookings == [Out(1, Active, Confirmed), Night(11)]
  {
    NextDayTaken(events);
    RunStep(events, 3);
    NarrowHandover(Before(events, 3));
    assert events[..4] == events;
  }

  /** A steady catalog, the constraint installed, and yet two blocking bookings of a unit without the buffer between. */
  ghost predicate TooClose(events: seq<Event>, u: Unit, home: Id, buffer: nat) {
    && OwnedRun(Zero, events)
    && (forall k :: 0 <= k < |events| ==> events[k].env.exclusion && Steady(events[k].env, u, home, buffer))
    && !UnitSpaced(Run(events).bookings, u, buffer)
  }

  lemma BothBlock(bs: seq<Booking>)
    requires bs == [Out(1, Active, Confirmed), Night(11)]
    ensures !UnitSpaced(bs, ListingUnit(0), DAY)
  {
    assert bs[0].Blocking() && bs[1].Blocking() && bs[0].Unit() == bs[1].Unit() == ListingUnit(0);
    assert !Apart(bs[0].Span(), bs[1].Span(), DAY);
  }

  lemma {:induction false} SteadyWhileNarrow(events: seq<Event>)
    requires forall k :: 0 <= k < |events| ==> events[k].env == Env(map[0 := NARROW], 0, true)
    requires Run(events).bookings == [Out(1, Active, Confirmed), Night(11)]
    ensures TooClose(events, ListingUnit(0), 0, DAY)
  {
    BothBlock(Run(events).bookings);
  }

  lemma RevivedHandoverLosesBuffer()
    ensures exists events, u, home, buffer :: TooClose(events, u, home, buffer)
  {
    var events := [Reserve(10), Narrowly(Cancel(0, 7)), Reserve(11), Narrowly(ConfirmHandover(0, 1))];
    BackToBack(events);
    SteadyWhileNarrow(events);
  }

  // ---------- a dispute that cannot be resolved ----------

  lemma NarrowOut(s: State)
    requires s.bookings == [Booked(100, 1)]
    ensures var e := Narrowly(ConfirmHandover(0, 1));
            var s' := Next(e.env, s, e.action);
            s'.bookings == [Out(1, Active, Confirmed)] && s'.disputes == s.disputes
  {
    forall k | 0 <= k < 3
      ensures !Excluded(s.bookings, 0, s.bookings[0].(stage := TO_ACTIVE[k].stage, status := TO_ACTIVE[k].status))
    {
      AloneNotExcluded(s.bookings[0], s.bookings[0].(stage := TO_ACTIVE[k].stage, status := TO_ACTIVE[k].status));
    }
  }

  lemma NarrowReturn(s: State)
    requires s.bookings == [Out(1, Active, Confirmed)]
    ensures var e := Narrowly(ConfirmReturn(0, 1));
            var s' := Next(e.env, s, e.action);
            s'.bookings == [Out(1, Returned, Confirmed)] && s'.disputes == s.disputes
  {
    AloneNotExcluded(s.bookings[0], Out(1, Returned, Confirmed));
  }

  lemma NarrowDamage(s: State)
    requires s.bookings == [Out(1, Returned, Confirmed)] && s.disputes == []
    ensures var e := Narrowly(RecordInspection(0, 1, true));
            var s' := Next(e.env, s, e.action);
            && s'.bookings == [Out(1, Inspected, Disputed)]
            && s'.disputes == [Dispute(0, 1, Open, None, None, None, None, None)]
  {
    AloneNotExcluded(s.bookings[0], Out(1, Inspected, Confirmed));
    AloneNotExcluded(s.bookings[0], Out(1, Inspected, Disputed));
  }

  /** Reserved, handed over, returned damaged. */
  lemma ReturnedDamaged(events: seq<Event>)
    requires |events| >= 4 && events[0] == Reserve(10) && events[1] == Narrowly(ConfirmHandover(0, 1))
    requires events[2] == Narrowly(ConfirmReturn(0, 1)) && events[3] == Narrowly(RecordInspection(0, 1, true))
    ensures Before(events, 4).bookings == [Out(1, Inspected, Disputed)]
    ensures Before(events, 4).disputes == [Dispute(0, 1, Open, None, None, None, None, None)]
  {
    NarrowFirst(events);
    RunStep(events, 1);
    NarrowOut(Before(events, 1));
    RunStep(events, 2);
    NarrowReturn(Before(events, 2));
    RunStep(events, 3);
    NarrowDamage(Before(events, 3));
  }

  /** Then the same day is reserved again, for DISPUTED rows do not block. */
  lemma {:induction false} DisputedAndRebooked(events: seq<Event>)
    requires events == [Reserve(10), Narrowly(ConfirmHandover(0, 1)), Narrowly(ConfirmReturn(0, 1)),
                        Narrowly(RecordInspection(0, 1, true)), Reserve(10)]
    ensures Run(events).bookings == [Out(1, Inspected, Disputed), Booked(100, 1)]
    ensures Run(events).disputes == [Dispute(0, 1, Open, None, None, None, None, None)]
  {
    ReturnedDamaged(events);
    RunStep(events, 4);
    NarrowBooking(Before(events, 4), 10);
    NightTen();
    assert events[..5] == events;
  }

  /** An open dispute, a resolution within the deposit on a known listing, and the constraint refuses it. */
  ghost predicate Irresolvable(events: seq<Event>, e: Event) {
    var s := Run(events);
    && OwnedRun(Zero, events) && e.action.AdminResolve? && e.action.dispute < |s.disputes|
    && var d := s.disputes[e.action.dispute];
       && d.status == Open && d.booking < |s.bookings| && e.action.amount <= s.bookings[d.booking].deposit
       && s.bookings[d.booking].listing in e.env.catalog
       && Step(e.env, s, e.action) == Failed(ExclusionViolation)
  }

  lemma {:induction false} IrresolvableWhenRebooked(events: seq<Event>)
    requires OwnedRun(Zero, events) && Run(events).bookings == [Out(1, Inspected, Disputed), Booked(100, 1)]
    requires Run(events).disputes == [Dispute(0, 1, Open, None, None, None, None, None)]
    ensures Irresolvable(events, Narrowly(AdminResolve(0, 9, 0)))
  {
    var bs := Run(events).bookings;
    var b := bs[0].(stage := Inspected, status := Confirmed);
    assert bs[1].Blocking() && bs[1].Unit() == b.Unit() && Overlaps(bs[1].Span(), b.Span());
    assert Excluded(bs, 0, b);
    assert ([Point(bs[0].stage, Confirmed)] + TO_COMPLETED)[0] == Point(Inspected, Confirmed);
  }

  lemma OpenDisputeCannotBeResolved()
    ensures exists events, e :: Irresolvable(events, e)
  {
    var events := [Reserve(10), Narrowly(ConfirmHandover(0, 1)), Narrowly(ConfirmReturn(0, 1)),
                   Narrowly(RecordInspection(0, 1, true)), Reserve(10)];
    DisputedAndRebooked(events);
    IrresolvableWhenRebooked(events);
  }

  // ---------- the constraint refuses what a bulk listing has room for ----------

  /** After the run, the request passes admission and is refused by the constraint all the same. */
  ghost predicate RefusedWithRoom(events: seq<Event>, e: Event) {
    var s, a := Run(events), e.action;
    && OwnedRun(Zero, events) && a.Create? && a.listing in e.env.catalog
    && Admit(s.bookings, a.listing, e.env.catalog[a.listing], Window(a.from, a.to), a.quantity).Admitted?
    && CreateOutcome(e.env, s, a) == Failed(ExclusionViolation)
  }

  lemma RoomForAnother(bs: seq<Booking>)
    requires bs == [Booked(100, 1)]
    ensures Admit(bs, 0, Shop(100), Window(10 * DAY, 11 * DAY), 1) == Admitted(None)
  {
    assert bs[..0] == [];
    assert BookedQuantity(bs, 0, Window(10 * DAY, 11 * DAY), 0) == 1;
  }

  lemma SecondRefused(s: State)
    requires s.bookings == [Booked(100, 1)]
    ensures CreateOutcome(At(100, 0), s, Book(100, 1).action) == Failed(ExclusionViolation)
  {
    var w, q := Window(10 * DAY, 11 * DAY), Quote(1, 100, 0, 0, 100);
    assert Nights(w.from, w.to) == 1 && ServiceFee(100, 0) == 0;
    assert ComputeQuote(Shop(100), w.from, w.to, 1) == Some(q);
    RoomForAnother(s.bookings);
    assert !IsBlocked(Shop(100), w);
    var b := NewBooking(Book(100, 1).action, Shop(100), None, q);
    assert s.bookings[0].Blocking() && s.bookings[0].Unit() == b.Unit() && Overlaps(s.bookings[0].Span(), b.Span());
    assert Excluded(s.bookings, 1, b);
  }

  lemma {:induction false} SecondOfTwo(events: seq<Event>)
    requires OwnedRun(Zero, events) && Run(events).bookings == [Booked(100, 1)]
    ensures RefusedWithRoom(events, Book(100, 1))
  {
    RoomForAnother(Run(events).bookings);
    SecondRefused(Run(events));
  }

  /** Two units, one of them booked: the other cannot be. */
  lemma BulkAdmittedYetExcluded()
    ensures exists events, e :: RefusedWithRoom(events, e)
  {
    var events := [Book(100, 1)];
    AfterFirst(events, 100, 1);
    AfterBooking(100, 1);
    assert events[..1] == events;
    SecondOfTwo(events);
  }

  // ---------- a declined booking is cancelled; a key is used by two renters ----------

  function Ask(actor: Id, key: Option<string>): Event {
    Event(Env(map[0 := Shop(100).(mode := OnRequest)], 0, true), Create(actor, 0, 10 * DAY, 11 * DAY, 1, key, "p"))
  }

  function Asked(key: Option<string>): Booking {
    Booked(100, 1).(status := Pending, stage := Requested, mode := OnRequest, key := key, paid := None)
  }

  lemma AfterAsking(key: Option<string>)
    ensures Next(Ask(7, key).env, EMPTY, Ask(7, key).action).bookings == [Asked(key)]
  {
    var w := Window(10 * DAY, 11 * DAY);
    var shop := Shop(100).(mode := OnRequest);
    assert Nights(w.from, w.to) == 1 && ServiceFee(100, 0) == 0;
    assert ComputeQuote(shop, w.from, w.to, 1) == Some(Quote(1, 100, 0, 0, 100));
    assert Admit([], 0, shop, w, 1) == Admitted(None) && !IsBlocked(shop, w);
  }

  lemma AfterDecline(s: State)
    requires s.bookings == [Asked(None)]
    ensures var e := Do(Decline(0, 1)); Next(e.env, s, e.action).bookings == [Asked(None).(status := Declined)]
  {
    AloneNotExcluded(Asked(None), Asked(None).(status := Declined));
  }

  lemma AfterLateCancel(s: State)
    requires s.bookings == [Asked(None).(status := Declined)]
    ensures Next(CANCEL.env, s, CANCEL.action).bookings == [Asked(None).(status := Cancelled)]
  {
    AloneNotExcluded(Asked(None), Asked(None).(status := Cancelled));
  }

  lemma {:induction false} DeclinedThenCancelled(events: seq<Event>)
    requires events == [Ask(7, None), Do(Decline(0, 1)), CANCEL]
    ensures Before(events, 2).bookings == [Asked(None).(status := Declined)]
    ensures Run(events).bookings == [Asked(None).(status := Cancelled)]
  {
    RunStep(events, 0);
    assert events[..0] == [];
    AfterAsking(None);
    RunStep(events, 1);
    AfterDecline(Before(events, 1));
    RunStep(events, 2);
    AfterLateCancel(Before(events, 2));
    assert events[..3] == events;
  }

  /** After event `k` a booking was declined, and in the end it is cancelled. */
  ghost predicate CancelsDeclined(events: seq<Event>, k: nat, id: Id) {
    && OwnedRun(Zero, events) && k < |events| && id < |Before(events, k).bookings| && id < |Run(events).bookings|
    && Before(events, k).bookings[id].status == Declined && Run(events).bookings[id].status == Cancelled
  }

  lemma DeclinedIsCancelled()
    ensures exists events, k, id :: CancelsDeclined(events, k, id)
  {
    var events := [Ask(7, None), Do(Decline(0, 1)), CANCEL];
    DeclinedThenCancelled(events);
    assert CancelsDeclined(events, 2, 0);
  }

  /** A create goes through and answers with a booking of somebody else. */
  ghost predicate AnswersAnothers(events: seq<Event>, e: Event) {
    && OwnedRun(Zero, events) && e.action.Create? && CreateOutcome(e.env, Run(events), e.action).Done?
    && var o := CreateOutcome(e.env, Run(events), e.action);
       o.id < |o.state.bookings| && o.state.bookings[o.id].renter != e.action.actor
  }

  lemma KeyOfAnother()
    ensures exists events, e :: AnswersAnothers(events, e)
  {
    var events := [Ask(7, Some("k"))];
    RunStep(events, 0);
    assert events[..0] == [] && events[..1] == events;
    AfterAsking(Some("k"));
    CreateRepeated(Zero, events, 0, Ask(8, Some("k")).env, Ask(8, Some("k")).action);
    assert AnswersAnothers(events, Ask(8, Some("k")));
  }
}
