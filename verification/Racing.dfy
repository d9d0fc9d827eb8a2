/**
 * Requests racing each other: every request first reads and checks, and only later writes, with any number
 * of other requests in between. The write stores what was computed from the stale read; only the exclusion
 * constraint looks at the table again.
 */
module Racing {
  import opened Domain
  import opened Availability
  import opened UnitSafety
  import opened Turnaround
  import opened Rules
  import Quoting
  import Creating
  import Acting

  /** What a request is about to store: a new row, or row `at` as it was read with some columns changed. */
  datatype Ticket = Ticket(at: Option<Id>, row: Booking)

  datatype Race = Race(bookings: seq<Booking>, tickets: map<nat, Ticket>)

  datatype Op =
    | ReadCreate(thread: nat, listing: Listing, draft: Booking)
    | ReadExtend(thread: nat, listing: Listing, id: Id, newEndsAt: Time)
    | ReadTransition(thread: nat, id: Id, to: Point)
    | Write(thread: nat)

  /** One request reads and checks, or writes; a refused check or write leaves no ticket. */
  function Do(r: Race, op: Op): Race {
    match op
    case ReadCreate(t, listing, draft) =>
      if draft.startsAt >= draft.endsAt || IsBlocked(listing, draft.Span()) then r.(tickets := r.tickets - {t})
      else (match Admit(r.bookings, draft.listing, listing, draft.Span(), draft.quantity)
        case Rejected(_) => r.(tickets := r.tickets - {t})
        case Admitted(asset) => r.(tickets := r.tickets[t := Ticket(None, draft.(asset := asset))]))
    case ReadExtend(t, listing, id, newEndsAt) =>
      if id >= |r.bookings| || ExtensionError(r.bookings, id, listing, newEndsAt).Some?
        then r.(tickets := r.tickets - {t})
      else r.(tickets := r.tickets[t := Ticket(Some(id), r.bookings[id].(endsAt := newEndsAt))])
    case ReadTransition(t, id, to) =>
      if id >= |r.bookings| then r.(tickets := r.tickets - {t})
      else r.(tickets := r.tickets[t := Ticket(Some(id), r.bookings[id].(stage := to.stage, status := to.status))])
    case Write(t) =>
      if !Stores(r, t) then r.(tickets := r.tickets - {t})
      else Race(Put(r.bookings, Place(r, t), r.tickets[t].row), r.tickets - {t})
  }

  /** Where thread `t` writes: over the row it read, or at the end of the table. */
  function Place(r: Race, t: nat): Id
    requires t in r.tickets
  {
    if r.tickets[t].at.Some? then r.tickets[t].at.value else |r.bookings|
  }

  /** Thread `t` has something to write, and the constraint accepts it. */
  predicate Stores(r: Race, t: nat) {
    t in r.tickets && Place(r, t) <= |r.bookings| && !Excluded(r.bookings, Place(r, t), r.tickets[t].row)
  }

  function Put(bs: seq<Booking>, i: Id, b: Booking): seq<Booking>
    requires i <= |bs|
  {
    if i == |bs| then bs + [b] else bs[i := b]
  }

  function Schedule(r: Race, ops: seq<Op>): Race {
    if ops == [] then r
    else Do(Schedule(r, ops[..|ops| - 1]), ops[|ops| - 1])
  }

  /** Whatever the interleaving, no unit is ever double-booked. */
  lemma {:induction false} ScheduleExclusive(r: Race, ops: seq<Op>)
    requires NoOverlaps(r.bookings)
    ensures NoOverlaps(Schedule(r, ops).bookings)
  {
    if ops == [] {
    } else {
      var before, op := Schedule(r, ops[..|ops| - 1]), ops[|ops| - 1];
      ScheduleExclusive(r, ops[..|ops| - 1]);
      if op.Write? && Stores(before, op.thread) {
        if Place(before, op.thread) == |before.bookings| {
          AppendExclusive(before.bookings, before.tickets[op.thread].row);
        } else {
          UpdateExclusive(before.bookings, Place(before, op.thread), before.tickets[op.thread].row);
        }
      }
    }
  }

  // ---------- assets ----------

  /** Every stored row of the listing, and every row about to be stored, is on one of the assets. */
  ghost predicate RaceOnAssets(r: Race, listing: Id, assets: set<Id>) {
    OnAssets(r.bookings, listing, assets) && forall t :: t in r.tickets ==>
      HoldsAsset(r.tickets[t].row, listing, assets)
  }

  lemma DoOnAssets(r: Race, op: Op, listing: Id, assets: set<Id>)
    requires RaceOnAssets(r, listing, assets)
    requires op.ReadCreate? && op.draft.listing == listing ==> Offers(op.listing, assets)
    ensures RaceOnAssets(Do(r, op), listing, assets)
  {
    if op.ReadCreate? && op.draft.listing == listing {
      match Admit(r.bookings, listing, op.listing, op.draft.Span(), op.draft.quantity)
      case Rejected(_) =>
      case Admitted(asset) => AdmittedHolds(r.bookings, op.listing, op.draft.(asset := asset), assets);
    }
  }

  lemma {:induction false} ScheduleOnAssets(r: Race, ops: seq<Op>, listing: Id, assets: set<Id>)
    requires RaceOnAssets(r, listing, assets)
    requires forall k :: 0 <= k < |ops| && ops[k].ReadCreate? && ops[k].draft.listing == listing ==>
             Offers(ops[k].listing, assets)
    ensures RaceOnAssets(Schedule(r, ops), listing, assets)
  {
    if ops == [] {
    } else {
      ScheduleOnAssets(r, ops[..|ops| - 1], listing, assets);
      DoOnAssets(Schedule(r, ops[..|ops| - 1]), ops[|ops| - 1], listing, assets);
    }
  }

  /**
   * Under every interleaving in which the catalog offers no asset of the listing outside `assets`, at any instant
   * the listing's asset bookings under way are on pairwise different assets of the set: never more than assets.
   */
  lemma {:induction false} ScheduleAssetsSuffice(r: Race, ops: seq<Op>, listing: Id, assets: set<Id>, x: Time)
    requires NoOverlaps(r.bookings) && RaceOnAssets(r, listing, assets)
    requires forall k :: 0 <= k < |ops| && ops[k].ReadCreate? && ops[k].draft.listing == listing ==>
             Offers(ops[k].listing, assets)
    ensures var bs := Schedule(r, ops).bookings;
            && OnAssets(bs, listing, assets)
            && (forall i, j :: i in UnderWay(bs, listing, x) && j in UnderWay(bs, listing, x) && i != j
                               ==> bs[i].asset != bs[j].asset)
            && |UnderWay(bs, listing, x)| <= |assets|
  {
    ScheduleExclusive(r, ops);
    ScheduleOnAssets(r, ops, listing, assets);
    AssetsSuffice(Schedule(r, ops).bookings, listing, assets, x);
  }

  // ---------- buffers ----------

  /** Stored rows and rows about to be stored last some time. */
  ghost predicate Lasting(r: Race) {
    && (forall i :: 0 <= i < |r.bookings| ==> r.bookings[i].startsAt < r.bookings[i].endsAt)
    && forall t :: t in r.tickets ==> r.tickets[t].row.startsAt < r.tickets[t].row.endsAt
  }

  lemma DoLasting(r: Race, op: Op)
    requires Lasting(r)
    ensures Lasting(Do(r, op))
  {
  }

  lemma {:induction false} ScheduleLasting(r: Race, ops: seq<Op>)
    requires Lasting(r)
    ensures Lasting(Schedule(r, ops))
  {
    if ops == [] {
    } else {
      ScheduleLasting(r, ops[..|ops| - 1]);
      DoLasting(Schedule(r, ops[..|ops| - 1]), ops[|ops| - 1]);
    }
  }

  /** If the write stores a blocking row of the unit, the padded check holds again at that moment. */
  predicate WritesApart(r: Race, op: Op, u: Unit, buffer: nat) {
    op.Write? && Stores(r, op.thread) ==>
      var b := r.tickets[op.thread].row;
      b.Blocking() && b.Unit() == u ==> !Crowded(r.bookings, Place(r, op.thread), b, buffer)
  }

  /** A new row keeps the unit spaced exactly when the padded check does not object to it. */
  lemma AppendedSpacedIff(bs: seq<Booking>, b: Booking, u: Unit, buffer: nat)
    requires UnitSpaced(bs, u, buffer)
    requires b.startsAt < b.endsAt && forall j :: 0 <= j < |bs| ==> bs[j].startsAt < bs[j].endsAt
    ensures UnitSpaced(bs + [b], u, buffer) <==> (b.Blocking() && b.Unit() == u ==> !Crowded(bs, |bs|, b, buffer))
  {
    CrowdedMeansNotApart(bs, |bs|, b, buffer);
    var bs' := bs + [b];
    if UnitSpaced(bs', u, buffer) {
      forall j | 0 <= j < |bs| && bs[j].Blocking() && bs[j].Unit() == u && b.Blocking() && b.Unit() == u
        ensures Apart(bs[j].Span(), b.Span(), buffer)
      {
        assert bs'[j] == bs[j] && bs'[|bs|] == b;
      }
    }
  }

  /** One read or write keeps the unit spaced exactly when it does not write against the padded check. */
  lemma DoSpacedIff(r: Race, op: Op, u: Unit, buffer: nat)
    requires Lasting(r) && UnitSpaced(r.bookings, u, buffer)
    ensures UnitSpaced(Do(r, op).bookings, u, buffer) <==> WritesApart(r, op, u, buffer)
  {
    if op.Write? && Stores(r, op.thread) {
      var i, b := Place(r, op.thread), r.tickets[op.thread].row;
      if i == |r.bookings| {
        AppendedSpacedIff(r.bookings, b, u, buffer);
      } else {
        StoredSpacedIff(r.bookings, i, b, u, buffer);
      }
    }
  }

  /**
   * Under any interleaving the unit's blocking bookings are the buffer apart all along exactly when, at every write
   * of a blocking row of the unit, the padded check holds once more.
   */
  lemma {:induction false} ScheduleSpacedIff(r: Race, ops: seq<Op>, u: Unit, buffer: nat)
    requires Lasting(r) && UnitSpaced(r.bookings, u, buffer)
    ensures (forall k :: 0 <= k <= |ops| ==> UnitSpaced(Schedule(r, ops[..k]).bookings, u, buffer))
       <==> (forall k :: 0 <= k < |ops| ==> WritesApart(Schedule(r, ops[..k]), ops[k], u, buffer))
  {
    if forall k :: 0 <= k <= |ops| ==> UnitSpaced(Schedule(r, ops[..k]).bookings, u, buffer) {
      forall k | 0 <= k < |ops| ensures WritesApart(Schedule(r, ops[..k]), ops[k], u, buffer) {
        assert UnitSpaced(Schedule(r, ops[..k]).bookings, u, buffer)
               && UnitSpaced(Schedule(r, ops[..k + 1]).bookings, u, buffer);
        ScheduleLasting(r, ops[..k]);
        assert ops[..k + 1][..k] == ops[..k];
        DoSpacedIff(Schedule(r, ops[..k]), ops[k], u, buffer);
      }
    }
    if forall k :: 0 <= k < |ops| ==> WritesApart(Schedule(r, ops[..k]), ops[k], u, buffer) {
      forall k | 0 <= k <= |ops| ensures UnitSpaced(Schedule(r, ops[..k]).bookings, u, buffer) {
        SpacedWhileWritesApart(r, ops, k, u, buffer);
      }
    }
  }

  lemma {:induction false} SpacedWhileWritesApart(r: Race, ops: seq<Op>, k: nat, u: Unit, buffer: nat)
    requires Lasting(r) && UnitSpaced(r.bookings, u, buffer) && k <= |ops|
    requires forall j :: 0 <= j < k ==> WritesApart(Schedule(r, ops[..j]), ops[j], u, buffer)
    ensures UnitSpaced(Schedule(r, ops[..k]).bookings, u, buffer)
  {
    if k == 0 {
      assert ops[..0] == [];
    } else {
      SpacedWhileWritesApart(r, ops, k - 1, u, buffer);
      ScheduleLasting(r, ops[..k - 1]);
      assert ops[..k][..k - 1] == ops[..k - 1];
      DoSpacedIff(Schedule(r, ops[..k - 1]), ops[k - 1], u, buffer);
    }
  }

  const EARLIER := Booking(0, None, 0, 1, 0, 10, Pending, Requested, OnRequest, 0, 0, 0, 0, Flexible, None, None)
  const LATER := EARLIER.(startsAt := 12, endsAt := 20)
  const NARROW := Listing(0, true, OnRequest, Flexible, 0, None, 0, 5, 1, [], [])

  /** A schedule from the empty table after which two blocking bookings of a unit are closer than the buffer checked. */
  predicate LosesBuffer(ops: seq<Op>, buffer: nat) {
    var bs := Schedule(Race([], map[]), ops).bookings;
    && |bs| == 2 && bs[0].Unit() == bs[1].Unit() && bs[0].Blocking() && bs[1].Blocking()
    && (forall k :: 0 <= k < |ops| && ops[k].ReadCreate? ==> ops[k].listing.buffer == buffer)
    && !Apart(bs[0].Span(), bs[1].Span(), buffer)
  }

  lemma BothChecked()
    ensures Do(Do(Race([], map[]), ReadCreate(0, NARROW, EARLIER)), ReadCreate(1, NARROW, LATER))
         == Race([], map[0 := Ticket(None, EARLIER), 1 := Ticket(None, LATER)])
  {
  }

  lemma BothWritten()
    ensures Do(Do(Race([], map[0 := Ticket(None, EARLIER), 1 := Ticket(None, LATER)]), Write(0)), Write(1)).bookings
         == [EARLIER, LATER]
  {
  }

  lemma {:induction false} ScheduleSnoc(r: Race, ops: seq<Op>, op: Op)
    ensures Schedule(r, ops + [op]) == Do(Schedule(r, ops), op)
  {
    assert (ops + [op])[..|ops|] == ops;
  }

  /** The buffer is not safe under interleaving: two requests that both check first end up too close. */
  lemma BufferCanRace()
    ensures exists ops, buffer :: LosesBuffer(ops, buffer)
  {
    var r := Race([], map[]);
    var read0, read1 := ReadCreate(0, NARROW, EARLIER), ReadCreate(1, NARROW, LATER);
    ScheduleSnoc(r, [], read0);
    ScheduleSnoc(r, [read0], read1);
    ScheduleSnoc(r, [read0, read1], Write(0));
    ScheduleSnoc(r, [read0, read1, Write(0)], Write(1));
    assert [] + [read0] == [read0] && [read0] + [read1] == [read0, read1]
        && [read0, read1] + [Write(0)] == [read0, read1, Write(0)];
    BothChecked();
    BothWritten();
    assert LosesBuffer([read0, read1, Write(0)] + [Write(1)], 5);
  }

  // ---------- undisturbed requests ----------

  /** The same units taken at the same times. */
  ghost predicate SameOccupancy(bs: seq<Booking>, bs': seq<Booking>) {
    && |bs| == |bs'|
    && forall i :: 0 <= i < |bs| ==>
         && bs[i].asset == bs'[i].asset && bs[i].listing == bs'[i].listing && bs[i].quantity == bs'[i].quantity
         && bs[i].startsAt == bs'[i].startsAt && bs[i].endsAt == bs'[i].endsAt && bs[i].Blocking() == bs'[i].Blocking()
  }

  /** Undisturbed, checking and inserting takes the units `create` takes, on the same conditions. */
  lemma {:induction false} UndisturbedCreateIsStep(env: Env, s: State, a: Action, r: Race, t: nat)
    requires env.exclusion && a.Create? && a.key == None && r.bookings == s.bookings
    requires a.listing in env.catalog && env.catalog[a.listing].live
    ensures var draft := Booking(a.listing, None, a.actor, a.quantity, a.from, a.to, Pending, Requested,
                                 env.catalog[a.listing].mode, 0, 0, 0, 0, env.catalog[a.listing].policy, None, None);
            SameOccupancy(Do(Do(r, ReadCreate(t, env.catalog[a.listing], draft)), Write(t)).bookings,
                          Next(env, s, a).bookings)
  {
    var listing, w := env.catalog[a.listing], Window(a.from, a.to);
    var admission := Admit(s.bookings, a.listing, listing, w, a.quantity);
    if a.from < a.to && !IsBlocked(listing, w) && admission.Admitted? {
      var q := Quoting.ComputeQuote(listing, a.from, a.to, a.quantity).value;
      var b := NewBooking(a, listing, admission.asset, q);
      Creating.InsertDoneIff(env, s, b, q, a.actor, a.reference);
      if Insert(env, s, b, q, a.actor, a.reference).Done? {
        Creating.InsertStores(env, s, a, listing, admission.asset, q);
      }
    }
  }

  /** Undisturbed, checking and storing a longer booking takes the units an approved extension takes. */
  lemma {:induction false} UndisturbedExtendIsStep(env: Env, s: State, k: Id, actor: Id, reference: string, r: Race,
                                                   t: nat)
    requires env.exclusion && r.bookings == s.bookings && k < |s.requests| && s.requests[k].status == RequestPending
    requires s.requests[k].booking < |s.bookings| && s.bookings[s.requests[k].booking].listing in env.catalog
    ensures var id := s.requests[k].booking;
            var read := ReadExtend(t, env.catalog[s.bookings[id].listing], id, s.requests[k].requestedEndsAt);
            SameOccupancy(Do(Do(r, read), Write(t)).bookings,
                          Next(env, s, ApproveExtension(k, actor, reference)).bookings)
  {
  }

  /** Undisturbed, reading and storing another point takes what a walk to that point takes, when it is the last one. */
  lemma {:induction false} UndisturbedMoveIsWalk(env: Env, s: State, id: Id, to: Point, actor: Id, r: Race, t: nat)
    requires env.exclusion && r.bookings == s.bookings && id < |s.bookings|
    ensures var o := Walk(env, s, id, s.bookings[id], [], [to], actor);
            Do(Do(r, ReadTransition(t, id, to)), Write(t)).bookings == if o.Done? then o.state.bookings else s.bookings
  {
    Acting.WalkOfOne(env, s, id, s.bookings[id], [], to, actor);
    if to.status == Pending || to.status == Confirmed { Acting.MayBlockIff(env, s, id, s.bookings[id], to); }
  }
}
