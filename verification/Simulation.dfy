/** Every committed action is one move on one case file, or the birth of a new one. */
module Simulation {
  import opened Domain
  import opened Filtering
  import opened Quoting
  import opened Availability
  import opened Rules
  import opened CaseFile

  /** Foreign keys. */
  ghost predicate WellFormed(s: State) {
    && |s.originals| == |s.bookings|
    && (forall k :: 0 <= k < |s.ledger| ==> s.ledger[k].booking < |s.bookings|)
    && (forall k :: 0 <= k < |s.history| ==> s.history[k].booking < |s.bookings|)
    && (forall k :: 0 <= k < |s.requests| ==> s.requests[k].booking < |s.bookings|)
    && (forall k :: 0 <= k < |s.disputes| ==> s.disputes[k].booking < |s.bookings|)
  }

  /** Only the newest request can be pending, and there is at most one dispute. */
  ghost predicate Shaped(f: File) {
    && (forall k :: 0 <= k < |f.reqs| - 1 ==> f.reqs[k].status != RequestPending)
    && |f.disputes| <= 1
  }

  ghost predicate AllShaped(s: State) {
    WellFormed(s) && forall id :: 0 <= id < |s.bookings| ==> Shaped(FileOf(s, id))
  }

  /** A listing never changes hands. */
  ghost predicate Owned(owner: Id -> Id, env: Env) {
    forall l :: l in env.catalog ==> env.catalog[l].provider == owner(l)
  }

  // ---------- how table writes show in the files ----------

  lemma EntriesConcat(xs: seq<Transaction>, ys: seq<Transaction>)
    ensures Entries(xs + ys) == Entries(xs) + Entries(ys)
  {
  }

  lemma PostedEntries(t: Transaction)
    ensures Entries(Posted(t)) == Post(t.booking, t.kind, t.amount, t.renter, t.provider)
  {
  }

  lemma CommitFile(s: State, id: Id, b: Booking, txs: seq<Transaction>, rows: seq<HistoryRow>, j: Id)
    requires WellFormed(s) && id < |s.bookings| && j < |s.bookings|
    requires forall t :: t in txs ==> t.booking == id
    requires forall h :: h in rows ==> h.booking == id
    ensures WellFormed(Commit(s, id, b, txs, rows))
    ensures FileOf(Commit(s, id, b, txs, rows), j) ==
            if j == id then
              var f := FileOf(s, id);
              f.(b := b, rows := f.rows + Entries(txs), hist := f.hist + rows)
            else FileOf(s, j)
  {
    EntriesConcat(s.ledger, txs);
    assert forall e :: e in Entries(txs) ==> EntryBooking(e) == id;
    OfAppend(Entries(s.ledger), Entries(txs), EntryBooking, id, j);
    assert forall h :: h in rows ==> HistoryBooking(h) == id;
    OfAppend(s.history, rows, HistoryBooking, id, j);
    var s' := Commit(s, id, b, txs, rows);
    forall k | 0 <= k < |s'.ledger| ensures s'.ledger[k].booking < |s'.bookings| {
      if k >= |s.ledger| { assert s'.ledger[k] in txs; }
    }
    forall k | 0 <= k < |s'.history| ensures s'.history[k].booking < |s'.bookings| {
      if k >= |s.history| { assert s'.history[k] in rows; }
    }
  }

  lemma {:induction false} TrailBooking(id: Id, from: Point, steps: seq<Point>, actor: Id, now: Time)
    ensures forall h :: h in Trail(id, from, steps, actor, now) ==> h.booking == id
    decreases |steps|
  {
    if steps == [] {
    } else {
      TrailBooking(id, steps[0], steps[1..], actor, now);
    }
  }

  lemma WalkFile(env: Env, s: State, id: Id, b: Booking, txs: seq<Transaction>, steps: seq<Point>, actor: Id, j: Id)
    requires WellFormed(s) && id < |s.bookings| && j < |s.bookings| && steps != []
    requires forall t :: t in txs ==> t.booking == id
    requires Walk(env, s, id, b, txs, steps, actor).Done?
    ensures var s' := Walk(env, s, id, b, txs, steps, actor).state;
            && WellFormed(s')
            && FileOf(s', j) == if j == id then Along(FileOf(s, id), b, Entries(txs), steps, actor, env.now)
                                else FileOf(s, j)
  {
    TrailBooking(id, s.bookings[id].At(), steps, actor, env.now);
    var end := steps[|steps| - 1];
    CommitFile(s, id, b.(stage := end.stage, status := end.status), txs,
               Trail(id, s.bookings[id].At(), steps, actor, env.now), j);
  }

  lemma RequestsFile(s: State, k: Id, r: ExtensionRequest, j: Id)
    requires WellFormed(s) && k < |s.requests| && j < |s.bookings|
    requires r.booking == s.requests[k].booking
    requires Shaped(FileOf(s, r.booking)) && s.requests[k].status == RequestPending
    ensures WellFormed(s.(requests := s.requests[k := r]))
    ensures FileOf(s, r.booking).reqs != [] && Last(FileOf(s, r.booking).reqs) == s.requests[k]
    ensures FileOf(s.(requests := s.requests[k := r]), j) ==
            if j == r.booking then
              var f := FileOf(s, j);
              f.(reqs := f.reqs[|f.reqs| - 1 := r])
            else FileOf(s, j)
  {
    OfUpdate(s.requests, RequestBooking, k, r, j);
    OfUpdate(s.requests, RequestBooking, k, r, r.booking);
  }

  lemma DisputesFile(s: State, k: Id, d: Dispute, j: Id)
    requires WellFormed(s) && k < |s.disputes| && j < |s.bookings|
    requires d.booking == s.disputes[k].booking && Shaped(FileOf(s, d.booking))
    ensures WellFormed(s.(disputes := s.disputes[k := d]))
    ensures FileOf(s, d.booking).disputes == [s.disputes[k]]
    ensures FileOf(s.(disputes := s.disputes[k := d]), j) ==
            if j == d.booking then FileOf(s, j).(disputes := [d]) else FileOf(s, j)
  {
    OfUpdate(s.disputes, DisputeBooking, k, d, j);
    OfUpdate(s.disputes, DisputeBooking, k, d, d.booking);
  }

  lemma NewRequestFile(s: State, r: ExtensionRequest, j: Id)
    requires WellFormed(s) && r.booking < |s.bookings| && j < |s.bookings|
    ensures WellFormed(s.(requests := s.requests + [r]))
    ensures FileOf(s.(requests := s.requests + [r]), j) ==
            if j == r.booking then
              var f := FileOf(s, j);
              f.(reqs := f.reqs + [r])
            else FileOf(s, j)
  {
    OfAppend(s.requests, [r], RequestBooking, r.booking, j);
  }

  lemma NewDisputeFile(s: State, d: Dispute, j: Id)
    requires WellFormed(s) && d.booking < |s.bookings| && j < |s.bookings|
    ensures WellFormed(s.(disputes := s.disputes + [d]))
    ensures FileOf(s.(disputes := s.disputes + [d]), j) ==
            if j == d.booking then
              var f := FileOf(s, j);
              f.(disputes := f.disputes + [d])
            else FileOf(s, j)
  {
    OfAppend(s.disputes, [d], DisputeBooking, d.booking, j);
  }

  function Birth(s: State, b: Booking, o: Original, row: HistoryRow): State {
    s.(bookings := s.bookings + [b], history := s.history + [row], originals := s.originals + [o])
  }

  /** No row of any table refers to a booking that does not exist yet. */
  lemma {:induction false} NoRowsYet(s: State, id: Id)
    requires WellFormed(s) && id == |s.bookings|
    ensures Of(Entries(s.ledger), EntryBooking, id) == [] && Of(s.history, HistoryBooking, id) == []
    ensures Of(s.requests, RequestBooking, id) == [] && Of(s.disputes, DisputeBooking, id) == []
  {
    forall e | e in Entries(s.ledger) ensures EntryBooking(e) != id {
      var k :| 0 <= k < |s.ledger| && Entries(s.ledger)[k] == e;
    }
    OfNone(Entries(s.ledger), EntryBooking, id);
    OfNone(s.history, HistoryBooking, id);
    OfNone(s.requests, RequestBooking, id);
    OfNone(s.disputes, DisputeBooking, id);
  }

  /** A booking row inserted with its first history row starts a file of its own and disturbs no other. */
  lemma BirthFile(s: State, b: Booking, o: Original, row: HistoryRow, j: Id)
    requires WellFormed(s) && row.booking == |s.bookings| && j < |s.bookings|
    ensures WellFormed(Birth(s, b, o, row)) && FileOf(Birth(s, b, o, row), j) == FileOf(s, j)
  {
    OfAppend(s.history, [row], HistoryBooking, |s.bookings|, j);
  }

  lemma NewbornFile(s: State, b: Booking, o: Original, row: HistoryRow)
    requires WellFormed(s) && row.booking == |s.bookings|
    ensures WellFormed(Birth(s, b, o, row))
    ensures FileOf(Birth(s, b, o, row), |s.bookings|) == File(|s.bookings|, b, o, [], [], [], [row])
  {
    var id := |s.bookings|;
    NoRowsYet(s, id);
    OfAppend(s.history, [row], HistoryBooking, id, id);
    assert Of(s.history + [row], HistoryBooking, id) == [row];
  }

  /** Settling stamps rows but changes no entry, so no file notices. */
  lemma StampedFile(s: State, provider: Id, settlement: Id, settlements: seq<Settlement>, j: Id)
    requires WellFormed(s) && j < |s.bookings|
    ensures var s' := s.(ledger := Stamped(s.ledger, provider, settlement), settlements := settlements);
            WellFormed(s') && FileOf(s', j) == FileOf(s, j)
  {
    assert Entries(Stamped(s.ledger, provider, settlement)) == Entries(s.ledger);
  }

  // ---------- which move an action is ----------

  function Target(s: State, a: Action): Option<Id> {
    match a
    case Create(_, _, _, _, _, _, _) => None
    case Approve(id, _, _) => Some(id)
    case Decline(id, _) => Some(id)
    case Cancel(id, _) => Some(id)
    case ConfirmHandover(id, _) => Some(id)
    case ScheduleReturn(id, _) => Some(id)
    case ConfirmReturn(id, _) => Some(id)
    case RecordInspection(id, _, _) => Some(id)
    case RequestExtension(id, _, _) => Some(id)
    case ApproveExtension(r, _, _) => if r < |s.requests| then Some(s.requests[r].booking) else None
    case DeclineExtension(r, _) => if r < |s.requests| then Some(s.requests[r].booking) else None
    case CancelExtension(r, _) => if r < |s.requests| then Some(s.requests[r].booking) else None
    case ProposeDeduction(d, _, _) => if d < |s.disputes| then Some(s.disputes[d].booking) else None
    case RespondToProposal(d, _, _) => if d < |s.disputes| then Some(s.disputes[d].booking) else None
    case AdminResolve(d, _, _) => if d < |s.disputes| then Some(s.disputes[d].booking) else None
    case CreateSettlement(_) => None
    case MarkSettlementPaid(_, _) => None
  }

  function MoveOf(env: Env, s: State, a: Action): Move
    requires Step(env, s, a).Done?
  {
    match a
    case Create(_, _, _, _, _, _, _) => Nothing
    case Approve(_, actor, reference) => MApprove(actor, env.now, reference)
    case Decline(_, actor) => MDecline(actor, env.now)
    case Cancel(_, actor) => MCancel(actor, env.now)
    case ConfirmHandover(_, actor) => MHandover(actor, env.now)
    case ScheduleReturn(_, actor) => MSchedule(actor, env.now)
    case ConfirmReturn(_, actor) => MReturn(actor, env.now)
    case RecordInspection(id, actor, damage) =>
      if damage then MInspectDamage(actor, env.now)
      else MInspectClean(actor, env.now, env.catalog[s.bookings[id].listing].provider)
    case RequestExtension(id, actor, newEndsAt) =>
      var b := s.bookings[id];
      var q := ComputeQuote(env.catalog[b.listing], b.endsAt, newEndsAt, 1).value;
      MRequest(actor, newEndsAt, q.rental, q.service)
    case ApproveExtension(_, actor, reference) => MExtend(actor, env.now, reference)
    case DeclineExtension(r, actor) => MCloseRequest(Decided(s.requests[r], RequestDeclined, actor, env.now))
    case CancelExtension(r, actor) => MCloseRequest(s.requests[r].(status := RequestCancelled))
    case ProposeDeduction(_, actor, amount) => MPropose(actor, amount)
    case RespondToProposal(d, actor, accept) =>
      if accept then
        MResolve(actor, env.now, env.catalog[s.bookings[s.disputes[d].booking].listing].provider,
                 s.disputes[d].proposed, Agreed)
      else MContest
    case AdminResolve(d, actor, amount) =>
      MResolve(actor, env.now, env.catalog[s.bookings[s.disputes[d].booking].listing].provider,
               Some(amount), AdminDecided)
    case CreateSettlement(_) => Nothing
    case MarkSettlementPaid(_, _) => Nothing
  }

  /** The move action `a` makes on file `j`. */
  function MoveOn(env: Env, s: State, a: Action, j: Id): Move
    requires Step(env, s, a).Done?
  {
    if Target(s, a) == Some(j) then MoveOf(env, s, a) else Nothing
  }

  /** What `a` leaves of an existing file. */
  ghost predicate Moves(owner: Id -> Id, env: Env, s: State, a: Action, j: Id)
    requires Step(env, s, a).Done? && WellFormed(s) && WellFormed(Step(env, s, a).state)
    requires j < |s.bookings| <= |Step(env, s, a).state.bookings|
  {
    var m := MoveOn(env, s, a, j);
    Enabled(owner, FileOf(s, j), m) && FileOf(Step(env, s, a).state, j) == Apply(owner, FileOf(s, j), m)
  }

  ghost predicate Simulated(owner: Id -> Id, env: Env, s: State, a: Action, j: Id)
    requires Step(env, s, a).Done? && WellFormed(s) && j < |s.bookings|
  {
    var s' := Step(env, s, a).state;
    && WellFormed(s')
    && |s.bookings| <= |s'.bookings|
    && Moves(owner, env, s, a, j)
  }

  // ---------- action by action ----------

  ghost predicate Made(owner: Id -> Id, f: File, f': File, m: Move) {
    Enabled(owner, f, m) && f' == Apply(owner, f, m)
  }

  /** File `id` made move `m`, the others none; `j` ranges over the files. */
  ghost predicate Effect(owner: Id -> Id, s: State, s': State, id: Id, m: Move, j: Id)
    requires WellFormed(s) && id < |s.bookings| && j < |s.bookings|
  {
    && WellFormed(s')
    && |s'.bookings| == |s.bookings|
    && if j == id then Made(owner, FileOf(s, j), FileOf(s', j), m) else FileOf(s', j) == FileOf(s, j)
  }

  lemma ApproveMoves(owner: Id -> Id, env: Env, s: State, a: Action, j: Id)
    requires WellFormed(s) && j < |s.bookings| && a.Approve? && ApproveOutcome(env, s, a).Done?
    ensures Effect(owner, s, ApproveOutcome(env, s, a).state, a.booking, MApprove(a.actor, env.now, a.reference), j)
  {
    var b := s.bookings[a.booking];
    WalkFile(env, s, a.booking, b.(paid := Some(a.reference)),
             Posted(RenterRow(Charge, a.booking, b, b.total, None, Some(a.reference))), TO_RESERVED, a.actor, j);
  }

  lemma DeclineMoves(owner: Id -> Id, env: Env, s: State, a: Action, j: Id)
    requires WellFormed(s) && j < |s.bookings| && a.Decline? && DeclineOutcome(env, s, a).Done?
    ensures Effect(owner, s, DeclineOutcome(env, s, a).state, a.booking, MDecline(a.actor, env.now), j)
  {
    var b := s.bookings[a.booking];
    WalkFile(env, s, a.booking, b, [], [Point(b.stage, Declined)], a.actor, j);
  }

  lemma CancelMoves(owner: Id -> Id, env: Env, s: State, a: Action, j: Id)
    requires WellFormed(s) && j < |s.bookings| && a.Cancel? && CancelOutcome(env, s, a).Done?
    ensures Effect(owner, s, CancelOutcome(env, s, a).state, a.booking, MCancel(a.actor, env.now), j)
  {
    var b := s.bookings[a.booking];
    WalkFile(env, s, a.booking, b, CancelRefund(env, a.booking, b), [Point(b.stage, Cancelled)], a.actor, j);
  }

  lemma StageMoves(env: Env, s: State, id: Id, allowed: set<Stage>, steps: seq<Point>, actor: Id, j: Id)
    requires WellFormed(s) && j < |s.bookings| && steps != []
    requires FromStages(env, s, id, allowed, steps, actor).Done?
    ensures id < |s.bookings| && s.bookings[id].stage in allowed
    ensures var s' := FromStages(env, s, id, allowed, steps, actor).state;
            && WellFormed(s') && |s'.bookings| == |s.bookings|
            && FileOf(s', j) == if j == id then Along(FileOf(s, id), s.bookings[id], [], steps, actor, env.now)
                                else FileOf(s, j)
  {
    WalkFile(env, s, id, s.bookings[id], [], steps, actor, j);
  }

  lemma CleanEntries(f: File, provider: Id)
    ensures Entries(CleanRows(f.id, f.b, provider)) == PostRelease(f, f.b.deposit) + PostEarning(f, provider)
  {
    var release := RenterRow(DepositRelease, f.id, f.b, f.b.deposit, None, None);
    var earning := ProviderRow(ProviderEarning, f.id, provider, f.b.rental, None);
    PostedEntries(release);
    PostedEntries(earning);
    EntriesConcat(Posted(release), Posted(earning));
  }

  lemma CleanInspectMoves(owner: Id -> Id, env: Env, s: State, a: Action, j: Id)
    requires WellFormed(s) && j < |s.bookings| && Owned(owner, env)
    requires a.RecordInspection? && !a.damageFound && InspectOutcome(env, s, a).Done?
    ensures Effect(owner, s, InspectOutcome(env, s, a).state, a.booking,
                   MInspectClean(a.actor, env.now, owner(s.bookings[a.booking].listing)), j)
  {
    var b := s.bookings[a.booking];
    var provider := env.catalog[b.listing].provider;
    var txs := CleanRows(a.booking, b, provider);
    WalkFile(env, s, a.booking, b, txs, [Point(Inspected, Confirmed)] + TO_COMPLETED, a.actor, j);
    CleanEntries(FileOf(s, a.booking), provider);
  }

  /** Opening a dispute on the inspected booking. */
  lemma DisputedFile(env: Env, s: State, id: Id, steps: seq<Point>, d: Dispute, actor: Id, j: Id)
    requires WellFormed(s) && j < |s.bookings| && id < |s.bookings| && steps != [] && d.booking == id
    requires Walk(env, s, id, s.bookings[id], [], steps, actor).Done?
    requires forall k :: 0 <= k < |s.disputes| ==> s.disputes[k].booking != id
    ensures var s' := Walk(env, s, id, s.bookings[id], [], steps, actor).state.(disputes := s.disputes + [d]);
            && WellFormed(s') && |s'.bookings| == |s.bookings|
            && FileOf(s, id).disputes == []
            && FileOf(s', j) == if j == id then
                                  Along(FileOf(s, id), s.bookings[id], [], steps, actor, env.now).(disputes := [d])
                                else FileOf(s, j)
  {
    WalkFile(env, s, id, s.bookings[id], [], steps, actor, j);
    NewDisputeFile(Walk(env, s, id, s.bookings[id], [], steps, actor).state, d, j);
    OfNone(s.disputes, DisputeBooking, id);
  }

  lemma DamageInspectMoves(owner: Id -> Id, env: Env, s: State, a: Action, j: Id)
    requires WellFormed(s) && j < |s.bookings|
    requires a.RecordInspection? && a.damageFound && InspectOutcome(env, s, a).Done?
    ensures Effect(owner, s, InspectOutcome(env, s, a).state, a.booking, MInspectDamage(a.actor, env.now), j)
  {
    DisputedFile(env, s, a.booking, [Point(Inspected, Confirmed), Point(Inspected, Disputed)],
                 Dispute(a.booking, a.actor, Open, None, None, None, None, None), a.actor, j);
  }

  lemma RequestMoves(owner: Id -> Id, env: Env, s: State, a: Action, j: Id)
    requires WellFormed(s) && j < |s.bookings| && a.RequestExtension? && RequestExtensionOutcome(env, s, a).Done?
    ensures var b := s.bookings[a.booking];
            var q := ComputeQuote(env.catalog[b.listing], b.endsAt, a.newEndsAt, 1).value;
            Effect(owner, s, RequestExtensionOutcome(env, s, a).state, a.booking,
                   MRequest(a.actor, a.newEndsAt, q.rental, q.service), j)
  {
    var b := s.bookings[a.booking];
    var listing := env.catalog[b.listing];
    var q := ComputeQuote(listing, b.endsAt, a.newEndsAt, 1).value;
    ServiceFeeBounds(q.rental, listing.commissionBps);
    NewRequestFile(s, ExtensionRequest(a.booking, a.actor, b.endsAt, a.newEndsAt, RequestPending,
                                       q.rental, q.service, None, None), j);
    OfMembers(s.requests, RequestBooking, a.booking);
    var f := FileOf(s, a.booking);
    forall k | 0 <= k < |f.reqs| ensures f.reqs[k].status != RequestPending {
      assert f.reqs[k] in f.reqs;
    }
  }

  /** Deciding a pending request and rewriting its booking in one transaction. */
  lemma ExtendFile(s: State, k: Id, approved: ExtensionRequest, b: Booking, txs: seq<Transaction>, row: HistoryRow,
                   j: Id)
    requires WellFormed(s) && j < |s.bookings| && k < |s.requests| && s.requests[k].status == RequestPending
    requires approved.booking == s.requests[k].booking == row.booking && Shaped(FileOf(s, row.booking))
    requires forall t :: t in txs ==> t.booking == row.booking
    ensures var s' := Commit(s, row.booking, b, txs, [row]).(requests := s.requests[k := approved]);
            var f := FileOf(s, row.booking);
            && f.reqs != [] && Last(f.reqs) == s.requests[k]
            && WellFormed(s') && |s'.bookings| == |s.bookings|
            && FileOf(s', j) ==
               if j == row.booking then
                 f.(b := b, rows := f.rows + Entries(txs), reqs := f.reqs[|f.reqs| - 1 := approved],
                    hist := f.hist + [row])
               else FileOf(s, j)
  {
    RequestsFile(s, k, approved, j);
    CommitFile(s.(requests := s.requests[k := approved]), row.booking, b, txs, [row], j);
  }

  lemma ApplyExtend(owner: Id -> Id, f: File, r: ExtensionRequest, actor: Id, now: Time, reference: string)
    requires f.reqs != [] && Last(f.reqs) == r && r.status == RequestPending
    ensures var m := MExtend(actor, now, reference);
            Enabled(owner, f, m) && Apply(owner, f, m) == Lengthened(f, actor, now, reference)
  {
  }

  /** The approving transaction, as a commit. */
  lemma ExtendedIsCommit(env: Env, s: State, a: Action)
    requires a.ApproveExtension? && a.request < |s.requests| && s.requests[a.request].booking < |s.bookings|
    ensures var r := s.requests[a.request];
            var b := s.bookings[r.booking];
            var charge := RenterRow(Charge, r.booking, b, r.rental + r.service, None, Some(a.reference));
            var row := HistoryRow(r.booking, Some(Point(Active, b.status)), Point(Active, b.status), a.actor, env.now);
            && ExtendedState(env, s, a)
               == Commit(s, r.booking, Extended(b, r, a.reference), Posted(charge), [row])
                  .(requests := s.requests[a.request := Decided(r, Approved, a.actor, env.now)])
            && Entries(Posted(charge)) == Post(r.booking, Charge, r.rental + r.service, Some(b.renter), None)
            && forall t :: t in Posted(charge) ==> t.booking == r.booking
  {
  }

  /** The file of a booking with its last request approved. */
  function Lengthened(f: File, actor: Id, now: Time, reference: string): File
    requires f.reqs != []
  {
    var r := Last(f.reqs);
    var row := HistoryRow(f.id, Some(Point(Active, f.b.status)), Point(Active, f.b.status), actor, now);
    f.(b := Extended(f.b, r, reference), rows := f.rows + PostCharge(f, r.rental + r.service),
       reqs := f.reqs[|f.reqs| - 1 := Decided(r, Approved, actor, now)], hist := f.hist + [row])
  }

  /** Committing an approval, with its rows given as they are. */
  lemma LengthenedFile(s: State, k: Id, charge: seq<Transaction>, row: HistoryRow, actor: Id, now: Time,
                       reference: string, j: Id)
    requires WellFormed(s) && j < |s.bookings| && k < |s.requests| && s.requests[k].status == RequestPending
    requires s.requests[k].booking == row.booking && Shaped(FileOf(s, row.booking))
    requires var r, f := s.requests[k], FileOf(s, row.booking);
             && Entries(charge) == PostCharge(f, r.rental + r.service)
             && row == HistoryRow(f.id, Some(Point(Active, f.b.status)), Point(Active, f.b.status), actor, now)
    requires forall t :: t in charge ==> t.booking == row.booking
    ensures var r, f := s.requests[k], FileOf(s, row.booking);
            var s' := Commit(s, r.booking, Extended(f.b, r, reference), charge, [row])
                      .(requests := s.requests[k := Decided(r, Approved, actor, now)]);
            && f.reqs != [] && Last(f.reqs) == r
            && WellFormed(s') && |s'.bookings| == |s.bookings|
            && FileOf(s', j) == if j == r.booking then Lengthened(f, actor, now, reference) else FileOf(s, j)
  {
    var r := s.requests[k];
    ExtendFile(s, k, Decided(r, Approved, actor, now), Extended(s.bookings[r.booking], r, reference), charge, row, j);
  }

  lemma ExtendedFile(env: Env, s: State, a: Action, j: Id)
    requires WellFormed(s) && j < |s.bookings| && a.ApproveExtension? && a.request < |s.requests|
    requires s.requests[a.request].status == RequestPending && Shaped(FileOf(s, s.requests[a.request].booking))
    ensures var s', r := ExtendedState(env, s, a), s.requests[a.request];
            var f := FileOf(s, r.booking);
            && f.reqs != [] && Last(f.reqs) == r
            && WellFormed(s') && |s'.bookings| == |s.bookings|
            && FileOf(s', j) == if j == r.booking then Lengthened(f, a.actor, env.now, a.reference) else FileOf(s, j)
  {
    var r := s.requests[a.request];
    var b := s.bookings[r.booking];
    var charge := Posted(RenterRow(Charge, r.booking, b, r.rental + r.service, None, Some(a.reference)));
    var row := HistoryRow(r.booking, Some(Point(Active, b.status)), Point(Active, b.status), a.actor, env.now);
    ExtendedIsCommit(env, s, a);
    LengthenedFile(s, a.request, charge, row, a.actor, env.now, a.reference, j);
  }

  lemma ExtendMoves(owner: Id -> Id, env: Env, s: State, a: Action, j: Id)
    requires WellFormed(s) && j < |s.bookings| && a.ApproveExtension? && a.request < |s.requests|
    requires s.requests[a.request].status == RequestPending && Shaped(FileOf(s, s.requests[a.request].booking))
    ensures Effect(owner, s, ExtendedState(env, s, a), s.requests[a.request].booking,
                   MExtend(a.actor, env.now, a.reference), j)
  {
    var r := s.requests[a.request];
    ExtendedFile(env, s, a, j);
    ApplyExtend(owner, FileOf(s, r.booking), r, a.actor, env.now, a.reference);
  }

  lemma CloseRequestMoves(owner: Id -> Id, env: Env, s: State, a: Action, j: Id)
    requires WellFormed(s) && j < |s.bookings| && (a.DeclineExtension? || a.CancelExtension?)
    requires CloseExtensionOutcome(env, s, a).Done? && Shaped(FileOf(s, s.requests[a.request].booking))
    ensures var r := s.requests[a.request];
            var closed := if a.DeclineExtension? then Decided(r, RequestDeclined, a.actor, env.now)
                          else r.(status := RequestCancelled);
            Effect(owner, s, CloseExtensionOutcome(env, s, a).state, r.booking, MCloseRequest(closed), j)
  {
    var r := s.requests[a.request];
    var closed := if a.DeclineExtension? then Decided(r, RequestDeclined, a.actor, env.now)
                  else r.(status := RequestCancelled);
    RequestsFile(s, a.request, closed, j);
  }

  lemma ProposeMoves(owner: Id -> Id, s: State, a: Action, j: Id)
    requires WellFormed(s) && j < |s.bookings| && a.ProposeDeduction? && ProposeOutcome(s, a).Done?
    requires Shaped(FileOf(s, s.disputes[a.dispute].booking))
    ensures Effect(owner, s, ProposeOutcome(s, a).state, s.disputes[a.dispute].booking, MPropose(a.actor, a.amount), j)
  {
    var d := s.disputes[a.dispute];
    DisputesFile(s, a.dispute, d.(status := Proposed, proposed := Some(a.amount), proposedBy := Some(a.actor)), j);
  }

  lemma ContestMoves(owner: Id -> Id, env: Env, s: State, a: Action, j: Id)
    requires WellFormed(s) && j < |s.bookings| && a.RespondToProposal? && !a.accept && RespondOutcome(env, s, a).Done?
    requires Shaped(FileOf(s, s.disputes[a.dispute].booking))
    ensures Effect(owner, s, RespondOutcome(env, s, a).state, s.disputes[a.dispute].booking, MContest, j)
  {
    DisputesFile(s, a.dispute, s.disputes[a.dispute].(status := Contested), j);
  }

  lemma FinalizeEntries(f: File, provider: Id, deduction: nat, dispute: Id)
    ensures Entries(FinalizeRows(f.id, f.b, provider, deduction, dispute)) ==
            PostRelease(f, if f.b.deposit - deduction < 0 then 0 else f.b.deposit - deduction)
            + PostForfeit(f, provider, deduction) + PostEarning(f, provider)
  {
    var release := if f.b.deposit - deduction < 0 then 0 else f.b.deposit - deduction;
    var x := RenterRow(DepositRelease, f.id, f.b, release, Some(dispute), None);
    var y := ProviderRow(ProviderForfeitCredit, f.id, provider, deduction, Some(dispute));
    var z := ProviderRow(ProviderEarning, f.id, provider, f.b.rental, None);
    PostedEntries(x);
    PostedEntries(y);
    PostedEntries(z);
    EntriesConcat(Posted(x), Posted(y));
    EntriesConcat(Posted(x) + Posted(y), Posted(z));
  }

  /** Storing the resolved dispute and finalizing the booking is one move. */
  lemma FinalizeFile(env: Env, s: State, k: Id, final: Option<nat>, how: Resolution, actor: Id, j: Id)
    requires WellFormed(s) && j < |s.bookings| && k < |s.disputes| && Shaped(FileOf(s, s.disputes[k].booking))
    requires Finalize(env, s, k, Settled(s.disputes[k], final, how, actor), Deduction(final), actor).Done?
    ensures var id := s.disputes[k].booking;
            var s' := Finalize(env, s, k, Settled(s.disputes[k], final, how, actor), Deduction(final), actor).state;
            var f := FileOf(s, id);
            var b := s.bookings[id];
            var provider := env.catalog[b.listing].provider;
            && f.disputes == [s.disputes[k]]
            && WellFormed(s') && |s'.bookings| == |s.bookings|
            && FileOf(s', j) ==
               if j == id then
                 Along(f, b, Entries(FinalizeRows(id, b, provider, Deduction(final), k)),
                       [Point(b.stage, Confirmed)] + TO_COMPLETED, actor, env.now)
                 .(disputes := [Settled(s.disputes[k], final, how, actor)])
               else FileOf(s, j)
  {
    var d := s.disputes[k];
    var id := d.booking;
    var b := s.bookings[id];
    var resolved := Settled(d, final, how, actor);
    var steps := [Point(b.stage, Confirmed)] + TO_COMPLETED;
    var txs := FinalizeRows(id, b, env.catalog[b.listing].provider, Deduction(final), k);
    var marked := s.(disputes := s.disputes[k := resolved]);
    DisputesFile(s, k, resolved, j);
    DisputesFile(s, k, resolved, id);
    WalkFile(env, marked, id, b, txs, steps, actor, j);
  }

  lemma ApplyResolve(owner: Id -> Id, f: File, d: Dispute, final: Option<nat>, how: Resolution, actor: Id, now: Time,
                     k: Id)
    requires f.disputes == [d] && d.status != Resolved
    requires how == Agreed ==> d.status == Proposed && final == d.proposed
    requires how == AdminDecided ==> final.Some? && final.value <= f.b.deposit
    ensures var provider := owner(f.b.listing);
            var m := MResolve(actor, now, provider, final, how);
            && Enabled(owner, f, m)
            && Apply(owner, f, m) ==
               Along(f, f.b, Entries(FinalizeRows(f.id, f.b, provider, Deduction(final), k)),
                     [Point(f.b.stage, Confirmed)] + TO_COMPLETED, actor, now)
               .(disputes := [Settled(d, final, how, actor)])
  {
    FinalizeEntries(f, owner(f.b.listing), Deduction(final), k);
  }

  lemma ResolveMoves(owner: Id -> Id, env: Env, s: State, k: Id, final: Option<nat>, how: Resolution, actor: Id, j: Id)
    requires WellFormed(s) && j < |s.bookings| && k < |s.disputes| && Shaped(FileOf(s, s.disputes[k].booking))
    requires Finalize(env, s, k, Settled(s.disputes[k], final, how, actor), Deduction(final), actor).Done?
    requires Owned(owner, env) && s.disputes[k].status != Resolved
    requires how == Agreed ==> s.disputes[k].status == Proposed && final == s.disputes[k].proposed
    requires how == AdminDecided ==> final.Some? && final.value <= s.bookings[s.disputes[k].booking].deposit
    ensures var id := s.disputes[k].booking;
            Effect(owner, s, Finalize(env, s, k, Settled(s.disputes[k], final, how, actor), Deduction(final),
                                      actor).state,
                   id, MResolve(actor, env.now, owner(s.bookings[id].listing), final, how), j)
  {
    var f := FileOf(s, s.disputes[k].booking);
    FinalizeFile(env, s, k, final, how, actor, j);
    ApplyResolve(owner, f, s.disputes[k], final, how, actor, env.now, k);
  }

  /** Inserting a booking leaves every other file alone. */
  lemma InsertSpares(env: Env, s: State, b: Booking, q: Quote, actor: Id, reference: string, j: Id)
    requires WellFormed(s) && j < |s.bookings| && Insert(env, s, b, q, actor, reference).Done?
    ensures var s' := Insert(env, s, b, q, actor, reference).state;
            WellFormed(s') && |s'.bookings| == |s.bookings| + 1 && FileOf(s', j) == FileOf(s, j)
  {
    var id := |s.bookings|;
    var row := HistoryRow(id, None, b.At(), actor, env.now);
    var o := Original(q, b.endsAt);
    BirthFile(s, b, o, row, j);
    if b.mode == Instant {
      WalkFile(env, Birth(s, b, o, row), id, b.(paid := Some(reference)),
               Posted(RenterRow(Charge, id, b, q.total, None, Some(reference))), TO_RESERVED, actor, j);
    }
  }

  /** Charging and reserving a just-inserted instant booking. */
  lemma ReserveStarts(env: Env, s: State, f: File, q: Quote, actor: Id, reference: string)
    requires WellFormed(s) && f.id < |s.bookings| && FileOf(s, f.id) == f
    requires var charge := Posted(RenterRow(Charge, f.id, f.b, q.total, None, Some(reference)));
             Walk(env, s, f.id, f.b.(paid := Some(reference)), charge, TO_RESERVED, actor).Done?
    ensures var charge := Posted(RenterRow(Charge, f.id, f.b, q.total, None, Some(reference)));
            var s' := Walk(env, s, f.id, f.b.(paid := Some(reference)), charge, TO_RESERVED, actor).state;
            && WellFormed(s') && |s'.bookings| == |s.bookings|
            && FileOf(s', f.id) ==
               Along(f, f.b.(paid := Some(reference)), PostCharge(f, q.total), TO_RESERVED, actor, env.now)
  {
    var charge := RenterRow(Charge, f.id, f.b, q.total, None, Some(reference));
    PostedEntries(charge);
    WalkFile(env, s, f.id, f.b.(paid := Some(reference)), Posted(charge), TO_RESERVED, actor, f.id);
  }

  lemma InsertState(env: Env, s: State, b: Booking, q: Quote, actor: Id, reference: string)
    requires Insert(env, s, b, q, actor, reference).Done?
    ensures var id := |s.bookings|;
            var created := Birth(s, b, Original(q, b.endsAt), HistoryRow(id, None, b.At(), actor, env.now));
            var charge := Posted(RenterRow(Charge, id, b, q.total, None, Some(reference)));
            var walked := Walk(env, created, id, b.(paid := Some(reference)), charge, TO_RESERVED, actor);
            && (b.mode == OnRequest ==> Insert(env, s, b, q, actor, reference).state == created)
            && (b.mode == Instant ==> walked.Done? && Insert(env, s, b, q, actor, reference).state == walked.state)
  {
  }

  /** The inserted booking's file is the newborn one. */
  lemma InsertStarts(env: Env, s: State, b: Booking, q: Quote, actor: Id, reference: string)
    requires WellFormed(s) && Insert(env, s, b, q, actor, reference).Done?
    ensures var s' := Insert(env, s, b, q, actor, reference).state;
            && WellFormed(s') && |s'.bookings| == |s.bookings| + 1
            && FileOf(s', |s.bookings|) == Newborn(|s.bookings|, b, q, actor, env.now, reference)
  {
    var id := |s.bookings|;
    var row := HistoryRow(id, None, b.At(), actor, env.now);
    var o := Original(q, b.endsAt);
    NewbornFile(s, b, o, row);
    InsertState(env, s, b, q, actor, reference);
    if b.mode == Instant {
      ReserveStarts(env, Birth(s, b, o, row), File(id, b, o, [], [], [], [row]), q, actor, reference);
    }
  }

  /** A create that inserts, and neither fails nor replays an earlier one. */
  predicate Fresh(env: Env, s: State, a: Action) {
    a.Create? && Step(env, s, a).Done? && |Step(env, s, a).state.bookings| != |s.bookings|
  }

  /** The booking a fresh create inserts and the quote it was priced at. */
  function Inserted(env: Env, s: State, a: Action): (Booking, Quote)
    requires Fresh(env, s, a)
  {
    var listing := env.catalog[a.listing];
    var q := ComputeQuote(listing, a.from, a.to, a.quantity).value;
    var asset := Admit(s.bookings, a.listing, listing, Window(a.from, a.to), a.quantity).asset;
    (NewBooking(a, listing, asset, q), q)
  }

  lemma CreateMoves(env: Env, s: State, a: Action, j: Id)
    requires WellFormed(s) && a.Create? && CreateOutcome(env, s, a).Done?
    requires j < |CreateOutcome(env, s, a).state.bookings|
    ensures var s' := CreateOutcome(env, s, a).state;
            && WellFormed(s') && |s.bookings| <= |s'.bookings| <= |s.bookings| + 1
            && (j < |s.bookings| ==> FileOf(s', j) == FileOf(s, j))
            && (j == |s.bookings| ==>
                  && Fresh(env, s, a)
                  && var (b, q) := Inserted(env, s, a);
                     FileOf(s', j) == Newborn(j, b, q, a.actor, env.now, a.reference))
  {
    if CreateOutcome(env, s, a).state != s {
      var listing := env.catalog[a.listing];
      var q := ComputeQuote(listing, a.from, a.to, a.quantity).value;
      var asset := Admit(s.bookings, a.listing, listing, Window(a.from, a.to), a.quantity).asset;
      if j < |s.bookings| {
        InsertSpares(env, s, NewBooking(a, listing, asset, q), q, a.actor, a.reference, j);
      } else {
        InsertStarts(env, s, NewBooking(a, listing, asset, q), q, a.actor, a.reference);
      }
    }
  }

  lemma EarlyMoves(owner: Id -> Id, env: Env, s: State, a: Action, j: Id)
    requires WellFormed(s) && j < |s.bookings| && Step(env, s, a).Done?
    requires a.Approve? || a.Decline? || a.Cancel?
    ensures Simulated(owner, env, s, a, j)
  {
    match a
    case Approve(_, _, _) => ApproveMoves(owner, env, s, a, j);
    case Decline(_, _) => DeclineMoves(owner, env, s, a, j);
    case Cancel(_, _) => CancelMoves(owner, env, s, a, j);
  }

  lemma LateMoves(owner: Id -> Id, env: Env, s: State, a: Action, j: Id)
    requires WellFormed(s) && j < |s.bookings| && Owned(owner, env) && Step(env, s, a).Done?
    requires a.RecordInspection? || a.RequestExtension?
    ensures Simulated(owner, env, s, a, j)
  {
    if a.RequestExtension? {
      RequestMoves(owner, env, s, a, j);
    } else if a.damageFound {
      DamageInspectMoves(owner, env, s, a, j);
    } else {
      CleanInspectMoves(owner, env, s, a, j);
    }
  }

  lemma HandoverMoves(owner: Id -> Id, env: Env, s: State, a: Action, j: Id)
    requires WellFormed(s) && j < |s.bookings| && Step(env, s, a).Done? && a.ConfirmHandover?
    ensures Simulated(owner, env, s, a, j)
  {
    StageMoves(env, s, a.booking, {Reserved, Ready}, TO_ACTIVE, a.actor, j);
  }

  lemma ScheduleMoves(owner: Id -> Id, env: Env, s: State, a: Action, j: Id)
    requires WellFormed(s) && j < |s.bookings| && Step(env, s, a).Done? && a.ScheduleReturn?
    ensures Simulated(owner, env, s, a, j)
  {
    StageMoves(env, s, a.booking, {Active}, [Point(ReturnSched, Confirmed)], a.actor, j);
  }

  lemma ReturnMoves(owner: Id -> Id, env: Env, s: State, a: Action, j: Id)
    requires WellFormed(s) && j < |s.bookings| && Step(env, s, a).Done? && a.ConfirmReturn?
    ensures Simulated(owner, env, s, a, j)
  {
    StageMoves(env, s, a.booking, {ReturnSched, Active}, [Point(Returned, Confirmed)], a.actor, j);
  }

  lemma RequestStepMoves(owner: Id -> Id, env: Env, s: State, a: Action, j: Id)
    requires AllShaped(s) && j < |s.bookings| && Step(env, s, a).Done?
    requires a.ApproveExtension? || a.DeclineExtension? || a.CancelExtension?
    ensures Simulated(owner, env, s, a, j)
  {
    if a.ApproveExtension? {
      ExtendMoves(owner, env, s, a, j);
    } else {
      CloseRequestMoves(owner, env, s, a, j);
    }
  }

  lemma ProposalMoves(owner: Id -> Id, env: Env, s: State, a: Action, j: Id)
    requires AllShaped(s) && j < |s.bookings| && Step(env, s, a).Done?
    requires a.ProposeDeduction? || (a.RespondToProposal? && !a.accept)
    ensures Simulated(owner, env, s, a, j)
  {
    if a.ProposeDeduction? {
      ProposeMoves(owner, s, a, j);
    } else {
      ContestMoves(owner, env, s, a, j);
    }
  }

  lemma AcceptMoves(owner: Id -> Id, env: Env, s: State, a: Action, j: Id)
    requires AllShaped(s) && j < |s.bookings| && Owned(owner, env) && Step(env, s, a).Done?
    requires a.RespondToProposal? && a.accept
    ensures Simulated(owner, env, s, a, j)
  {
    ResolveMoves(owner, env, s, a.dispute, s.disputes[a.dispute].proposed, Agreed, a.actor, j);
  }

  lemma AdminMoves(owner: Id -> Id, env: Env, s: State, a: Action, j: Id)
    requires AllShaped(s) && j < |s.bookings| && Owned(owner, env) && Step(env, s, a).Done? && a.AdminResolve?
    ensures Simulated(owner, env, s, a, j)
  {
    ResolveMoves(owner, env, s, a.dispute, Some(a.amount), AdminDecided, a.actor, j);
  }

  lemma FinanceMoves(owner: Id -> Id, env: Env, s: State, a: Action, j: Id)
    requires WellFormed(s) && j < |s.bookings| && Step(env, s, a).Done?
             && (a.CreateSettlement? || a.MarkSettlementPaid?)
    ensures Simulated(owner, env, s, a, j)
  {
    if a.CreateSettlement? {
      StampedFile(s, a.provider, |s.settlements|, Step(env, s, a).state.settlements, j);
    }
  }

  lemma InsertionMoves(owner: Id -> Id, env: Env, s: State, a: Action, j: Id)
    requires WellFormed(s) && j < |s.bookings| && Step(env, s, a).Done? && a.Create?
    ensures Simulated(owner, env, s, a, j)
  {
    CreateMoves(env, s, a, j);
  }

  /** Every committed action makes exactly one move on every existing file, `Nothing` on all but its target. */
  lemma StepMoves(owner: Id -> Id, env: Env, s: State, a: Action, j: Id)
    requires AllShaped(s) && j < |s.bookings| && Owned(owner, env) && Step(env, s, a).Done?
    ensures Simulated(owner, env, s, a, j)
  {
    match a
    case Create(_, _, _, _, _, _, _) => InsertionMoves(owner, env, s, a, j);
    case Approve(_, _, _) => EarlyMoves(owner, env, s, a, j);
    case Decline(_, _) => EarlyMoves(owner, env, s, a, j);
    case Cancel(_, _) => EarlyMoves(owner, env, s, a, j);
    case ConfirmHandover(_, _) => HandoverMoves(owner, env, s, a, j);
    case ScheduleReturn(_, _) => ScheduleMoves(owner, env, s, a, j);
    case ConfirmReturn(_, _) => ReturnMoves(owner, env, s, a, j);
    case RecordInspection(_, _, _) => LateMoves(owner, env, s, a, j);
    case RequestExtension(_, _, _) => LateMoves(owner, env, s, a, j);
    case ApproveExtension(_, _, _) => RequestStepMoves(owner, env, s, a, j);
    case DeclineExtension(_, _) => RequestStepMoves(owner, env, s, a, j);
    case CancelExtension(_, _) => RequestStepMoves(owner, env, s, a, j);
    case ProposeDeduction(_, _, _) => ProposalMoves(owner, env, s, a, j);
    case RespondToProposal(_, _, accept) =>
      if accept { AcceptMoves(owner, env, s, a, j); } else { ProposalMoves(owner, env, s, a, j); }
    case AdminResolve(_, _, _) => AdminMoves(owner, env, s, a, j);
    case CreateSettlement(_) => FinanceMoves(owner, env, s, a, j);
    case MarkSettlementPaid(_, _) => FinanceMoves(owner, env, s, a, j);
  }
}
