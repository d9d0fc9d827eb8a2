/**
 * A booking's case file: everything the tables hold about one booking. Every action
 * changes at most one case file, by one of the moves below; run-level invariants are
 * proved move by move on files and carried back to the tables.
 */
module CaseFile {
  import opened Domain
  import opened Filtering
  import opened Cancellation
  import opened Rules

  /** A ledger row without its settlement stamp and references. */
  datatype Entry = Entry(booking: Id, kind: Kind, amount: int, renter: Option<Id>, provider: Option<Id>)

  function EntryOf(t: Transaction): Entry { Entry(t.booking, t.kind, t.amount, t.renter, t.provider) }

  function Entries(ledger: seq<Transaction>): seq<Entry> {
    seq(|ledger|, i requires 0 <= i < |ledger| => EntryOf(ledger[i]))
  }

  function EntryBooking(e: Entry): Id { e.booking }
  function HistoryBooking(h: HistoryRow): Id { h.booking }
  function RequestBooking(r: ExtensionRequest): Id { r.booking }
  function DisputeBooking(d: Dispute): Id { d.booking }

  datatype File = File(
    id: Id, b: Booking, o: Original, rows: seq<Entry>, reqs: seq<ExtensionRequest>,
    disputes: seq<Dispute>, hist: seq<HistoryRow>)

  function FileOf(s: State, id: Id): File
    requires id < |s.bookings| == |s.originals|
  {
    File(id, s.bookings[id], s.originals[id], Of(Entries(s.ledger), EntryBooking, id),
         Of(s.requests, RequestBooking, id), Of(s.disputes, DisputeBooking, id),
         Of(s.history, HistoryBooking, id))
  }

  // ---------- moves ----------

  datatype Move =
    | Nothing
    | MApprove(actor: Id, now: Time, reference: string)
    | MDecline(actor: Id, now: Time)
    | MCancel(actor: Id, now: Time)
    | MHandover(actor: Id, now: Time)
    | MSchedule(actor: Id, now: Time)
    | MReturn(actor: Id, now: Time)
    | MInspectClean(actor: Id, now: Time, provider: Id)
    | MInspectDamage(actor: Id, now: Time)
    | MRequest(actor: Id, newEndsAt: Time, rental: nat, service: nat)
    | MExtend(actor: Id, now: Time, reference: string)
    | MCloseRequest(closed: ExtensionRequest)
    | MPropose(actor: Id, amount: nat)
    | MContest
    | MResolve(actor: Id, now: Time, provider: Id, final: Option<nat>, how: Resolution)

  function Post(id: Id, kind: Kind, amount: int, renter: Option<Id>, provider: Option<Id>): seq<Entry> {
    if amount <= 0 then [] else [Entry(id, kind, amount, renter, provider)]
  }

  function PostCharge(f: File, amount: int): seq<Entry> { Post(f.id, Charge, amount, Some(f.b.renter), None) }
  function PostRefund(f: File, amount: int): seq<Entry> { Post(f.id, Refund, amount, Some(f.b.renter), None) }
  function PostRelease(f: File, amount: int): seq<Entry> { Post(f.id, DepositRelease, amount, Some(f.b.renter), None) }
  function PostEarning(f: File, provider: Id): seq<Entry> {
    Post(f.id, ProviderEarning, f.b.rental, None, Some(provider))
  }
  function PostForfeit(f: File, provider: Id, amount: int): seq<Entry> {
    Post(f.id, ProviderForfeitCredit, amount, None, Some(provider))
  }

  function RefundAt(b: Booking, at: Time): int { ComputeRefund(b.policy, b.startsAt, at, b.total, b.deposit).refund }

  /** Move the booking along `steps`, appending the given ledger entries. */
  function Along(f: File, b: Booking, entries: seq<Entry>, steps: seq<Point>, actor: Id, now: Time): File
    requires steps != []
  {
    var end := steps[|steps| - 1];
    f.(b := b.(stage := end.stage, status := end.status), rows := f.rows + entries,
       hist := f.hist + Trail(f.id, f.b.At(), steps, actor, now))
  }

  function Deduction(final: Option<nat>): nat { if final.Some? then final.value else 0 }

  function Last<T>(xs: seq<T>): T
    requires xs != []
  {
    xs[|xs| - 1]
  }

  /** When each move can happen. `owner` gives every listing's provider. */
  ghost predicate Enabled(owner: Id -> Id, f: File, m: Move) {
    match m
    case Nothing => true
    case MApprove(_, _, _) => f.b.mode == OnRequest && f.b.status == Pending
    case MDecline(_, _) => f.b.status == Pending
    case MCancel(_, _) => f.b.IsBeforePickup() && f.b.status != Cancelled
    case MHandover(_, _) => f.b.stage in {Reserved, Ready}
    case MSchedule(_, _) => f.b.stage == Active
    case MReturn(_, _) => f.b.stage in {ReturnSched, Active}
    case MInspectClean(_, _, provider) => f.b.stage == Returned && provider == owner(f.b.listing)
    case MInspectDamage(_, _) => f.b.stage == Returned && f.disputes == []
    case MRequest(actor, newEndsAt, rental, service) =>
      && f.b.stage == Active && f.b.renter == actor && f.b.endsAt < newEndsAt
      && (rental == 0 ==> service == 0)
      && forall k :: 0 <= k < |f.reqs| ==> f.reqs[k].status != RequestPending
    case MExtend(_, _, _) => f.reqs != [] && Last(f.reqs).status == RequestPending
    case MCloseRequest(closed) =>
      && f.reqs != [] && Last(f.reqs).status == RequestPending
      && closed.status in {RequestDeclined, RequestCancelled}
      && closed == Last(f.reqs).(status := closed.status, decidedBy := closed.decidedBy, decidedAt := closed.decidedAt)
    case MPropose(_, amount) => |f.disputes| == 1 && f.disputes[0].status in {Open, Contested} && amount <= f.b.deposit
    case MContest => |f.disputes| == 1 && f.disputes[0].status == Proposed
    case MResolve(_, _, provider, final, how) =>
      && |f.disputes| == 1 && f.disputes[0].status != Resolved && provider == owner(f.b.listing)
      && match how
         case Agreed => f.disputes[0].status == Proposed && final == f.disputes[0].proposed
         case AdminDecided => final.Some? && final.value <= f.b.deposit
  }

  ghost function Apply(owner: Id -> Id, f: File, m: Move): File
    requires Enabled(owner, f, m)
  {
    var b := f.b;
    match m
    case Nothing => f
    case MApprove(actor, now, reference) =>
      Along(f, b.(paid := Some(reference)), PostCharge(f, b.total), TO_RESERVED, actor, now)
    case MDecline(actor, now) => Along(f, b, [], [Point(b.stage, Declined)], actor, now)
    case MCancel(actor, now) =>
      Along(f, b, if b.status == Confirmed then PostRefund(f, RefundAt(b, now)) else [],
            [Point(b.stage, Cancelled)], actor, now)
    case MHandover(actor, now) => Along(f, b, [], TO_ACTIVE, actor, now)
    case MSchedule(actor, now) => Along(f, b, [], [Point(ReturnSched, Confirmed)], actor, now)
    case MReturn(actor, now) => Along(f, b, [], [Point(Returned, Confirmed)], actor, now)
    case MInspectClean(actor, now, provider) =>
      Along(f, b, PostRelease(f, b.deposit) + PostEarning(f, provider),
            [Point(Inspected, Confirmed)] + TO_COMPLETED, actor, now)
    case MInspectDamage(actor, now) =>
      Along(f, b, [], [Point(Inspected, Confirmed), Point(Inspected, Disputed)], actor, now)
      .(disputes := f.disputes + [Dispute(f.id, actor, Open, None, None, None, None, None)])
    case MRequest(actor, newEndsAt, rental, service) =>
      f.(reqs := f.reqs +
           [ExtensionRequest(f.id, actor, b.endsAt, newEndsAt, RequestPending, rental, service, None, None)])
    case MExtend(actor, now, reference) =>
      var r := Last(f.reqs);
      var row := HistoryRow(f.id, Some(Point(Active, b.status)), Point(Active, b.status), actor, now);
      f.(b := Extended(b, r, reference), rows := f.rows + PostCharge(f, r.rental + r.service),
         reqs := f.reqs[|f.reqs| - 1 := Decided(r, Approved, actor, now)], hist := f.hist + [row])
    case MCloseRequest(closed) => f.(reqs := f.reqs[|f.reqs| - 1 := closed])
    case MPropose(actor, amount) =>
      f.(disputes := [f.disputes[0].(status := Proposed, proposed := Some(amount), proposedBy := Some(actor))])
    case MContest => f.(disputes := [f.disputes[0].(status := Contested)])
    case MResolve(actor, now, provider, final, how) =>
      var deduction := Deduction(final);
      var release := if b.deposit - deduction < 0 then 0 else b.deposit - deduction;
      Along(f, b, PostRelease(f, release) + PostForfeit(f, provider, deduction) + PostEarning(f, provider),
            [Point(b.stage, Confirmed)] + TO_COMPLETED, actor, now)
      .(disputes := [Settled(f.disputes[0], final, how, actor)])
  }

  /** The file a booking starts with: as requested, or already reserved for instant book. */
  function Newborn(id: Id, b: Booking, q: Quote, actor: Id, now: Time, reference: string): File {
    var first := [HistoryRow(id, None, b.At(), actor, now)];
    var f := File(id, b, Original(q, b.endsAt), [], [], [], first);
    if b.mode == OnRequest then f
    else Along(f, b.(paid := Some(reference)), PostCharge(f, q.total), TO_RESERVED, actor, now)
  }
}
