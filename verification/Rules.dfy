/**
 * What each service action does to the tables, as one function per action.
 * The service classes are proved to do exactly this; every run-level result is
 * proved about these functions.
 */
module Rules {
  import opened Domain
  import opened Quoting
  import opened Cancellation
  import opened Availability

  // ---------- ledger, history and booking writes ----------

  /** FinanceService.insert: an amount of zero or less leaves no row. */
  function Posted(t: Transaction): seq<Transaction> {
    if t.amount <= 0 then [] else [t]
  }

  function RenterRow(kind: Kind, id: Id, b: Booking, amount: int, dispute: Option<Id>,
                     reference: Option<string>): Transaction {
    Transaction(id, kind, amount, Some(b.renter), None, dispute, None, reference)
  }

  function ProviderRow(kind: Kind, id: Id, provider: Id, amount: int, dispute: Option<Id>): Transaction {
    Transaction(id, kind, amount, None, Some(provider), dispute, None, None)
  }

  /** One history row per step, each leaving from where the previous one arrived. */
  function Trail(id: Id, from: Point, steps: seq<Point>, actor: Id, now: Time): seq<HistoryRow>
    decreases |steps|
  {
    if steps == [] then []
    else [HistoryRow(id, Some(from), steps[0], actor, now)] + Trail(id, steps[0], steps[1..], actor, now)
  }

  /** Rewrite booking `id` and append its ledger and history rows. */
  function Commit(s: State, id: Id, b: Booking, txs: seq<Transaction>, rows: seq<HistoryRow>): State
    requires id < |s.bookings|
  {
    s.(bookings := s.bookings[id := b], ledger := s.ledger + txs, history := s.history + rows)
  }

  /** Walk booking `id` along `steps`, posting `txs`; the constraint sees every step that is blocking. */
  function Walk(env: Env, s: State, id: Id, b: Booking, txs: seq<Transaction>, steps: seq<Point>, actor: Id): Outcome
    requires id < |s.bookings| && steps != []
  {
    var end := steps[|steps| - 1];
    var held := exists k :: 0 <= k < |steps|
                  && Excluded(s.bookings, id, b.(stage := steps[k].stage, status := steps[k].status));
    if env.exclusion && held then Failed(ExclusionViolation)
    else
      Done(Commit(s, id, b.(stage := end.stage, status := end.status), txs,
                  Trail(id, s.bookings[id].At(), steps, actor, env.now)), id)
  }

  // ---------- BookingService ----------

  function FindByKey(bookings: seq<Booking>, key: string): Option<Id> {
    if bookings == [] then None
    else
      var i := |bookings| - 1;
      var earlier := FindByKey(bookings[..i], key);
      if earlier.Some? then earlier
      else if bookings[i].key == Some(key) then Some(i) else None
  }

  const TO_RESERVED := [Point(Accepted, Pending), Point(Payment, Pending), Point(Reserved, Confirmed)]
  const TO_ACTIVE := [Point(Ready, Confirmed), Point(PickedUp, Confirmed), Point(Active, Confirmed)]
  const TO_COMPLETED := [Point(DepositReleased, Confirmed), Point(Closed, Completed)]

  function NewBooking(a: Action, listing: Listing, asset: Option<Id>, q: Quote): Booking
    requires a.Create?
  {
    Booking(a.listing, asset, a.actor, a.quantity, a.from, a.to, Pending, Requested, listing.mode,
            q.rental, q.service, q.deposit, q.total, listing.policy, a.key, None)
  }

  /** The inserting transaction of `create`: insert as requested, and run on to reserved for instant book. */
  function Insert(env: Env, s: State, b: Booking, q: Quote, actor: Id, reference: string): Outcome {
    var id := |s.bookings|;
    if b.key.Some? && FindByKey(s.bookings, b.key.value).Some? then Failed(UniqueViolation)
    else if env.exclusion && Excluded(s.bookings, id, b) then Failed(ExclusionViolation)
    else
      var first := [HistoryRow(id, None, b.At(), actor, env.now)];
      var created := s.(bookings := s.bookings + [b], history := s.history + first,
                        originals := s.originals + [Original(q, b.endsAt)]);
      if b.mode == OnRequest then Done(created, id)
      else
        var charge := Posted(RenterRow(Charge, id, b, q.total, None, Some(reference)));
        Walk(env, created, id, b.(paid := Some(reference)), charge, TO_RESERVED, actor)
  }

  function CreateOutcome(env: Env, s: State, a: Action): Outcome
    requires a.Create?
  {
    var existing := if a.key.Some? && a.key.value != "" then FindByKey(s.bookings, a.key.value) else None;
    if existing.Some? then Done(s, existing.value)
    else if a.listing !in env.catalog then Failed(NotFound)
    else
      var listing := env.catalog[a.listing];
      var w := Window(a.from, a.to);
      if !listing.live then Failed(ListingNotLive)
      else if w.from > w.to then Failed(InvalidRange)
      else if IsBlocked(listing, w) then Failed(DatesUnavailable)
      else match Admit(s.bookings, a.listing, listing, w, a.quantity)
        case Rejected(error) => Failed(error)
        case Admitted(asset) =>
          match ComputeQuote(listing, a.from, a.to, a.quantity)
          case None => Failed(DateRangeInvalid)
          case Some(q) => Insert(env, s, NewBooking(a, listing, asset, q), q, a.actor, a.reference)
  }

  function ApproveOutcome(env: Env, s: State, a: Action): Outcome
    requires a.Approve?
  {
    var id := a.booking;
    if id >= |s.bookings| then Failed(NotFound)
    else
      var b := s.bookings[id];
      if b.mode != OnRequest || b.status != Pending then Failed(NotApprovable)
      else
        Walk(env, s, id, b.(paid := Some(a.reference)),
             Posted(RenterRow(Charge, id, b, b.total, None, Some(a.reference))), TO_RESERVED, a.actor)
  }

  function DeclineOutcome(env: Env, s: State, a: Action): Outcome
    requires a.Decline?
  {
    var id := a.booking;
    if id >= |s.bookings| then Failed(NotFound)
    else
      var b := s.bookings[id];
      if b.status != Pending then Failed(NotApprovable)
      else Walk(env, s, id, b, [], [Point(b.stage, Declined)], a.actor)
  }

  function CancelRefund(env: Env, id: Id, b: Booking): seq<Transaction> {
    if b.status == Confirmed then
      Posted(RenterRow(Refund, id, b,
             ComputeRefund(b.policy, b.startsAt, env.now, b.total, b.deposit).refund, None, None))
    else []
  }

  function CancelOutcome(env: Env, s: State, a: Action): Outcome
    requires a.Cancel?
  {
    var id := a.booking;
    if id >= |s.bookings| then Failed(NotFound)
    else
      var b := s.bookings[id];
      if !b.IsBeforePickup() || b.status == Cancelled then Failed(InvalidTransition)
      else Walk(env, s, id, b, CancelRefund(env, id, b), [Point(b.stage, Cancelled)], a.actor)
  }

  /** assertStage looks at the stage and at nothing else. */
  function FromStages(env: Env, s: State, id: Id, allowed: set<Stage>, steps: seq<Point>, actor: Id): Outcome
    requires steps != []
  {
    if id >= |s.bookings| then Failed(NotFound)
    else if s.bookings[id].stage !in allowed then Failed(InvalidTransition)
    else Walk(env, s, id, s.bookings[id], [], steps, actor)
  }

  function ReleaseRows(id: Id, b: Booking, amount: int, dispute: Option<Id>): seq<Transaction> {
    Posted(RenterRow(DepositRelease, id, b, amount, dispute, None))
  }

  function CleanRows(id: Id, b: Booking, provider: Id): seq<Transaction> {
    ReleaseRows(id, b, b.deposit, None) + Posted(ProviderRow(ProviderEarning, id, provider, b.rental, None))
  }

  function InspectOutcome(env: Env, s: State, a: Action): Outcome
    requires a.RecordInspection?
  {
    var id := a.booking;
    if id >= |s.bookings| then Failed(NotFound)
    else
      var b := s.bookings[id];
      if b.stage != Returned then Failed(InvalidTransition)
      else if a.damageFound then
        match Walk(env, s, id, b, [], [Point(Inspected, Confirmed), Point(Inspected, Disputed)], a.actor)
        case Failed(error) => Failed(error)
        case Done(walked, _) =>
          if exists k :: 0 <= k < |s.disputes| && s.disputes[k].booking == id then Failed(UniqueViolation)
          else
            Done(walked.(disputes := s.disputes +
                   [Dispute(id, a.actor, Open, None, None, None, None, None)]), id)
      else
        var listed := b.listing in env.catalog;
        var earned := if listed then CleanRows(id, b, env.catalog[b.listing].provider) else [];
        match Walk(env, s, id, b, earned, [Point(Inspected, Confirmed)] + TO_COMPLETED, a.actor)
        case Failed(error) => Failed(error)
        case Done(walked, _) => if listed then Done(walked, id) else Failed(NotFound)
  }

  function RequestExtensionOutcome(env: Env, s: State, a: Action): Outcome
    requires a.RequestExtension?
  {
    var id := a.booking;
    if id >= |s.bookings| then Failed(NotFound)
    else
      var b := s.bookings[id];
      if b.stage != Active then Failed(InvalidTransition)
      else if b.renter != a.actor then Failed(Forbidden)
      else if a.newEndsAt <= b.endsAt then Failed(DateRangeInvalid)
      else if b.listing !in env.catalog then Failed(NotFound)
      else
        var listing := env.catalog[b.listing];
        match ExtensionError(s.bookings, id, listing, a.newEndsAt)
        case Some(error) => Failed(error)
        case None =>
          match ComputeQuote(listing, b.endsAt, a.newEndsAt, 1)
          case None => Failed(DateRangeInvalid)
          case Some(q) =>
            // uq_pending_extension_per_booking
            if exists k :: 0 <= k < |s.requests| && s.requests[k].booking == id
                           && s.requests[k].status == RequestPending
            then Failed(UniqueViolation)
            else
              Done(s.(requests := s.requests +
                     [ExtensionRequest(id, a.actor, b.endsAt, a.newEndsAt, RequestPending, q.rental, q.service, None,
                                       None)]),
                   |s.requests|)
  }

  function Extended(b: Booking, r: ExtensionRequest, reference: string): Booking {
    b.(endsAt := r.requestedEndsAt, rental := b.rental + r.rental, service := b.service + r.service,
       total := b.total + (r.rental + r.service), paid := Some(reference))
  }

  function Decided(r: ExtensionRequest, status: RequestStatus, actor: Id, now: Time): ExtensionRequest {
    r.(status := status, decidedBy := Some(actor), decidedAt := Some(now))
  }

  /** The approving transaction: a longer, dearer booking, its charge, its audit row and the decided request. */
  function ExtendedState(env: Env, s: State, a: Action): State
    requires a.ApproveExtension? && a.request < |s.requests| && s.requests[a.request].booking < |s.bookings|
  {
    var r := s.requests[a.request];
    var b := s.bookings[r.booking];
    var charge := Posted(RenterRow(Charge, r.booking, b, r.rental + r.service, None, Some(a.reference)));
    // Always logged as ACTIVE -> ACTIVE, whatever the stage is.
    var row := HistoryRow(r.booking, Some(Point(Active, b.status)), Point(Active, b.status), a.actor, env.now);
    Commit(s, r.booking, Extended(b, r, a.reference), charge, [row])
    .(requests := s.requests[a.request := Decided(r, Approved, a.actor, env.now)])
  }

  function ApproveExtensionOutcome(env: Env, s: State, a: Action): Outcome
    requires a.ApproveExtension?
  {
    if a.request >= |s.requests| then Failed(NotFound)
    else
      var r := s.requests[a.request];
      var id := r.booking;
      if r.status != RequestPending then Failed(ExtensionInvalidState)
      else if id >= |s.bookings| || s.bookings[id].listing !in env.catalog then Failed(NotFound)
      else
        var b := s.bookings[id];
        match ExtensionError(s.bookings, id, env.catalog[b.listing], r.requestedEndsAt)
        case Some(error) => Failed(error)
        case None =>
          if env.exclusion && Excluded(s.bookings, id, Extended(b, r, a.reference)) then Failed(ExclusionViolation)
          else Done(ExtendedState(env, s, a), id)
  }

  function CloseExtensionOutcome(env: Env, s: State, a: Action): Outcome
    requires a.DeclineExtension? || a.CancelExtension?
  {
    if a.request >= |s.requests| then Failed(NotFound)
    else
      var r := s.requests[a.request];
      if r.status != RequestPending then Failed(ExtensionInvalidState)
      else if a.DeclineExtension? then
        Done(s.(requests := s.requests[a.request := Decided(r, RequestDeclined, a.actor, env.now)]), a.request)
      else if r.requestedBy != a.actor then Failed(Forbidden)
      else Done(s.(requests := s.requests[a.request := r.(status := RequestCancelled)]), a.request)
  }

  // ---------- DisputeService ----------

  function FinalizeRows(id: Id, b: Booking, provider: Id, deduction: nat, dispute: Id): seq<Transaction> {
    var release := if b.deposit - deduction < 0 then 0 else b.deposit - deduction;
    ReleaseRows(id, b, release, Some(dispute))
    + Posted(ProviderRow(ProviderForfeitCredit, id, provider, deduction, Some(dispute)))
    + Posted(ProviderRow(ProviderEarning, id, provider, b.rental, None))
  }

  /** Store the resolved dispute and finalize its booking, in one transaction. */
  function Finalize(env: Env, s: State, dispute: Id, resolved: Dispute, deduction: nat, actor: Id): Outcome
    requires dispute < |s.disputes|
  {
    var id := resolved.booking;
    if id >= |s.bookings| || s.bookings[id].listing !in env.catalog then Failed(NotFound)
    else
      var b := s.bookings[id];
      var provider := env.catalog[b.listing].provider;
      match Walk(env, s, id, b, FinalizeRows(id, b, provider, deduction, dispute),
                 [Point(b.stage, Confirmed)] + TO_COMPLETED, actor)
      case Failed(error) => Failed(error)
      case Done(walked, _) => Done(walked.(disputes := s.disputes[dispute := resolved]), dispute)
  }

  function ProposeOutcome(s: State, a: Action): Outcome
    requires a.ProposeDeduction?
  {
    if a.dispute >= |s.disputes| then Failed(NotFound)
    else
      var d := s.disputes[a.dispute];
      if d.status != Open && d.status != Contested then Failed(DisputeInvalidState)
      else if d.booking >= |s.bookings| then Failed(NotFound)
      else if a.amount > s.bookings[d.booking].deposit then Failed(DeductionExceedsDeposit)
      else
        Done(s.(disputes := s.disputes[a.dispute :=
               d.(status := Proposed, proposed := Some(a.amount), proposedBy := Some(a.actor))]), a.dispute)
  }

  function Settled(d: Dispute, final: Option<nat>, how: Resolution, actor: Id): Dispute {
    d.(status := Resolved, final := final, resolution := Some(how), resolvedBy := Some(actor))
  }

  function RespondOutcome(env: Env, s: State, a: Action): Outcome
    requires a.RespondToProposal?
  {
    if a.dispute >= |s.disputes| then Failed(NotFound)
    else
      var d := s.disputes[a.dispute];
      if d.status != Proposed then Failed(DisputeInvalidState)
      else if d.booking >= |s.bookings| then Failed(NotFound)
      else if s.bookings[d.booking].renter != a.actor then Failed(Forbidden)
      else if !a.accept then
        Done(s.(disputes := s.disputes[a.dispute := d.(status := Contested)]), a.dispute)
      else
        Finalize(env, s, a.dispute, Settled(d, d.proposed, Agreed, a.actor),
                 if d.proposed.Some? then d.proposed.value else 0, a.actor)
  }

  function AdminResolveOutcome(env: Env, s: State, a: Action): Outcome
    requires a.AdminResolve?
  {
    if a.dispute >= |s.disputes| then Failed(NotFound)
    else
      var d := s.disputes[a.dispute];
      if d.status == Resolved then Failed(DisputeInvalidState)
      else if d.booking >= |s.bookings| then Failed(NotFound)
      else if a.amount > s.bookings[d.booking].deposit then Failed(DeductionExceedsDeposit)
      else Finalize(env, s, a.dispute, Settled(d, Some(a.amount), AdminDecided, a.actor), a.amount, a.actor)
  }

  // ---------- FinanceService ----------

  predicate IsCredit(t: Transaction) { t.kind == ProviderEarning || t.kind == ProviderForfeitCredit }

  predicate IsUnsettled(t: Transaction, provider: Id) {
    IsCredit(t) && t.provider == Some(provider) && t.settlement.None?
  }

  function SumUnsettled(ledger: seq<Transaction>, provider: Id): int {
    if ledger == [] then 0
    else
      var last := ledger[|ledger| - 1];
      SumUnsettled(ledger[..|ledger| - 1], provider) + if IsUnsettled(last, provider) then last.amount else 0
  }

  function SumLifetime(ledger: seq<Transaction>, provider: Id): int {
    if ledger == [] then 0
    else
      var last := ledger[|ledger| - 1];
      SumLifetime(ledger[..|ledger| - 1], provider)
      + if IsCredit(last) && last.provider == Some(provider) then last.amount else 0
  }

  function Stamp(t: Transaction, provider: Id, settlement: Id): Transaction {
    if IsUnsettled(t, provider) then t.(settlement := Some(settlement)) else t
  }

  function Stamped(ledger: seq<Transaction>, provider: Id, settlement: Id): seq<Transaction> {
    seq(|ledger|, i requires 0 <= i < |ledger| => Stamp(ledger[i], provider, settlement))
  }

  function SettleOutcome(s: State, a: Action): Outcome
    requires a.CreateSettlement?
  {
    var total := SumUnsettled(s.ledger, a.provider);
    if total <= 0 || !exists i :: 0 <= i < |s.ledger| && IsUnsettled(s.ledger[i], a.provider)
    then Failed(NoUnsettledBalance)
    else
      Done(s.(settlements := s.settlements + [Settlement(a.provider, total, None)],
              ledger := Stamped(s.ledger, a.provider, |s.settlements|)), |s.settlements|)
  }

  function MarkPaidOutcome(s: State, a: Action): Outcome
    requires a.MarkSettlementPaid?
  {
    if a.settlement >= |s.settlements| then Failed(NotFound)
    else if s.settlements[a.settlement].paidReference.Some? then Failed(SettlementAlreadyPaid)
    else
      Done(s.(settlements := s.settlements[a.settlement :=
             s.settlements[a.settlement].(paidReference := Some(a.reference))]), a.settlement)
  }

  // ---------- one action, one run ----------

  function Step(env: Env, s: State, a: Action): Outcome {
    match a
    case Create(_, _, _, _, _, _, _) => CreateOutcome(env, s, a)
    case Approve(_, _, _) => ApproveOutcome(env, s, a)
    case Decline(_, _) => DeclineOutcome(env, s, a)
    case Cancel(_, _) => CancelOutcome(env, s, a)
    case ConfirmHandover(id, actor) => FromStages(env, s, id, {Reserved, Ready}, TO_ACTIVE, actor)
    case ScheduleReturn(id, actor) => FromStages(env, s, id, {Active}, [Point(ReturnSched, Confirmed)], actor)
    case ConfirmReturn(id, actor) => FromStages(env, s, id, {ReturnSched, Active}, [Point(Returned, Confirmed)], actor)
    case RecordInspection(_, _, _) => InspectOutcome(env, s, a)
    case RequestExtension(_, _, _) => RequestExtensionOutcome(env, s, a)
    case ApproveExtension(_, _, _) => ApproveExtensionOutcome(env, s, a)
    case DeclineExtension(_, _) => CloseExtensionOutcome(env, s, a)
    case CancelExtension(_, _) => CloseExtensionOutcome(env, s, a)
    case ProposeDeduction(_, _, _) => ProposeOutcome(s, a)
    case RespondToProposal(_, _, _) => RespondOutcome(env, s, a)
    case AdminResolve(_, _, _) => AdminResolveOutcome(env, s, a)
    case CreateSettlement(_) => SettleOutcome(s, a)
    case MarkSettlementPaid(_, _) => MarkPaidOutcome(s, a)
  }

  /** Only `create` adds bookings, each together with its original. */
  lemma StepSameSize(env: Env, s: State, a: Action)
    requires Step(env, s, a).Done? && !a.Create?
    ensures |Step(env, s, a).state.bookings| == |s.bookings|
    ensures |Step(env, s, a).state.originals| == |s.originals|
  {
  }

  lemma CreatePairs(env: Env, s: State, a: Action)
    requires a.Create? && CreateOutcome(env, s, a).Done?
    ensures var s' := CreateOutcome(env, s, a).state;
            |s'.bookings| - |s.bookings| == |s'.originals| - |s.originals|
  {
  }

  /** A refused action rolls back and changes nothing. */
  function Next(env: Env, s: State, a: Action): (s': State)
    ensures |s.bookings| == |s.originals| ==> |s'.bookings| == |s'.originals|
  {
    var o := Step(env, s, a);
    if o.Done? then
      (if a.Create? then CreatePairs(env, s, a); o.state else StepSameSize(env, s, a); o.state)
    else s
  }

  datatype Event = Event(env: Env, action: Action)

  function Run(events: seq<Event>): (s: State)
    ensures |s.bookings| == |s.originals|
  {
    if events == [] then EMPTY
    else
      var last := events[|events| - 1];
      Next(last.env, Run(events[..|events| - 1]), last.action)
  }

  /** The state before event `k`. */
  function Before(events: seq<Event>, k: nat): State
    requires k <= |events|
  {
    Run(events[..k])
  }

  lemma RunStep(events: seq<Event>, k: nat)
    requires k < |events|
    ensures Before(events, k + 1) == Next(events[k].env, Before(events, k), events[k].action)
  {
    assert events[..k + 1][..k] == events[..k];
  }
}
