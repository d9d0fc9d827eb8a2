/** Entities, enumerations and tables shared by every part of the rental engine. */
module Domain {

  datatype Option<+T> = None | Some(value: T)

  /** Row ids are table positions: no table of the engine ever loses a row. */
  type Id = nat
  /** Milliseconds since the epoch. */
  type Time = int
  type Positive = n: nat | n >= 1 witness 1

  datatype Status = Pending | Confirmed | Declined | Cancelled | Completed | Disputed

  datatype Stage =
    | Requested | Accepted | Payment | Reserved | Ready | PickedUp
    | Active | ReturnSched | Returned | Inspected | DepositReleased | Closed
  {
    /** Position in BOOKING_STAGE_ORDER. `Closed` is the source's COMPLETED stage. */
    function Rank(): nat {
      match this
      case Requested => 0 case Accepted => 1 case Payment => 2 case Reserved => 3
      case Ready => 4 case PickedUp => 5 case Active => 6 case ReturnSched => 7
      case Returned => 8 case Inspected => 9 case DepositReleased => 10 case Closed => 11
    }
  }

  datatype Mode = Instant | OnRequest
  datatype Policy = Flexible | Moderate | Strict

  /** A half-open time range `[from, to)`. */
  datatype Window = Window(from: Time, to: Time)

  /** What Catalog answers about a listing when a service asks. `buffer` is in milliseconds. */
  datatype Listing = Listing(
    provider: Id, live: bool, mode: Mode, policy: Policy,
    price: nat, deposit: Option<nat>, commissionBps: nat,
    buffer: nat, quantityAvailable: nat,
    activeAssets: seq<Id>, blocks: seq<Window>)

  /**
   * Everything an action reads from outside the engine's own tables: the catalog
   * as it is at that moment, the clock, and whether the no_overlapping_bookings
   * constraint is installed (it is in the source; some results need only the
   * service-level check and are proved for both settings).
   */
  datatype Env = Env(catalog: map<Id, Listing>, now: Time, exclusion: bool)

  datatype Quote = Quote(nights: nat, rental: nat, service: nat, deposit: nat, total: nat)

  /** `during` always equals `[startsAt, endsAt)` and is therefore not a field of its own. */
  datatype Booking = Booking(
    listing: Id, asset: Option<Id>, renter: Id, quantity: Positive,
    startsAt: Time, endsAt: Time, status: Status, stage: Stage, mode: Mode,
    rental: int, service: int, deposit: int, total: int,
    policy: Policy, key: Option<string>, paid: Option<string>)
  {
    predicate IsBeforePickup() { stage in {Requested, Accepted, Payment, Reserved, Ready} }

    /** Is the row covered by the exclusion constraint's WHERE clause? */
    predicate Blocking() { status == Pending || status == Confirmed }

    function Span(): Window { Window(startsAt, endsAt) }

    /** COALESCE(asset_id, listing_id): asset ids and listing ids never coincide. */
    function Unit(): Unit { if asset.Some? then AssetUnit(asset.value) else ListingUnit(listing) }

    function At(): Point { Point(stage, status) }
  }

  datatype Unit = AssetUnit(asset: Id) | ListingUnit(listing: Id)

  datatype Kind = Charge | Refund | DepositRelease | ProviderEarning | ProviderForfeitCredit

  datatype Transaction = Transaction(
    booking: Id, kind: Kind, amount: int, renter: Option<Id>, provider: Option<Id>,
    dispute: Option<Id>, settlement: Option<Id>, reference: Option<string>)

  datatype Settlement = Settlement(provider: Id, total: int, paidReference: Option<string>)

  datatype Point = Point(stage: Stage, status: Status)

  datatype HistoryRow = HistoryRow(booking: Id, from: Option<Point>, to: Point, actor: Id, at: Time)

  datatype RequestStatus = RequestPending | Approved | RequestDeclined | RequestCancelled

  datatype ExtensionRequest = ExtensionRequest(
    booking: Id, requestedBy: Id, currentEndsAt: Time, requestedEndsAt: Time,
    status: RequestStatus, rental: nat, service: nat, decidedBy: Option<Id>, decidedAt: Option<Time>)

  datatype DisputeStatus = Open | Proposed | Contested | Resolved
  datatype Resolution = Agreed | AdminDecided

  datatype Dispute = Dispute(
    booking: Id, openedBy: Id, status: DisputeStatus, proposed: Option<nat>, proposedBy: Option<Id>,
    final: Option<nat>, resolution: Option<Resolution>, resolvedBy: Option<Id>)

  /** What a booking was created with. Specification only: no action ever reads it. */
  datatype Original = Original(quote: Quote, endsAt: Time)

  datatype State = State(
    bookings: seq<Booking>, ledger: seq<Transaction>, settlements: seq<Settlement>,
    history: seq<HistoryRow>, requests: seq<ExtensionRequest>, disputes: seq<Dispute>,
    originals: seq<Original>)

  const EMPTY := State([], [], [], [], [], [], [])

  datatype Error =
    | NotFound | Forbidden | InvalidRange
    | ListingNotLive | DatesUnavailable | QuantityInvalid | DateRangeInvalid
    | NotApprovable | InvalidTransition
    | ExtensionInvalidState | DisputeInvalidState | DeductionExceedsDeposit
    | NoUnsettledBalance | SettlementAlreadyPaid
    | ExclusionViolation | UniqueViolation

  /** A committed action with the id of the row it answers with, or an error and no effect. */
  datatype Outcome = Done(state: State, id: Id) | Failed(error: Error)

  datatype Action =
    | Create(actor: Id, listing: Id, from: Time, to: Time, quantity: Positive, key: Option<string>, reference: string)
    | Approve(booking: Id, actor: Id, reference: string)
    | Decline(booking: Id, actor: Id)
    | Cancel(booking: Id, actor: Id)
    | ConfirmHandover(booking: Id, actor: Id)
    | ScheduleReturn(booking: Id, actor: Id)
    | ConfirmReturn(booking: Id, actor: Id)
    | RecordInspection(booking: Id, actor: Id, damageFound: bool)
    | RequestExtension(booking: Id, actor: Id, newEndsAt: Time)
    | ApproveExtension(request: Id, actor: Id, reference: string)
    | DeclineExtension(request: Id, actor: Id)
    | CancelExtension(request: Id, actor: Id)
    | ProposeDeduction(dispute: Id, actor: Id, amount: nat)
    | RespondToProposal(dispute: Id, actor: Id, accept: bool)
    | AdminResolve(dispute: Id, actor: Id, amount: nat)
    | CreateSettlement(provider: Id)
    | MarkSettlementPaid(settlement: Id, reference: string)
}
