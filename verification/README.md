# Rental engine: booking, escrow ledger, availability

A Dafny model of the rental marketplace's booking engine and of the money that follows a booking: what the services
write, what the database constraints refuse, and what holds of the tables after every run of requests. Keyset
pagination and listing photos are modelled beside it.

`dafny verify dfyconfig.toml` checks everything.

## How the model is built

- **Tables.** `Domain.State` holds bookings, ledger, settlements, status history, extension requests and disputes. A
  row's id is its position, which stands for the uuid: none of these tables ever loses a row. `during` always equals
  `[startsAt, endsAt)` and is not a field of its own. The table `originals` records what each booking was created
  with; no action reads it, it only lets theorems talk about the original quote.
- **Rules.** `Rules` states for every service action the new state or the error (`XxxOutcome`, collected in `Step`). A
  refused action changes nothing. `Run` folds a list of events. An event carries its own `Env`: the catalog and the
  clock at that moment, and whether the exclusion constraint is installed. The catalog may change arbitrarily from one
  event to the next; the one thing most run theorems ask (`OwnedRun`) is that a listing never changes provider.
- **Services.** `Tables` is the mutable database, with the constraints checked at each save. `BookingService`,
  `DisputeService` and `FinanceService` carry the actions out as the source does, loop by loop and save by save, with
  rollback, and each method is proved to perform its rule. `Engine.Serve` handles requests one after another and
  leaves exactly the state of the run.
- **Files and moves.** `CaseFile.FileOf` gathers everything the tables hold about one booking. `Simulation.StepMoves`
  proves that every action changes at most one file, by one of fourteen moves; invariants are proved move by move
  and carried back to whole tables and runs in `Runs`, `Conservation`, `Billing`, `Deposits` and `BackfillRuns`.
- **Promises.** `Windows`, `Creating`, `Acting`, `Extending`, `Deciding` and `History` say of every action, on table
  rows and instants and without the functions the services and rules share, exactly when it goes through, why it does
  not, and every row it leaves. Only the refund keeps its function, which `Cancellation.RefundTiers` pins down.
- **Occupancy.** `Occupancy.StepEffect` reduces every action to one of four effects on the bookings table, from which
  unit safety, turnaround separation and bulk capacity follow. `Racing` splits every request into a check and a later
  write of a stale row, and lets any number of requests interleave.

Amounts are integers in minor units, times integers in milliseconds (creation times of listed rows in microseconds),
rounding is exact half-up. `Closed` is the
source's COMPLETED stage. `InvalidRange` is Postgres refusing a range whose bounds are reversed.

## Where the code does not do what it promises

Each entry names the theorem with the exact condition, proved both ways, and a concrete input that fails.

- **Handover looks at the stage only** (`booking.service.ts:998-1007`). A booking cancelled at RESERVED keeps that
  stage and can be handed over after its refund. Money is conserved over a run if and only if no such handover and no
  late extension happens: `Conservation.RunConservesIff`; the run is `Witnesses.RefundedHandoverLosesMoney`.
- **Approving an extension never re-checks the stage** (`booking.service.ts:840-901`). It logs ACTIVE to ACTIVE
  whatever the stage is, and after completion it charges a rental nobody is credited for. Histories replay if and only
  if approvals happen while ACTIVE: `Runs.RunReplayIff`; `Witnesses.LateApprovalBreaksHistory`,
  `Witnesses.LateApprovalLosesMoney`.
- **The same late approval makes the backfill credit too much** (`CreateFinanceLedger.ts:109-142`): it takes the rental
  the booking shows, and the provider was credited before the extension. Nor has the backfill a guard against a zero
  original charge (`CreateFinanceLedger.ts:73-88`), while the service never writes a zero row
  (`finance.service.ts:80`). `BackfillRuns.RunBackfillsIff` is exact in both;
  `Witnesses.LateApprovalBackfillsDifferently`, `Witnesses.FreeBookingBackfillsDifferently`. The migration also stamps
  a dispute's earning with the dispute, which the live service does not (`booking.service.ts:735-738`), and copies no
  reference on extension charges; the comparison is therefore on booking, type, amount, renter and provider.
- **Settling stamps rows by id alone** (`finance.service.ts:204`). Served one at a time this is sound; from a stale
  read it is sound if and only if the rows are still unsettled: `Settlements.StaleSettleIff`,
  `Witnesses.SettledTwice`; for whole interleavings `SettlementRacing.SchedulePartitionsIff`. The comment at `finance.service.ts:170-176` promises it outright.
- **Extensions forget the quantity** (`booking.service.ts:814`): `Billing.QuantityForgottenIff`, `Witnesses.QuantityIsForgotten`.
- **The exclusion constraint ignores quantity** (`AddAssetsAndPerUnitBooking.ts:43-47`) and refuses overlapping
  bulk bookings the service admits: `UnitSafety.BulkExcludedIff`, `Witnesses.BulkAdmittedYetExcluded`. Bulk capacity
  is proved with the constraint (`Capacity.RunWithin`) and from the service checks alone (`Capacity.RunWithinIff`).
- **The turnaround buffer can be lost twice over.** Handing over a cancelled booking puts it back without asking the
  padded check: `Turnaround.RunSpacedIff`, `Witnesses.RevivedHandoverLosesBuffer`, with the constraint installed and
  requests served one at a time. And, as `booking.service.ts:219-226` accepts, requests that check before either
  writes can end up too close: `Racing.ScheduleSpacedIff`, `Racing.BufferCanRace`.
- **Reordering photos compares sets** (`listings.service.ts:527-529`), so an order that repeats an id passes and
  leaves a gap: `Photos.ReorderContiguousIff`, `Witnesses.RepeatedPhotoLosesCover`. Adding keeps the gap, the next
  removal closes it (`Photos.PhotoService.AddPhoto`, `Photos.PhotoService.RemovePhoto`); over runs
  `PhotoRuns.RunValidIff`.
- **Lists by creation time can lose rows.** Postgres keeps microseconds, the cursor carries milliseconds
  (`listing.repository.ts:41-50`, `booking.repository.ts:14-18`), and the next page asks for what is before the cursor.
  Rows sharing the millisecond of a page's last row are passed over; rows written by one transaction, such as the
  ledger rows of a resolved dispute, share even the microsecond. `PageWalks.WalkFixed` and `PageWalks.WalkLive` say
  exactly what comes back; `PageWalks.MillisecondLosesRow`. Order and no repetition hold regardless.
- **A dispute is not always resolvable**, though `dispute.service.ts:141` says so: finalising writes CONFIRMED in
  passing (`booking.service.ts:739-745`), and a DISPUTED booking does not keep others off its dates.
  `Deposits.AdminDoneIff`, `Deposits.AcceptDoneIff`, `Witnesses.OpenDisputeCannotBeResolved`.
- **Approving and cancelling check outside their transaction** (`booking.service.ts:410-418`, `479-487`), so two
  approvals at once charge twice: `PaymentRacing.SchedulePaidIff`, `PaymentRacing.TwoApprovalsChargeTwice`.
- **The idempotency key is looked up alone** (`booking.service.ts:200-205`), not with the renter, so a second renter's
  create with a key in use is answered with the first renter's booking: `Idempotency.CreateAnswersOwnIff`,
  `Witnesses.KeyOfAnother`.
- **Cancelling a closed booking is said to be refused** (`booking.service.ts:480-485`), yet a DECLINED one is
  cancelled: `Lifecycle.CancelDoneIff`, `Witnesses.DeclinedIsCancelled`.

An empty idempotency key never reaches the service by HTTP, since the interceptor refuses it
(`idempotency.interceptor.ts:35-41`); `Idempotency.CreateRepeated` says what the service method does with it when
called directly.

## Model

| member | source | states |
|---|---|---|
| Bookings.BookingService.RecordTransition | backend/src/modules/booking/services/booking.service.ts:1061-1081 | appends exactly one history row and touches nothing else |
| Bookings.BookingService.RunSteps | backend/src/modules/booking/services/booking.service.ts:1033-1059 | succeeds exactly when the constraint refuses none of the saves; then the booking stands at the last step and one history row per step, each leaving from the previous one, was appended |
| Bookings.BookingService.RunThree | backend/src/modules/booking/services/booking.service.ts:327-356 | three consecutive step loops are one walk along three points |
| Bookings.BookingService.SetStatusOnly | backend/src/modules/booking/services/booking.service.ts:1009-1030 | changes the status, keeps the stage, logs one row; refused exactly when the constraint refuses the save |
| Bookings.BookingService.PickAsset | backend/src/modules/booking/services/booking.service.ts:249-260 | the loop finds the first active asset without a conflicting booking, or none |
| Bookings.BookingService.CheckAdmission | backend/src/modules/booking/services/booking.service.ts:240-288 | the unit and quantity checks, with their errors |
| Bookings.BookingService.InsertNew | backend/src/modules/booking/services/booking.service.ts:292-360 | inserts the booking and, for instant book, charges and reserves it in the same transaction; all of it or nothing |
| Bookings.BookingService.Create | backend/src/modules/booking/services/booking.service.ts:199-367 | the whole new state, or the error in the order the source checks; a known key answers with the existing booking and changes nothing |
| Bookings.BookingService.GetAvailableQuantity | backend/src/modules/booking/services/booking.service.ts:375-406 | the three numbers shown to the renter, for asset and for bulk listings |
| Bookings.BookingService.Approve | backend/src/modules/booking/services/booking.service.ts:409-454 | charges and walks to RESERVED, or refuses and changes nothing |
| Bookings.BookingService.Decline | backend/src/modules/booking/services/booking.service.ts:456-469 | declines a pending booking without moving its stage |
| Bookings.BookingService.Cancel | backend/src/modules/booking/services/booking.service.ts:478-521 | refunds by policy if confirmed, cancels at the present stage; everything or nothing |
| Bookings.BookingService.PreviewCancellationRefund | backend/src/modules/booking/services/booking.service.ts:524-542 | a read: the policy refund of a confirmed booking, the whole total of a pending one, nothing of a closed one |
| Bookings.BookingService.AssertStage | backend/src/modules/booking/services/booking.service.ts:998-1007 | stage only |
| Bookings.BookingService.RunFromStages | backend/src/modules/booking/services/booking.service.ts:545-590 | stage check, then the walk, or no change |
| Bookings.BookingService.ConfirmHandover | backend/src/modules/booking/services/booking.service.ts:545-561 | READY, PICKEDUP, ACTIVE from stage RESERVED or READY, whatever the status |
| Bookings.BookingService.ScheduleReturn | backend/src/modules/booking/services/booking.service.ts:563-573 | from ACTIVE to RETURNSCHED |
| Bookings.BookingService.ConfirmReturn | backend/src/modules/booking/services/booking.service.ts:575-590 | from RETURNSCHED or ACTIVE to RETURNED |
| Bookings.BookingService.RecordInspection | backend/src/modules/booking/services/booking.service.ts:620-694 | clean or damaged: exactly the rows, history and dispute the source writes |
| Bookings.BookingService.InspectClean | backend/src/modules/booking/services/booking.service.ts:627-664 | deposit release before the walk, provider credit after it, rolled back when either part fails |
| Bookings.BookingService.InspectDamage | backend/src/modules/booking/services/booking.service.ts:666-694 | parked at INSPECTED and DISPUTED with a new open dispute |
| Bookings.BookingService.RecordResolution | backend/src/modules/booking/services/booking.service.ts:720-738 | net release, forfeit and earning rows of a resolved dispute, zero amounts leaving none |
| Bookings.BookingService.RunResolution | backend/src/modules/booking/services/booking.service.ts:739-757 | back to CONFIRMED and on to COMPLETED; the constraint is consulted again |
| Bookings.BookingService.FinalizeDispute | backend/src/modules/booking/services/booking.service.ts:712-760 | rows and walk of a resolution inside the caller's transaction |
| Bookings.BookingService.AssertExtensionWindowAvailable | backend/src/modules/booking/services/booking.service.ts:960-996 | only the added window is checked, against the asset or against the listing |
| Bookings.BookingService.RequestExtension | backend/src/modules/booking/services/booking.service.ts:795-837 | stores a pending request quoted for one unit, or the error |
| Bookings.BookingService.ApproveExtension | backend/src/modules/booking/services/booking.service.ts:840-901 | a longer, dearer booking, one charge, one ACTIVE-to-ACTIVE row, a decided request; or no change |
| Bookings.BookingService.DeclineExtension | backend/src/modules/booking/services/booking.service.ts:903-926 | performs its rule |
| Bookings.BookingService.CancelExtensionRequest | backend/src/modules/booking/services/booking.service.ts:928-950 | performs its rule |
| Disputes.DisputeService.ProposeDeduction | backend/src/modules/booking/services/dispute.service.ts:63-90 | performs its rule |
| Disputes.DisputeService.Resolve | backend/src/modules/booking/services/dispute.service.ts:118-134 | storing the resolution and finalising the booking commit together or not at all |
| Disputes.DisputeService.RespondToProposal | backend/src/modules/booking/services/dispute.service.ts:93-139 | acceptance finalises at the proposed amount, rejection contests |
| Disputes.DisputeService.AdminResolve | backend/src/modules/booking/services/dispute.service.ts:142-195 | checks state and deposit, then stores and finalises together or not at all |
| Finance.FinanceService.Insert | backend/src/modules/finance/services/finance.service.ts:79-86 | an amount of zero or less leaves no row |
| Finance.FinanceService.RecordCharge | backend/src/modules/finance/services/finance.service.ts:88-90 | its row, through insert |
| Finance.FinanceService.RecordRefund | backend/src/modules/finance/services/finance.service.ts:92-94 | its row, through insert |
| Finance.FinanceService.RecordDepositRelease | backend/src/modules/finance/services/finance.service.ts:96-98 | its row, through insert |
| Finance.FinanceService.RecordProviderEarning | backend/src/modules/finance/services/finance.service.ts:100-102 | its row, through insert |
| Finance.FinanceService.RecordProviderForfeitCredit | backend/src/modules/finance/services/finance.service.ts:104-106 | its row, through insert |
| Finance.FinanceService.ComputeWalletBalance | backend/src/modules/finance/services/finance.service.ts:130-137 | one pass computes both sums; nothing is stored |
| Finance.FinanceService.CreateSettlement | backend/src/modules/finance/services/finance.service.ts:177-221 | sums, inserts and stamps exactly the unsettled rows, or refuses |
| Finance.FinanceService.MarkSettlementPaid | backend/src/modules/finance/services/finance.service.ts:224-251 | performs its rule |
| Database.Tables.SaveBooking | backend/src/database/migrations/1720700000000-AddAssetsAndPerUnitBooking.ts:43-47 | a save is refused exactly when the row would share its unit and overlap a blocking row |
| Database.Tables.InsertBooking | backend/src/modules/booking/services/booking.service.ts:311 | the unique key and the exclusion constraint guard the insert |
| Database.Tables.InsertRequest | backend/src/database/migrations/1720600000000-CreateBookingExtensionRequests.ts:31 | at most one pending request per booking |
| Engine.Server.Handle | backend/src/modules/booking/services/booking.service.ts:199-950 | dispatches every action to its service and does what the rule for the action says |
| Engine.Serve | backend/src/modules/booking/services/booking.service.ts:199-950 | serving requests one after another leaves exactly the state of the run, so every run theorem is about the services |
| Windows.OverlapsIff | backend/src/common/utils/tstzrange.util.ts:1-8 | two ranges overlap if and only if some instant lies in both |
| Windows.AssetOverlapIff | backend/src/modules/booking/repositories/booking.repository.ts:65-85 | the check of an asset finds exactly the pending or confirmed bookings of it that take an instant of the padded window |
| Windows.ListingOverlapIff | backend/src/modules/booking/repositories/booking.repository.ts:42-62 | the same of a listing |
| Windows.ExcludedIff | backend/src/database/migrations/1720700000000-AddAssetsAndPerUnitBooking.ts:43-47 | the constraint refuses exactly a pending or confirmed row another one of its unit shares an instant with |
| Windows.BlockedIff | backend/src/modules/catalog/repositories/availability-block.repository.ts:28-39 | a window is blocked if and only if one of its instants lies in a block |
| Windows.BookedQuantityIs | backend/src/modules/booking/repositories/booking.repository.ts:96-117 | the booked quantity is the number of units taken somewhere in the padded window |
| Windows.FreeAssetsIs | backend/src/modules/booking/services/booking.service.ts:383-392 | the free count is the number of active assets no pending or confirmed booking takes in the padded window |
| Windows.QuantityFreeIs | backend/src/modules/booking/services/booking.service.ts:393-405 | quantityFree in those terms, for asset and for other listings |
| Creating.CreateDoneIff | backend/src/modules/booking/services/booking.service.ts:207-320 | a create that repeats no key goes through if and only if the listing is known and live, the dates are in order, no instant is blocked, there is room, the key is new and the constraint has no objection |
| Creating.CreateErrors | backend/src/modules/booking/services/booking.service.ts:207-320 | and is refused with the first of these reasons |
| Creating.ReplayAnswers | backend/src/modules/booking/services/booking.service.ts:200-205 | a create that repeats a key changes nothing and answers with a booking that carries it |
| Creating.CreateStores | backend/src/modules/booking/services/booking.service.ts:290-357 | what is stored: the listing's mode and policy, price by nights by units, the commission share, one deposit a unit, the first free asset, and for instant book the charge, the reservation and its four history rows |
| Creating.BlockedIsRefused | backend/src/modules/booking/services/booking.service.ts:227-233 | one blocked instant refuses the dates of a live listing as unavailable |
| Creating.UnblockedIsUnaffected | backend/src/modules/booking/services/booking.service.ts:227-233 | blocks that miss the dates make no difference |
| Creating.NightsAre | backend/src/modules/catalog/services/listings.service.ts:560 | nights are the days of 86,400,000 ms begun, at least one |
| Creating.ServiceFeeIs | backend/src/modules/catalog/services/listings.service.ts:562 | the service fee is the basis-point share in ten-thousandths, to the nearest unit and halves upwards |
| Acting.ApproveIs | backend/src/modules/booking/services/booking.service.ts:409-454 | when an approval goes through, why it does not, and every row it leaves |
| Acting.DeclineIs | backend/src/modules/booking/services/booking.service.ts:456-469 | the same of declining |
| Acting.CancelIs | backend/src/modules/booking/services/booking.service.ts:478-512 | the same of cancelling |
| Acting.HandoverIs | backend/src/modules/booking/services/booking.service.ts:545-561 | the same of a handover: READY, PICKEDUP, ACTIVE, in this order |
| Acting.ScheduleReturnIs | backend/src/modules/booking/services/booking.service.ts:563-573 | the same of scheduling a return |
| Acting.ConfirmReturnIs | backend/src/modules/booking/services/booking.service.ts:575-590 | the same of confirming a return, from ACTIVE or RETURNSCHED |
| Acting.CleanInspectionIs | backend/src/modules/booking/services/booking.service.ts:627-664 | the same of an inspection without damage |
| Acting.DamagedInspectionIs | backend/src/modules/booking/services/booking.service.ts:666-694 | the same of an inspection with damage |
| Extending.RequestDoneIff | backend/src/modules/booking/services/booking.service.ts:795-825 | an extension request is taken if and only if ACTIVE, by the renter, for a later end, on a known listing, with no blocked instant and no booking within the buffer of the added time, and none pending; errors in order |
| Extending.RequestStores | backend/src/modules/booking/services/booking.service.ts:814-825 | a request starts at the present end and is quoted for the nights of one unit |
| Extending.ApproveExtensionIs | backend/src/modules/booking/services/booking.service.ts:840-896 | when an approval of an extension goes through, why it does not, and every row it leaves |
| Extending.DeclineExtensionIs | backend/src/modules/booking/services/booking.service.ts:903-919 | declining decides a pending request, once |
| Extending.CancelExtensionIs | backend/src/modules/booking/services/booking.service.ts:928-940 | only the requester withdraws, and only while pending |
| Extending.BlockedExtensionIsRefused | backend/src/modules/booking/services/booking.service.ts:965-971 | one blocked instant of the added time refuses a request and an approval |
| Extending.UnblockedExtensionIsUnaffected | backend/src/modules/booking/services/booking.service.ts:965-971 | blocks that miss the added time make no difference |
| Deciding.ProposeIs | backend/src/modules/booking/services/dispute.service.ts:63-90 | a proposal on an open or contested dispute, up to the deposit |
| Deciding.RespondIs | backend/src/modules/booking/services/dispute.service.ts:93-139 | the renter's answer: contested, or finalised at what was proposed |
| Deciding.AdminResolveIs | backend/src/modules/booking/services/dispute.service.ts:142-195 | an admin's resolution, with every row it leaves |
| Deciding.SettleIs | backend/src/modules/finance/services/finance.service.ts:177-221 | a settlement is for what is owed, if anything, and stamps exactly the owing rows |
| Deciding.MarkPaidIs | backend/src/modules/finance/services/finance.service.ts:224-251 | a second payment is refused and the first reference stays |
| Deciding.RunPaidOnce | backend/src/modules/finance/services/finance.service.ts:224-251 | and stays at every later point of a run |
| History.RunLogs | backend/src/modules/booking/services/booking.service.ts:1033-1081 | in every run the history shows these transitions with these statuses and no others |
| History.LogsOneOn | backend/src/modules/booking/enums/booking.enums.ts:33-46 | no row goes back in the stage order; each enters the next stage, but for a return straight from ACTIVE, with PENDING up to payment, then CONFIRMED, COMPLETED at the last |
| History.RunLoggedOnce | backend/src/modules/booking/services/booking.service.ts:1033-1081 | in every run each booking's history enters every stage up to its present one exactly once, a scheduled return at most once |
| History.RanksAreThePositions | backend/src/modules/booking/enums/booking.enums.ts:33-46 | ranks are the positions in BOOKING_STAGE_ORDER |
| Conservation.RunConservesIff | backend/src/modules/booking/services/booking.service.ts:199-901 | at every point of a run, charges equal refunds, releases, settlements, unsettled credits, fees of completed, penalties of cancelled and totals of open bookings, if and only if no refunded booking is handed over and no extension of a completed booking is charged |
| Conservation.ImbalanceIsGaps | backend/src/modules/finance/services/finance.service.ts:177-221 | the platform-wide imbalance is the sum of the per-booking gaps |
| Conservation.SafeStep | backend/src/modules/booking/services/booking.service.ts:199-901 | a guarded action keeps every file accounted for |
| Conservation.UnsafeStep | backend/src/modules/booking/services/booking.service.ts:840-901 | an unguarded action always unbalances the books |
| Accounts.Balanced | backend/src/modules/booking/services/booking.service.ts:620-760 | a booking with the right rows has every charged unit paid out or still held |
| Accounts.CompletionRows | backend/src/modules/booking/services/booking.service.ts:627-760 | completion posts exactly the payout: split deposit and rental |
| Accounts.PayoutSum | backend/src/modules/booking/services/booking.service.ts:720-738 | released deposit and forfeited share make up the deposit; the clamp at zero never acts |
| Accounts.AccountsKept | backend/src/modules/booking/services/booking.service.ts:409-901 | refunds aside, the ledger of a booking is its charges followed by its payout, row by row, after every move |
| Accounts.RefundsKept | backend/src/modules/booking/services/booking.service.ts:478-512 | only a cancelled paid booking has a refund, one, of the amount its policy gave at that time |
| Accounts.MoveConservesIff | backend/src/modules/booking/services/booking.service.ts:409-901 | from a sound file, a move balances if and only if it is safe |
| Accounts.LateExtensionGap | backend/src/modules/booking/services/booking.service.ts:857-876 | charging an extension of a completed booking leaves exactly its rental unaccounted for |
| Accounts.RevivalGap | backend/src/modules/booking/services/booking.service.ts:545-561 | handing over a refunded booking opens a negative gap: more is held than was charged and kept |
| Witnesses.RefundedHandoverLosesMoney | backend/src/modules/booking/services/booking.service.ts:545-561 | a concrete run: book, cancel, hand over |
| Witnesses.LateApprovalLosesMoney | backend/src/modules/booking/services/booking.service.ts:840-901 | a concrete run: the extension is approved after completion |
| Deposits.RunDeposits | backend/src/modules/booking/services/booking.service.ts:720-734 | in every run, released plus forfeited is the whole deposit at completion and nothing before |
| Deposits.RunDepositPerUnit | backend/src/modules/catalog/services/listings.service.ts:563 | while a listing's deposit stays what it is, every booking of it has it once for each unit, and so much is released and forfeited when it completes |
| Deposits.RunDisputes | backend/src/modules/booking/services/dispute.service.ts:63-195 | in every run a booking is DISPUTED exactly while it has an unresolved dispute, and deductions stay within the deposit |
| Deposits.ResolvedForGood | backend/src/modules/booking/services/dispute.service.ts:149-151 | no move touches a resolved dispute |
| Deposits.RunResolvedForGood | backend/src/modules/booking/services/dispute.service.ts:149-151 | a dispute resolved at one point of a run is unchanged at every later one |
| Deposits.AdminDoneIff | backend/src/modules/booking/services/dispute.service.ts:141-195 | an admin's resolution goes through if and only if the dispute is unresolved, the amount within the deposit, the listing known, and the constraint lets the booking be CONFIRMED |
| Deposits.AcceptDoneIff | backend/src/modules/booking/services/dispute.service.ts:92-139 | and an acceptance if and only if it is the renter's, of a pending proposal, under the same two conditions |
| Witnesses.OpenDisputeCannotBeResolved | backend/src/modules/booking/services/booking.service.ts:739-745 | a concrete run: while the booking is DISPUTED its dates are booked again, and the resolution is refused |
| Billing.RunCharged | backend/src/modules/booking/services/booking.service.ts:857-876 | in every run the CHARGE rows of a booking add up to its total past REQUESTED and to zero before, and its fees are the quote plus the approved extensions |
| Billing.RunChain | backend/src/modules/booking/services/booking.service.ts:795-901 | approved extensions form a strictly increasing chain of ends up to the present one |
| Billing.RunPending | backend/src/database/migrations/1720600000000-CreateBookingExtensionRequests.ts:31 | a pending request starts at the present end, asks for a later one and is the only one of its booking |
| Billing.RunSplitBilling | backend/src/modules/catalog/services/listings.service.ts:547-574 | at fixed price and commission, one unit extended k times is billed the nights of one booking to k more, service fees within (k+1)/2 of the exact share |
| Billing.QuantityForgottenIff | backend/src/modules/booking/services/booking.service.ts:814 | rental scales with the quantity if and only if the quantity is one, the price zero or nothing was extended |
| Witnesses.QuantityIsForgotten | backend/src/modules/booking/services/booking.service.ts:814 | a concrete run: two units, one more night, billed for one unit |
| Settlements.RunPartitioned | backend/src/modules/finance/services/finance.service.ts:177-221 | in every run ledger amounts are positive, each settlement's total is the sum of the rows stamped with it, and per provider unsettled plus settled is lifetime earned |
| Settlements.PartitionKept | backend/src/modules/finance/services/finance.service.ts:170-176 | every action keeps the partition |
| Settlements.StampSums | backend/src/modules/finance/services/finance.service.ts:204 | the new id collects exactly the unsettled balance, older ids keep theirs |
| Settlements.WalletAddsUp | backend/src/modules/finance/repositories/transaction.repository.ts:77-97 | unsettled plus settlement totals equals lifetime earned |
| Settlements.CreditsAddUp | backend/src/modules/finance/services/finance.service.ts:170-176 | platform-wide, provider credits are settled or unsettled |
| Settlements.StampsStay | backend/src/modules/finance/services/finance.service.ts:204 | a stamp is set once, by settling, on an unsettled row of that provider |
| Settlements.RunStampsStay | backend/src/modules/finance/services/finance.service.ts:204 | a credit stamped at one point of a run carries that stamp at every later point, and no row is lost |
| Settlements.SettleAtOnce | backend/src/modules/finance/services/finance.service.ts:180-204 | read and write halves together are the atomic step |
| Settlements.DoubleSettleBreaks | backend/src/modules/finance/services/finance.service.ts:180-204 | two settlements written from the same read: the second always takes the rows of the first |
| Witnesses.SettledTwice | backend/src/modules/finance/services/finance.service.ts:180-204 | a concrete run, one completed rental, whose credit is settled twice from one read |
| Settlements.StaleSettleIff | backend/src/modules/finance/services/finance.service.ts:204 | written from an earlier read, totals still match their rows if and only if those rows are all still unsettled |
| SettlementRacing.SchedulePartitionsIff | backend/src/modules/finance/services/finance.service.ts:177-221 | under any interleaving of settling requests and new rows, totals match their rows all along if and only if every write finds the rows it read still unsettled |
| SettlementRacing.DoReadsOk | backend/src/modules/finance/services/finance.service.ts:180-187 | what a request has read stays a set of its provider's credits with that total |
| SettlementRacing.UndisturbedIsStep | backend/src/modules/finance/services/finance.service.ts:177-221 | undisturbed, reading and writing is the action |
| PaymentRacing.SchedulePaidIff | backend/src/modules/booking/services/booking.service.ts:409-561 | under any interleaving of approvals, declines, cancellations and handovers, every booking is charged once past REQUESTED and refunded once if cancelled after, all along, if and only if every commit makes the payment still missing |
| PaymentRacing.DueMeansSame | backend/src/modules/booking/services/booking.service.ts:409-561 | that is, finds the booking charged and refunded exactly as it was when read, unless it hands over a cancelled one |
| PaymentRacing.TwoApprovalsChargeTwice | backend/src/modules/booking/services/booking.service.ts:410-432 | a concrete schedule: two approvals check first and both charge |
| PaymentRacing.UndisturbedIsStep | backend/src/modules/booking/services/booking.service.ts:409-561 | undisturbed, reading and committing is the action, with its payment |
| Backfill.Up | backend/src/database/migrations/1721600000000-CreateFinanceLedger.ts:72-142 | the seven statements in sequence leave the rebuilt ledger and every other table unchanged |
| Backfill.OriginalFor | backend/src/database/migrations/1721600000000-CreateFinanceLedger.ts:73-88 | one original charge per paid booking, net of approved extensions, without a guard against zero |
| Backfill.ExtensionsFor | backend/src/database/migrations/1721600000000-CreateFinanceLedger.ts:91-98 | one charge per approved extension with a positive amount |
| Backfill.ReleasesFor | backend/src/database/migrations/1721600000000-CreateFinanceLedger.ts:101-108 | the clean deposit release of a booking |
| Backfill.EarningsFor | backend/src/database/migrations/1721600000000-CreateFinanceLedger.ts:109-117 | the clean earning of a booking |
| Backfill.DisputesFor | backend/src/database/migrations/1721600000000-CreateFinanceLedger.ts:120-142 | the rows of each of the three dispute queries for one booking |
| Backfill.BookingColumns | backend/src/database/migrations/1721600000000-CreateFinanceLedger.ts:73-117 | the payment reference of original charges; no dispute, settlement or other reference on these rows |
| Backfill.ExtensionColumns | backend/src/database/migrations/1721600000000-CreateFinanceLedger.ts:91-98 | nor on extension charges |
| Backfill.DisputeColumns | backend/src/database/migrations/1721600000000-CreateFinanceLedger.ts:120-142 | rows of resolved disputes name a dispute of their booking |
| Backfill.BookingRebuilt | backend/src/database/migrations/1721600000000-CreateFinanceLedger.ts:72-142 | per booking, the seven queries give its charges followed by its payout |
| Backfill.BookingAgrees | backend/src/database/migrations/1721600000000-CreateFinanceLedger.ts:72-142 | row by row and in order that is the live ledger, if and only if the first charge was not zero |
| Backfill.BackfillAgreesIff | backend/src/database/migrations/1721600000000-CreateFinanceLedger.ts:72-142 | as a multiset the rebuilt ledger is the live one without refunds if and only if no paid booking was quoted at zero |
| BackfillRuns.LateMakesShort | backend/src/modules/booking/services/booking.service.ts:857-876 | charging an extension of a completed booking raises its rental above every earning on its ledger |
| BackfillRuns.ShortKept | backend/src/modules/booking/services/booking.service.ts:409-901 | nothing a completed booking can still do makes up for it |
| BackfillRuns.ShortDiffers | backend/src/database/migrations/1721600000000-CreateFinanceLedger.ts:109-142 | the migration credits such a booking's rental, which the live ledger does not |
| BackfillRuns.RunBackfillsIff | backend/src/database/migrations/1721600000000-CreateFinanceLedger.ts:72-142 | after any run the rebuilt ledger is the live one without refunds if and only if no extension of a completed booking was charged and no paid booking was quoted at zero |
| Witnesses.LateApprovalBackfillsDifferently | backend/src/database/migrations/1721600000000-CreateFinanceLedger.ts:109-117 | a concrete run without free bookings: the extension is approved after completion |
| Witnesses.FreeBookingBackfillsDifferently | backend/src/database/migrations/1721600000000-CreateFinanceLedger.ts:73-88 | a concrete run where a free booking gets a zero charge the live ledger never had |
| Runs.RunBasic | backend/src/modules/booking/services/booking.service.ts:409-760 | in every run each booking is at one of ten points, paid exactly past REQUESTED, with a correct chain, fees and dispute |
| Invariants.BasicKept | backend/src/modules/booking/services/booking.service.ts:409-901 | every move keeps the file invariant |
| Invariants.LifecycleKept | backend/src/modules/booking/enums/booking.enums.ts:2-46 | the ten legal pairs of stage and status are closed under every move |
| Invariants.ChainKept | backend/src/modules/booking/services/booking.service.ts:795-950 | every move keeps the extension chain |
| Invariants.FeesKept | backend/src/modules/booking/services/booking.service.ts:857-865 | every move keeps current fees equal to quote plus approved extensions |
| Invariants.CouplingKept | backend/src/modules/booking/services/dispute.service.ts:63-195 | every move keeps dispute and status in step |
| Invariants.TrailIsPath | backend/src/modules/booking/services/booking.service.ts:1041-1056 | the step loop's rows leave from the start and connect the steps in order |
| Invariants.ReplayKeptIff | backend/src/modules/booking/services/booking.service.ts:879-888 | a move keeps the history replayable if and only if it logs the stage the booking is at |
| Runs.RunReplayIff | backend/src/modules/booking/services/booking.service.ts:1009-1081 | at every point of a run every history is a connected path from nothing to the present stage and status, if and only if extensions are approved while ACTIVE |
| Witnesses.LateApprovalBreaksHistory | backend/src/modules/booking/services/booking.service.ts:879-888 | a concrete run whose history claims ACTIVE for a returned booking |
| Simulation.StepMoves | backend/src/modules/booking/services/booking.service.ts:199-950 | every committed action changes at most one booking's file, by the one move it stands for |
| Lifecycle.MovesFollowEdges | backend/src/modules/booking/services/booking.service.ts:409-760 | every move follows the lifecycle graph, although the checks see stage or status alone |
| Lifecycle.StepFollowsEdge | backend/src/modules/booking/services/booking.service.ts:409-760 | and so does every action in every run |
| Lifecycle.HeightDrops | backend/src/modules/booking/services/booking.service.ts:409-760 | a measure of the point strictly drops on lifecycle moves and stays on the others |
| Lifecycle.LifecycleBounded | backend/src/modules/booking/services/booking.service.ts:409-760 | a booking takes at most seven lifecycle actions over any run, six when only confirmed ones are handed over |
| Lifecycle.RankRises | backend/src/modules/booking/enums/booking.enums.ts:33-46 | no move takes a stage back in the stage order |
| Lifecycle.RunKeepsTerms | backend/src/modules/booking/services/booking.service.ts:409-901 | along a run stages never move back and what was fixed at creation stays |
| Lifecycle.PreviewIs | backend/src/modules/booking/services/booking.service.ts:524-542 | total for a pending booking, nothing for a closed one, the policy's refund for a confirmed one |
| Lifecycle.PreviewAgreesIff | backend/src/modules/booking/services/booking.service.ts:489-542 | the preview is what cancelling at that moment posts if and only if the booking is not pending or costs nothing |
| Lifecycle.PreviewBoundsRefund | backend/src/modules/booking/services/booking.service.ts:478-542 | the refund a cancellation posts never exceeds an earlier preview of the confirmed booking |
| Lifecycle.CancelPosts | backend/src/modules/booking/services/booking.service.ts:489-506 | a cancellation appends the refund row alone, and only before pickup |
| Lifecycle.CancelDoneIff | backend/src/modules/booking/services/booking.service.ts:480-485 | a cancellation goes through if and only if the booking is pending, declined, or reserved and confirmed |
| Witnesses.DeclinedIsCancelled | backend/src/modules/booking/services/booking.service.ts:480-485 | a concrete run: a declined booking is cancelled |
| Cancellation.RefundTiers | backend/src/modules/booking/services/cancellation-refund.util.ts:12-43 | nothing is kept if and only if 24, 72 or 168 hours of notice were given by policy, there are no fees, or a fee of one unit is halved; only the deposit comes back if and only if there are fees and too little notice for half; in between half of the fees, rounded up |
| Cancellation.RefundWithinTotal | backend/src/modules/booking/services/cancellation-refund.util.ts:31-43 | deposit <= refund <= total, and refund plus penalty is the total |
| Cancellation.RefundNeverGrows | backend/src/modules/booking/services/cancellation-refund.util.ts:38-42 | waiting never increases the refund |
| Cancellation.PoliciesOrdered | backend/src/modules/booking/services/cancellation-refund.util.ts:12-23 | flexible >= moderate >= strict at every moment |
| Quoting.ServiceFeeBounds | backend/src/modules/catalog/services/listings.service.ts:562 | rounding is within half a unit of the exact commission |
| Quoting.NightsSplit | backend/src/modules/catalog/services/listings.service.ts:560 | cutting a span in two costs at most one extra night and saves none |
| Quoting.NightsBilledBounds | backend/src/modules/catalog/services/listings.service.ts:560 | a span cut into pieces is billed its own nights up to one more per cut |
| Availability.QueryAgreesWithAdmission | backend/src/modules/booking/services/booking.service.ts:240-288 | create's checks pass if and only if the request is at most quantityFree, and one unit on asset listings |
| Availability.FirstFreeIsEarliest | backend/src/modules/booking/services/booking.service.ts:249-260 | the chosen asset is the earliest one without a conflict; none only if all conflict |
| Availability.FreeAssetsCounts | backend/src/modules/booking/services/booking.service.ts:383-392 | the count of free assets is zero if and only if all conflict |
| Availability.BookedQuantityPositive | backend/src/modules/booking/repositories/booking.repository.ts:88-117 | the summed quantity is positive if and only if the boolean check finds an overlap |
| Occupancy.StepEffect | backend/src/modules/booking/services/booking.service.ts:199-901 | every action leaves the bookings alone, inserts an admitted row, rewrites one in place or extends one over a checked window |
| UnitSafety.RunExclusive | backend/src/database/migrations/1720700000000-AddAssetsAndPerUnitBooking.ts:43-47 | in every run blocking bookings of one unit are pairwise disjoint |
| UnitSafety.RunAssetsSuffice | backend/src/database/migrations/1720700000000-AddAssetsAndPerUnitBooking.ts:43-47 | in every run whose catalog offers only assets of a set for a listing, all the listing's asset bookings are on those, and the ones under way at an instant are on different ones: never more than assets |
| UnitSafety.AssetsSuffice | backend/src/database/migrations/1720700000000-AddAssetsAndPerUnitBooking.ts:43-47 | the same of any table that satisfies the constraint |
| UnitSafety.AdmittedNotExcluded | backend/src/modules/booking/services/booking.service.ts:219-288 | what is admitted on an asset or single-unit listing the constraint accepts |
| UnitSafety.CreateNotExcluded | backend/src/modules/booking/services/booking.service.ts:199-367 | run serially, create on such a listing never fails on the constraint, at the insert or at the three saves of instant book |
| UnitSafety.BulkExcludedIff | backend/src/database/migrations/1720700000000-AddAssetsAndPerUnitBooking.ts:43-47 | an admitted booking of an asset-free listing is refused by the constraint if and only if some quantity is already booked in its window |
| Witnesses.BulkAdmittedYetExcluded | backend/src/database/migrations/1720700000000-AddAssetsAndPerUnitBooking.ts:43-47 | a concrete run: two units, one booked, and the other refused by the constraint |
| Racing.ScheduleExclusive | backend/src/database/migrations/1720700000000-AddAssetsAndPerUnitBooking.ts:43-47 | under every interleaving of stale checks and writes no unit is double-booked |
| Racing.ScheduleAssetsSuffice | backend/src/database/migrations/1720700000000-AddAssetsAndPerUnitBooking.ts:43-47 | under every interleaving in which only assets of a set are offered for a listing, its asset bookings under way map one-to-one into the set |
| Racing.ScheduleSpacedIff | backend/src/modules/booking/services/booking.service.ts:219-227 | under any interleaving the bookings of a unit stay the buffer apart if and only if the padded check holds again at every write of a blocking row of the unit |
| Racing.DoSpacedIff | backend/src/modules/booking/services/booking.service.ts:219-227 | one write keeps them apart if and only if the padded check holds at that moment |
| Racing.BufferCanRace | backend/src/modules/booking/services/booking.service.ts:219-227 | a concrete schedule: two requests that both check first end up closer than the buffer |
| Racing.UndisturbedCreateIsStep | backend/src/modules/booking/services/booking.service.ts:199-320 | undisturbed, checking and inserting takes what create takes |
| Racing.UndisturbedExtendIsStep | backend/src/modules/booking/services/booking.service.ts:840-867 | undisturbed, checking and storing takes what an approved extension takes |
| Racing.UndisturbedMoveIsWalk | backend/src/modules/booking/services/booking.service.ts:1033-1059 | undisturbed, reading and storing is the step |
| Turnaround.RunSpacedIff | backend/src/modules/booking/services/booking.service.ts:545-561 | with a steady catalog, blocking bookings of one unit are the buffer apart at every point of a run if and only if every handover of an unconfirmed booking passes the padded check again, constraint or not |
| Turnaround.RunSpaced | backend/src/modules/booking/services/booking.service.ts:960-996 | in particular while only confirmed bookings are handed over |
| Turnaround.CrowdedIsOverlap | backend/src/modules/booking/repositories/booking.repository.ts:42-85 | the condition is the repository's own padded query, excluding the booking itself |
| Witnesses.RevivedHandoverLosesBuffer | backend/src/modules/booking/services/booking.service.ts:545-561 | a concrete run with the constraint installed: cancelled, the next day booked, handed over |
| Turnaround.LongerStaysApart | backend/src/modules/booking/services/booking.service.ts:960-996 | checking only the added window keeps the whole booking apart |
| Turnaround.AdmittedApart | backend/src/modules/booking/repositories/booking.repository.ts:42-85 | a newly admitted booking is apart from every blocking one of its unit |
| Capacity.RunWithinIff | backend/src/modules/booking/services/booking.service.ts:267-288 | on an asset-free listing the quantities in use at any instant never exceed quantityAvailable, from the service checks alone, if and only if there is still room for every unconfirmed booking that is handed over |
| Capacity.RunWithin | backend/src/database/migrations/1720700000000-AddAssetsAndPerUnitBooking.ts:43-47 | with the constraint installed they never do, whatever is handed over |
| Capacity.PaddedCheckFits | backend/src/modules/booking/services/booking.service.ts:274-280 | passing the window-sum check again is enough room |
| Capacity.InUseWithinBooked | backend/src/modules/booking/repositories/booking.repository.ts:96-117 | what is in use inside a window is at most what the padded sum counts |
| Idempotency.FindByKeySpec | backend/src/modules/booking/repositories/booking.repository.ts:30-32 | finds a row with the key if there is one |
| Idempotency.RunKeysUnique | backend/src/modules/booking/services/booking.service.ts:309-311 | in every run no two bookings share a key |
| Idempotency.CreateRepeated | backend/src/modules/booking/services/booking.service.ts:200-205 | repeating a keyed create returns the same booking and changes nothing; called with an empty key it is never replayed and fails |
| Idempotency.CreateAnswersOwnIff | backend/src/modules/booking/services/booking.service.ts:200-205 | create answers with a booking of the caller's own if and only if no booking of somebody else carries the key |
| Witnesses.KeyOfAnother | backend/src/modules/booking/services/booking.service.ts:200-205 | a concrete run: a second renter uses the key of the first |
| Pagination.SortedOrders | backend/src/modules/catalog/repositories/listing.repository.ts:108 | sorting orders strictly by key and id and loses no row |
| Pagination.OrderedUnique | backend/src/modules/catalog/repositories/listing.repository.ts:108 | the ordered result is unique |
| Pagination.ResultSpec | backend/src/modules/catalog/repositories/listing.repository.ts:69-114 | exactly the matching rows past the cursor, in order |
| Pagination.SearchSpec | backend/src/modules/catalog/repositories/listing.repository.ts:110-127 | a page is the next rows up to the limit; hasMore and nextCursor are right, a creation time cut to its millisecond |
| Pagination.PageByColumns | backend/src/modules/catalog/repositories/listing.repository.ts:25-46 | a page by its columns: price ascending, price descending, rating descending, creation time descending, ids likewise; exactly the first matching rows past the cursor; the next cursor names the last one |
| Pagination.MoreIff | backend/src/modules/catalog/repositories/listing.repository.ts:117-119 | more is announced if and only if a matching row past the cursor is not on the page |
| Pagination.PageSpec | backend/src/modules/catalog/repositories/listing.repository.ts:110-127 | what a page promises in terms of its own rows |
| Pagination.LostIff | backend/src/modules/catalog/repositories/listing.repository.ts:41-50 | the cursor sent for a row passes over a later one if and only if both fall into one millisecond, the row not at its start, and the later one not at its start with a smaller id |
| Pagination.SkippedAreLost | backend/src/modules/catalog/repositories/listing.repository.ts:41-50 | the rows passed over are the ones right after the row, and no others |
| Pagination.ResultAfter | backend/src/modules/catalog/repositories/listing.repository.ts:110-114 | the next page starts after the rows passed over |
| Pagination.ResultAfterIff | backend/src/modules/catalog/repositories/listing.repository.ts:110-114 | it starts right after the row if and only if no later row is lost |
| PageWalks.WalkedIff | backend/src/modules/catalog/repositories/listing.repository.ts:69-128 | pages put together are the full result if and only if no page ends on a row that loses the next |
| PageWalks.WalkedOrdered | backend/src/modules/catalog/repositories/listing.repository.ts:69-128 | in any case they are in order, without repetition, and part of the result |
| PageWalks.NothingLost | backend/src/modules/catalog/repositories/listing.repository.ts:26-40 | sorts by price and rating lose nothing, nor do creation times in whole milliseconds |
| PageWalks.WalkFixed | backend/src/modules/catalog/repositories/listing.repository.ts:69-128 | on a fixed table the walk ends, in order; it brings the full sorted result if and only if no page boundary loses a row |
| PageWalks.MillisecondLosesRow | backend/src/modules/catalog/repositories/listing.repository.ts:41-50 | a concrete table: two rows of one transaction, one a page, and the second never comes |
| PageWalks.WalkLive | backend/src/modules/catalog/repositories/listing.repository.ts:69-128 | with arbitrary writes between fetches, rows come in strictly increasing order; once the walk ends, what was present throughout was returned if and only if no page ended on a row that loses it; pages are full until then |
| Pagination.OrderedIsOnce | backend/src/modules/catalog/repositories/listing.repository.ts:108-114 | no (key, id) comes twice; a row comes back only if its sort key was edited meanwhile |
| Photos.PhotoService.FindByListing | backend/src/modules/catalog/services/listings.service.ts:500-502 | the listing's photos, each once, by position |
| Photos.PhotoService.AddPhoto | backend/src/modules/catalog/services/listings.service.ts:488-498 | appends at the position that is the count, or refuses beyond four; positions are contiguous after if and only if they were before |
| Photos.PhotoService.Resequence | backend/src/modules/catalog/services/listings.service.ts:521 | the loop renumbers along the order |
| Photos.PhotoService.RemovePhoto | backend/src/modules/catalog/services/listings.service.ts:513-522 | the others stay, in the same relative order, and whatever gaps there were are closed |
| Photos.PhotoService.ReorderPhotos | backend/src/modules/catalog/services/listings.service.ts:525-538 | accepted exactly when the id sets match; rewrites positions to the submitted order |
| Photos.AcceptedIff | backend/src/modules/catalog/services/listings.service.ts:526-535 | an order is accepted if and only if it names exactly the listing's photos, however often |
| Photos.ReorderContiguousIff | backend/src/modules/catalog/services/listings.service.ts:527-537 | an accepted order leaves contiguous positions if and only if it repeats no id |
| Witnesses.RepeatedPhotoLosesCover | backend/src/modules/catalog/services/listings.service.ts:527-529 | a concrete order that repeats an id and is accepted |
| Photos.ListedPositions | backend/src/modules/catalog/services/listings.service.ts:509-511 | contiguous photos read back at positions 0, 1, 2, ... |
| Photos.ReadBack | backend/src/modules/catalog/services/listings.service.ts:525-537 | there is one way to read them back: after a reorder, the submitted list |
| PhotoRuns.RunValidIff | backend/src/modules/catalog/services/listings.service.ts:488-538 | at every point of a run of adding, removing and reordering all positions are 0 .. n-1 within the limit, if and only if no accepted order names a photo twice |
| PhotoRuns.PerformAll | backend/src/modules/catalog/services/listings.service.ts:488-538 | requests served one after another go through the tables of a run |

## Left out

- Payment, storage, e-mail, events, notifications and the audit log: calls to other systems. Payments succeed and
  their reference is a parameter; photo ids are a parameter.
- Reason strings, evidence keys, notes, and row timestamps other than those of history rows and extension decisions.
- The counter kept by `markListingCompletedBooking`, and the catalog as tables of its own: what the catalog answers is
  a parameter of each event.
- Listing moderation, categories and attributes, reviews and ratings, accounts and permissions: they would add only
  easy members or rest on libraries.
- Pagination is modelled on the listing search; the booking and ledger searches have the shape of its
  descending creation-time sort. The filter is any predicate on rows, and cursors are pairs, not their encoding.
- Transactions are atomic in runs. Interleaving is modelled for the bookings table (`Racing`), for payments
  (`PaymentRacing`) and for settling (`SettlementRacing`), not for extensions and disputes.
- PaymentRacing.SchedulePaidIff: counts payments whatever their amount, leaves out the payment reference, and does not
  count a payment made in a transaction that the constraint then refuses.
- The other migrations, the migration's `created_at` values, the prototype front end, and `isForwardTransition`, which
  no service calls.
