/** The ledger migration: rebuild the ledger from the final tables, and compare it with the live one. */
module Backfill {
  import opened Domain
  import opened Filtering
  import opened Rules
  import opened Database
  import opened CaseFile
  import opened Simulation
  import opened Invariants
  import opened Accounts
  import opened Runs

  // ---------- the seven INSERT ... SELECT statements ----------

  /** The correlated subquery: what a booking's approved extensions added. */
  function SumApproved(requests: seq<ExtensionRequest>, id: Id): int {
    if requests == [] then 0
    else
      var r := Last(requests);
      SumApproved(requests[..|requests| - 1], id)
      + if r.booking == id && r.status == Approved then r.rental + r.service else 0
  }

  predicate Disputed(disputes: seq<Dispute>, id: Id) {
    exists k :: 0 <= k < |disputes| && disputes[k].booking == id
  }

  /** Original charge per paid booking, net of its extensions; no guard against zero. */
  function OriginalCharges(bookings: seq<Booking>, requests: seq<ExtensionRequest>): seq<Transaction> {
    if bookings == [] then []
    else
      var id := |bookings| - 1;
      var b := bookings[id];
      OriginalCharges(bookings[..id], requests)
      + if b.paid.Some? then [RenterRow(Charge, id, b, b.total - SumApproved(requests, id), None, b.paid)] else []
  }

  /** The row the extension query makes of a request, if any. */
  function ExtensionRow(bookings: seq<Booking>, r: ExtensionRequest): (rows: seq<Transaction>)
    ensures |rows| <= 1
  {
    if r.booking < |bookings| && r.status == Approved && r.decidedAt.Some? && r.rental + r.service > 0
    then [RenterRow(Charge, r.booking, bookings[r.booking], r.rental + r.service, None, None)] else []
  }

  function ExtensionChargeRows(bookings: seq<Booking>, requests: seq<ExtensionRequest>): seq<Transaction> {
    if requests == [] then []
    else
      ExtensionChargeRows(bookings, requests[..|requests| - 1]) + ExtensionRow(bookings, Last(requests))
  }

  function CleanReleases(bookings: seq<Booking>, disputes: seq<Dispute>): seq<Transaction> {
    if bookings == [] then []
    else
      var id := |bookings| - 1;
      var b := bookings[id];
      CleanReleases(bookings[..id], disputes)
      + if b.status == Completed && b.deposit > 0 && !Disputed(disputes, id)
        then [RenterRow(DepositRelease, id, b, b.deposit, None, None)] else []
  }

  function CleanEarnings(owner: Id -> Id, bookings: seq<Booking>, disputes: seq<Dispute>): seq<Transaction> {
    if bookings == [] then []
    else
      var id := |bookings| - 1;
      var b := bookings[id];
      CleanEarnings(owner, bookings[..id], disputes)
      + if b.status == Completed && b.rental > 0 && !Disputed(disputes, id)
        then [ProviderRow(ProviderEarning, id, owner(b.listing), b.rental, None)] else []
  }

  datatype DisputeQuery = NetRelease | ForfeitCredit | DisputeEarning

  /** The row one of the three dispute queries makes of a resolved dispute. */
  function DisputeRow(owner: Id -> Id, b: Booking, d: Dispute, k: Id, query: DisputeQuery): Transaction {
    match query
    case NetRelease => RenterRow(DepositRelease, d.booking, b, b.deposit - Deduction(d.final), Some(k), None)
    case ForfeitCredit => ProviderRow(ProviderForfeitCredit, d.booking, owner(b.listing), Deduction(d.final), Some(k))
    case DisputeEarning => ProviderRow(ProviderEarning, d.booking, owner(b.listing), b.rental, Some(k))
  }

  function DisputeRows(owner: Id -> Id, bookings: seq<Booking>, disputes: seq<Dispute>, query: DisputeQuery)
    : seq<Transaction>
  {
    if disputes == [] then []
    else
      var k := |disputes| - 1;
      var d := disputes[k];
      DisputeRows(owner, bookings, disputes[..k], query)
      + if d.booking < |bookings| && d.status == Resolved
           && DisputeRow(owner, bookings[d.booking], d, k, query).amount > 0
        then [DisputeRow(owner, bookings[d.booking], d, k, query)] else []
  }

  /** All rows the migration inserts, in statement order. */
  function Rebuilt(owner: Id -> Id, s: State): seq<Transaction> {
    OriginalCharges(s.bookings, s.requests)
    + ExtensionChargeRows(s.bookings, s.requests)
    + CleanReleases(s.bookings, s.disputes)
    + CleanEarnings(owner, s.bookings, s.disputes)
    + DisputeRows(owner, s.bookings, s.disputes, NetRelease)
    + DisputeRows(owner, s.bookings, s.disputes, ForfeitCredit)
    + DisputeRows(owner, s.bookings, s.disputes, DisputeEarning)
  }

  /** up(): create the table empty, then run the statements one after the other, each appending what it selects. */
  method Up(owner: Id -> Id, db: Tables)
    modifies db
    ensures db.View() == old(db.View()).(ledger := Rebuilt(owner, old(db.View())))
  {
    db.ledger := [];
    var q1 := OriginalCharges(db.bookings, db.requests);
    db.ledger := db.ledger + q1;
    assert db.ledger == q1;
    db.ledger := db.ledger + ExtensionChargeRows(db.bookings, db.requests);
    db.ledger := db.ledger + CleanReleases(db.bookings, db.disputes);
    db.ledger := db.ledger + CleanEarnings(owner, db.bookings, db.disputes);
    db.ledger := db.ledger + DisputeRows(owner, db.bookings, db.disputes, NetRelease);
    db.ledger := db.ledger + DisputeRows(owner, db.bookings, db.disputes, ForfeitCredit);
    db.ledger := db.ledger + DisputeRows(owner, db.bookings, db.disputes, DisputeEarning);
  }

  // ---------- each query, seen by one booking ----------

  function RowsFor(rows: seq<Transaction>, id: Id): seq<Entry> {
    Of(Entries(rows), EntryBooking, id)
  }

  lemma RowsForConcat(xs: seq<Transaction>, ys: seq<Transaction>, id: Id)
    ensures RowsFor(xs + ys, id) == RowsFor(xs, id) + RowsFor(ys, id)
  {
    EntriesConcat(xs, ys);
    OfConcat(Entries(xs), Entries(ys), EntryBooking, id);
  }

  lemma RowsForOne(t: Transaction, id: Id)
    ensures RowsFor([t], id) == if t.booking == id then [EntryOf(t)] else []
    ensures RowsFor([], id) == []
  {
    assert Entries([t]) == [EntryOf(t)] && Entries([]) == [];
    OfAppend([], [EntryOf(t)], EntryBooking, t.booking, id);
    assert [] + [EntryOf(t)] == [EntryOf(t)];
  }

  /** Appending at most one row, and seeing it only from its own booking. */
  lemma RowsForSnoc(rows: seq<Transaction>, more: seq<Transaction>, id: Id)
    requires |more| <= 1
    ensures RowsFor(rows + more, id) ==
            RowsFor(rows, id) + if more != [] && more[0].booking == id then [EntryOf(more[0])] else []
  {
    RowsForConcat(rows, more, id);
    if more == [] {
      assert Entries(more) == [];
    } else {
      assert more == [more[0]];
      RowsForOne(more[0], id);
    }
  }

  /** The charge of a paid booking, even of nothing. */
  function PaidCharge(id: Id, b: Booking, amount: int): seq<Entry> {
    if b.paid.Some? then [Entry(id, Charge, amount, Some(b.renter), None)] else []
  }

  lemma {:induction false} OriginalFor(bookings: seq<Booking>, requests: seq<ExtensionRequest>, id: Id)
    ensures RowsFor(OriginalCharges(bookings, requests), id) ==
            if id < |bookings| then PaidCharge(id, bookings[id], bookings[id].total - SumApproved(requests, id)) else []
  {
    if bookings == [] {
      assert Entries([]) == [];
    } else {
      var n := |bookings| - 1;
      OriginalFor(bookings[..n], requests, id);
      var b := bookings[n];
      RowsForSnoc(OriginalCharges(bookings[..n], requests),
                  if b.paid.Some?
                  then [RenterRow(Charge, n, b, b.total - SumApproved(requests, n), None, b.paid)] else [], id);
    }
  }

  lemma {:induction false} ReleasesFor(bookings: seq<Booking>, disputes: seq<Dispute>, id: Id)
    ensures RowsFor(CleanReleases(bookings, disputes), id) ==
            if id < |bookings| && bookings[id].status == Completed && !Disputed(disputes, id)
            then Post(id, DepositRelease, bookings[id].deposit, Some(bookings[id].renter), None) else []
  {
    if bookings == [] {
      assert Entries([]) == [];
    } else {
      var n := |bookings| - 1;
      ReleasesFor(bookings[..n], disputes, id);
      var b := bookings[n];
      RowsForSnoc(CleanReleases(bookings[..n], disputes),
                  if b.status == Completed && b.deposit > 0 && !Disputed(disputes, n)
                  then [RenterRow(DepositRelease, n, b, b.deposit, None, None)] else [], id);
    }
  }

  lemma {:induction false} EarningsFor(owner: Id -> Id, bookings: seq<Booking>, disputes: seq<Dispute>, id: Id)
    ensures RowsFor(CleanEarnings(owner, bookings, disputes), id) ==
            if id < |bookings| && bookings[id].status == Completed && !Disputed(disputes, id)
            then Post(id, ProviderEarning, bookings[id].rental, None, Some(owner(bookings[id].listing))) else []
  {
    if bookings == [] {
      assert Entries([]) == [];
    } else {
      var n := |bookings| - 1;
      EarningsFor(owner, bookings[..n], disputes, id);
      var b := bookings[n];
      RowsForSnoc(CleanEarnings(owner, bookings[..n], disputes),
                  if b.status == Completed && b.rental > 0 && !Disputed(disputes, n)
                  then [ProviderRow(ProviderEarning, n, owner(b.listing), b.rental, None)] else [], id);
    }
  }

  lemma {:induction false} ApprovedSnoc(reqs: seq<ExtensionRequest>, r: ExtensionRequest)
    ensures ApprovedRental(reqs + [r]) == ApprovedRental(reqs) + if r.status == Approved then r.rental else 0
    ensures ApprovedService(reqs + [r]) == ApprovedService(reqs) + if r.status == Approved then r.service else 0
  {
    assert (reqs + [r])[..|reqs + [r]| - 1] == reqs;
  }

  lemma {:induction false} SumApprovedFor(requests: seq<ExtensionRequest>, id: Id)
    ensures SumApproved(requests, id) ==
            ApprovedRental(Of(requests, RequestBooking, id)) + ApprovedService(Of(requests, RequestBooking, id))
  {
    if requests == [] {
    } else {
      var init, r := requests[..|requests| - 1], Last(requests);
      SumApprovedFor(init, id);
      if r.booking == id {
        ApprovedSnoc(Of(init, RequestBooking, id), r);
      } else {
        assert Of(init, RequestBooking, id) + [] == Of(init, RequestBooking, id);
      }
    }
  }

  /** Every approved request has been decided. */
  ghost predicate AllDecided(requests: seq<ExtensionRequest>) {
    forall k :: 0 <= k < |requests| ==> requests[k].status == Approved ==> requests[k].decidedAt.Some?
  }

  lemma {:induction false} ChargesSnoc(id: Id, renter: Id, reqs: seq<ExtensionRequest>, r: ExtensionRequest)
    ensures ExtensionCharges(id, renter, reqs + [r]) == ExtensionCharges(id, renter, reqs)
            + if r.status == Approved then Post(id, Charge, r.rental + r.service, Some(renter), None) else []
  {
    assert (reqs + [r])[..|reqs + [r]| - 1] == reqs;
  }

  lemma {:induction false} ExtensionsFor(bookings: seq<Booking>, requests: seq<ExtensionRequest>, id: Id)
    requires id < |bookings| && AllDecided(requests)
    ensures RowsFor(ExtensionChargeRows(bookings, requests), id) ==
            ExtensionCharges(id, bookings[id].renter, Of(requests, RequestBooking, id))
  {
    if requests == [] {
      assert Entries([]) == [];
    } else {
      var init, r := requests[..|requests| - 1], Last(requests);
      ExtensionsFor(bookings, init, id);
      RowsForSnoc(ExtensionChargeRows(bookings, init), ExtensionRow(bookings, r), id);
      var mine := Of(init, RequestBooking, id);
      if r.booking == id {
        ChargesSnoc(id, bookings[id].renter, mine, r);
      } else {
        assert mine + [] == mine;
      }
    }
  }

  ghost function DisputeEntry(owner: Id -> Id, id: Id, b: Booking, d: Dispute, query: DisputeQuery): seq<Entry> {
    if d.status != Resolved then []
    else match query
      case NetRelease => Post(id, DepositRelease, b.deposit - Deduction(d.final), Some(b.renter), None)
      case ForfeitCredit => Post(id, ProviderForfeitCredit, Deduction(d.final), None, Some(owner(b.listing)))
      case DisputeEarning => Post(id, ProviderEarning, b.rental, None, Some(owner(b.listing)))
  }

  lemma {:induction false} DisputesFor(owner: Id -> Id, bookings: seq<Booking>, disputes: seq<Dispute>,
                                       query: DisputeQuery, id: Id)
    requires id < |bookings| && |Of(disputes, DisputeBooking, id)| <= 1
    ensures var mine := Of(disputes, DisputeBooking, id);
            RowsFor(DisputeRows(owner, bookings, disputes, query), id) ==
            if mine == [] then [] else DisputeEntry(owner, id, bookings[id], mine[0], query)
  {
    if disputes == [] {
      assert Entries([]) == [];
    } else {
      var k := |disputes| - 1;
      var d := disputes[k];
      DisputesFor(owner, bookings, disputes[..k], query, id);
      RowsForSnoc(DisputeRows(owner, bookings, disputes[..k], query),
                  if d.booking < |bookings| && d.status == Resolved
                     && DisputeRow(owner, bookings[d.booking], d, k, query).amount > 0
                  then [DisputeRow(owner, bookings[d.booking], d, k, query)] else [], id);
    }
  }

  lemma {:induction false} DisputedFor(disputes: seq<Dispute>, id: Id)
    ensures Disputed(disputes, id) <==> Of(disputes, DisputeBooking, id) != []
  {
    OfMembers(disputes, DisputeBooking, id);
    if Disputed(disputes, id) {
      var k :| 0 <= k < |disputes| && disputes[k].booking == id;
      assert disputes[k] in Of(disputes, DisputeBooking, id);
    }
    if Of(disputes, DisputeBooking, id) != [] {
      assert Of(disputes, DisputeBooking, id)[0] in disputes;
    }
  }

  /** The columns the comparison with the live ledger leaves out. */
  ghost predicate Plain(t: Transaction) { t.dispute == None && t.settlement == None && t.reference == None }

  lemma {:induction false} BookingColumns(owner: Id -> Id, bookings: seq<Booking>, requests: seq<ExtensionRequest>,
                                          disputes: seq<Dispute>)
    ensures forall t :: t in OriginalCharges(bookings, requests) ==>
              && t.booking < |bookings| && t.reference == bookings[t.booking].paid
              && t.dispute == None && t.settlement == None
    ensures forall t :: t in CleanReleases(bookings, disputes) + CleanEarnings(owner, bookings, disputes) ==> Plain(t)
  {
    if bookings == [] {
    } else {
      BookingColumns(owner, bookings[..|bookings| - 1], requests, disputes);
    }
  }

  lemma {:induction false} ExtensionColumns(bookings: seq<Booking>, requests: seq<ExtensionRequest>)
    ensures forall t :: t in ExtensionChargeRows(bookings, requests) ==> Plain(t)
  {
    if requests == [] {
    } else {
      ExtensionColumns(bookings, requests[..|requests| - 1]);
    }
  }

  lemma {:induction false} DisputeColumns(owner: Id -> Id, bookings: seq<Booking>, disputes: seq<Dispute>,
                                          query: DisputeQuery)
    ensures forall t :: t in DisputeRows(owner, bookings, disputes, query) ==>
              && t.dispute.Some? && t.dispute.value < |disputes| && disputes[t.dispute.value].booking == t.booking
              && t.settlement == None && t.reference == None
  {
    if disputes == [] {
    } else {
      var n := |disputes| - 1;
      DisputeColumns(owner, bookings, disputes[..n], query);
      forall t | t in DisputeRows(owner, bookings, disputes, query)
        ensures t.dispute.Some? && t.dispute.value < |disputes| && disputes[t.dispute.value].booking == t.booking
                && t.settlement == None && t.reference == None
      {
        if t in DisputeRows(owner, bookings, disputes[..n], query) {
          assert disputes[..n][t.dispute.value] == disputes[t.dispute.value];
        }
      }
    }
  }

  // ---------- per booking, the migration and the live ledger agree ----------

  lemma DecidedAll(s: State)
    requires AllBasic(s)
    ensures AllDecided(s.requests)
  {
    forall k | 0 <= k < |s.requests| && s.requests[k].status == Approved ensures s.requests[k].decidedAt.Some? {
      var f := FileOf(s, s.requests[k].booking);
      OfMembers(s.requests, RequestBooking, f.id);
      assert s.requests[k] in f.reqs;
      var j :| 0 <= j < |f.reqs| && f.reqs[j] == s.requests[k];
    }
  }

  /** What each completion query should give a booking: the clean ones if it was never disputed, else the others. */
  ghost function CleanPart(owner: Id -> Id, f: File, kind: Kind): seq<Entry> {
    if f.b.status != Completed || f.disputes != [] then []
    else if kind == DepositRelease then PostRelease(f, f.b.deposit)
    else PostEarning(f, owner(f.b.listing))
  }

  ghost function DisputePart(owner: Id -> Id, f: File, query: DisputeQuery): seq<Entry> {
    if f.b.status != Completed || f.disputes == [] then []
    else match query
      case NetRelease => PostRelease(f, f.b.deposit - Forfeited(f))
      case ForfeitCredit => PostForfeit(f, owner(f.b.listing), Forfeited(f))
      case DisputeEarning => PostEarning(f, owner(f.b.listing))
  }

  /** An undisputed booking's id is in no dispute row. */
  lemma CleanMeans(s: State, id: Id)
    requires AllBasic(s) && id < |s.bookings|
    ensures Disputed(s.disputes, id) <==> FileOf(s, id).disputes != []
  {
    DisputedFor(s.disputes, id);
  }

  lemma CleanReleased(owner: Id -> Id, s: State, id: Id)
    requires AllBasic(s) && id < |s.bookings|
    ensures RowsFor(CleanReleases(s.bookings, s.disputes), id) == CleanPart(owner, FileOf(s, id), DepositRelease)
  {
    ReleasesFor(s.bookings, s.disputes, id);
    CleanMeans(s, id);
  }

  lemma CleanEarned(owner: Id -> Id, s: State, id: Id)
    requires AllBasic(s) && id < |s.bookings|
    ensures RowsFor(CleanEarnings(owner, s.bookings, s.disputes), id)
            == CleanPart(owner, FileOf(s, id), ProviderEarning)
  {
    EarningsFor(owner, s.bookings, s.disputes, id);
    CleanMeans(s, id);
  }

  /** A resolved dispute is that of a completed booking, and the only one. */
  lemma DisputeEntryPart(owner: Id -> Id, f: File, query: DisputeQuery)
    requires Basic(f)
    ensures |f.disputes| <= 1
    ensures (if f.disputes == [] then [] else DisputeEntry(owner, f.id, f.b, f.disputes[0], query))
         == DisputePart(owner, f, query)
  {
  }

  lemma {:induction false} DisputeRebuilt(owner: Id -> Id, s: State, id: Id, query: DisputeQuery)
    requires AllBasic(s) && id < |s.bookings|
    ensures RowsFor(DisputeRows(owner, s.bookings, s.disputes, query), id) == DisputePart(owner, FileOf(s, id), query)
  {
    DisputeEntryPart(owner, FileOf(s, id), query);
    DisputesFor(owner, s.bookings, s.disputes, query, id);
  }

  lemma CleanOnly(x: seq<Entry>, z: seq<Entry>)
    ensures x + z + [] + [] + [] == x + [] + z
  {
  }

  lemma DisputeOnly(x: seq<Entry>, y: seq<Entry>, z: seq<Entry>)
    ensures [] + [] + x + y + z == x + y + z
  {
  }

  ghost function Parts(owner: Id -> Id, f: File): seq<Entry> {
    CleanPart(owner, f, DepositRelease) + CleanPart(owner, f, ProviderEarning)
    + DisputePart(owner, f, NetRelease) + DisputePart(owner, f, ForfeitCredit) + DisputePart(owner, f, DisputeEarning)
  }

  /** The completion queries together give the payout: only one of the two families speaks for a booking. */
  lemma PartsArePayout(owner: Id -> Id, f: File)
    ensures Parts(owner, f) == Payout(owner, f)
  {
    if f.b.status != Completed {
      Units([]);
    } else if f.disputes == [] {
      assert PostForfeit(f, owner(f.b.listing), Forfeited(f)) == [];
      CleanOnly(PostRelease(f, f.b.deposit), PostEarning(f, owner(f.b.listing)));
    } else {
      DisputeOnly(PostRelease(f, f.b.deposit - Forfeited(f)), PostForfeit(f, owner(f.b.listing), Forfeited(f)),
                  PostEarning(f, owner(f.b.listing)));
    }
  }

  lemma PartsRebuilt(owner: Id -> Id, s: State, id: Id)
    requires AllBasic(s) && id < |s.bookings|
    ensures RowsFor(CleanReleases(s.bookings, s.disputes), id)
            + RowsFor(CleanEarnings(owner, s.bookings, s.disputes), id)
            + RowsFor(DisputeRows(owner, s.bookings, s.disputes, NetRelease), id)
            + RowsFor(DisputeRows(owner, s.bookings, s.disputes, ForfeitCredit), id)
            + RowsFor(DisputeRows(owner, s.bookings, s.disputes, DisputeEarning), id)
         == Parts(owner, FileOf(s, id))
  {
    CleanReleased(owner, s, id);
    CleanEarned(owner, s, id);
    DisputeRebuilt(owner, s, id, NetRelease);
    DisputeRebuilt(owner, s, id, ForfeitCredit);
    DisputeRebuilt(owner, s, id, DisputeEarning);
  }

  function FirstCharge(f: File): seq<Entry> { PaidCharge(f.id, f.b, f.o.quote.total) }

  lemma {:induction false} BookingRebuilt(owner: Id -> Id, s: State, id: Id)
    requires AllBasic(s) && id < |s.bookings|
    ensures var f := FileOf(s, id);
            RowsFor(Rebuilt(owner, s), id) ==
            (FirstCharge(f) + ExtensionCharges(id, f.b.renter, f.reqs)) + Payout(owner, f)
  {
    var q1 := OriginalCharges(s.bookings, s.requests);
    var q2 := ExtensionChargeRows(s.bookings, s.requests);
    var q3 := CleanReleases(s.bookings, s.disputes);
    var q4 := CleanEarnings(owner, s.bookings, s.disputes);
    var q5 := DisputeRows(owner, s.bookings, s.disputes, NetRelease);
    var q6 := DisputeRows(owner, s.bookings, s.disputes, ForfeitCredit);
    var q7 := DisputeRows(owner, s.bookings, s.disputes, DisputeEarning);
    RowsForConcat(q1 + q2 + q3 + q4 + q5 + q6, q7, id);
    RowsForConcat(q1 + q2 + q3 + q4 + q5, q6, id);
    RowsForConcat(q1 + q2 + q3 + q4, q5, id);
    RowsForConcat(q1 + q2 + q3, q4, id);
    RowsForConcat(q1 + q2, q3, id);
    RowsForConcat(q1, q2, id);
    Regroup(RowsFor(q1, id) + RowsFor(q2, id), RowsFor(q3, id), RowsFor(q4, id), RowsFor(q5, id), RowsFor(q6, id),
            RowsFor(q7, id));
    PartsRebuilt(owner, s, id);
    PartsArePayout(owner, FileOf(s, id));
    ChargesRebuilt(s, id);
  }

  lemma Regroup(a: seq<Entry>, b: seq<Entry>, c: seq<Entry>, d: seq<Entry>, e: seq<Entry>, f: seq<Entry>)
    ensures a + b + c + d + e + f == a + (b + c + d + e + f)
  {
  }

  lemma NetOfExtensions(f: File)
    requires Basic(f)
    ensures f.b.total - (ApprovedRental(f.reqs) + ApprovedService(f.reqs)) == f.o.quote.total
  {
  }

  lemma {:induction false} OriginalNet(s: State, id: Id)
    requires AllBasic(s) && id < |s.bookings|
    ensures s.bookings[id].total - SumApproved(s.requests, id) == s.originals[id].quote.total
  {
    NetOfExtensions(FileOf(s, id));
    SumApprovedFor(s.requests, id);
  }

  lemma {:induction false} OriginalRebuilt(s: State, id: Id)
    requires id < |s.bookings| == |s.originals|
    requires s.bookings[id].total - SumApproved(s.requests, id) == s.originals[id].quote.total
    ensures RowsFor(OriginalCharges(s.bookings, s.requests), id) == FirstCharge(FileOf(s, id))
  {
    OriginalFor(s.bookings, s.requests, id);
  }

  lemma {:induction false} ChargesRebuilt(s: State, id: Id)
    requires AllBasic(s) && id < |s.bookings|
    ensures var f := FileOf(s, id);
            && RowsFor(OriginalCharges(s.bookings, s.requests), id) == FirstCharge(f)
            && RowsFor(ExtensionChargeRows(s.bookings, s.requests), id) == ExtensionCharges(id, f.b.renter, f.reqs)
  {
    OriginalNet(s, id);
    OriginalRebuilt(s, id);
    DecidedAll(s);
    ExtensionsFor(s.bookings, s.requests, id);
  }

  /** No row of the live ledger, refunds aside, is for nothing. */
  lemma LivePositive(owner: Id -> Id, f: File, e: Entry)
    requires Accounted(owner, f) && e in Live(f.rows)
    ensures e.amount > 0
  {
    if e in Charges(f) {
      ExtensionsPositive(f.id, f.b.renter, f.reqs);
    }
  }

  lemma {:induction false} ExtensionsPositive(id: Id, renter: Id, reqs: seq<ExtensionRequest>)
    ensures forall e :: e in ExtensionCharges(id, renter, reqs) ==> e.amount > 0
  {
    if reqs == [] {
    } else {
      ExtensionsPositive(id, renter, reqs[..|reqs| - 1]);
    }
  }

  /** A paid booking's original quote was for more than nothing. */
  predicate ChargedForSomething(f: File) { f.b.paid.Some? ==> f.o.quote.total > 0 }

  /** Row by row and in order, a booking gets its live ledger from the migration, unless its first charge was zero. */
  lemma BookingAgrees(owner: Id -> Id, s: State, id: Id)
    requires AllBasic(s) && id < |s.bookings| && Accounted(owner, FileOf(s, id))
    ensures RowsFor(Rebuilt(owner, s), id) == Live(FileOf(s, id).rows) <==> ChargedForSomething(FileOf(s, id))
  {
    var f, rebuilt := FileOf(s, id), RowsFor(Rebuilt(owner, s), id);
    BookingRebuilt(owner, s, id);
    if ChargedForSomething(f) {
      ChargesAgree(f);
    } else {
      ZeroDisagrees(owner, f, rebuilt);
    }
  }

  lemma ChargesAgree(f: File)
    requires Basic(f) && ChargedForSomething(f)
    ensures FirstCharge(f) + ExtensionCharges(f.id, f.b.renter, f.reqs) == Charges(f)
  {
    if f.b.paid.None? {
      assert f.reqs == [];
      Units([]);
    }
  }

  lemma ZeroDisagrees(owner: Id -> Id, f: File, rebuilt: seq<Entry>)
    requires Accounted(owner, f) && !ChargedForSomething(f)
    requires rebuilt == (FirstCharge(f) + ExtensionCharges(f.id, f.b.renter, f.reqs)) + Payout(owner, f)
    ensures rebuilt != Live(f.rows)
  {
    var zero := FirstCharge(f)[0];
    assert rebuilt[0] == zero;
    if zero in Live(f.rows) {
      LivePositive(owner, f, zero);
    }
  }

  // ---------- and so do they as a whole ----------

  lemma {:induction false} CountByOwner(rows: seq<Entry>, e: Entry)
    ensures multiset(rows)[e] == multiset(Of(rows, EntryBooking, e.booking))[e]
  {
    if rows == [] {
    } else {
      var init, last := rows[..|rows| - 1], rows[|rows| - 1];
      CountByOwner(init, e);
      assert rows == init + [last];
    }
  }

  lemma {:induction false} LiveOf(rows: seq<Entry>, id: Id)
    ensures Of(Live(rows), EntryBooking, id) == Live(Of(rows, EntryBooking, id))
  {
    if rows == [] {
    } else {
      var init, last := rows[..|rows| - 1], rows[|rows| - 1];
      LiveOf(init, id);
      OfConcat(Live(init), if last.kind == Refund then [] else [last], EntryBooking, id);
      var mine := Of(init, EntryBooking, id);
      if last.booking == id {
        assert (mine + [last])[..|mine + [last]| - 1] == mine;
        OfAppend(Live(init), [last], EntryBooking, id, id);
      } else {
        Units(mine);
        OfAppend(Live(init), [last], EntryBooking, last.booking, id);
      }
      Units(Live(init));
      Units(Live(mine));
    }
  }

  ghost predicate AllAccounted(owner: Id -> Id, s: State) {
    AllBasic(s) && forall id :: 0 <= id < |s.bookings| ==> Accounted(owner, FileOf(s, id))
  }

  lemma RebuiltOwned(owner: Id -> Id, s: State, id: Id)
    requires WellFormed(s) && id >= |s.bookings|
    ensures RowsFor(Rebuilt(owner, s), id) == []
  {
    RebuiltBookings(owner, s);
    forall e | e in Entries(Rebuilt(owner, s)) ensures EntryBooking(e) != id {
      var k :| 0 <= k < |Rebuilt(owner, s)| && Entries(Rebuilt(owner, s))[k] == e;
      assert Rebuilt(owner, s)[k] in Rebuilt(owner, s);
    }
    OfNone(Entries(Rebuilt(owner, s)), EntryBooking, id);
  }

  lemma {:induction false} BookingQueries(owner: Id -> Id, bookings: seq<Booking>, requests: seq<ExtensionRequest>,
                                          disputes: seq<Dispute>)
    ensures forall t :: t in OriginalCharges(bookings, requests) ==> t.booking < |bookings|
    ensures forall t :: t in CleanReleases(bookings, disputes) ==> t.booking < |bookings|
    ensures forall t :: t in CleanEarnings(owner, bookings, disputes) ==> t.booking < |bookings|
  {
    if bookings == [] {
    } else {
      BookingQueries(owner, bookings[..|bookings| - 1], requests, disputes);
    }
  }

  lemma {:induction false} ExtensionQuery(bookings: seq<Booking>, requests: seq<ExtensionRequest>)
    ensures forall t :: t in ExtensionChargeRows(bookings, requests) ==> t.booking < |bookings|
  {
    if requests == [] {
    } else {
      ExtensionQuery(bookings, requests[..|requests| - 1]);
    }
  }

  lemma {:induction false} DisputeQueries(owner: Id -> Id, bookings: seq<Booking>, disputes: seq<Dispute>,
                                          query: DisputeQuery)
    ensures forall t :: t in DisputeRows(owner, bookings, disputes, query) ==> t.booking < |bookings|
  {
    if disputes == [] {
    } else {
      DisputeQueries(owner, bookings, disputes[..|disputes| - 1], query);
    }
  }

  lemma RebuiltBookings(owner: Id -> Id, s: State)
    ensures forall t :: t in Rebuilt(owner, s) ==> t.booking < |s.bookings|
  {
    BookingQueries(owner, s.bookings, s.requests, s.disputes);
    ExtensionQuery(s.bookings, s.requests);
    DisputeQueries(owner, s.bookings, s.disputes, NetRelease);
    DisputeQueries(owner, s.bookings, s.disputes, ForfeitCredit);
    DisputeQueries(owner, s.bookings, s.disputes, DisputeEarning);
  }

  lemma {:induction false} LedgerOwned(s: State, id: Id)
    requires WellFormed(s) && id >= |s.bookings|
    ensures Live(Of(Entries(s.ledger), EntryBooking, id)) == []
  {
    forall e | e in Entries(s.ledger) ensures EntryBooking(e) != id {
      var k :| 0 <= k < |s.ledger| && Entries(s.ledger)[k] == e;
    }
    OfNone(Entries(s.ledger), EntryBooking, id);
  }

  /** Seen by the booking an entry is about, both ledgers have it equally often. */
  lemma {:induction false} SameRows(owner: Id -> Id, s: State, id: Id)
    requires AllAccounted(owner, s) && (id < |s.bookings| ==> ChargedForSomething(FileOf(s, id)))
    ensures RowsFor(Rebuilt(owner, s), id) == Of(Live(Entries(s.ledger)), EntryBooking, id)
  {
    LiveOf(Entries(s.ledger), id);
    if id < |s.bookings| {
      BookingAgrees(owner, s, id);
    } else {
      RebuiltOwned(owner, s, id);
      LedgerOwned(s, id);
    }
  }

  lemma SameCount(owner: Id -> Id, s: State, e: Entry)
    requires AllAccounted(owner, s) && (e.booking < |s.bookings| ==> ChargedForSomething(FileOf(s, e.booking)))
    ensures multiset(Entries(Rebuilt(owner, s)))[e] == multiset(Live(Entries(s.ledger)))[e]
  {
    CountByOwner(Entries(Rebuilt(owner, s)), e);
    CountByOwner(Live(Entries(s.ledger)), e);
    SameRows(owner, s, e.booking);
  }

  lemma AgreesWhenCharged(owner: Id -> Id, s: State)
    requires AllAccounted(owner, s) && forall id :: 0 <= id < |s.bookings| ==> ChargedForSomething(FileOf(s, id))
    ensures multiset(Entries(Rebuilt(owner, s))) == multiset(Live(Entries(s.ledger)))
  {
    forall e: Entry
      ensures multiset(Entries(Rebuilt(owner, s)))[e] == multiset(Live(Entries(s.ledger)))[e]
    {
      SameCount(owner, s, e);
    }
  }

  /**
   * The migration's rows are, as a multiset of (booking, type, amount, renter, provider), the live ledger with
   * refunds erased, exactly when no paid booking was originally quoted at zero.
   */
  lemma BackfillAgreesIff(owner: Id -> Id, s: State)
    requires AllAccounted(owner, s)
    ensures multiset(Entries(Rebuilt(owner, s))) == multiset(Live(Entries(s.ledger)))
       <==> forall id :: 0 <= id < |s.bookings| ==> ChargedForSomething(FileOf(s, id))
  {
    if id :| 0 <= id < |s.bookings| && !ChargedForSomething(FileOf(s, id)) {
      ZeroChargeDiffers(owner, s, id);
    } else {
      AgreesWhenCharged(owner, s);
    }
  }

  lemma RebuiltHasZero(owner: Id -> Id, s: State, id: Id, zero: Entry)
    requires AllBasic(s) && id < |s.bookings| && FirstCharge(FileOf(s, id)) == [zero]
    ensures zero in Entries(Rebuilt(owner, s))
  {
    BookingRebuilt(owner, s, id);
    assert RowsFor(Rebuilt(owner, s), id)[0] == zero;
    OfMembers(Entries(Rebuilt(owner, s)), EntryBooking, id);
  }

  lemma LiveLacksZero(owner: Id -> Id, s: State, zero: Entry)
    requires AllAccounted(owner, s) && zero.booking < |s.bookings| && zero.amount <= 0
    ensures zero !in Live(Entries(s.ledger))
  {
    if zero in Live(Entries(s.ledger)) {
      OfMembers(Live(Entries(s.ledger)), EntryBooking, zero.booking);
      LiveOf(Entries(s.ledger), zero.booking);
      LivePositive(owner, FileOf(s, zero.booking), zero);
    }
  }

  /** A booking paid at zero gets a zero row from the migration, which the live ledger never has. */
  lemma ZeroChargeDiffers(owner: Id -> Id, s: State, id: Id)
    requires AllAccounted(owner, s) && id < |s.bookings| && !ChargedForSomething(FileOf(s, id))
    ensures multiset(Entries(Rebuilt(owner, s))) != multiset(Live(Entries(s.ledger)))
  {
    var zero := FirstCharge(FileOf(s, id))[0];
    RebuiltHasZero(owner, s, id, zero);
    LiveLacksZero(owner, s, zero);
    assert zero in multiset(Entries(Rebuilt(owner, s)));
  }
}
