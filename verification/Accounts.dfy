/** The money of one booking: which ledger rows it must have, and where its charges went. */
module Accounts {
  import opened Domain
  import opened Cancellation
  import opened CaseFile
  import opened Invariants

  /** All rows but refunds, in order. */
  function Live(rows: seq<Entry>): seq<Entry> {
    if rows == [] then []
    else Live(rows[..|rows| - 1]) + if Last(rows).kind == Refund then [] else [Last(rows)]
  }

  function Refunds(rows: seq<Entry>): seq<Entry> {
    if rows == [] then []
    else Refunds(rows[..|rows| - 1]) + if Last(rows).kind == Refund then [Last(rows)] else []
  }

  function Sum(rows: seq<Entry>, kind: Kind): int {
    if rows == [] then 0
    else Sum(rows[..|rows| - 1], kind) + if Last(rows).kind == kind then Last(rows).amount else 0
  }

  lemma {:induction false} ConcatParts(xs: seq<Entry>, ys: seq<Entry>)
    ensures Live(xs + ys) == Live(xs) + Live(ys)
    ensures Refunds(xs + ys) == Refunds(xs) + Refunds(ys)
  {
    if ys == [] {
      assert xs + ys == xs;
    } else {
      assert (xs + ys)[..|xs + ys| - 1] == xs + ys[..|ys| - 1];
      ConcatParts(xs, ys[..|ys| - 1]);
    }
  }

  lemma {:induction false} Concat(xs: seq<Entry>, ys: seq<Entry>, kind: Kind)
    ensures Sum(xs + ys, kind) == Sum(xs, kind) + Sum(ys, kind)
  {
    if ys == [] {
      assert xs + ys == xs;
    } else {
      assert (xs + ys)[..|xs + ys| - 1] == xs + ys[..|ys| - 1];
      Concat(xs, ys[..|ys| - 1], kind);
    }
  }

  // ---------- the rows a booking must have ----------

  function ExtensionCharges(id: Id, renter: Id, reqs: seq<ExtensionRequest>): seq<Entry> {
    if reqs == [] then []
    else
      var r := Last(reqs);
      ExtensionCharges(id, renter, reqs[..|reqs| - 1])
      + if r.status == Approved then Post(id, Charge, r.rental + r.service, Some(renter), None) else []
  }

  /** One charge for the original quote, one per approved extension, once paid for. */
  function Charges(f: File): seq<Entry> {
    if f.b.paid.None? then []
    else PostCharge(f, f.o.quote.total) + ExtensionCharges(f.id, f.b.renter, f.reqs)
  }

  /** What the dispute, if there was one, takes off the deposit. */
  function Forfeited(f: File): nat { if |f.disputes| == 1 then Deduction(f.disputes[0].final) else 0 }

  /** What completion pays out: the deposit, split by the dispute if there was one, and the rental fee. */
  ghost function Payout(owner: Id -> Id, f: File): seq<Entry> {
    if f.b.status != Completed then []
    else
      PostRelease(f, f.b.deposit - Forfeited(f)) + PostForfeit(f, owner(f.b.listing), Forfeited(f))
      + PostEarning(f, owner(f.b.listing))
  }

  /** Refunds aside, the booking's ledger rows are its charges and its payout, in this order. */
  ghost predicate Accounted(owner: Id -> Id, f: File) {
    Live(f.rows) == Charges(f) + Payout(owner, f)
  }

  /** Only cancelled paid bookings have a refund, of the amount the policy gave at the time of cancelling. */
  predicate RefundedOnce(f: File) {
    Refunds(f.rows) == if f.b.status == Cancelled && f.b.paid.Some? && f.hist != []
                       then PostRefund(f, RefundAt(f.b, Last(f.hist).at)) else []
  }

  // ---------- conservation for one booking ----------

  function Penalty(f: File): int {
    if f.hist == [] then 0
    else ComputeRefund(f.b.policy, f.b.startsAt, Last(f.hist).at, f.b.total, f.b.deposit).penalty
  }

  /** What the platform still holds of a booking's charges. */
  function Retained(f: File): int {
    if f.b.paid.None? then 0
    else match f.b.status
      case Completed => f.b.service
      case Cancelled => Penalty(f)
      case _ => f.b.total
  }

  /** How far the charges of a booking exceed what was paid out of them or is still held. */
  function Gap(f: File): int {
    Sum(f.rows, Charge) - Sum(f.rows, Refund) - Sum(f.rows, DepositRelease)
    - Sum(f.rows, ProviderEarning) - Sum(f.rows, ProviderForfeitCredit) - Retained(f)
  }

  lemma {:induction false} SumPost(id: Id, kind: Kind, amount: int, renter: Option<Id>, provider: Option<Id>, k: Kind)
    requires amount >= 0
    ensures Sum(Post(id, kind, amount, renter, provider), k) == if k == kind then amount else 0
  {
    if amount > 0 {
      assert [Entry(id, kind, amount, renter, provider)][..0] == [];
    }
  }

  lemma PartsPost(id: Id, kind: Kind, amount: int, renter: Option<Id>, provider: Option<Id>)
    ensures var rows := Post(id, kind, amount, renter, provider);
            Live(rows) == (if kind == Refund then [] else rows)
              && Refunds(rows) == (if kind == Refund then rows else [])
  {
    if amount > 0 {
      assert [Entry(id, kind, amount, renter, provider)][..0] == [];
    }
  }

  lemma {:induction false} SumExtensions(id: Id, renter: Id, reqs: seq<ExtensionRequest>, k: Kind)
    ensures Sum(ExtensionCharges(id, renter, reqs), k)
         == if k == Charge then ApprovedRental(reqs) + ApprovedService(reqs) else 0
  {
    if reqs == [] {
    } else {
      var r := Last(reqs);
      var init := reqs[..|reqs| - 1];
      SumExtensions(id, renter, init, k);
      SumPost(id, Charge, r.rental + r.service, Some(renter), None, k);
      Concat(ExtensionCharges(id, renter, init), Post(id, Charge, r.rental + r.service, Some(renter), None), k);
      Concat(ExtensionCharges(id, renter, init), [], k);
    }
  }

  lemma {:induction false} SumSnoc(rows: seq<Entry>, e: Entry, k: Kind)
    ensures Sum(rows + [e], k) == Sum(rows, k) + if e.kind == k then e.amount else 0
  {
    assert (rows + [e])[..|rows + [e]| - 1] == rows;
  }

  /** Refunds aside, sums can be read off the live rows; refunds off the refund rows. */
  lemma {:induction false} SumOfParts(rows: seq<Entry>, k: Kind)
    ensures k != Refund ==> Sum(Live(rows), k) == Sum(rows, k)
    ensures k == Refund ==> Sum(Refunds(rows), k) == Sum(rows, k)
  {
    if rows == [] {
    } else {
      var init := rows[..|rows| - 1];
      SumOfParts(init, k);
      if Last(rows).kind == Refund {
        assert Live(rows) == Live(init);
        SumSnoc(Refunds(init), Last(rows), k);
      } else {
        assert Refunds(rows) == Refunds(init);
        SumSnoc(Live(init), Last(rows), k);
      }
    }
  }

  /** The charges of a paid booking are exactly its current total. */
  lemma {:induction false} ChargesSum(f: File, k: Kind)
    requires Basic(f)
    ensures Sum(Charges(f), k) == if k == Charge && f.b.paid.Some? then f.b.total else 0
  {
    if f.b.paid.Some? {
      SumPost(f.id, Charge, f.o.quote.total, Some(f.b.renter), None, k);
      SumExtensions(f.id, f.b.renter, f.reqs, k);
      Concat(PostCharge(f, f.o.quote.total), ExtensionCharges(f.id, f.b.renter, f.reqs), k);
    }
  }

  /** Released deposit and forfeited share make up the deposit exactly: the clamp at zero never acts. */
  lemma {:induction false} PayoutSum(owner: Id -> Id, f: File, k: Kind)
    requires Basic(f) && f.b.status == Completed
    ensures 0 <= Forfeited(f) <= f.b.deposit
    ensures Sum(Payout(owner, f), k) == match k
            case DepositRelease => f.b.deposit - Forfeited(f)
            case ProviderForfeitCredit => Forfeited(f)
            case ProviderEarning => f.b.rental
            case _ => 0
  {
    var provider := owner(f.b.listing);
    var release, forfeit, earning :=
      PostRelease(f, f.b.deposit - Forfeited(f)), PostForfeit(f, provider, Forfeited(f)), PostEarning(f, provider);
    SumPost(f.id, DepositRelease, f.b.deposit - Forfeited(f), Some(f.b.renter), None, k);
    SumPost(f.id, ProviderForfeitCredit, Forfeited(f), None, Some(provider), k);
    SumPost(f.id, ProviderEarning, f.b.rental, None, Some(provider), k);
    SumThree(release, forfeit, earning, k);
  }

  lemma {:induction false} SumThree(x: seq<Entry>, y: seq<Entry>, z: seq<Entry>, k: Kind)
    ensures Sum(x + y + z, k) == Sum(x, k) + Sum(y, k) + Sum(z, k)
  {
    Concat(x, y, k);
    Concat(x + y, z, k);
  }

  /** The ledger sums of a booking with the right rows, kind by kind. */
  lemma {:induction false} SumsOfAccounted(owner: Id -> Id, f: File, k: Kind)
    requires Basic(f) && Accounted(owner, f) && k != Refund
    ensures Sum(f.rows, k) == (if k == Charge && f.b.paid.Some? then f.b.total else 0)
                              + if f.b.status == Completed then Sum(Payout(owner, f), k) else 0
  {
    SumOfParts(f.rows, k);
    Concat(Charges(f), Payout(owner, f), k);
    ChargesSum(f, k);
  }

  lemma RefundSum(f: File)
    requires Basic(f) && RefundedOnce(f)
    ensures Sum(f.rows, Refund) ==
            if f.b.status == Cancelled && f.b.paid.Some? then f.b.total - Penalty(f) else 0
  {
    SumOfParts(f.rows, Refund);
    if f.b.status == Cancelled && f.b.paid.Some? {
      RefundWithinTotal(f.b.policy, f.b.startsAt, Last(f.hist).at, f.b.total, f.b.deposit);
      SumPost(f.id, Refund, RefundAt(f.b, Last(f.hist).at), Some(f.b.renter), None, Refund);
    }
  }

  /** A booking with the right rows is balanced: every charged unit was paid out or is still held. */
  lemma Balanced(owner: Id -> Id, f: File)
    requires Basic(f) && Accounted(owner, f) && RefundedOnce(f)
    ensures Gap(f) == 0
  {
    SumsOfAccounted(owner, f, Charge);
    SumsOfAccounted(owner, f, DepositRelease);
    SumsOfAccounted(owner, f, ProviderEarning);
    SumsOfAccounted(owner, f, ProviderForfeitCredit);
    RefundSum(f);
    if f.b.status == Completed {
      PayoutSum(owner, f, Charge);
      PayoutSum(owner, f, DepositRelease);
      PayoutSum(owner, f, ProviderEarning);
      PayoutSum(owner, f, ProviderForfeitCredit);
    }
  }

  // ---------- moves ----------

  /** Approving an extension of a completed booking charges for time whose earning was already paid out. */
  predicate ExtendsInTime(f: File, m: Move) {
    m.MExtend? && f.reqs != [] ==> f.b.status != Completed || Last(f.reqs).rental + Last(f.reqs).service == 0
  }

  /** Handing over a cancelled booking revives one whose refund was already paid out. */
  predicate HandsOverUnrefunded(f: File, m: Move) {
    m.MHandover? ==> f.b.status == Confirmed || Refunds(f.rows) == []
  }

  predicate Safe(f: File, m: Move) { ExtendsInTime(f, m) && HandsOverUnrefunded(f, m) }

  /** Adding charge, release, forfeit or earning rows grows the live rows and leaves the refunds alone. */
  lemma {:induction false} PartsGrow(rows: seq<Entry>, more: seq<Entry>)
    requires Refunds(more) == []
    ensures Live(rows + more) == Live(rows) + Live(more) && Refunds(rows + more) == Refunds(rows)
  {
    ConcatParts(rows, more);
  }

  lemma Units(xs: seq<Entry>)
    ensures xs + [] == xs && [] + xs == xs
  {
  }

  lemma Assoc(xs: seq<Entry>, ys: seq<Entry>, zs: seq<Entry>)
    ensures (xs + ys) + zs == xs + (ys + zs)
  {
  }

  /** Before any row there is nothing to account for. */
  lemma BlankAccounted(owner: Id -> Id, f: File)
    requires f.rows == [] && f.b.paid.None? && f.b.status != Completed
    ensures Accounted(owner, f) && RefundedOnce(f)
  {
    Units([]);
  }

  lemma BornAccounted(owner: Id -> Id, id: Id, b: Booking, q: Quote, actor: Id, now: Time, reference: string)
    requires b.status == Pending && b.paid.None?
    ensures Accounted(owner, Newborn(id, b, q, actor, now, reference))
    ensures RefundedOnce(Newborn(id, b, q, actor, now, reference))
  {
    var f := Newborn(id, b, q, actor, now, reference);
    if b.mode == OnRequest {
      BlankAccounted(owner, f);
    } else {
      var charge := PostCharge(f, q.total);
      Units(charge);
      PartsPost(id, Charge, q.total, Some(b.renter), None);
      assert f.rows == charge;
      assert Charges(f) == charge;
      assert Payout(owner, f) == [];
    }
  }

  /** Payment turns a booking without rows into one with the charge alone. */
  lemma ApproveCharges(owner: Id -> Id, f: File, m: Move)
    requires m.MApprove? && Basic(f) && Enabled(owner, f, m)
    ensures var f' := Apply(owner, f, m);
            && f'.rows == f.rows + PostCharge(f, f.b.total)
            && Charges(f) == [] && Charges(f') == PostCharge(f, f.b.total) + []
            && Payout(owner, f) == [] && Payout(owner, f') == []
  {
    assert f.reqs == [] && f.b.total == f.o.quote.total;
  }

  lemma ApproveAccounts(owner: Id -> Id, f: File, m: Move)
    requires m.MApprove? && Basic(f) && Accounted(owner, f) && Enabled(owner, f, m)
    ensures Accounted(owner, Apply(owner, f, m)) && Refunds(Apply(owner, f, m).rows) == Refunds(f.rows)
  {
    var charge := PostCharge(f, f.b.total);
    ApproveCharges(owner, f, m);
    PartsPost(f.id, Charge, f.b.total, Some(f.b.renter), None);
    PartsGrow(f.rows, charge);
    Units(charge);
    Units([]);
  }

  lemma CancelAccounts(owner: Id -> Id, f: File, m: Move)
    requires m.MCancel? && Basic(f) && Accounted(owner, f) && Enabled(owner, f, m)
    ensures Accounted(owner, Apply(owner, f, m))
  {
    if f.b.status == Confirmed {
      PartsPost(f.id, Refund, RefundAt(f.b, m.now), Some(f.b.renter), None);
      ConcatParts(f.rows, PostRefund(f, RefundAt(f.b, m.now)));
      Units(Live(f.rows));
    } else {
      Units(f.rows);
    }
  }

  lemma CancelRefunds(owner: Id -> Id, f: File, m: Move)
    requires m.MCancel? && Basic(f) && RefundedOnce(f) && Enabled(owner, f, m)
    ensures RefundedOnce(Apply(owner, f, m))
  {
    TrailIsPath(f.id, f.b.At(), [Point(f.b.stage, Cancelled)], m.actor, m.now);
    if f.b.status == Confirmed {
      PartsPost(f.id, Refund, RefundAt(f.b, m.now), Some(f.b.renter), None);
      ConcatParts(f.rows, PostRefund(f, RefundAt(f.b, m.now)));
      Units(PostRefund(f, RefundAt(f.b, m.now)));
    } else {
      Units(f.rows);
    }
  }

  lemma PayoutParts(owner: Id -> Id, f: File, release: int, forfeit: int)
    ensures var p := PostRelease(f, release) + PostForfeit(f, owner(f.b.listing), forfeit)
            + PostEarning(f, owner(f.b.listing));
            Live(p) == p && Refunds(p) == []
  {
    var x, y, z := PostRelease(f, release), PostForfeit(f, owner(f.b.listing), forfeit),
      PostEarning(f, owner(f.b.listing));
    PartsPost(f.id, DepositRelease, release, Some(f.b.renter), None);
    PartsPost(f.id, ProviderForfeitCredit, forfeit, None, Some(owner(f.b.listing)));
    PartsPost(f.id, ProviderEarning, f.b.rental, None, Some(owner(f.b.listing)));
    ConcatParts(x, y);
    ConcatParts(x + y, z);
  }

  /** The rows a completing move adds are exactly the payout of the file it leaves. */
  lemma CompletionRows(owner: Id -> Id, f: File, m: Move)
    requires (m.MInspectClean? || m.MResolve?) && Basic(f) && Enabled(owner, f, m)
    ensures var f' := Apply(owner, f, m);
            && f'.rows == f.rows + Payout(owner, f')
            && f'.b.status == Completed && Charges(f') == Charges(f) && Payout(owner, f) == []
            && 0 <= Forfeited(f') <= f.b.deposit
  {
    if m.MInspectClean? {
      Units(PostRelease(f, f.b.deposit));
    }
  }

  lemma PayoutLive(owner: Id -> Id, f: File)
    ensures Live(Payout(owner, f)) == Payout(owner, f) && Refunds(Payout(owner, f)) == []
  {
    PayoutParts(owner, f, f.b.deposit - Forfeited(f), Forfeited(f));
  }

  lemma {:induction false} AppendLive(rows: seq<Entry>, charges: seq<Entry>, more: seq<Entry>)
    requires Live(rows) == charges + [] && Live(more) == more && Refunds(more) == []
    ensures Live(rows + more) == charges + more && Refunds(rows + more) == Refunds(rows)
  {
    PartsGrow(rows, more);
    Units(charges);
  }

  /** Paying out completes the account of a file that had its charges only. */
  lemma PayoutCompletes(owner: Id -> Id, f: File, f': File)
    requires Accounted(owner, f) && f'.rows == f.rows + Payout(owner, f')
    requires Charges(f') == Charges(f) && Payout(owner, f) == []
    ensures Accounted(owner, f') && Refunds(f'.rows) == Refunds(f.rows)
  {
    PayoutLive(owner, f');
    AppendLive(f.rows, Charges(f), Payout(owner, f'));
  }

  lemma CompleteAccounts(owner: Id -> Id, f: File, m: Move)
    requires m.MInspectClean? || m.MResolve?
    requires Basic(f) && Accounted(owner, f) && Enabled(owner, f, m)
    ensures Accounted(owner, Apply(owner, f, m)) && Refunds(Apply(owner, f, m).rows) == Refunds(f.rows)
  {
    CompletionRows(owner, f, m);
    PayoutCompletes(owner, f, Apply(owner, f, m));
  }

  /** Rewriting or adding the last request changes the extension charges only at the end. */
  lemma ChargesOfRequests(f: File)
    requires f.reqs != []
    ensures var r := Last(f.reqs);
            ExtensionCharges(f.id, f.b.renter, f.reqs) ==
            ExtensionCharges(f.id, f.b.renter, f.reqs[..|f.reqs| - 1])
            + if r.status == Approved then Post(f.id, Charge, r.rental + r.service, Some(f.b.renter), None) else []
  {
  }

  lemma ExtendRequests(owner: Id -> Id, f: File, m: Move)
    requires m.MExtend? && Enabled(owner, f, m)
    ensures var f' := Apply(owner, f, m);
            var charge := PostCharge(f, Last(f.reqs).rental + Last(f.reqs).service);
            ExtensionCharges(f.id, f.b.renter, f'.reqs) == ExtensionCharges(f.id, f.b.renter, f.reqs) + charge
  {
    var f' := Apply(owner, f, m);
    ChainFrames(f.reqs, Last(f'.reqs));
    ChargesOfRequests(f);
    ChargesOfRequests(f');
    Units(ExtensionCharges(f.id, f.b.renter, f.reqs[..|f.reqs| - 1]));
  }

  lemma ExtendCharges(owner: Id -> Id, f: File, m: Move)
    requires m.MExtend? && Basic(f) && Enabled(owner, f, m)
    ensures Charges(Apply(owner, f, m)) == Charges(f) + PostCharge(f, Last(f.reqs).rental + Last(f.reqs).service)
  {
    ExtendRequests(owner, f, m);
    Assoc(PostCharge(f, f.o.quote.total), ExtensionCharges(f.id, f.b.renter, f.reqs),
          PostCharge(f, Last(f.reqs).rental + Last(f.reqs).service));
    assert f.b.paid.Some?;
  }

  /** The new charge joins the live rows. */
  lemma ExtendLive(owner: Id -> Id, f: File, m: Move)
    requires m.MExtend? && Enabled(owner, f, m)
    ensures var rows := Apply(owner, f, m).rows;
            && Live(rows) == Live(f.rows) + PostCharge(f, Last(f.reqs).rental + Last(f.reqs).service)
            && Refunds(rows) == Refunds(f.rows)
  {
    var amount := Last(f.reqs).rental + Last(f.reqs).service;
    PartsPost(f.id, Charge, amount, Some(f.b.renter), None);
    PartsGrow(f.rows, PostCharge(f, amount));
  }

  /** A charge can be added before the payout when one of the two is empty. */
  lemma ChargeBeforePayout(live: seq<Entry>, charges: seq<Entry>, payout: seq<Entry>, charge: seq<Entry>)
    requires live == charges + payout && (charge == [] || payout == [])
    ensures live + charge == (charges + charge) + payout
  {
  }

  lemma ExtendAccounts(owner: Id -> Id, f: File, m: Move)
    requires m.MExtend? && Basic(f) && Accounted(owner, f) && Enabled(owner, f, m) && ExtendsInTime(f, m)
    ensures Accounted(owner, Apply(owner, f, m))
  {
    var charge := PostCharge(f, Last(f.reqs).rental + Last(f.reqs).service);
    var payout := Payout(owner, f);
    assert Payout(owner, Apply(owner, f, m)) == payout && (charge == [] || payout == []);
    ChargeBeforePayout(Live(f.rows), Charges(f), payout, charge);
    ExtendCharges(owner, f, m);
    ExtendLive(owner, f, m);
  }

  /** Requesting, declining or withdrawing an extension costs nothing. */
  lemma RequestCharges(owner: Id -> Id, f: File, m: Move)
    requires (m.MRequest? || m.MCloseRequest?) && Enabled(owner, f, m)
    ensures Charges(Apply(owner, f, m)) == Charges(f)
  {
    var f' := Apply(owner, f, m);
    ChargesOfRequests(f');
    if m.MCloseRequest? {
      ChainFrames(f.reqs, Last(f'.reqs));
      ChargesOfRequests(f);
    } else {
      ChainGrows(f.reqs, Last(f'.reqs));
      Units(ExtensionCharges(f.id, f.b.renter, f.reqs));
    }
  }

  lemma StageRows(owner: Id -> Id, f: File, m: Move)
    requires m.MDecline? || m.MHandover? || m.MSchedule? || m.MReturn? || m.MInspectDamage?
    requires Basic(f) && Enabled(owner, f, m)
    ensures var f' := Apply(owner, f, m);
            f'.rows == f.rows && Charges(f') == Charges(f) && Payout(owner, f) == [] && Payout(owner, f') == []
  {
    Units(f.rows);
  }

  /** Moves along the lifecycle that cost nothing and pay out nothing. */
  lemma StageAccounts(owner: Id -> Id, f: File, m: Move)
    requires m.MDecline? || m.MHandover? || m.MSchedule? || m.MReturn? || m.MInspectDamage?
    requires Basic(f) && Accounted(owner, f) && Enabled(owner, f, m)
    ensures Accounted(owner, Apply(owner, f, m)) && Apply(owner, f, m).rows == f.rows
  {
    StageRows(owner, f, m);
  }

  lemma DisputeAccounts(owner: Id -> Id, f: File, m: Move)
    requires m.MPropose? || m.MContest?
    requires Basic(f) && Accounted(owner, f) && Enabled(owner, f, m)
    ensures Accounted(owner, Apply(owner, f, m)) && Apply(owner, f, m).rows == f.rows
  {
  }

  /** Moves that write a charge or a payout. */
  lemma PaymentAccounts(owner: Id -> Id, f: File, m: Move)
    requires m.MApprove? || m.MCancel? || m.MInspectClean? || m.MResolve? || m.MExtend?
    requires Basic(f) && Accounted(owner, f) && Enabled(owner, f, m) && ExtendsInTime(f, m)
    ensures Accounted(owner, Apply(owner, f, m))
  {
    if m.MApprove? {
      ApproveAccounts(owner, f, m);
    } else if m.MCancel? {
      CancelAccounts(owner, f, m);
    } else if m.MExtend? {
      ExtendAccounts(owner, f, m);
    } else {
      CompleteAccounts(owner, f, m);
    }
  }

  lemma RequestFrames(owner: Id -> Id, f: File, m: Move)
    requires (m.MRequest? || m.MCloseRequest?) && Enabled(owner, f, m)
    ensures var f' := Apply(owner, f, m);
            f'.rows == f.rows && f'.b == f.b && f'.id == f.id && f'.disputes == f.disputes
  {
  }

  lemma SamePayout(owner: Id -> Id, f: File, f': File)
    requires f'.b == f.b && f'.id == f.id && f'.disputes == f.disputes
    ensures Payout(owner, f') == Payout(owner, f)
  {
  }

  lemma RequestAccounts(owner: Id -> Id, f: File, m: Move)
    requires (m.MRequest? || m.MCloseRequest?) && Accounted(owner, f) && Enabled(owner, f, m)
    ensures Accounted(owner, Apply(owner, f, m))
  {
    RequestCharges(owner, f, m);
    RequestFrames(owner, f, m);
    SamePayout(owner, f, Apply(owner, f, m));
  }

  /** The live rows stay right through every move but a paid extension of a completed booking. */
  lemma AccountsKept(owner: Id -> Id, f: File, m: Move)
    requires Basic(f) && Accounted(owner, f) && Enabled(owner, f, m) && ExtendsInTime(f, m)
    ensures Accounted(owner, Apply(owner, f, m))
  {
    if m.MApprove? || m.MCancel? || m.MInspectClean? || m.MResolve? || m.MExtend? {
      PaymentAccounts(owner, f, m);
    } else if m.MRequest? || m.MCloseRequest? {
      RequestAccounts(owner, f, m);
    } else if m.MPropose? || m.MContest? {
      DisputeAccounts(owner, f, m);
    } else if !m.Nothing? {
      StageAccounts(owner, f, m);
    }
  }

  /** Only a cancellation writes refund rows. */
  lemma OtherRefunds(owner: Id -> Id, f: File, m: Move)
    requires Basic(f) && Accounted(owner, f) && Enabled(owner, f, m) && !m.MCancel?
    ensures Refunds(Apply(owner, f, m).rows) == Refunds(f.rows)
  {
    match m
    case MApprove(_, _, _) => ApproveAccounts(owner, f, m);
    case MInspectClean(_, _, _) => CompleteAccounts(owner, f, m);
    case MResolve(_, _, _, _, _) => CompleteAccounts(owner, f, m);
    case MExtend(_, _, _) => ExtendLive(owner, f, m);
    case Nothing =>
    case MRequest(_, _, _, _) =>
    case MCloseRequest(_) =>
    case MPropose(_, _) =>
    case MContest =>
    case _ => StageAccounts(owner, f, m);
  }

  /** Nothing but a handover or staying put is possible once a paid booking is cancelled. */
  lemma CancelledStuck(owner: Id -> Id, f: File, m: Move)
    requires Basic(f) && Enabled(owner, f, m) && !m.MCancel?
    ensures Apply(owner, f, m).b.status == Cancelled ==> m.Nothing?
    ensures f.b.status == Cancelled ==> m.Nothing? || m.MHandover?
  {
  }

  lemma RefundsKept(owner: Id -> Id, f: File, m: Move)
    requires Basic(f) && Accounted(owner, f) && RefundedOnce(f) && Enabled(owner, f, m) && HandsOverUnrefunded(f, m)
    ensures RefundedOnce(Apply(owner, f, m))
  {
    if m.MCancel? {
      CancelRefunds(owner, f, m);
    } else {
      OtherRefunds(owner, f, m);
      CancelledStuck(owner, f, m);
    }
  }

  // ---------- exactly which moves conserve money ----------

  lemma LateExtensionGap(owner: Id -> Id, f: File, m: Move)
    requires Basic(f) && Enabled(owner, f, m) && !ExtendsInTime(f, m)
    ensures Gap(Apply(owner, f, m)) == Gap(f) + Last(f.reqs).rental && Last(f.reqs).rental > 0
  {
    var charge := PostCharge(f, Last(f.reqs).rental + Last(f.reqs).service);
    forall k: Kind ensures Sum(f.rows + charge, k) == Sum(f.rows, k) + Sum(charge, k) {
      Concat(f.rows, charge, k);
    }
    SumPost(f.id, Charge, Last(f.reqs).rental + Last(f.reqs).service, Some(f.b.renter), None, Charge);
    SumPost(f.id, Charge, Last(f.reqs).rental + Last(f.reqs).service, Some(f.b.renter), None, Refund);
    SumPost(f.id, Charge, Last(f.reqs).rental + Last(f.reqs).service, Some(f.b.renter), None, DepositRelease);
    SumPost(f.id, Charge, Last(f.reqs).rental + Last(f.reqs).service, Some(f.b.renter), None, ProviderEarning);
    SumPost(f.id, Charge, Last(f.reqs).rental + Last(f.reqs).service, Some(f.b.renter), None, ProviderForfeitCredit);
  }

  lemma RevivalGap(owner: Id -> Id, f: File, m: Move)
    requires Basic(f) && RefundedOnce(f) && Enabled(owner, f, m) && !HandsOverUnrefunded(f, m)
    ensures Gap(Apply(owner, f, m)) < Gap(f)
  {
    assert f.b.At() == Point(Reserved, Cancelled);
    RefundSum(f);
    RefundWithinTotal(f.b.policy, f.b.startsAt, Last(f.hist).at, f.b.total, f.b.deposit);
    Units(f.rows);
  }

  /**
   * From a sound file, a move keeps the booking balanced exactly when it neither charges for
   * an extension of a completed booking nor hands over a cancelled booking that was refunded.
   */
  lemma MoveConservesIff(owner: Id -> Id, f: File, m: Move)
    requires Basic(f) && Accounted(owner, f) && RefundedOnce(f) && Enabled(owner, f, m)
    ensures Gap(Apply(owner, f, m)) == 0 <==> Safe(f, m)
  {
    Balanced(owner, f);
    if !ExtendsInTime(f, m) {
      LateExtensionGap(owner, f, m);
    } else if !HandsOverUnrefunded(f, m) {
      RevivalGap(owner, f, m);
    } else {
      BasicKept(owner, f, m);
      AccountsKept(owner, f, m);
      RefundsKept(owner, f, m);
      Balanced(owner, Apply(owner, f, m));
    }
  }
}
