/** Who occupies what: per-unit exclusion, turnaround separation and bulk capacity over runs. */
module Occupancy {
  import opened Domain
  import opened Availability
  import Quoting
  import opened Rules
  import opened CaseFile
  import opened Invariants
  import opened Runs
  import opened Lifecycle

  // ---------- what a step does to the bookings table ----------

  /** A row is appended after passing admission and, if installed, the constraint. */
  ghost predicate Inserts(env: Env, bs: seq<Booking>, bs': seq<Booking>) {
    && |bs'| == |bs| + 1 && bs'[..|bs|] == bs
    && var b := bs'[|bs|];
       && b.startsAt < b.endsAt && b.listing in env.catalog
       && Admit(bs, b.listing, env.catalog[b.listing], b.Span(), b.quantity) == Admitted(b.asset)
       && (env.exclusion ==> !Excluded(bs, |bs|, b))
  }

  /** Row `i` keeps its place and becomes blocking only if it was, or by a handover that ignores the status. */
  ghost predicate Rewrites(env: Env, bs: seq<Booking>, bs': seq<Booking>, i: Id, revived: bool) {
    && |bs'| == |bs| && i < |bs| && bs' == bs[i := bs'[i]]
    && bs'[i].Span() == bs[i].Span() && bs'[i].Unit() == bs[i].Unit() && bs'[i].listing == bs[i].listing
    && bs'[i].asset == bs[i].asset && bs'[i].quantity == bs[i].quantity
    && (bs'[i].Blocking() ==> bs[i].Blocking() || revived)
    && (env.exclusion ==> !Excluded(bs, i, bs'[i]))
  }

  /** Row `i` ends later; the added window was checked. */
  ghost predicate Extends(env: Env, bs: seq<Booking>, bs': seq<Booking>, i: Id) {
    && |bs'| == |bs| && i < |bs| && bs' == bs[i := bs'[i]]
    && bs[i].listing in env.catalog
    && bs'[i] == bs[i].(endsAt := bs'[i].endsAt, rental := bs'[i].rental, service := bs'[i].service,
                        total := bs'[i].total, paid := bs'[i].paid)
    && ExtensionError(bs, i, env.catalog[bs[i].listing], bs'[i].endsAt).None?
    && (env.exclusion ==> !Excluded(bs, i, bs'[i]))
  }

  /** All an action can do to who occupies what. */
  ghost predicate Occupies(env: Env, bs: seq<Booking>, bs': seq<Booking>, revived: bool) {
    || bs' == bs
    || Inserts(env, bs, bs')
    || (exists i :: Rewrites(env, bs, bs', i, revived))
    || (exists i :: Extends(env, bs, bs', i))
  }

  lemma WalkEffect(env: Env, s: State, id: Id, b: Booking, txs: seq<Transaction>, steps: seq<Point>, actor: Id,
                   revived: bool)
    requires id < |s.bookings| && steps != [] && b == s.bookings[id].(paid := b.paid)
    requires Walk(env, s, id, b, txs, steps, actor).Done?
    requires steps[|steps| - 1].status in {Pending, Confirmed} ==> s.bookings[id].Blocking() || revived
    ensures Rewrites(env, s.bookings, Walk(env, s, id, b, txs, steps, actor).state.bookings, id, revived)
  {
    var k := |steps| - 1;
    var end := b.(stage := steps[k].stage, status := steps[k].status);
    assert env.exclusion ==> !Excluded(s.bookings, id, end);
  }

  lemma InsertEffect(env: Env, s: State, b: Booking, q: Quote, actor: Id, reference: string)
    requires Insert(env, s, b, q, actor, reference).Done? && b.Blocking()
    ensures var bs' := Insert(env, s, b, q, actor, reference).state.bookings;
            && |bs'| == |s.bookings| + 1 && bs'[..|s.bookings|] == s.bookings
            && bs'[|s.bookings|] == b.(stage := bs'[|s.bookings|].stage, status := bs'[|s.bookings|].status,
                                       paid := bs'[|s.bookings|].paid)
            && (env.exclusion ==> !Excluded(s.bookings, |s.bookings|, bs'[|s.bookings|]))
  {
  }

  lemma CreateEffect(env: Env, s: State, a: Action)
    requires a.Create? && CreateOutcome(env, s, a).Done?
    ensures var bs' := CreateOutcome(env, s, a).state.bookings;
            bs' == s.bookings || Inserts(env, s.bookings, bs')
  {
    if CreateOutcome(env, s, a).state != s {
      var listing := env.catalog[a.listing];
      var q := Quoting.ComputeQuote(listing, a.from, a.to, a.quantity).value;
      var asset := Admit(s.bookings, a.listing, listing, Window(a.from, a.to), a.quantity).asset;
      InsertEffect(env, s, NewBooking(a, listing, asset, q), q, a.actor, a.reference);
    }
  }

  lemma EarlyEffect(env: Env, s: State, a: Action)
    requires (a.Approve? || a.Decline? || a.Cancel?) && Step(env, s, a).Done?
    ensures Rewrites(env, s.bookings, Step(env, s, a).state.bookings, a.booking, false)
  {
    var b := s.bookings[a.booking];
    match a
    case Approve(id, actor, reference) =>
      WalkEffect(env, s, id, b.(paid := Some(reference)),
                 Posted(RenterRow(Charge, id, b, b.total, None, Some(reference))), TO_RESERVED, actor, false);
    case Decline(id, actor) => WalkEffect(env, s, id, b, [], [Point(b.stage, Declined)], actor, false);
    case Cancel(id, actor) => WalkEffect(env, s, id, b, CancelRefund(env, id, b), [Point(b.stage, Cancelled)], actor,
                                         false);
  }

  lemma StageEffect(env: Env, s: State, a: Action)
    requires (a.ConfirmHandover? || a.ScheduleReturn? || a.ConfirmReturn?) && Step(env, s, a).Done?
    requires !a.ConfirmHandover? ==> s.bookings[a.booking].Blocking()
    ensures Rewrites(env, s.bookings, Step(env, s, a).state.bookings, a.booking,
                     a.ConfirmHandover? && s.bookings[a.booking].status != Confirmed)
  {
    var b := s.bookings[a.booking];
    match a
    case ConfirmHandover(id, actor) => WalkEffect(env, s, id, b, [], TO_ACTIVE, actor, b.status != Confirmed);
    case ScheduleReturn(id, actor) => WalkEffect(env, s, id, b, [], [Point(ReturnSched, Confirmed)], actor, false);
    case ConfirmReturn(id, actor) => WalkEffect(env, s, id, b, [], [Point(Returned, Confirmed)], actor, false);
  }

  lemma InspectEffect(env: Env, s: State, a: Action)
    requires a.RecordInspection? && Step(env, s, a).Done?
    ensures Rewrites(env, s.bookings, Step(env, s, a).state.bookings, a.booking, false)
  {
    var id, b := a.booking, s.bookings[a.booking];
    if a.damageFound {
      WalkEffect(env, s, id, b, [], [Point(Inspected, Confirmed), Point(Inspected, Disputed)], a.actor, false);
    } else {
      WalkEffect(env, s, id, b, CleanRows(id, b, env.catalog[b.listing].provider),
                 [Point(Inspected, Confirmed)] + TO_COMPLETED, a.actor, false);
    }
  }

  lemma FinalizeEffect(env: Env, s: State, k: Id, d: Dispute, deduction: nat, actor: Id)
    requires k < |s.disputes| && Finalize(env, s, k, d, deduction, actor).Done?
    ensures d.booking < |s.bookings|
    ensures Rewrites(env, s.bookings, Finalize(env, s, k, d, deduction, actor).state.bookings, d.booking, false)
  {
    var id, b := d.booking, s.bookings[d.booking];
    WalkEffect(env, s, id, b, FinalizeRows(id, b, env.catalog[b.listing].provider, deduction, k),
               [Point(b.stage, Confirmed)] + TO_COMPLETED, actor, false);
  }

  lemma DisputeEffect(env: Env, s: State, a: Action)
    requires (a.AdminResolve? || (a.RespondToProposal? && a.accept)) && Step(env, s, a).Done?
    ensures exists i :: Rewrites(env, s.bookings, Step(env, s, a).state.bookings, i, false)
  {
    var d := s.disputes[a.dispute];
    if a.AdminResolve? {
      FinalizeEffect(env, s, a.dispute, Settled(d, Some(a.amount), AdminDecided, a.actor), a.amount, a.actor);
    } else {
      FinalizeEffect(env, s, a.dispute, Settled(d, d.proposed, Agreed, a.actor),
                     if d.proposed.Some? then d.proposed.value else 0, a.actor);
    }
  }

  /** Event `e` hands over a booking that is not confirmed. */
  predicate Revives(s: State, e: Event) { !HandsOverConfirmed(s, e) }

  lemma LegalBlocking(s: State, id: Id)
    requires AllBasic(s) && id < |s.bookings| && s.bookings[id].stage in {Active, ReturnSched}
    ensures s.bookings[id].Blocking()
  {
    assert Legal(FileOf(s, id).b.At());
  }

  lemma {:induction false} StepEffect(s: State, e: Event)
    requires AllBasic(s)
    ensures Occupies(e.env, s.bookings, Next(e.env, s, e.action).bookings, Revives(s, e))
  {
    var env, a := e.env, e.action;
    if Step(env, s, a).Done? {
      if a.Create? {
        CreateEffect(env, s, a);
      } else if a.Approve? || a.Decline? || a.Cancel? {
        EarlyEffect(env, s, a);
      } else if a.ConfirmHandover? || a.ScheduleReturn? || a.ConfirmReturn? {
        if !a.ConfirmHandover? { LegalBlocking(s, a.booking); }
        StageEffect(env, s, a);
      } else if a.RecordInspection? {
        InspectEffect(env, s, a);
      } else if a.AdminResolve? || (a.RespondToProposal? && a.accept) {
        DisputeEffect(env, s, a);
      } else if a.ApproveExtension? {
        assert Extends(env, s.bookings, Next(env, s, a).bookings, s.requests[a.request].booking);
      }
    }
  }

  /** What a revival does: the row becomes blocking where it stands, whoever took its place meanwhile. */
  lemma RevivalEffect(s: State, e: Event)
    requires Revives(s, e)
    ensures var id, bs' := e.action.booking, Next(e.env, s, e.action).bookings;
            id < |s.bookings| && Rewrites(e.env, s.bookings, bs', id, true) && bs'[id].Blocking()
  {
    StageEffect(e.env, s, e.action);
  }
}
