/**
 * Payments racing each other: approving, declining, cancelling and handing over read and check the booking outside
 * their transaction, and commit later what they read, with any number of other requests in between.
 */
module PaymentRacing {
  import opened Domain
  import opened Availability
  import opened Rules
  import Acting

  /** The payment a commit asks for: a charge or a refund, of whatever amount. */
  datatype Call = Call(booking: Id, kind: Kind)

  /** A checked request: the row as it was read, where the commit moves it, and the payment it makes. */
  datatype Ticket = Ticket(id: Id, read: Booking, to: Point, pays: Option<Kind>)

  datatype Desk = Desk(bookings: seq<Booking>, payments: seq<Call>, tickets: map<nat, Ticket>)

  datatype Op =
    | ReadApprove(thread: nat, id: Id)
    | ReadDecline(thread: nat, id: Id)
    | ReadCancel(thread: nat, id: Id)
    | ReadHandover(thread: nat, id: Id)
    | Commit(thread: nat)

  /** What the request's check makes of the booking as it is now. */
  function Check(b: Booking, op: Op): Option<(Point, Option<Kind>)> {
    match op
    case ReadApprove(_, _) =>
      if b.mode == OnRequest && b.status == Pending then Some((Point(Reserved, Confirmed), Some(Charge))) else None
    case ReadDecline(_, _) => if b.status == Pending then Some((Point(b.stage, Declined), None)) else None
    case ReadCancel(_, _) =>
      if b.IsBeforePickup() && b.status != Cancelled
      then Some((Point(b.stage, Cancelled), if b.status == Confirmed then Some(Refund) else None)) else None
    case ReadHandover(_, _) => if b.stage in {Reserved, Ready} then Some((Point(Active, Confirmed), None)) else None
    case Commit(_) => None
  }

  /** The row a commit stores: the one it read, moved. */
  function Moved(ticket: Ticket): Booking { ticket.read.(stage := ticket.to.stage, status := ticket.to.status) }

  /** The thread has something to commit, and the constraint accepts it. */
  predicate Commits(d: Desk, t: nat) {
    && t in d.tickets && d.tickets[t].id < |d.bookings|
    && !Excluded(d.bookings, d.tickets[t].id, Moved(d.tickets[t]))
  }

  function Do(d: Desk, op: Op): Desk {
    if op.Commit? then
      if !Commits(d, op.thread) then d.(tickets := d.tickets - {op.thread})
      else
        var ticket := d.tickets[op.thread];
        Desk(d.bookings[ticket.id := Moved(ticket)],
             d.payments + (if ticket.pays.Some? then [Call(ticket.id, ticket.pays.value)] else []),
             d.tickets - {op.thread})
    else if op.id >= |d.bookings| then d.(tickets := d.tickets - {op.thread})
    else
      match Check(d.bookings[op.id], op)
      case None => d.(tickets := d.tickets - {op.thread})
      case Some((to, pays)) => d.(tickets := d.tickets[op.thread := Ticket(op.id, d.bookings[op.id], to, pays)])
  }

  function Schedule(d: Desk, ops: seq<Op>): Desk {
    if ops == [] then d else Do(Schedule(d, ops[..|ops| - 1]), ops[|ops| - 1])
  }

  function Paid(payments: seq<Call>, id: Id, kind: Kind): nat {
    if payments == [] then 0
    else
      var last := payments[|payments| - 1];
      Paid(payments[..|payments| - 1], id, kind) + if last == Call(id, kind) then 1 else 0
  }

  /** How often a booking at this point has been charged and refunded, if all is well. */
  function Due(p: Point, kind: Kind): nat {
    match kind
    case Charge => if p.stage != Requested then 1 else 0
    case Refund => if p.stage != Requested && p.status == Cancelled then 1 else 0
    case _ => 0
  }

  /** Charged once past REQUESTED, refunded once if cancelled after that, and not otherwise. */
  ghost predicate PaidRight(d: Desk) {
    forall id, kind :: 0 <= id < |d.bookings| ==> Paid(d.payments, id, kind) == Due(d.bookings[id].At(), kind)
  }

  function Extra(ticket: Ticket, kind: Kind): nat { if ticket.pays == Some(kind) then 1 else 0 }

  /** If the operation commits, its payment is the one still missing for where it moves the booking. */
  ghost predicate PaysWhatIsDue(d: Desk, op: Op) {
    op.Commit? && Commits(d, op.thread) ==>
      var ticket := d.tickets[op.thread];
      forall kind :: Due(d.bookings[ticket.id].At(), kind) + Extra(ticket, kind) == Due(ticket.to, kind)
  }

  /** The booking has been charged and refunded since exactly as it was when it was read. */
  ghost predicate SameMoney(b: Booking, read: Booking) {
    forall kind :: Due(b.At(), kind) == Due(read.At(), kind)
  }

  /** A point a booking can be at, as committed by these requests. */
  predicate AtRest(b: Booking) {
    && (b.status == Pending ==> b.stage == Requested)
    && (b.stage == Requested ==> b.status in {Pending, Declined, Cancelled})
    && b.status in {Pending, Confirmed, Declined, Cancelled}
    && (b.status == Declined ==> b.stage == Requested)
  }

  /** That is what a commit must find, unless it hands over a cancelled booking. */
  lemma DueMeansSame(b: Booking, read: Booking, op: Op)
    requires AtRest(read) && Check(read, op).Some? && (op.ReadHandover? ==> read.status != Cancelled)
    ensures var (to, pays) := Check(read, op).value;
            (forall kind :: Due(b.At(), kind) + (if pays == Some(kind) then 1 else 0) == Due(to, kind))
            <==> SameMoney(b, read)
  {
    var (to, pays) := Check(read, op).value;
    forall kind: Kind ensures Due(read.At(), kind) + (if pays == Some(kind) then 1 else 0) == Due(to, kind) { }
    if forall kind :: Due(b.At(), kind) + (if pays == Some(kind) then 1 else 0) == Due(to, kind) {
      forall kind: Kind ensures Due(b.At(), kind) == Due(read.At(), kind) { }
    }
  }

  lemma {:induction false} PaidMore(payments: seq<Call>, p: Call, id: Id, kind: Kind)
    ensures Paid(payments + [p], id, kind) == Paid(payments, id, kind) + if p == Call(id, kind) then 1 else 0
  {
    assert (payments + [p])[..|payments|] == payments;
  }

  /** What a commit adds for each booking and kind. */
  lemma {:induction false} CommitPays(d: Desk, t: nat, id: Id, kind: Kind)
    requires Commits(d, t) && id < |d.bookings|
    ensures var ticket := d.tickets[t];
            Paid(Do(d, Commit(t)).payments, id, kind)
            == Paid(d.payments, id, kind) + if id == ticket.id then Extra(ticket, kind) else 0
  {
    var ticket := d.tickets[t];
    if ticket.pays.Some? {
      PaidMore(d.payments, Call(ticket.id, ticket.pays.value), id, kind);
    } else {
      assert d.payments + [] == d.payments;
    }
  }

  /** One read or commit keeps payments right exactly when it does not pay something else than what is due. */
  lemma DoPaidIff(d: Desk, op: Op)
    requires PaidRight(d)
    ensures PaidRight(Do(d, op)) <==> PaysWhatIsDue(d, op)
  {
    if op.Commit? && Commits(d, op.thread) {
      var ticket, d' := d.tickets[op.thread], Do(d, op);
      forall id, kind | 0 <= id < |d.bookings|
        ensures Paid(d'.payments, id, kind) == Due(d'.bookings[id].At(), kind)
           <==> (id == ticket.id ==> Due(d.bookings[id].At(), kind) + Extra(ticket, kind) == Due(ticket.to, kind))
      {
        assert Paid(d.payments, id, kind) == Due(d.bookings[id].At(), kind);
        CommitPays(d, op.thread, id, kind);
      }
      if PaidRight(d') {
        forall kind: Kind
          ensures Due(d.bookings[ticket.id].At(), kind) + Extra(ticket, kind) == Due(ticket.to, kind)
        {
          assert Paid(d'.payments, ticket.id, kind) == Due(d'.bookings[ticket.id].At(), kind);
        }
      }
    } else {
      assert Do(d, op).bookings == d.bookings && Do(d, op).payments == d.payments;
      forall id, kind | 0 <= id < |d.bookings|
        ensures Paid(Do(d, op).payments, id, kind) == Due(Do(d, op).bookings[id].At(), kind)
      {
        assert Paid(d.payments, id, kind) == Due(d.bookings[id].At(), kind);
      }
    }
  }

  /**
   * Under any interleaving every booking is charged and refunded as often as it should be, all along, exactly when
   * every commit makes the payment still missing for where it moves the booking.
   */
  lemma {:induction false} SchedulePaidIff(d: Desk, ops: seq<Op>)
    requires PaidRight(d)
    ensures (forall k :: 0 <= k <= |ops| ==> PaidRight(Schedule(d, ops[..k])))
       <==> (forall k :: 0 <= k < |ops| ==> PaysWhatIsDue(Schedule(d, ops[..k]), ops[k]))
  {
    if forall k :: 0 <= k <= |ops| ==> PaidRight(Schedule(d, ops[..k])) {
      forall k | 0 <= k < |ops| ensures PaysWhatIsDue(Schedule(d, ops[..k]), ops[k]) {
        assert PaidRight(Schedule(d, ops[..k])) && PaidRight(Schedule(d, ops[..k + 1]));
        assert ops[..k + 1][..k] == ops[..k];
        DoPaidIff(Schedule(d, ops[..k]), ops[k]);
      }
    }
    if forall k :: 0 <= k < |ops| ==> PaysWhatIsDue(Schedule(d, ops[..k]), ops[k]) {
      forall k | 0 <= k <= |ops| ensures PaidRight(Schedule(d, ops[..k])) {
        RightWhileDue(d, ops, k);
      }
    }
  }

  lemma {:induction false} RightWhileDue(d: Desk, ops: seq<Op>, k: nat)
    requires PaidRight(d) && k <= |ops|
    requires forall j :: 0 <= j < k ==> PaysWhatIsDue(Schedule(d, ops[..j]), ops[j])
    ensures PaidRight(Schedule(d, ops[..k]))
  {
    if k == 0 {
      assert ops[..0] == [];
    } else {
      RightWhileDue(d, ops, k - 1);
      assert ops[..k][..k - 1] == ops[..k - 1];
      DoPaidIff(Schedule(d, ops[..k - 1]), ops[k - 1]);
    }
  }

  // ---------- two approvals ----------

  const ASKED := Booking(0, None, 0, 1, 0, 10, Pending, Requested, OnRequest, 5, 0, 0, 5, Flexible, None, None)

  const ONE_REQUEST := Desk([ASKED], [], map[])

  lemma {:induction false} ScheduleSnoc(d: Desk, ops: seq<Op>, op: Op)
    ensures Schedule(d, ops + [op]) == Do(Schedule(d, ops), op)
  {
    assert (ops + [op])[..|ops|] == ops;
  }

  lemma BothRead()
    ensures var ticket := Ticket(0, ASKED, Point(Reserved, Confirmed), Some(Charge));
            Do(Do(ONE_REQUEST, ReadApprove(0, 0)), ReadApprove(1, 0))
            == Desk([ASKED], [], map[0 := ticket, 1 := ticket])
  {
  }

  lemma BothCommit()
    ensures var ticket := Ticket(0, ASKED, Point(Reserved, Confirmed), Some(Charge));
            Do(Do(Desk([ASKED], [], map[0 := ticket, 1 := ticket]), Commit(0)), Commit(1)).payments
            == [Call(0, Charge), Call(0, Charge)]
  {
  }

  /** From a desk that is right, a schedule after which one booking was charged twice. */
  ghost predicate ChargesTwice(d: Desk, ops: seq<Op>) {
    PaidRight(d) && Schedule(d, ops).payments == [Call(0, Charge), Call(0, Charge)]
  }

  lemma TwoApprovalsChargeTwice()
    ensures exists d, ops :: ChargesTwice(d, ops)
  {
    var read0, read1 := ReadApprove(0, 0), ReadApprove(1, 0);
    ScheduleSnoc(ONE_REQUEST, [], read0);
    ScheduleSnoc(ONE_REQUEST, [read0], read1);
    ScheduleSnoc(ONE_REQUEST, [read0, read1], Commit(0));
    ScheduleSnoc(ONE_REQUEST, [read0, read1, Commit(0)], Commit(1));
    assert [] + [read0] == [read0] && [read0] + [read1] == [read0, read1]
        && [read0, read1] + [Commit(0)] == [read0, read1, Commit(0)];
    BothRead();
    BothCommit();
    assert ChargesTwice(ONE_REQUEST, [read0, read1, Commit(0)] + [Commit(1)]);
  }

  // ---------- undisturbed requests ----------

  /** The action a read prepares. */
  function ActionOf(op: Op, actor: Id, reference: string): Action
    requires !op.Commit?
  {
    match op
    case ReadApprove(_, id) => Approve(id, actor, reference)
    case ReadDecline(_, id) => Decline(id, actor)
    case ReadCancel(_, id) => Cancel(id, actor)
    case ReadHandover(_, id) => ConfirmHandover(id, actor)
  }

  /**
   * Undisturbed, reading and committing is the atomic action, constraint installed: every booking ends where the
   * action leaves it, and a payment is made exactly when the action makes one.
   */
  lemma {:induction false} UndisturbedIsStep(env: Env, s: State, d: Desk, op: Op, actor: Id, reference: string)
    requires env.exclusion && !op.Commit? && d.bookings == s.bookings
    ensures var d', s' := Do(Do(d, op), Commit(op.thread)), Next(env, s, ActionOf(op, actor, reference));
            && |d'.bookings| == |s'.bookings|
            && (forall i :: 0 <= i < |s'.bookings| ==> d'.bookings[i] == s'.bookings[i].(paid := s.bookings[i].paid))
            && d'.payments == d.payments +
                 if !Step(env, s, ActionOf(op, actor, reference)).Done? then []
                 else if op.ReadApprove? then [Call(op.id, Charge)]
                 else if op.ReadCancel? && s.bookings[op.id].status == Confirmed then [Call(op.id, Refund)]
                 else []
  {
    var id := op.id;
    assert d.payments + [] == d.payments;
    match op
    case ReadApprove(_, _) => Acting.ApproveIs(env, s, id, actor, reference); Placed(env, s, d, op);
    case ReadDecline(_, _) => Acting.DeclineIs(env, s, id, actor); Placed(env, s, d, op);
    case ReadCancel(_, _) => Acting.CancelIs(env, s, id, actor); Placed(env, s, d, op);
    case ReadHandover(_, _) => Acting.HandoverIs(env, s, id, actor); Placed(env, s, d, op);
  }

  lemma {:induction false} Placed(env: Env, s: State, d: Desk, op: Op)
    requires env.exclusion && !op.Commit? && d.bookings == s.bookings
    ensures op.id < |s.bookings| && Check(s.bookings[op.id], op).Some? ==>
              var to := Check(s.bookings[op.id], op).value.0;
              Excluded(s.bookings, op.id, s.bookings[op.id].(stage := to.stage, status := to.status))
              <==> (to.status == Pending || to.status == Confirmed) && !Acting.HasPlace(env, s, op.id)
  {
    if op.id < |s.bookings| && Check(s.bookings[op.id], op).Some? {
      var to := Check(s.bookings[op.id], op).value.0;
      if to.status == Pending || to.status == Confirmed {
        Acting.MayBlockIff(env, s, op.id, s.bookings[op.id], to);
      }
    }
  }
}
