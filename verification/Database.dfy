/** The tables, with the writes the services make on them. */
module Database {
  import opened Domain
  import opened Availability
  import opened Rules

  /** What a service call answers: the row it is about, or the error that rolled it back. */
  datatype Reply = Ok(id: Id) | Refused(error: Error)

  /** The call did what the rule says: committed its new state, or changed nothing. */
  ghost predicate Performs(o: Outcome, before: State, after: State, r: Reply) {
    match o
    case Done(state, id) => after == state && r == Ok(id)
    case Failed(error) => after == before && r == Refused(error)
  }

  class Tables {
    var bookings: seq<Booking>
    var ledger: seq<Transaction>
    var settlements: seq<Settlement>
    var history: seq<HistoryRow>
    var requests: seq<ExtensionRequest>
    var disputes: seq<Dispute>
    /** What each booking was created with; never read by a service. */
    var originals: seq<Original>

    function View(): State
      reads this
    {
      State(bookings, ledger, settlements, history, requests, disputes, originals)
    }

    constructor ()
      ensures View() == EMPTY
    {
      bookings, ledger, settlements, history, requests, disputes, originals := [], [], [], [], [], [], [];
    }

    /** The end of a failed transaction. */
    method Rollback(s: State)
      modifies this
      ensures View() == s
    {
      bookings, ledger, settlements, history := s.bookings, s.ledger, s.settlements, s.history;
      requests, disputes, originals := s.requests, s.disputes, s.originals;
    }

    /** save() of a booking row: refused by the constraint, or stored. */
    method SaveBooking(env: Env, id: Id, b: Booking) returns (ok: bool)
      requires id < |bookings|
      modifies this
      ensures ok == !(env.exclusion && Excluded(old(bookings), id, b))
      ensures View() == if ok then old(View()).(bookings := old(bookings)[id := b]) else old(View())
    {
      ok := !(env.exclusion && Excluded(bookings, id, b));
      if ok {
        bookings := bookings[id := b];
      }
    }

    /** save() of a new booking row. */
    method InsertBooking(env: Env, b: Booking, o: Original) returns (error: Option<Error>)
      modifies this
      ensures error == if b.key.Some? && FindByKey(old(bookings), b.key.value).Some? then Some(UniqueViolation)
                       else if env.exclusion && Excluded(old(bookings), |old(bookings)|, b)
                       then Some(ExclusionViolation) else None
      ensures View() == if error.Some? then old(View())
                        else old(View()).(bookings := old(bookings) + [b], originals := old(originals) + [o])
    {
      if b.key.Some? && FindByKey(bookings, b.key.value).Some? {
        return Some(UniqueViolation);
      }
      if env.exclusion && Excluded(bookings, |bookings|, b) {
        return Some(ExclusionViolation);
      }
      bookings, originals := bookings + [b], originals + [o];
      return None;
    }

    method AppendHistory(row: HistoryRow)
      modifies this
      ensures View() == old(View()).(history := old(history) + [row])
    {
      history := history + [row];
    }

    /** save() of a new extension request, under uq_pending_extension_per_booking. */
    method InsertRequest(r: ExtensionRequest) returns (ok: bool)
      requires r.status == RequestPending
      modifies this
      ensures ok == !exists k :: 0 <= k < |old(requests)| && old(requests)[k].booking == r.booking
                                 && old(requests)[k].status == RequestPending
      ensures View() == if ok then old(View()).(requests := old(requests) + [r]) else old(View())
    {
      ok := !exists k :: 0 <= k < |requests| && requests[k].booking == r.booking
                         && requests[k].status == RequestPending;
      if ok {
        requests := requests + [r];
      }
    }

    method SaveRequest(k: Id, r: ExtensionRequest)
      requires k < |requests|
      modifies this
      ensures View() == old(View()).(requests := old(requests)[k := r])
    {
      requests := requests[k := r];
    }

    /** save() of a new dispute: one per booking. */
    method InsertDispute(d: Dispute) returns (ok: bool)
      modifies this
      ensures ok == !exists k :: 0 <= k < |old(disputes)| && old(disputes)[k].booking == d.booking
      ensures View() == if ok then old(View()).(disputes := old(disputes) + [d]) else old(View())
    {
      ok := !exists k :: 0 <= k < |disputes| && disputes[k].booking == d.booking;
      if ok {
        disputes := disputes + [d];
      }
    }

    method SaveDispute(k: Id, d: Dispute)
      requires k < |disputes|
      modifies this
      ensures View() == old(View()).(disputes := old(disputes)[k := d])
    {
      disputes := disputes[k := d];
    }
  }
}
