/** The services behind one entry point: handling requests one after another is exactly a run. */
module Engine {
  import opened Domain
  import opened Rules
  import opened Database
  import opened Finance
  import opened Bookings
  import opened Disputes

  class Server {
    const db: Tables
    const finance: FinanceService
    const bookings: BookingService
    const disputes: DisputeService

    constructor ()
      ensures Wired() && fresh(db) && db.View() == EMPTY
    {
      var tables := new Tables();
      var money := new FinanceService(tables);
      var rentals := new BookingService(tables, money);
      var claims := new DisputeService(tables, rentals);
      db, finance, bookings, disputes := tables, money, rentals, claims;
    }

    ghost predicate Wired() {
      finance.db == db && bookings.db == db && bookings.Wired() && disputes.db == db && disputes.Wired()
    }

    /** Whatever the action, the services do what the rules say. */
    method Handle(env: Env, a: Action) returns (r: Reply)
      requires Wired()
      modifies db
      ensures Performs(Step(env, old(db.View()), a), old(db.View()), db.View(), r)
    {
      if ToBookings(a) {
        r := HandleBooking(env, a);
      } else if ToExtensions(a) {
        r := HandleExtension(env, a);
      } else {
        r := HandleClaim(env, a);
      }
    }

    predicate ToBookings(a: Action) {
      || a.Create? || a.Approve? || a.Decline? || a.Cancel? || a.ConfirmHandover? || a.ScheduleReturn?
      || a.ConfirmReturn? || a.RecordInspection?
    }

    predicate ToExtensions(a: Action) {
      a.RequestExtension? || a.ApproveExtension? || a.DeclineExtension? || a.CancelExtension?
    }

    method HandleBooking(env: Env, a: Action) returns (r: Reply)
      requires Wired() && ToBookings(a)
      modifies db
      ensures Performs(Step(env, old(db.View()), a), old(db.View()), db.View(), r)
    {
      match a {
        case Create(actor, listing, from, to, quantity, key, reference) =>
          r := bookings.Create(env, actor, listing, from, to, quantity, key, reference);
        case Approve(id, actor, reference) => r := bookings.Approve(env, id, actor, reference);
        case Decline(id, actor) => r := bookings.Decline(env, id, actor);
        case Cancel(id, actor) => r := bookings.Cancel(env, id, actor);
        case ConfirmHandover(id, actor) => r := bookings.ConfirmHandover(env, id, actor);
        case ScheduleReturn(id, actor) => r := bookings.ScheduleReturn(env, id, actor);
        case ConfirmReturn(id, actor) => r := bookings.ConfirmReturn(env, id, actor);
        case RecordInspection(id, actor, damageFound) => r := bookings.RecordInspection(env, id, actor, damageFound);
      }
    }

    method HandleExtension(env: Env, a: Action) returns (r: Reply)
      requires Wired() && ToExtensions(a)
      modifies db
      ensures Performs(Step(env, old(db.View()), a), old(db.View()), db.View(), r)
    {
      match a {
        case RequestExtension(id, actor, newEndsAt) => r := bookings.RequestExtension(env, id, actor, newEndsAt);
        case ApproveExtension(k, actor, reference) => r := bookings.ApproveExtension(env, k, actor, reference);
        case DeclineExtension(k, actor) => r := bookings.DeclineExtension(env, k, actor);
        case CancelExtension(k, actor) => r := bookings.CancelExtensionRequest(env, k, actor);
      }
    }

    /** Disputes and settlements. */
    method HandleClaim(env: Env, a: Action) returns (r: Reply)
      requires Wired() && !ToBookings(a) && !ToExtensions(a)
      modifies db
      ensures Performs(Step(env, old(db.View()), a), old(db.View()), db.View(), r)
    {
      match a {
        case ProposeDeduction(k, actor, amount) => r := disputes.ProposeDeduction(k, actor, amount);
        case RespondToProposal(k, actor, accept) => r := disputes.RespondToProposal(env, k, actor, accept);
        case AdminResolve(k, actor, amount) => r := disputes.AdminResolve(env, k, actor, amount);
        case CreateSettlement(provider) => r := finance.CreateSettlement(provider);
        case MarkSettlementPaid(id, reference) => r := finance.MarkSettlementPaid(id, reference);
      }
    }
  }

  /** Requests served one after another leave exactly the tables of the run, so every run theorem speaks of them. */
  method Serve(events: seq<Event>) returns (server: Server)
    ensures fresh(server) && server.Wired() && server.db.View() == Run(events)
  {
    server := new Server();
    var i := 0;
    while i < |events|
      invariant 0 <= i <= |events|
      invariant server.Wired() && fresh(server.db) && server.db.View() == Run(events[..i])
    {
      assert events[..i + 1][..i] == events[..i];
      var reply := server.Handle(events[i].env, events[i].action);
      i := i + 1;
    }
    assert events[..i] == events;
  }
}
