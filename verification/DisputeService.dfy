/** The dispute service: a proposed deduction is accepted, contested or decided by an admin. */
module Disputes {
  import opened Domain
  import opened Rules
  import opened Database
  import opened Bookings

  class DisputeService {
    const db: Tables
    const bookings: BookingService

    constructor (db: Tables, bookings: BookingService)
      requires bookings.db == db && bookings.Wired()
      ensures this.db == db && this.bookings == bookings && Wired()
    {
      this.db, this.bookings := db, bookings;
    }

    ghost predicate Wired() { bookings.db == db && bookings.Wired() }

    method ProposeDeduction(k: Id, actor: Id, amount: nat) returns (r: Reply)
      modifies db
      ensures Performs(ProposeOutcome(old(db.View()), Action.ProposeDeduction(k, actor, amount)),
                       old(db.View()), db.View(), r)
    {
      if k >= |db.disputes| {
        return Refused(NotFound);
      }
      var dispute := db.disputes[k];
      if dispute.status != Open && dispute.status != Contested {
        return Refused(DisputeInvalidState);
      }
      if dispute.booking >= |db.bookings| {
        return Refused(NotFound);
      }
      if amount > db.bookings[dispute.booking].deposit {
        return Refused(DeductionExceedsDeposit);
      }
      db.SaveDispute(k, dispute.(status := Proposed, proposed := Some(amount), proposedBy := Some(actor)));
      return Ok(k);
    }

    /** Store the resolved dispute and finalize its booking, or neither. */
    method Resolve(env: Env, k: Id, resolved: Dispute, deduction: nat, actor: Id) returns (r: Reply)
      requires Wired() && k < |db.disputes|
      modifies db
      ensures Performs(Finalize(env, old(db.View()), k, resolved, deduction, actor), old(db.View()), db.View(), r)
    {
      var before := db.View();
      db.SaveDispute(k, resolved);
      var error := bookings.FinalizeDispute(env, resolved.booking, deduction, actor, k);
      if error.Some? {
        db.Rollback(before);
        return Refused(error.value);
      }
      return Ok(k);
    }

    method RespondToProposal(env: Env, k: Id, actor: Id, accept: bool) returns (r: Reply)
      requires Wired()
      modifies db
      ensures Performs(RespondOutcome(env, old(db.View()), Action.RespondToProposal(k, actor, accept)),
                       old(db.View()), db.View(), r)
    {
      if k >= |db.disputes| {
        return Refused(NotFound);
      }
      var dispute := db.disputes[k];
      if dispute.status != Proposed {
        return Refused(DisputeInvalidState);
      }
      if dispute.booking >= |db.bookings| {
        return Refused(NotFound);
      }
      if db.bookings[dispute.booking].renter != actor {
        return Refused(Forbidden);
      }
      if !accept {
        db.SaveDispute(k, dispute.(status := Contested));
        return Ok(k);
      }
      var resolved := dispute.(status := Resolved, resolution := Some(Agreed), final := dispute.proposed,
                               resolvedBy := Some(actor));
      r := Resolve(env, k, resolved, if resolved.final.Some? then resolved.final.value else 0, actor);
    }

    method AdminResolve(env: Env, k: Id, admin: Id, amount: nat) returns (r: Reply)
      requires Wired()
      modifies db
      ensures Performs(AdminResolveOutcome(env, old(db.View()), Action.AdminResolve(k, admin, amount)),
                       old(db.View()), db.View(), r)
    {
      if k >= |db.disputes| {
        return Refused(NotFound);
      }
      var dispute := db.disputes[k];
      if dispute.status == Resolved {
        return Refused(DisputeInvalidState);
      }
      if dispute.booking >= |db.bookings| {
        return Refused(NotFound);
      }
      if amount > db.bookings[dispute.booking].deposit {
        return Refused(DeductionExceedsDeposit);
      }
      var resolved := dispute.(status := Resolved, resolution := Some(AdminDecided), final := Some(amount),
                               resolvedBy := Some(admin));
      r := Resolve(env, k, resolved, amount, admin);
    }
  }
}
