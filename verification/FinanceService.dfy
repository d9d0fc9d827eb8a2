/** Ledger rows, wallets and settlements. */
module Finance {
  import opened Domain
  import opened Rules
  import opened Database

  class FinanceService {
    const db: Tables

    constructor (db: Tables)
      ensures this.db == db
    {
      this.db := db;
    }

    /** An amount of zero or less is never recorded. */
    method Insert(t: Transaction)
      modifies db
      ensures db.View() == old(db.View()).(ledger := old(db.ledger) + Posted(t))
    {
      if t.amount <= 0 {
        assert db.ledger + [] == db.ledger;
        return;
      }
      db.ledger := db.ledger + [t];
    }

    method RecordCharge(id: Id, b: Booking, amount: int, reference: string)
      modifies db
      ensures db.View() == old(db.View()).(ledger := old(db.ledger)
                                           + Posted(RenterRow(Charge, id, b, amount, None, Some(reference))))
    {
      Insert(RenterRow(Charge, id, b, amount, None, Some(reference)));
    }

    method RecordRefund(id: Id, b: Booking, amount: int)
      modifies db
      ensures db.View() == old(db.View()).(ledger := old(db.ledger)
                                           + Posted(RenterRow(Refund, id, b, amount, None, None)))
    {
      Insert(RenterRow(Refund, id, b, amount, None, None));
    }

    method RecordDepositRelease(id: Id, b: Booking, amount: int, dispute: Option<Id>)
      modifies db
      ensures db.View() == old(db.View()).(ledger := old(db.ledger) + ReleaseRows(id, b, amount, dispute))
    {
      Insert(RenterRow(DepositRelease, id, b, amount, dispute, None));
    }

    method RecordProviderEarning(id: Id, provider: Id, amount: int)
      modifies db
      ensures db.View() == old(db.View()).(ledger := old(db.ledger)
                                           + Posted(ProviderRow(ProviderEarning, id, provider, amount, None)))
    {
      Insert(ProviderRow(ProviderEarning, id, provider, amount, None));
    }

    method RecordProviderForfeitCredit(id: Id, provider: Id, amount: int, dispute: Id)
      modifies db
      ensures db.View() == old(db.View()).(ledger := old(db.ledger)
                           + Posted(ProviderRow(ProviderForfeitCredit, id, provider, amount, Some(dispute))))
    {
      Insert(ProviderRow(ProviderForfeitCredit, id, provider, amount, Some(dispute)));
    }

    /** A balance is never stored: both sums are taken over the ledger. */
    method ComputeWalletBalance(provider: Id) returns (unsettled: int, lifetime: int)
      ensures unsettled == SumUnsettled(db.ledger, provider) && lifetime == SumLifetime(db.ledger, provider)
    {
      unsettled, lifetime := 0, 0;
      var i := 0;
      while i < |db.ledger|
        invariant 0 <= i <= |db.ledger|
        invariant unsettled == SumUnsettled(db.ledger[..i], provider)
        invariant lifetime == SumLifetime(db.ledger[..i], provider)
      {
        var t := db.ledger[i];
        assert db.ledger[..i + 1][..i] == db.ledger[..i];
        if IsUnsettled(t, provider) {
          unsettled := unsettled + t.amount;
        }
        if IsCredit(t) && t.provider == Some(provider) {
          lifetime := lifetime + t.amount;
        }
        i := i + 1;
      }
      assert db.ledger[..i] == db.ledger;
    }

    /** Sum the unsettled rows, create the settlement for that total, and stamp exactly those rows. */
    method CreateSettlement(provider: Id) returns (r: Reply)
      modifies db
      ensures Performs(SettleOutcome(old(db.View()), Action.CreateSettlement(provider)), old(db.View()), db.View(), r)
    {
      var ledger := db.ledger;
      var total, found := 0, false;
      var i := 0;
      while i < |ledger|
        invariant 0 <= i <= |ledger|
        invariant total == SumUnsettled(ledger[..i], provider)
        invariant found <==> exists k :: 0 <= k < i && IsUnsettled(ledger[k], provider)
      {
        assert ledger[..i + 1][..i] == ledger[..i];
        if IsUnsettled(ledger[i], provider) {
          total, found := total + ledger[i].amount, true;
        }
        i := i + 1;
      }
      assert ledger[..i] == ledger;
      if !found || total <= 0 {
        return Refused(NoUnsettledBalance);
      }
      var id := |db.settlements|;
      db.settlements := db.settlements + [Settlement(provider, total, None)];
      var stamped: seq<Transaction> := [];
      i := 0;
      while i < |ledger|
        invariant 0 <= i <= |ledger| && |stamped| == i
        invariant forall k :: 0 <= k < i ==> stamped[k] == Stamp(ledger[k], provider, id)
      {
        stamped := stamped + [if IsUnsettled(ledger[i], provider) then ledger[i].(settlement := Some(id))
                              else ledger[i]];
        i := i + 1;
      }
      assert stamped == Stamped(ledger, provider, id);
      db.ledger := stamped;
      return Ok(id);
    }

    method MarkSettlementPaid(id: Id, reference: string) returns (r: Reply)
      modifies db
      ensures Performs(MarkPaidOutcome(old(db.View()), Action.MarkSettlementPaid(id, reference)), old(db.View()),
                       db.View(), r)
    {
      if id >= |db.settlements| {
        return Refused(NotFound);
      }
      var settlement := db.settlements[id];
      if settlement.paidReference.Some? {
        return Refused(SettlementAlreadyPaid);
      }
      db.settlements := db.settlements[id := settlement.(paidReference := Some(reference))];
      return Ok(id);
    }
  }
}
