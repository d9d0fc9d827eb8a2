/** Bulk listings: the window-sum check alone keeps every instant within the quantity available. */
module Capacity {
  import opened Domain
  import opened Availability
  import opened Rules
  import opened CaseFile
  import opened Invariants
  import opened Runs
  import opened Occupancy
  import opened UnitSafety

  /** Units of the listing one row uses at instant `x`. */
  function Use(b: Booking, listing: Id, x: Time): nat {
    if b.listing == listing && Covers(b, x) then b.quantity else 0
  }

  /** Units of the listing in use at instant `x`. */
  function InUse(bs: seq<Booking>, listing: Id, x: Time): nat {
    if bs == [] then 0 else InUse(bs[..|bs| - 1], listing, x) + Use(bs[|bs| - 1], listing, x)
  }

  /** A listing without assets and with a fixed quantity; its buffer and everything else may change. */
  ghost predicate Bulk(env: Env, listing: Id, quantity: nat) {
    listing in env.catalog ==>
      env.catalog[listing].activeAssets == [] && env.catalog[listing].quantityAvailable == quantity
  }

  /** Rows of the listing have no asset and ask for no more than the quantity, blocking or not. */
  ghost predicate Modest(bs: seq<Booking>, listing: Id, quantity: nat) {
    forall i :: 0 <= i < |bs| && bs[i].listing == listing ==> bs[i].asset.None? && bs[i].quantity <= quantity
  }

  ghost predicate Within(bs: seq<Booking>, listing: Id, quantity: nat) {
    Modest(bs, listing, quantity) && forall x: Time :: InUse(bs, listing, x) <= quantity
  }

  /** At any instant of the window, what is in use is at most what the padded check counts. */
  lemma {:induction false} InUseWithinBooked(bs: seq<Booking>, listing: Id, w: Window, buffer: nat, x: Time)
    requires w.from <= x < w.to
    ensures InUse(bs, listing, x) <= BookedQuantity(bs, listing, w, buffer)
  {
    if bs == [] {
    } else {
      InUseWithinBooked(bs[..|bs| - 1], listing, w, buffer, x);
    }
  }

  lemma {:induction false} InUseUpdate(bs: seq<Booking>, listing: Id, x: Time, i: Id, b: Booking)
    requires i < |bs|
    ensures InUse(bs[i := b], listing, x) + Use(bs[i], listing, x) == InUse(bs, listing, x) + Use(b, listing, x)
  {
    var n := |bs| - 1;
    if i == n {
      assert bs[i := b][..n] == bs[..n];
    } else {
      assert bs[i := b][..n] == bs[..n][i := b];
      InUseUpdate(bs[..n], listing, x, i, b);
    }
  }

  /** If nothing but row `i` overlaps the padded window, nothing but row `i` is in use inside it. */
  lemma {:induction false} OnlyRowInUse(bs: seq<Booking>, n: nat, listing: Id, w: Window, buffer: nat, i: Id, x: Time)
    requires n <= |bs| && w.from <= x < w.to && !HasOverlap(bs, listing, w, buffer, Some(i))
    ensures InUse(bs[..n], listing, x) == if i < n then Use(bs[i], listing, x) else 0
  {
    if n == 0 {
    } else {
      OnlyRowInUse(bs, n - 1, listing, w, buffer, i, x);
      assert bs[..n][..n - 1] == bs[..n - 1];
      assert !(bs[n - 1].listing == listing && Hits(bs[n - 1], n - 1, w, buffer, Some(i)));
    }
  }

  lemma InsertWithin(env: Env, bs: seq<Booking>, bs': seq<Booking>, listing: Id, quantity: nat)
    requires Bulk(env, listing, quantity) && Within(bs, listing, quantity) && Inserts(env, bs, bs')
    ensures Within(bs', listing, quantity)
  {
    var n, b := |bs|, bs'[|bs|];
    forall i | 0 <= i < n ensures bs'[i] == bs[i] { assert bs'[..n][i] == bs[i]; }
    forall x: Time ensures InUse(bs', listing, x) <= quantity {
      assert InUse(bs', listing, x) == InUse(bs, listing, x) + Use(b, listing, x);
      if b.listing == listing && Covers(b, x) {
        InUseWithinBooked(bs, listing, b.Span(), env.catalog[listing].buffer, x);
      }
    }
  }

  lemma RewriteWithin(env: Env, bs: seq<Booking>, bs': seq<Booking>, i: Id, listing: Id, quantity: nat)
    requires Within(bs, listing, quantity) && Rewrites(env, bs, bs', i, false)
    ensures Within(bs', listing, quantity)
  {
    forall x: Time ensures InUse(bs', listing, x) <= quantity {
      InUseUpdate(bs, listing, x, i, bs'[i]);
    }
  }

  lemma ExtendWithin(env: Env, bs: seq<Booking>, bs': seq<Booking>, i: Id, listing: Id, quantity: nat)
    requires Bulk(env, listing, quantity) && Within(bs, listing, quantity) && Extends(env, bs, bs', i)
    ensures Within(bs', listing, quantity)
  {
    var w := Window(bs[i].endsAt, bs'[i].endsAt);
    forall x: Time ensures InUse(bs', listing, x) <= quantity {
      InUseUpdate(bs, listing, x, i, bs'[i]);
      if bs[i].listing == listing && w.from <= x < w.to {
        OnlyRowInUse(bs, |bs|, listing, w, env.catalog[listing].buffer, i, x);
        assert bs[..|bs|] == bs;
      }
    }
  }

  lemma StepWithin(s: State, e: Event, listing: Id, quantity: nat)
    requires AllBasic(s) && !Revives(s, e) && Bulk(e.env, listing, quantity) && Within(s.bookings, listing, quantity)
    ensures Within(Next(e.env, s, e.action).bookings, listing, quantity)
  {
    var bs, bs' := s.bookings, Next(e.env, s, e.action).bookings;
    StepEffect(s, e);
    if Inserts(e.env, bs, bs') {
      InsertWithin(e.env, bs, bs', listing, quantity);
    } else if i: Id :| Rewrites(e.env, bs, bs', i, false) {
      RewriteWithin(e.env, bs, bs', i, listing, quantity);
    } else if i: Id :| Extends(e.env, bs, bs', i) {
      ExtendWithin(e.env, bs, bs', i, listing, quantity);
    }
  }

  /** Is there room for row `i` again, at every instant it covers? */
  ghost predicate Fits(bs: seq<Booking>, i: Id, quantity: nat)
    requires i < |bs|
  {
    forall x: Time :: bs[i].startsAt <= x < bs[i].endsAt ==> InUse(bs, bs[i].listing, x) + bs[i].quantity <= quantity
  }

  /** The window-sum check of admission, passed again, is more than enough. */
  lemma {:induction false} PaddedCheckFits(bs: seq<Booking>, i: Id, buffer: nat, quantity: nat)
    requires i < |bs| && BookedQuantity(bs, bs[i].listing, bs[i].Span(), buffer) + bs[i].quantity <= quantity
    ensures Fits(bs, i, quantity)
  {
    forall x: Time | bs[i].startsAt <= x < bs[i].endsAt
      ensures InUse(bs, bs[i].listing, x) + bs[i].quantity <= quantity
    {
      InUseWithinBooked(bs, bs[i].listing, bs[i].Span(), buffer, x);
    }
  }

  /** If the event revives a booking of the listing, there is still room for it. */
  ghost predicate RevivesFitting(s: State, e: Event, listing: Id, quantity: nat) {
    Revives(s, e) && s.bookings[e.action.booking].listing == listing ==> Fits(s.bookings, e.action.booking, quantity)
  }

  lemma RevivalWithinIff(env: Env, bs: seq<Booking>, bs': seq<Booking>, i: Id, listing: Id, quantity: nat)
    requires Within(bs, listing, quantity) && Rewrites(env, bs, bs', i, true) && !bs[i].Blocking() && bs'[i].Blocking()
    ensures Within(bs', listing, quantity) <==> (bs[i].listing == listing ==> Fits(bs, i, quantity))
  {
    forall x: Time
      ensures InUse(bs', listing, x) == InUse(bs, listing, x)
              + if bs[i].listing == listing && bs[i].startsAt <= x < bs[i].endsAt then bs[i].quantity else 0
    {
      InUseUpdate(bs, listing, x, i, bs'[i]);
      assert bs'[i].Span() == bs[i].Span();
    }
  }

  lemma RevivedWasFree(s: State, e: Event)
    requires AllBasic(s) && Revives(s, e)
    ensures e.action.booking < |s.bookings| && !s.bookings[e.action.booking].Blocking()
  {
    assert Legal(FileOf(s, e.action.booking).b.At());
  }

  lemma StepWithinIff(s: State, e: Event, listing: Id, quantity: nat)
    requires AllBasic(s) && Bulk(e.env, listing, quantity) && Within(s.bookings, listing, quantity)
    ensures Within(Next(e.env, s, e.action).bookings, listing, quantity) <==> RevivesFitting(s, e, listing, quantity)
  {
    if Revives(s, e) {
      RevivalEffect(s, e);
      RevivedWasFree(s, e);
      RevivalWithinIff(e.env, s.bookings, Next(e.env, s, e.action).bookings, e.action.booking, listing, quantity);
    } else {
      StepWithin(s, e, listing, quantity);
    }
  }

  /**
   * On an asset-free listing with a fixed quantity, the pending and confirmed bookings covering any instant never
   * add up to more than the quantity, at every point of a run, exactly when there is still room for every booking
   * that is handed over without being confirmed. This rests on the service's checks alone: the exclusion constraint
   * may be absent.
   */
  lemma {:induction false} RunWithinIff(owner: Id -> Id, events: seq<Event>, listing: Id, quantity: nat)
    requires OwnedRun(owner, events) && forall j :: 0 <= j < |events| ==> Bulk(events[j].env, listing, quantity)
    ensures (forall k :: 0 <= k <= |events| ==> Within(Before(events, k).bookings, listing, quantity))
       <==> (forall k :: 0 <= k < |events| ==> RevivesFitting(Before(events, k), events[k], listing, quantity))
  {
    if forall k :: 0 <= k <= |events| ==> Within(Before(events, k).bookings, listing, quantity) {
      forall k | 0 <= k < |events| ensures RevivesFitting(Before(events, k), events[k], listing, quantity) {
        assert Within(Before(events, k).bookings, listing, quantity)
               && Within(Before(events, k + 1).bookings, listing, quantity);
        RunBasic(owner, events[..k]);
        RunStep(events, k);
        StepWithinIff(Before(events, k), events[k], listing, quantity);
      }
    }
    if forall k :: 0 <= k < |events| ==> RevivesFitting(Before(events, k), events[k], listing, quantity) {
      forall k | 0 <= k <= |events| ensures Within(Before(events, k).bookings, listing, quantity) {
        WithinWhileFitting(owner, events, k, listing, quantity);
      }
    }
  }

  lemma {:induction false} WithinWhileFitting(owner: Id -> Id, events: seq<Event>, k: nat, listing: Id, quantity: nat)
    requires OwnedRun(owner, events) && k <= |events|
    requires forall j :: 0 <= j < |events| ==> Bulk(events[j].env, listing, quantity)
    requires forall j :: 0 <= j < k ==> RevivesFitting(Before(events, j), events[j], listing, quantity)
    ensures Within(Before(events, k).bookings, listing, quantity)
  {
    if k == 0 {
      assert events[..0] == [];
    } else {
      WithinWhileFitting(owner, events, k - 1, listing, quantity);
      RunBasic(owner, events[..k - 1]);
      RunStep(events, k - 1);
      StepWithinIff(Before(events, k - 1), events[k - 1], listing, quantity);
    }
  }

  // ---------- with the constraint installed ----------

  /** In an exclusive table at most one row of the listing covers an instant. */
  lemma {:induction false} ExclusiveWithin(bs: seq<Booking>, n: nat, listing: Id, quantity: nat, x: Time)
    requires n <= |bs| && NoOverlaps(bs) && Modest(bs, listing, quantity)
    ensures InUse(bs[..n], listing, x) <= quantity
    ensures InUse(bs[..n], listing, x) == 0
         || exists i :: 0 <= i < n && bs[i].listing == listing && Covers(bs[i], x)
  {
    if n == 0 {
    } else {
      ExclusiveWithin(bs, n - 1, listing, quantity, x);
      assert bs[..n][..n - 1] == bs[..n - 1];
      if bs[n - 1].listing == listing && Covers(bs[n - 1], x) && InUse(bs[..n - 1], listing, x) > 0 {
        var i :| 0 <= i < n - 1 && bs[i].listing == listing && Covers(bs[i], x);
        CommonInstant(bs[i].Span(), bs[n - 1].Span(), x);
        assert false;
      }
    }
  }

  lemma EffectModest(env: Env, bs: seq<Booking>, bs': seq<Booking>, revived: bool, listing: Id, quantity: nat)
    requires Bulk(env, listing, quantity) && Modest(bs, listing, quantity) && Occupies(env, bs, bs', revived)
    ensures Modest(bs', listing, quantity)
  {
    if Inserts(env, bs, bs') {
      forall i | 0 <= i < |bs| ensures bs'[i] == bs[i] { assert bs'[..|bs|][i] == bs[i]; }
    }
  }

  lemma {:induction false} RunModest(owner: Id -> Id, events: seq<Event>, listing: Id, quantity: nat)
    requires OwnedRun(owner, events) && forall j :: 0 <= j < |events| ==> Bulk(events[j].env, listing, quantity)
    ensures Modest(Run(events).bookings, listing, quantity)
  {
    if events == [] {
    } else {
      var init, last := events[..|events| - 1], events[|events| - 1];
      RunModest(owner, init, listing, quantity);
      RunBasic(owner, init);
      StepEffect(Run(init), last);
      EffectModest(last.env, Run(init).bookings, Run(events).bookings, Revives(Run(init), last), listing, quantity);
    }
  }

  /** With the constraint installed, as it is in the source, the same holds of every run, whatever is handed over. */
  lemma {:induction false} RunWithin(owner: Id -> Id, events: seq<Event>, listing: Id, quantity: nat)
    requires OwnedRun(owner, events)
    requires forall j :: 0 <= j < |events| ==> Bulk(events[j].env, listing, quantity) && events[j].env.exclusion
    ensures Within(Run(events).bookings, listing, quantity)
  {
    RunExclusive(owner, events);
    RunModest(owner, events, listing, quantity);
    var bs := Run(events).bookings;
    forall x: Time ensures InUse(bs, listing, x) <= quantity {
      ExclusiveWithin(bs, |bs|, listing, quantity, x);
      assert bs[..|bs|] == bs;
    }
  }
}
