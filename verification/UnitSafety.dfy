/** The exclusion constraint: no unit is ever booked twice for the same instant. */
module UnitSafety {
  import opened Domain
  import opened Availability
  import Quoting
  import opened Rules
  import opened Runs
  import opened Occupancy

  // ---------- every write the constraint accepts keeps the table exclusive ----------

  lemma OverlapsSymmetric(x: Window, y: Window)
    ensures Overlaps(x, y) == Overlaps(y, x)
  {
  }

  lemma AppendExclusive(bs: seq<Booking>, b: Booking)
    requires NoOverlaps(bs) && !Excluded(bs, |bs|, b)
    ensures NoOverlaps(bs + [b])
  {
  }

  lemma UpdateExclusive(bs: seq<Booking>, i: Id, b: Booking)
    requires i < |bs| && NoOverlaps(bs) && !Excluded(bs, i, b)
    ensures NoOverlaps(bs[i := b])
  {
    var bs' := bs[i := b];
    forall j, k | 0 <= j < k < |bs'| && bs'[j].Blocking() && bs'[k].Blocking() && bs'[j].Unit() == bs'[k].Unit()
      ensures !Overlaps(bs'[j].Span(), bs'[k].Span())
    {
      if j == i { assert bs[k] == bs'[k]; OverlapsSymmetric(bs[k].Span(), b.Span()); }
      else if k == i { assert bs[j] == bs'[j]; }
      else { assert bs[j] == bs'[j] && bs[k] == bs'[k]; }
    }
  }

  lemma EffectExclusive(env: Env, bs: seq<Booking>, bs': seq<Booking>, revived: bool)
    requires NoOverlaps(bs) && env.exclusion && Occupies(env, bs, bs', revived)
    ensures NoOverlaps(bs')
  {
    if Inserts(env, bs, bs') {
      assert bs' == bs + [bs'[|bs|]];
      AppendExclusive(bs, bs'[|bs|]);
    } else if i: Id :| Rewrites(env, bs, bs', i, revived) {
      UpdateExclusive(bs, i, bs'[i]);
    } else if i: Id :| Extends(env, bs, bs', i) {
      UpdateExclusive(bs, i, bs'[i]);
    }
  }

  /** In every serial run with the constraint installed, blocking bookings of one unit are pairwise disjoint. */
  lemma {:induction false} RunExclusive(owner: Id -> Id, events: seq<Event>)
    requires OwnedRun(owner, events) && forall k :: 0 <= k < |events| ==> events[k].env.exclusion
    ensures NoOverlaps(Run(events).bookings)
  {
    if events == [] {
    } else {
      var init, last := events[..|events| - 1], events[|events| - 1];
      RunExclusive(owner, init);
      RunBasic(owner, init);
      StepEffect(Run(init), last);
      EffectExclusive(last.env, Run(init).bookings, Run(events).bookings, Revives(Run(init), last));
    }
  }

  // ---------- assets cannot be outnumbered ----------

  predicate Covers(b: Booking, x: Time) { b.Blocking() && b.startsAt <= x < b.endsAt }

  /** The listing's asset bookings under way at instant `x`. */
  function UnderWay(bs: seq<Booking>, listing: Id, x: Time): set<Id> {
    set i | 0 <= i < |bs| && bs[i].listing == listing && bs[i].asset.Some? && Covers(bs[i], x)
  }

  predicate HoldsAsset(b: Booking, listing: Id, assets: set<Id>) {
    b.listing == listing && b.asset.Some? ==> b.asset.value in assets
  }

  /** Every asset booking of the listing is on one of the assets. */
  ghost predicate OnAssets(bs: seq<Booking>, listing: Id, assets: set<Id>) {
    forall i :: 0 <= i < |bs| ==> HoldsAsset(bs[i], listing, assets)
  }

  /** The listing never offers an asset outside the set. */
  ghost predicate Offers(listing: Listing, assets: set<Id>) {
    forall k :: 0 <= k < |listing.activeAssets| ==> listing.activeAssets[k] in assets
  }

  /** Whatever is admitted gets an asset the listing offers. */
  lemma AdmittedHolds(bs: seq<Booking>, listing: Listing, b: Booking, assets: set<Id>)
    requires Offers(listing, assets)
    requires Admit(bs, b.listing, listing, b.Span(), b.quantity) == Admitted(b.asset)
    ensures HoldsAsset(b, b.listing, assets)
  {
    FirstFreeIsEarliest(bs, listing.activeAssets, b.Span(), listing.buffer);
  }

  lemma EffectOnAssets(env: Env, bs: seq<Booking>, bs': seq<Booking>, revived: bool, listing: Id, assets: set<Id>)
    requires OnAssets(bs, listing, assets) && (listing in env.catalog ==> Offers(env.catalog[listing], assets))
    requires Occupies(env, bs, bs', revived)
    ensures OnAssets(bs', listing, assets)
  {
    if Inserts(env, bs, bs') {
      var b := bs'[|bs|];
      forall i | 0 <= i < |bs| ensures bs'[i] == bs[i] { assert bs'[..|bs|][i] == bs[i]; }
      if b.listing == listing { AdmittedHolds(bs, env.catalog[listing], b, assets); }
    }
  }

  /**
   * In every run with the constraint installed whose catalog offers no asset of the listing outside `assets`, at
   * any instant the listing's asset bookings under way are on pairwise different assets of the set, so never more
   * of them than assets.
   */
  lemma {:induction false} RunAssetsSuffice(owner: Id -> Id, events: seq<Event>, listing: Id, assets: set<Id>, x: Time)
    requires OwnedRun(owner, events) && forall k :: 0 <= k < |events| ==> events[k].env.exclusion
    requires forall k :: 0 <= k < |events| && listing in events[k].env.catalog ==>
               Offers(events[k].env.catalog[listing], assets)
    ensures var bs := Run(events).bookings;
            && OnAssets(bs, listing, assets)
            && (forall i, j :: i in UnderWay(bs, listing, x) && j in UnderWay(bs, listing, x) && i != j
                               ==> bs[i].asset != bs[j].asset)
            && |UnderWay(bs, listing, x)| <= |assets|
  {
    RunExclusive(owner, events);
    RunOnAssets(owner, events, listing, assets);
    AssetsSuffice(Run(events).bookings, listing, assets, x);
  }

  lemma {:induction false} RunOnAssets(owner: Id -> Id, events: seq<Event>, listing: Id, assets: set<Id>)
    requires OwnedRun(owner, events)
    requires forall k :: 0 <= k < |events| && listing in events[k].env.catalog ==>
               Offers(events[k].env.catalog[listing], assets)
    ensures OnAssets(Run(events).bookings, listing, assets)
  {
    if events == [] {
    } else {
      var init, last := events[..|events| - 1], events[|events| - 1];
      RunOnAssets(owner, init, listing, assets);
      RunBasic(owner, init);
      StepEffect(Run(init), last);
      EffectOnAssets(last.env, Run(init).bookings, Run(events).bookings, Revives(Run(init), last), listing, assets);
    }
  }

  lemma CommonInstant(v: Window, w: Window, x: Time)
    requires v.from <= x < v.to && w.from <= x < w.to
    ensures Overlaps(v, w)
  {
  }

  /** In an exclusive table, asset bookings under way at one instant use different assets: no more than there are. */
  lemma AssetsSuffice(bs: seq<Booking>, listing: Id, assets: set<Id>, x: Time)
    requires NoOverlaps(bs) && OnAssets(bs, listing, assets)
    ensures forall i, j :: i in UnderWay(bs, listing, x) && j in UnderWay(bs, listing, x) && i != j
                           ==> bs[i].asset != bs[j].asset
    ensures |UnderWay(bs, listing, x)| <= |assets|
  {
    var ids := UnderWay(bs, listing, x);
    forall i, j | i in ids && j in ids && i != j ensures bs[i].asset != bs[j].asset {
      CommonInstant(bs[i].Span(), bs[j].Span(), x);
      CommonInstant(bs[j].Span(), bs[i].Span(), x);
    }
    forall i | i in ids ensures bs[i].asset.value in assets { assert HoldsAsset(bs[i], listing, assets); }
    InjectionBound(ids, assets, bs);
  }

  /** Pigeonhole: rows with pairwise different assets are no more than the assets they use. */
  lemma {:induction false} InjectionBound(ids: set<Id>, assets: set<Id>, bs: seq<Booking>)
    requires forall i :: i in ids ==> i < |bs| && bs[i].asset.Some? && bs[i].asset.value in assets
    requires forall i, j :: i in ids && j in ids && i != j ==> bs[i].asset != bs[j].asset
    ensures |ids| <= |assets|
    decreases |ids|
  {
    if ids == {} {
    } else {
      var i :| i in ids;
      InjectionBound(ids - {i}, assets - {bs[i].asset.value}, bs);
    }
  }

  // ---------- what admission accepts, the constraint accepts ----------

  lemma PaddingCovers(x: Window, w: Window, buffer: nat)
    requires Overlaps(x, w)
    ensures Overlaps(x, Padded(w, buffer))
  {
  }

  /**
   * Run serially, a booking admitted on an asset or on a single-unit listing is never refused by the
   * constraint: the padded check sees every row the constraint would object to.
   */
  lemma AdmittedNotExcluded(bs: seq<Booking>, id: Id, listing: Listing, b: Booking)
    requires b.listing == id && Admit(bs, id, listing, b.Span(), b.quantity) == Admitted(b.asset)
    requires listing.activeAssets != [] || listing.quantityAvailable <= 1
    ensures !Excluded(bs, |bs|, b)
  {
    var w := b.Span();
    forall j | 0 <= j < |bs| && bs[j].Blocking() && bs[j].Unit() == b.Unit() ensures !Overlaps(bs[j].Span(), w) {
      if Overlaps(bs[j].Span(), w) {
        PaddingCovers(bs[j].Span(), w, listing.buffer);
        assert Hits(bs[j], j, w, listing.buffer, None);
        if listing.activeAssets != [] {
          FirstFreeIsEarliest(bs, listing.activeAssets, w, listing.buffer);
          assert HasOverlapForAsset(bs, b.asset.value, w, listing.buffer, None);
        } else {
          BookedQuantityPositive(bs, id, w, listing.buffer);
          assert HasOverlap(bs, id, w, listing.buffer, None);
        }
      }
    }
  }

  /**
   * On an asset listing or one of a single unit, `create` is never refused by the constraint: neither by the insert
   * nor by any of the saves that take an instant booking on to RESERVED.
   */
  lemma CreateNotExcluded(env: Env, s: State, a: Action)
    requires a.Create?
    requires a.listing in env.catalog ==>
               env.catalog[a.listing].activeAssets != [] || env.catalog[a.listing].quantityAvailable <= 1
    ensures CreateOutcome(env, s, a) != Failed(ExclusionViolation)
  {
    if CreateOutcome(env, s, a) == Failed(ExclusionViolation) {
      var listing, w := env.catalog[a.listing], Window(a.from, a.to);
      var asset := Admit(s.bookings, a.listing, listing, w, a.quantity).asset;
      var q := Quoting.ComputeQuote(listing, a.from, a.to, a.quantity).value;
      var b := NewBooking(a, listing, asset, q);
      AdmittedNotExcluded(s.bookings, a.listing, listing, b);
      InsertNotExcluded(env, s, b, q, a.actor, a.reference);
    }
  }

  /** Passing the constraint once, a new row passes it at every later save of the same transaction. */
  lemma InsertNotExcluded(env: Env, s: State, b: Booking, q: Quote, actor: Id, reference: string)
    requires b.Blocking() && !Excluded(s.bookings, |s.bookings|, b)
    ensures Insert(env, s, b, q, actor, reference) != Failed(ExclusionViolation)
  {
  }

  /** On an asset-free listing the constraint refuses an admitted booking exactly if its window has another booking. */
  lemma {:induction false} BulkExcludedIff(bs: seq<Booking>, id: Id, listing: Listing, b: Booking)
    requires b.listing == id && b.Blocking() && listing.activeAssets == []
    requires Admit(bs, id, listing, b.Span(), b.quantity) == Admitted(b.asset)
    requires forall j :: 0 <= j < |bs| && bs[j].listing == id ==> bs[j].asset.None?
    ensures Excluded(bs, |bs|, b) <==> BookedQuantity(bs, id, b.Span(), 0) > 0
  {
    BookedQuantityPositive(bs, id, b.Span(), 0);
    if Excluded(bs, |bs|, b) {
      var j :| 0 <= j < |bs| && bs[j].Blocking() && bs[j].Unit() == b.Unit() && Overlaps(bs[j].Span(), b.Span());
      assert Hits(bs[j], j, b.Span(), 0, None);
      assert HasOverlap(bs, id, b.Span(), 0, None);
    }
    if HasOverlap(bs, id, b.Span(), 0, None) {
      var j :| 0 <= j < |bs| && bs[j].listing == id && Hits(bs[j], j, b.Span(), 0, None);
      assert bs[j].Unit() == b.Unit();
    }
  }
}
