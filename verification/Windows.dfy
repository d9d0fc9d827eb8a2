/** The window checks in terms of instants, statuses and counts, without the functions the services call. */
module Windows {
  import opened Domain
  import opened Availability

  predicate During(t: Time, from: Time, to: Time) { from <= t < to }

  /** Some instant lies in both half-open ranges. */
  ghost predicate Meet(from: Time, to: Time, from': Time, to': Time) {
    exists t :: During(t, from, to) && During(t, from', to')
  }

  /** A pending or confirmed booking covers some instant of `[from, to)`. */
  ghost predicate Taken(b: Booking, from: Time, to: Time) {
    (b.status == Pending || b.status == Confirmed) && Meet(b.startsAt, b.endsAt, from, to)
  }

  /** The same asset, or no asset and the same listing. */
  predicate SameUnit(b: Booking, c: Booking) {
    if b.asset.Some? then c.asset == b.asset else c.asset.None? && c.listing == b.listing
  }

  lemma OverlapsIff(x: Window, y: Window)
    ensures Overlaps(x, y) <==> Meet(x.from, x.to, y.from, y.to)
  {
    if Overlaps(x, y) {
      var t := if x.from < y.from then y.from else x.from;
      assert During(t, x.from, x.to) && During(t, y.from, y.to);
    }
  }

  lemma HitsIff(b: Booking, i: Id, w: Window, buffer: nat, exclude: Option<Id>)
    ensures Hits(b, i, w, buffer, exclude) <==> exclude != Some(i) && Taken(b, w.from - buffer, w.to + buffer)
  {
    OverlapsIff(b.Span(), Padded(w, buffer));
  }

  /** The padded check of one asset. */
  lemma {:induction false} AssetOverlapIff(bs: seq<Booking>, asset: Id, w: Window, buffer: nat, exclude: Option<Id>)
    ensures HasOverlapForAsset(bs, asset, w, buffer, exclude)
       <==> exists i :: 0 <= i < |bs| && bs[i].asset == Some(asset) && exclude != Some(i)
                        && Taken(bs[i], w.from - buffer, w.to + buffer)
  {
    forall i | 0 <= i < |bs|
      ensures Hits(bs[i], i, w, buffer, exclude) <==> exclude != Some(i) && Taken(bs[i], w.from - buffer, w.to + buffer)
    {
      HitsIff(bs[i], i, w, buffer, exclude);
    }
    if i :| 0 <= i < |bs| && bs[i].asset == Some(asset) && exclude != Some(i)
            && Taken(bs[i], w.from - buffer, w.to + buffer) {
      assert Hits(bs[i], i, w, buffer, exclude);
    }
  }

  /** The padded check of a whole listing. */
  lemma {:induction false} ListingOverlapIff(bs: seq<Booking>, listing: Id, w: Window, buffer: nat, exclude: Option<Id>)
    ensures HasOverlap(bs, listing, w, buffer, exclude)
       <==> exists i :: 0 <= i < |bs| && bs[i].listing == listing && exclude != Some(i)
                        && Taken(bs[i], w.from - buffer, w.to + buffer)
  {
    forall i | 0 <= i < |bs|
      ensures Hits(bs[i], i, w, buffer, exclude) <==> exclude != Some(i) && Taken(bs[i], w.from - buffer, w.to + buffer)
    {
      HitsIff(bs[i], i, w, buffer, exclude);
    }
    if i :| 0 <= i < |bs| && bs[i].listing == listing && exclude != Some(i)
            && Taken(bs[i], w.from - buffer, w.to + buffer) {
      assert Hits(bs[i], i, w, buffer, exclude);
    }
  }

  /** What the exclusion constraint refuses. */
  lemma {:induction false} ExcludedIff(bs: seq<Booking>, i: Id, b: Booking)
    ensures Excluded(bs, i, b)
       <==> && (b.status == Pending || b.status == Confirmed)
            && exists j :: 0 <= j < |bs| && j != i && SameUnit(bs[j], b) && Taken(bs[j], b.startsAt, b.endsAt)
  {
    forall j | 0 <= j < |bs|
      ensures Overlaps(bs[j].Span(), b.Span()) <==> Meet(bs[j].startsAt, bs[j].endsAt, b.startsAt, b.endsAt)
    {
      OverlapsIff(bs[j].Span(), b.Span());
    }
    if Excluded(bs, i, b) {
      var j :| 0 <= j < |bs| && j != i && bs[j].Blocking() && bs[j].Unit() == b.Unit()
        && Overlaps(bs[j].Span(), b.Span());
      assert SameUnit(bs[j], b) && Taken(bs[j], b.startsAt, b.endsAt);
    }
    if j :| 0 <= j < |bs| && j != i && SameUnit(bs[j], b) && Taken(bs[j], b.startsAt, b.endsAt) {
      assert bs[j].Unit() == b.Unit() && bs[j].Blocking();
    }
  }

  // ---------- blocks ----------

  /** Some instant of `[from, to)` lies in one of the provider's blocks. */
  ghost predicate BlockedIn(listing: Listing, from: Time, to: Time) {
    exists k, t :: 0 <= k < |listing.blocks| && During(t, listing.blocks[k].from, listing.blocks[k].to)
                   && During(t, from, to)
  }

  lemma {:induction false} BlockedIff(listing: Listing, w: Window)
    ensures IsBlocked(listing, w) <==> BlockedIn(listing, w.from, w.to)
  {
    if IsBlocked(listing, w) {
      var k :| 0 <= k < |listing.blocks| && Overlaps(listing.blocks[k], w);
      OverlapsIff(listing.blocks[k], w);
      var t :| During(t, listing.blocks[k].from, listing.blocks[k].to) && During(t, w.from, w.to);
    }
    if BlockedIn(listing, w.from, w.to) {
      var k, t :| 0 <= k < |listing.blocks| && During(t, listing.blocks[k].from, listing.blocks[k].to)
                  && During(t, w.from, w.to);
      OverlapsIff(listing.blocks[k], w);
    }
  }

  // ---------- how many are free ----------

  /** Positions of the assets that no booking takes anywhere in `[from, to)`. */
  ghost function FreeAt(bs: seq<Booking>, assets: seq<Id>, from: Time, to: Time): set<nat> {
    set k | 0 <= k < |assets| && forall i :: 0 <= i < |bs| ==>
      !(bs[i].asset == Some(assets[k]) && Taken(bs[i], from, to))
  }

  /** The units of the listing that are taken somewhere in `[from, to)`, one for each unit of each booking. */
  ghost function TakenUnits(bs: seq<Booking>, listing: Id, from: Time, to: Time): set<(nat, nat)> {
    set i, n | 0 <= i < |bs| && 0 <= n < bs[i].quantity && bs[i].listing == listing && Taken(bs[i], from, to) :: (i, n)
  }

  lemma {:induction false} FreeAssetsIs(bs: seq<Booking>, assets: seq<Id>, w: Window, buffer: nat)
    ensures FreeAssets(bs, assets, w, buffer) == |FreeAt(bs, assets, w.from - buffer, w.to + buffer)|
  {
    var from, to := w.from - buffer, w.to + buffer;
    if assets == [] {
      assert FreeAt(bs, assets, from, to) == {};
    } else {
      var n := |assets| - 1;
      FreeAssetsIs(bs, assets[..n], w, buffer);
      AssetOverlapIff(bs, assets[n], w, buffer, None);
      var before := FreeAt(bs, assets[..n], from, to);
      assert FreeAt(bs, assets, from, to)
          == if HasOverlapForAsset(bs, assets[n], w, buffer, None) then before else before + {n};
    }
  }

  function Slots(i: nat, q: nat): set<(nat, nat)> { set n | 0 <= n < q :: (i, n) }

  lemma {:induction false} SlotCount(i: nat, q: nat)
    ensures |Slots(i, q)| == q
  {
    if q == 0 {
      assert Slots(i, q) == {};
    } else {
      SlotCount(i, q - 1);
      assert Slots(i, q) == Slots(i, q - 1) + {(i, q - 1)};
    }
  }

  /** The units the last booking adds. */
  lemma {:induction false} UnitsOfLast(bs: seq<Booking>, b: Booking, listing: Id, from: Time, to: Time)
    ensures TakenUnits(bs + [b], listing, from, to)
         == TakenUnits(bs, listing, from, to)
            + if b.listing == listing && Taken(b, from, to) then Slots(|bs|, b.quantity) else {}
  {
    var all, n := bs + [b], |bs|;
    forall p: (nat, nat)
      ensures p in TakenUnits(all, listing, from, to)
         <==> p in TakenUnits(bs, listing, from, to)
              || (b.listing == listing && Taken(b, from, to) && p in Slots(n, b.quantity))
    {
      if p.0 < n { assert all[p.0] == bs[p.0]; }
    }
  }

  lemma Disjoint(bs: seq<Booking>, q: nat, listing: Id, from: Time, to: Time)
    ensures TakenUnits(bs, listing, from, to) !! Slots(|bs|, q)
  {
  }

  lemma UnionSize(x: set<(nat, nat)>, y: set<(nat, nat)>)
    requires x !! y
    ensures |x + y| == |x| + |y|
  {
  }

  lemma {:induction false} CountOfLast(bs: seq<Booking>, b: Booking, listing: Id, from: Time, to: Time)
    ensures |TakenUnits(bs + [b], listing, from, to)|
         == |TakenUnits(bs, listing, from, to)| + if b.listing == listing && Taken(b, from, to) then b.quantity else 0
  {
    UnitsOfLast(bs, b, listing, from, to);
    SlotCount(|bs|, b.quantity);
    Disjoint(bs, b.quantity, listing, from, to);
    UnionSize(TakenUnits(bs, listing, from, to), Slots(|bs|, b.quantity));
    UnionSize(TakenUnits(bs, listing, from, to), {});
  }

  lemma {:induction false} BookedQuantityIs(bs: seq<Booking>, listing: Id, w: Window, buffer: nat)
    ensures BookedQuantity(bs, listing, w, buffer) == |TakenUnits(bs, listing, w.from - buffer, w.to + buffer)|
  {
    var from, to := w.from - buffer, w.to + buffer;
    if bs == [] {
      assert TakenUnits(bs, listing, from, to) == {};
    } else {
      var init, b := bs[..|bs| - 1], bs[|bs| - 1];
      BookedQuantityIs(init, listing, w, buffer);
      HitsIff(b, |init|, w, buffer, None);
      assert bs == init + [b];
      CountOfLast(init, b, listing, from, to);
    }
  }

  /**
   * quantityFree: on an asset listing, how many of the active assets no pending or confirmed booking takes within the
   * buffer of the window; otherwise what the units taken there leave of the quantity.
   */
  lemma QuantityFreeIs(bs: seq<Booking>, id: Id, listing: Listing, w: Window)
    ensures var from, to := w.from - listing.buffer, w.to + listing.buffer;
            var taken := |TakenUnits(bs, id, from, to)|;
            QuantityFree(bs, id, listing, w) ==
            if listing.activeAssets != [] then |FreeAt(bs, listing.activeAssets, from, to)|
            else if listing.quantityAvailable < taken then 0 else listing.quantityAvailable - taken
  {
    FreeAssetsIs(bs, listing.activeAssets, w, listing.buffer);
    BookedQuantityIs(bs, id, w, listing.buffer);
  }
}
