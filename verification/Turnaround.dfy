/** Turnaround buffers: bookings of one unit stay at least the buffer apart. */
module Turnaround {
  import opened Domain
  import opened Availability
  import opened Rules
  import opened Runs
  import opened Occupancy

  predicate Apart(x: Window, y: Window, buffer: nat) {
    x.to + buffer <= y.from || y.to + buffer <= x.from
  }

  /**
   * The catalog keeps unit `u` of listing `home` as it is: the same buffer, an asset belonging to no other
   * listing, or a listing without assets and with a single unit.
   */
  ghost predicate Steady(env: Env, u: Unit, home: Id, buffer: nat) {
    && (home in env.catalog ==> env.catalog[home].buffer == buffer)
    && match u
       case ListingUnit(l) =>
         && l == home
         && (home in env.catalog ==> env.catalog[home].activeAssets == [] && env.catalog[home].quantityAvailable == 1)
       case AssetUnit(a) => forall l :: l in env.catalog && a in env.catalog[l].activeAssets ==> l == home
  }

  /** Rows last some time, and those of the unit are all its listing's. */
  ghost predicate Placed(bs: seq<Booking>, u: Unit, home: Id) {
    && (forall i :: 0 <= i < |bs| ==> bs[i].startsAt < bs[i].endsAt)
    && (forall i :: 0 <= i < |bs| && bs[i].Unit() == u ==> bs[i].listing == home)
    && (forall i :: 0 <= i < |bs| && u.ListingUnit? && bs[i].listing == home ==> bs[i].asset.None?)
  }

  /** Any two blocking rows of the unit are at least the buffer apart. */
  ghost predicate UnitSpaced(bs: seq<Booking>, u: Unit, buffer: nat) {
    forall i, j :: 0 <= i < j < |bs| && bs[i].Blocking() && bs[j].Blocking() && bs[i].Unit() == u && bs[j].Unit() == u
                   ==> Apart(bs[i].Span(), bs[j].Span(), buffer)
  }

  ghost predicate Spaced(bs: seq<Booking>, u: Unit, home: Id, buffer: nat) {
    Placed(bs, u, home) && UnitSpaced(bs, u, buffer)
  }

  /** Does another blocking row of `b`'s unit overlap the padded window of `b`, stored as row `i`? */
  predicate Crowded(bs: seq<Booking>, i: Id, b: Booking, buffer: nat) {
    exists j :: 0 <= j < |bs| && j != i && bs[j].Blocking() && bs[j].Unit() == b.Unit()
                && Overlaps(bs[j].Span(), Padded(b.Span(), buffer))
  }

  /** That is the padded check the service makes of an extension, asked of the whole booking. */
  lemma {:induction false} CrowdedIsOverlap(bs: seq<Booking>, i: Id, b: Booking, buffer: nat)
    requires Placed(bs, b.Unit(), b.listing)
    ensures Crowded(bs, i, b, buffer)
       <==> if b.asset.Some? then HasOverlapForAsset(bs, b.asset.value, b.Span(), buffer, Some(i))
            else HasOverlap(bs, b.listing, b.Span(), buffer, Some(i))
  {
    if Crowded(bs, i, b, buffer) {
      var j :| 0 <= j < |bs| && j != i && bs[j].Blocking() && bs[j].Unit() == b.Unit()
               && Overlaps(bs[j].Span(), Padded(b.Span(), buffer));
      assert Hits(bs[j], j, b.Span(), buffer, Some(i));
    }
    if b.asset.Some? && HasOverlapForAsset(bs, b.asset.value, b.Span(), buffer, Some(i)) {
      var j :| 0 <= j < |bs| && bs[j].asset == b.asset && Hits(bs[j], j, b.Span(), buffer, Some(i));
      assert bs[j].Unit() == b.Unit();
    }
    if b.asset.None? && HasOverlap(bs, b.listing, b.Span(), buffer, Some(i)) {
      var j :| 0 <= j < |bs| && bs[j].listing == b.listing && Hits(bs[j], j, b.Span(), buffer, Some(i));
      assert bs[j].Unit() == b.Unit();
    }
  }

  /** Apart from every row that is not in the way, and from no other. */
  lemma CrowdedMeansNotApart(bs: seq<Booking>, i: Id, b: Booking, buffer: nat)
    requires b.startsAt < b.endsAt && forall j :: 0 <= j < |bs| ==> bs[j].startsAt < bs[j].endsAt
    ensures Crowded(bs, i, b, buffer)
       <==> exists j :: 0 <= j < |bs| && j != i && bs[j].Blocking() && bs[j].Unit() == b.Unit()
                        && !Apart(bs[j].Span(), b.Span(), buffer)
  {
    forall j | 0 <= j < |bs|
      ensures Overlaps(bs[j].Span(), Padded(b.Span(), buffer)) <==> !Apart(bs[j].Span(), b.Span(), buffer) { }
    if Crowded(bs, i, b, buffer) {
      var j :| 0 <= j < |bs| && j != i && bs[j].Blocking() && bs[j].Unit() == b.Unit()
               && Overlaps(bs[j].Span(), Padded(b.Span(), buffer));
      assert !Apart(bs[j].Span(), b.Span(), buffer);
    }
  }

  /** Outside the padded window means at least the buffer away. */
  lemma OutsideIsApart(x: Window, w: Window, buffer: nat)
    requires x.from < x.to && w.from < w.to && !Overlaps(x, Padded(w, buffer))
    ensures Apart(x, w, buffer)
  {
  }

  /** An extension checks only the time it adds, yet ends up apart from everything the booking was apart from. */
  lemma LongerStaysApart(x: Window, w: Window, end: Time, buffer: nat)
    requires x.from < x.to && w.from < w.to <= end && Apart(x, w, buffer)
    requires !Overlaps(x, Padded(Window(w.to, end), buffer))
    ensures Apart(x, Window(w.from, end), buffer)
  {
  }

  lemma {:induction false} FirstFreeListed(bs: seq<Booking>, assets: seq<Id>, w: Window, buffer: nat)
    requires FirstFree(bs, assets, w, buffer).Some?
    ensures FirstFree(bs, assets, w, buffer).value in assets
    ensures !HasOverlapForAsset(bs, FirstFree(bs, assets, w, buffer).value, w, buffer, None)
  {
    FirstFreeIsEarliest(bs, assets, w, buffer);
  }

  /** A new booking of the unit is apart from every blocking one. */
  lemma AdmittedApart(env: Env, bs: seq<Booking>, b: Booking, u: Unit, home: Id, buffer: nat, i: Id)
    requires Steady(env, u, home, buffer) && Spaced(bs, u, home, buffer) && b.listing in env.catalog
    requires b.startsAt < b.endsAt && b.Unit() == u && i < |bs| && bs[i].Blocking() && bs[i].Unit() == u
    requires Admit(bs, b.listing, env.catalog[b.listing], b.Span(), b.quantity) == Admitted(b.asset)
    ensures b.listing == home && Apart(bs[i].Span(), b.Span(), buffer)
  {
    var listing, w := env.catalog[b.listing], b.Span();
    if u.AssetUnit? {
      FirstFreeListed(bs, listing.activeAssets, w, listing.buffer);
    } else {
      BookedQuantityPositive(bs, home, w, listing.buffer);
    }
    assert !Hits(bs[i], i, w, buffer, None);
    OutsideIsApart(bs[i].Span(), w, buffer);
  }

  lemma InsertSpaced(env: Env, bs: seq<Booking>, bs': seq<Booking>, u: Unit, home: Id, buffer: nat)
    requires Steady(env, u, home, buffer) && Spaced(bs, u, home, buffer) && Inserts(env, bs, bs')
    ensures Spaced(bs', u, home, buffer)
  {
    var n, b := |bs|, bs'[|bs|];
    forall i | 0 <= i < n ensures bs'[i] == bs[i] { assert bs'[..n][i] == bs[i]; }
    if b.listing == home && u.ListingUnit? { assert b.asset.None?; }
    if b.Unit() == u {
      if u.AssetUnit? {
        FirstFreeListed(bs, env.catalog[b.listing].activeAssets, b.Span(), env.catalog[b.listing].buffer);
      }
      forall i | 0 <= i < n && bs[i].Blocking() && bs[i].Unit() == u ensures Apart(bs[i].Span(), b.Span(), buffer) {
        AdmittedApart(env, bs, b, u, home, buffer, i);
      }
    }
  }

  lemma RewriteSpaced(env: Env, bs: seq<Booking>, bs': seq<Booking>, i: Id, u: Unit, home: Id, buffer: nat)
    requires Spaced(bs, u, home, buffer) && Rewrites(env, bs, bs', i, false)
    ensures Spaced(bs', u, home, buffer)
  {
  }

  lemma ExtendedApart(env: Env, bs: seq<Booking>, bs': seq<Booking>, i: Id, u: Unit, home: Id, buffer: nat, j: Id)
    requires Steady(env, u, home, buffer) && Spaced(bs, u, home, buffer) && Extends(env, bs, bs', i)
    requires bs[i].Unit() == u && bs[i].Blocking() && j < |bs| && j != i && bs[j].Blocking() && bs[j].Unit() == u
    ensures Apart(bs[j].Span(), bs'[i].Span(), buffer)
  {
    var w := Window(bs[i].endsAt, bs'[i].endsAt);
    assert !Hits(bs[j], j, w, buffer, Some(i)) by {
      if u.AssetUnit? {
        assert !HasOverlapForAsset(bs, u.asset, w, buffer, Some(i));
      } else {
        assert !HasOverlap(bs, home, w, buffer, Some(i));
      }
    }
    assert Apart(bs[j].Span(), bs[i].Span(), buffer);
    LongerStaysApart(bs[j].Span(), bs[i].Span(), bs'[i].endsAt, buffer);
  }

  lemma ExtendSpaced(env: Env, bs: seq<Booking>, bs': seq<Booking>, i: Id, u: Unit, home: Id, buffer: nat)
    requires Steady(env, u, home, buffer) && Spaced(bs, u, home, buffer) && Extends(env, bs, bs', i)
    ensures Spaced(bs', u, home, buffer)
  {
    forall j | 0 <= j < |bs| && j != i && bs[j].Blocking() && bs[j].Unit() == u && bs[i].Blocking() && bs[i].Unit() == u
      ensures Apart(bs[j].Span(), bs'[i].Span(), buffer)
    {
      ExtendedApart(env, bs, bs', i, u, home, buffer, j);
    }
  }

  lemma StepSpaced(s: State, e: Event, u: Unit, home: Id, buffer: nat)
    requires AllBasic(s) && !Revives(s, e) && Steady(e.env, u, home, buffer) && Spaced(s.bookings, u, home, buffer)
    ensures Spaced(Next(e.env, s, e.action).bookings, u, home, buffer)
  {
    var bs, bs' := s.bookings, Next(e.env, s, e.action).bookings;
    StepEffect(s, e);
    if Inserts(e.env, bs, bs') {
      InsertSpaced(e.env, bs, bs', u, home, buffer);
    } else if i: Id :| Rewrites(e.env, bs, bs', i, false) {
      RewriteSpaced(e.env, bs, bs', i, u, home, buffer);
    } else if i: Id :| Extends(e.env, bs, bs', i) {
      ExtendSpaced(e.env, bs, bs', i, u, home, buffer);
    }
  }

  /** A row stored over another one keeps the unit spaced exactly when the padded check does not object to it. */
  lemma StoredSpacedIff(bs: seq<Booking>, i: Id, b: Booking, u: Unit, buffer: nat)
    requires i < |bs| && UnitSpaced(bs, u, buffer)
    requires b.startsAt < b.endsAt && forall j :: 0 <= j < |bs| ==> bs[j].startsAt < bs[j].endsAt
    ensures UnitSpaced(bs[i := b], u, buffer) <==> (b.Blocking() && b.Unit() == u ==> !Crowded(bs, i, b, buffer))
  {
    CrowdedMeansNotApart(bs, i, b, buffer);
    var bs' := bs[i := b];
    if UnitSpaced(bs', u, buffer) {
      forall j | 0 <= j < |bs| && j != i && bs[j].Blocking() && bs[j].Unit() == u && b.Blocking() && b.Unit() == u
        ensures Apart(bs[j].Span(), b.Span(), buffer)
      {
        assert bs'[j] == bs[j] && bs'[i] == b;
      }
    } else {
      var j, k :| 0 <= j < k < |bs'| && bs'[j].Blocking() && bs'[k].Blocking() && bs'[j].Unit() == u
        && bs'[k].Unit() == u
                  && !Apart(bs'[j].Span(), bs'[k].Span(), buffer);
      assert j == i || k == i;
    }
  }

  /** If the event revives a booking of the unit, the padded check passes once more. */
  predicate RevivesApart(s: State, e: Event, u: Unit, buffer: nat) {
    Revives(s, e) && s.bookings[e.action.booking].Unit() == u ==>
      !Crowded(s.bookings, e.action.booking, s.bookings[e.action.booking], buffer)
  }

  lemma RevivalSpacedIff(env: Env, bs: seq<Booking>, bs': seq<Booking>, i: Id, u: Unit, home: Id, buffer: nat)
    requires Spaced(bs, u, home, buffer) && Rewrites(env, bs, bs', i, true) && bs'[i].Blocking()
    ensures Spaced(bs', u, home, buffer) <==> (bs[i].Unit() == u ==> !Crowded(bs, i, bs[i], buffer))
  {
    StoredSpacedIff(bs, i, bs'[i], u, buffer);
    assert Crowded(bs, i, bs'[i], buffer) == Crowded(bs, i, bs[i], buffer);
  }

  lemma StepSpacedIff(s: State, e: Event, u: Unit, home: Id, buffer: nat)
    requires AllBasic(s) && Steady(e.env, u, home, buffer) && Spaced(s.bookings, u, home, buffer)
    ensures Spaced(Next(e.env, s, e.action).bookings, u, home, buffer) <==> RevivesApart(s, e, u, buffer)
  {
    if Revives(s, e) {
      RevivalEffect(s, e);
      RevivalSpacedIff(e.env, s.bookings, Next(e.env, s, e.action).bookings, e.action.booking, u, home, buffer);
    } else {
      StepSpaced(s, e, u, home, buffer);
    }
  }

  /**
   * With a steady catalog, any two blocking bookings of the same asset, or of the same single-unit listing, are at
   * least the buffer apart at every point of a run, exactly when every handover of a booking that is not confirmed
   * passes the padded check again. Whether the exclusion constraint is installed makes no difference.
   */
  lemma RunSpacedIff(owner: Id -> Id, events: seq<Event>, u: Unit, home: Id, buffer: nat)
    requires OwnedRun(owner, events)
    requires forall j :: 0 <= j < |events| ==> Steady(events[j].env, u, home, buffer)
    ensures (forall k :: 0 <= k <= |events| ==> Spaced(Before(events, k).bookings, u, home, buffer))
       <==> (forall k :: 0 <= k < |events| ==> RevivesApart(Before(events, k), events[k], u, buffer))
  {
    if forall k :: 0 <= k <= |events| ==> Spaced(Before(events, k).bookings, u, home, buffer) {
      forall k | 0 <= k < |events| ensures RevivesApart(Before(events, k), events[k], u, buffer) {
        assert Spaced(Before(events, k).bookings, u, home, buffer)
               && Spaced(Before(events, k + 1).bookings, u, home, buffer);
        RunBasic(owner, events[..k]);
        RunStep(events, k);
        StepSpacedIff(Before(events, k), events[k], u, home, buffer);
      }
    }
    if forall k :: 0 <= k < |events| ==> RevivesApart(Before(events, k), events[k], u, buffer) {
      forall k | 0 <= k <= |events| ensures Spaced(Before(events, k).bookings, u, home, buffer) {
        SpacedWhileApart(owner, events, k, u, home, buffer);
      }
    }
  }

  lemma {:induction false} SpacedWhileApart(owner: Id -> Id, events: seq<Event>, k: nat, u: Unit, home: Id, buffer: nat)
    requires OwnedRun(owner, events) && k <= |events|
    requires forall j :: 0 <= j < |events| ==> Steady(events[j].env, u, home, buffer)
    requires forall j :: 0 <= j < k ==> RevivesApart(Before(events, j), events[j], u, buffer)
    ensures Spaced(Before(events, k).bookings, u, home, buffer)
  {
    if k == 0 {
      assert events[..0] == [];
    } else {
      SpacedWhileApart(owner, events, k - 1, u, home, buffer);
      RunBasic(owner, events[..k - 1]);
      RunStep(events, k - 1);
      StepSpacedIff(Before(events, k - 1), events[k - 1], u, home, buffer);
    }
  }

  /** In particular while only confirmed bookings are handed over. */
  lemma {:induction false} RunSpaced(owner: Id -> Id, events: seq<Event>, k: nat, u: Unit, home: Id, buffer: nat)
    requires OwnedRun(owner, events) && k <= |events|
    requires forall j :: 0 <= j < |events| ==>
               Steady(events[j].env, u, home, buffer) && !Revives(Before(events, j), events[j])
    ensures Spaced(Before(events, k).bookings, u, home, buffer)
  {
    RunSpacedIff(owner, events, u, home, buffer);
  }
}
