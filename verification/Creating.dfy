/** What `create` promises, in terms of instants, catalog entries and the rows it leaves. */
module Creating {
  import opened Domain
  import opened Availability
  import opened Quoting
  import opened Rules
  import opened Windows
  import UnitSafety
  import Idempotency

  // ---------- when a booking is made ----------

  /** A non-empty key that some booking carries already. */
  predicate Replays(s: State, a: Action)
    requires a.Create?
  {
    a.key.Some? && a.key.value != "" && exists i :: 0 <= i < |s.bookings| && s.bookings[i].key == a.key
  }

  /** An asset that nobody takes near the dates, or enough units that nobody does. */
  ghost predicate HasRoom(s: State, a: Action, listing: Listing)
    requires a.Create?
  {
    var from, to := a.from - listing.buffer, a.to + listing.buffer;
    if listing.activeAssets != [] then a.quantity == 1 && FreeAt(s.bookings, listing.activeAssets, from, to) != {}
    else |TakenUnits(s.bookings, a.listing, from, to)| + a.quantity <= listing.quantityAvailable
  }

  /** Without assets, the constraint wants the whole listing to itself. */
  ghost predicate ConstraintLets(env: Env, s: State, a: Action, listing: Listing)
    requires a.Create?
  {
    env.exclusion && listing.activeAssets == [] ==>
      forall j :: 0 <= j < |s.bookings| && s.bookings[j].listing == a.listing && s.bookings[j].asset.None? ==>
        !Taken(s.bookings[j], a.from, a.to)
  }

  predicate KeyIsNew(s: State, a: Action)
    requires a.Create?
  {
    a.key.Some? ==> forall i :: 0 <= i < |s.bookings| ==> s.bookings[i].key != a.key
  }

  ghost predicate Bookable(env: Env, s: State, a: Action)
    requires a.Create?
  {
    && a.listing in env.catalog
    && var listing := env.catalog[a.listing];
       && listing.live && a.from < a.to && !BlockedIn(listing, a.from, a.to)
       && HasRoom(s, a, listing) && KeyIsNew(s, a) && ConstraintLets(env, s, a, listing)
  }

  lemma ReplaysIff(s: State, a: Action)
    requires a.Create? && a.key.Some?
    ensures FindByKey(s.bookings, a.key.value).Some?
       <==> exists i :: 0 <= i < |s.bookings| && s.bookings[i].key == a.key
  {
    Idempotency.FindByKeySpec(s.bookings, a.key.value);
  }

  lemma {:induction false} FreeAtIff(bs: seq<Booking>, assets: seq<Id>, w: Window, buffer: nat)
    ensures FirstFree(bs, assets, w, buffer).Some? <==> FreeAt(bs, assets, w.from - buffer, w.to + buffer) != {}
  {
    FirstFreeIsEarliest(bs, assets, w, buffer);
    forall k | 0 <= k < |assets|
      ensures k in FreeAt(bs, assets, w.from - buffer, w.to + buffer)
         <==> !HasOverlapForAsset(bs, assets[k], w, buffer, None)
    {
      AssetOverlapIff(bs, assets[k], w, buffer, None);
    }
  }

  lemma RoomIff(s: State, a: Action, listing: Listing)
    requires a.Create?
    ensures Admit(s.bookings, a.listing, listing, Window(a.from, a.to), a.quantity).Admitted?
            <==> HasRoom(s, a, listing)
  {
    var w := Window(a.from, a.to);
    FreeAtIff(s.bookings, listing.activeAssets, w, listing.buffer);
    BookedQuantityIs(s.bookings, a.listing, w, listing.buffer);
  }

  /** A passed admission leaves the constraint's own question, and that only for listings without assets. */
  lemma {:induction false} LetsIff(env: Env, s: State, a: Action, listing: Listing, b: Booking)
    requires a.Create? && b.listing == a.listing && b.Span() == Window(a.from, a.to) && b.Blocking()
    requires b.quantity == a.quantity
    requires Admit(s.bookings, a.listing, listing, Window(a.from, a.to), a.quantity) == Admitted(b.asset)
    ensures !(env.exclusion && Excluded(s.bookings, |s.bookings|, b)) <==> ConstraintLets(env, s, a, listing)
  {
    if listing.activeAssets != [] {
      UnitSafety.AdmittedNotExcluded(s.bookings, a.listing, listing, b);
    } else {
      ExcludedIff(s.bookings, |s.bookings|, b);
    }
  }

  lemma InsertDoneIff(env: Env, s: State, b: Booking, q: Quote, actor: Id, reference: string)
    requires b.Blocking()
    ensures Insert(env, s, b, q, actor, reference).Done?
       <==> && (b.key.Some? ==> FindByKey(s.bookings, b.key.value).None?)
            && !(env.exclusion && Excluded(s.bookings, |s.bookings|, b))
  {
    if !Excluded(s.bookings, |s.bookings|, b) { UnitSafety.InsertNotExcluded(env, s, b, q, actor, reference); }
    InsertErrors(env, s, b, q, actor, reference);
  }

  lemma InsertErrors(env: Env, s: State, b: Booking, q: Quote, actor: Id, reference: string)
    ensures var o := Insert(env, s, b, q, actor, reference);
            o.Failed? ==> if b.key.Some? && FindByKey(s.bookings, b.key.value).Some? then o.error == UniqueViolation
                          else env.exclusion && o.error == ExclusionViolation
  {
    if b.key.Some? && FindByKey(s.bookings, b.key.value).Some? {
    } else if env.exclusion && Excluded(s.bookings, |s.bookings|, b) {
    } else if !env.exclusion {
    }
  }

  /** What `create` does once everything but the insert is settled. */
  lemma CreateIsInsert(env: Env, s: State, a: Action)
    requires a.Create? && !Replays(s, a) && a.listing in env.catalog && env.catalog[a.listing].live && a.from < a.to
    requires !BlockedIn(env.catalog[a.listing], a.from, a.to) && HasRoom(s, a, env.catalog[a.listing])
    ensures var listing, w := env.catalog[a.listing], Window(a.from, a.to);
            var admission := Admit(s.bookings, a.listing, listing, w, a.quantity);
            var quote := ComputeQuote(listing, a.from, a.to, a.quantity);
            && admission.Admitted? && quote.Some?
            && Step(env, s, a) == Insert(env, s, NewBooking(a, listing, admission.asset, quote.value), quote.value,
                                         a.actor, a.reference)
  {
    if a.key.Some? { ReplaysIff(s, a); }
    BlockedIff(env.catalog[a.listing], Window(a.from, a.to));
    RoomIff(s, a, env.catalog[a.listing]);
  }

  /** And when something is not. */
  lemma NothingInserted(env: Env, s: State, a: Action)
    requires a.Create? && !Replays(s, a)
    requires a.listing in env.catalog ==>
               var listing := env.catalog[a.listing];
               !listing.live || a.from >= a.to || BlockedIn(listing, a.from, a.to) || !HasRoom(s, a, listing)
    ensures Step(env, s, a).Failed?
  {
    if a.key.Some? { ReplaysIff(s, a); }
    if a.listing in env.catalog {
      BlockedIff(env.catalog[a.listing], Window(a.from, a.to));
      RoomIff(s, a, env.catalog[a.listing]);
    }
  }

  /**
   * A create that repeats no key goes through exactly when the listing is known and live, the dates follow each
   * other, no instant of them is blocked, there is room, the key is new and the constraint has no objection.
   */
  lemma CreateDoneIff(env: Env, s: State, a: Action)
    requires a.Create? && !Replays(s, a)
    ensures Step(env, s, a).Done? <==> Bookable(env, s, a)
  {
    if a.listing in env.catalog && env.catalog[a.listing].live && a.from < a.to
       && !BlockedIn(env.catalog[a.listing], a.from, a.to) && HasRoom(s, a, env.catalog[a.listing]) {
      var listing, w := env.catalog[a.listing], Window(a.from, a.to);
      CreateIsInsert(env, s, a);
      var asset := Admit(s.bookings, a.listing, listing, w, a.quantity).asset;
      var q := ComputeQuote(listing, a.from, a.to, a.quantity).value;
      var b := NewBooking(a, listing, asset, q);
      InsertDoneIff(env, s, b, q, a.actor, a.reference);
      LetsIff(env, s, a, listing, b);
      if a.key.Some? { ReplaysIff(s, a); }
    } else {
      NothingInserted(env, s, a);
    }
  }

  /** A create that repeats a key changes nothing and answers with a booking that carries it. */
  lemma ReplayAnswers(env: Env, s: State, a: Action)
    requires a.Create? && Replays(s, a)
    ensures var o := Step(env, s, a);
            o.Done? && o.state == s && o.id < |s.bookings| && s.bookings[o.id].key == a.key
  {
    ReplaysIff(s, a);
    Idempotency.FindByKeySpec(s.bookings, a.key.value);
  }

  // ---------- blocks ----------

  /** One instant of the dates inside a block is enough to refuse them. */
  lemma BlockedIsRefused(env: Env, s: State, a: Action, k: nat, t: Time)
    requires a.Create? && !Replays(s, a) && a.listing in env.catalog && k < |env.catalog[a.listing].blocks|
    requires env.catalog[a.listing].blocks[k].from <= t < env.catalog[a.listing].blocks[k].to && a.from <= t < a.to
    ensures Step(env, s, a) == Failed(if env.catalog[a.listing].live then DatesUnavailable else ListingNotLive)
  {
    var listing := env.catalog[a.listing];
    if a.key.Some? { ReplaysIff(s, a); }
    assert During(t, listing.blocks[k].from, listing.blocks[k].to) && During(t, a.from, a.to);
    BlockedIff(listing, Window(a.from, a.to));
  }

  /** The catalog without the provider's blocks of one listing. */
  function Unblocked(env: Env, listing: Id): Env {
    if listing in env.catalog then env.(catalog := env.catalog[listing := env.catalog[listing].(blocks := [])]) else env
  }

  /** Blocks that miss the dates make no difference. */
  lemma UnblockedIsUnaffected(env: Env, s: State, a: Action)
    requires a.Create?
    requires a.listing in env.catalog ==>
               forall k, t :: 0 <= k < |env.catalog[a.listing].blocks| && During(t, a.from, a.to) ==>
                 !During(t, env.catalog[a.listing].blocks[k].from, env.catalog[a.listing].blocks[k].to)
    ensures Step(env, s, a) == Step(Unblocked(env, a.listing), s, a)
  {
    if a.listing in env.catalog {
      var listing, w := env.catalog[a.listing], Window(a.from, a.to);
      BlockedIff(listing, w);
      BlockedIff(listing.(blocks := []), w);
      SameAdmission(s, a, listing);
      InsertIgnoresCatalog(env, Unblocked(env, a.listing), s, a);
    }
  }

  lemma SameAdmission(s: State, a: Action, listing: Listing)
    requires a.Create?
    ensures var free := listing.(blocks := []);
            && Admit(s.bookings, a.listing, free, Window(a.from, a.to), a.quantity)
               == Admit(s.bookings, a.listing, listing, Window(a.from, a.to), a.quantity)
            && ComputeQuote(free, a.from, a.to, a.quantity) == ComputeQuote(listing, a.from, a.to, a.quantity)
  {
  }

  lemma InsertIgnoresCatalog(env: Env, env': Env, s: State, a: Action)
    requires env'.now == env.now && env'.exclusion == env.exclusion
    ensures forall b, q, actor, reference ::
              Insert(env', s, b, q, actor, reference) == Insert(env, s, b, q, actor, reference)
  {
  }

  // ---------- errors ----------

  /** Why a create is refused, first reason first. */
  lemma CreateErrors(env: Env, s: State, a: Action)
    requires a.Create? && !Replays(s, a) && !Bookable(env, s, a)
    ensures Step(env, s, a) == Failed(
              if a.listing !in env.catalog then NotFound
              else
                var listing := env.catalog[a.listing];
                if !listing.live then ListingNotLive
                else if a.from > a.to then InvalidRange
                else if BlockedIn(listing, a.from, a.to) then DatesUnavailable
                else if !HasRoom(s, a, listing) then
                  (if (if listing.activeAssets != [] then a.quantity > 1 else a.quantity > listing.quantityAvailable)
                   then QuantityInvalid else DatesUnavailable)
                else if a.from == a.to then DateRangeInvalid
                else if !KeyIsNew(s, a) then UniqueViolation
                else ExclusionViolation)
  {
    CreateDoneIff(env, s, a);
    if a.key.Some? { ReplaysIff(s, a); }
    if a.listing in env.catalog {
      var listing, w := env.catalog[a.listing], Window(a.from, a.to);
      BlockedIff(listing, w);
      RoomIff(s, a, listing);
      if listing.live && a.from < a.to && !BlockedIn(listing, a.from, a.to) && HasRoom(s, a, listing) {
        CreateIsInsert(env, s, a);
        var q := ComputeQuote(listing, a.from, a.to, a.quantity).value;
        InsertErrors(env, s, NewBooking(a, listing, Admit(s.bookings, a.listing, listing, w, a.quantity).asset, q), q,
                     a.actor, a.reference);
      }
    }
  }

  // ---------- what is stored ----------

  /** `n` is the number of nights, at least one, that the span begins. */
  predicate NightsOf(n: nat, from: Time, to: Time) {
    n >= 1 && (n - 1) * 86_400_000 < to - from <= n * 86_400_000
  }

  /** `fee` is the basis-point share of `rental`, to the nearest unit and halves upwards. */
  predicate ShareOf(fee: int, rental: int, bps: nat) {
    -10_000 < 2 * (10_000 * fee - rental * bps) <= 10_000
  }

  lemma NightsAre(from: Time, to: Time)
    requires from < to
    ensures NightsOf(Nights(from, to), from, to)
  {
  }

  lemma ServiceFeeIs(rental: nat, bps: nat)
    ensures ShareOf(ServiceFee(rental, bps), rental, bps)
  {
    var x, q := rental * bps, ServiceFee(rental, bps);
    assert q == (2 * x + 10_000) / 20_000;
    assert 20_000 * q <= 2 * x + 10_000 < 20_000 * q + 20_000;
  }

  /** The fees of a new booking: price by nights by units, the commission on it, and one deposit for each unit. */
  ghost predicate FairlyQuoted(b: Booking, listing: Listing) {
    && (exists n: nat :: NightsOf(n, b.startsAt, b.endsAt) && b.rental == listing.price * n * b.quantity)
    && ShareOf(b.service, b.rental, listing.commissionBps)
    && b.deposit == (if listing.deposit.Some? then listing.deposit.value * b.quantity else 0)
    && b.total == b.rental + b.service + b.deposit
  }

  lemma QuoteIsFair(listing: Listing, from: Time, to: Time, quantity: nat)
    requires from < to
    ensures var quote := ComputeQuote(listing, from, to, quantity);
            && quote.Some?
            && var q := quote.value;
               && NightsOf(q.nights, from, to) && q.rental == listing.price * q.nights * quantity
               && ShareOf(q.service, q.rental, listing.commissionBps)
               && q.deposit == (if listing.deposit.Some? then listing.deposit.value * quantity else 0)
               && q.total == q.rental + q.service + q.deposit
  {
    NightsAre(from, to);
    ServiceFeeIs(listing.price * Nights(from, to) * quantity, listing.commissionBps);
  }

  /** Request-to-book stops as requested; instant book is charged for and reserved. */
  ghost predicate StoredAs(env: Env, s: State, s': State, a: Action)
    requires a.Create? && a.listing in env.catalog
  {
    var listing, id := env.catalog[a.listing], |s.bookings|;
    && |s'.bookings| == id + 1 && s'.bookings[..id] == s.bookings
    && s'.requests == s.requests && s'.disputes == s.disputes && s'.settlements == s.settlements
    && var b := s'.bookings[id];
       && b.listing == a.listing && b.renter == a.actor && b.quantity == a.quantity && b.key == a.key
       && b.startsAt == a.from && b.endsAt == a.to && b.mode == listing.mode && b.policy == listing.policy
       && FairlyQuoted(b, listing)
       && match listing.mode
          case OnRequest =>
            && b.status == Pending && b.stage == Requested && b.paid == None && s'.ledger == s.ledger
            && s'.history == s.history + [HistoryRow(id, None, Point(Requested, Pending), a.actor, env.now)]
          case Instant =>
            && b.status == Confirmed && b.stage == Reserved && b.paid == Some(a.reference)
            && s'.ledger == s.ledger
                 + (if b.total > 0
                    then [Transaction(id, Charge, b.total, Some(a.actor), None, None, None, Some(a.reference))] else [])
            && s'.history == s.history
                 + [HistoryRow(id, None, Point(Requested, Pending), a.actor, env.now),
                    HistoryRow(id, Some(Point(Requested, Pending)), Point(Accepted, Pending), a.actor, env.now),
                    HistoryRow(id, Some(Point(Accepted, Pending)), Point(Payment, Pending), a.actor, env.now),
                    HistoryRow(id, Some(Point(Payment, Pending)), Point(Reserved, Confirmed), a.actor, env.now)]
  }

  lemma {:induction false} TrailOfThree(id: Id, from: Point, p: Point, q: Point, r: Point, actor: Id, now: Time)
    ensures Trail(id, from, [p, q, r], actor, now)
         == [HistoryRow(id, Some(from), p, actor, now), HistoryRow(id, Some(p), q, actor, now),
             HistoryRow(id, Some(q), r, actor, now)]
  {
    assert [p, q, r][1..] == [q, r] && [q, r][1..] == [r] && [r][1..] == [];
    assert Trail(id, r, [], actor, now) == [];
    assert Trail(id, q, [r], actor, now) == [HistoryRow(id, Some(q), r, actor, now)];
    assert Trail(id, p, [q, r], actor, now)
        == [HistoryRow(id, Some(p), q, actor, now), HistoryRow(id, Some(q), r, actor, now)];
  }

  lemma InsertStores(env: Env, s: State, a: Action, listing: Listing, asset: Option<Id>, q: Quote)
    requires a.Create? && a.listing in env.catalog && listing == env.catalog[a.listing] && a.from < a.to
    requires ComputeQuote(listing, a.from, a.to, a.quantity) == Some(q)
    requires Insert(env, s, NewBooking(a, listing, asset, q), q, a.actor, a.reference).Done?
    ensures var o := Insert(env, s, NewBooking(a, listing, asset, q), q, a.actor, a.reference);
            o.id == |s.bookings| && StoredAs(env, s, o.state, a) && o.state.bookings[o.id].asset == asset
  {
    var b := NewBooking(a, listing, asset, q);
    var o := Insert(env, s, b, q, a.actor, a.reference);
    QuoteIsFair(listing, a.from, a.to, a.quantity);
    TrailOfThree(|s.bookings|, Point(Requested, Pending), Point(Accepted, Pending), Point(Payment, Pending),
                 Point(Reserved, Confirmed), a.actor, env.now);
    assert (s.bookings + [b])[..|s.bookings|] == s.bookings;
    if b.mode == Instant {
      var first := [HistoryRow(|s.bookings|, None, b.At(), a.actor, env.now)];
      var three := Trail(|s.bookings|, b.At(), TO_RESERVED, a.actor, env.now);
      assert s.history + first + three == s.history + (first + three);
    }
  }

  /** A booking that is made is stored as asked for, fairly quoted, on a free asset if the listing has any. */
  lemma CreateStores(env: Env, s: State, a: Action)
    requires a.Create? && !Replays(s, a) && Step(env, s, a).Done?
    ensures a.listing in env.catalog
    ensures var s', listing := Step(env, s, a).state, env.catalog[a.listing];
            && Step(env, s, a).id == |s.bookings| && StoredAs(env, s, s', a)
            && var asset := s'.bookings[|s.bookings|].asset;
               if listing.activeAssets == [] then asset == None
               else
                 var free := FreeAt(s.bookings, listing.activeAssets, a.from - listing.buffer, a.to + listing.buffer);
                 exists k :: k in free && asset == Some(listing.activeAssets[k]) && forall j :: j in free ==> k <= j
  {
    CreateDoneIff(env, s, a);
    CreateIsInsert(env, s, a);
    var listing, w := env.catalog[a.listing], Window(a.from, a.to);
    var asset := Admit(s.bookings, a.listing, listing, w, a.quantity).asset;
    var q := ComputeQuote(listing, a.from, a.to, a.quantity).value;
    InsertStores(env, s, a, listing, asset, q);
    if listing.activeAssets != [] { FirstOfFree(s.bookings, listing.activeAssets, w, listing.buffer); }
  }

  lemma {:induction false} FirstOfFree(bs: seq<Booking>, assets: seq<Id>, w: Window, buffer: nat)
    requires FirstFree(bs, assets, w, buffer).Some?
    ensures var free := FreeAt(bs, assets, w.from - buffer, w.to + buffer);
            exists k :: k in free && FirstFree(bs, assets, w, buffer) == Some(assets[k])
                        && forall j :: j in free ==> k <= j
  {
    FirstFreeIsEarliest(bs, assets, w, buffer);
    var asset := FirstFree(bs, assets, w, buffer).value;
    var k :| 0 <= k < |assets| && assets[k] == asset && !HasOverlapForAsset(bs, asset, w, buffer, None)
             && forall j :: 0 <= j < k ==> HasOverlapForAsset(bs, assets[j], w, buffer, None);
    forall j | 0 <= j <= k
      ensures j in FreeAt(bs, assets, w.from - buffer, w.to + buffer)
         <==> !HasOverlapForAsset(bs, assets[j], w, buffer, None)
    {
      AssetOverlapIff(bs, assets[j], w, buffer, None);
    }
  }
}
