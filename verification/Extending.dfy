/** What asking for, approving, declining and withdrawing an extension promise, spelled out. */
module Extending {
  import opened Domain
  import opened Availability
  import opened Quoting
  import opened Rules
  import opened Windows
  import opened Creating
  import opened Acting

  /** Another booking of the asset, or of the listing when there is none, within the buffer of `[from, to)`. */
  ghost predicate Crossed(s: State, id: Id, buffer: nat, from: Time, to: Time)
    requires id < |s.bookings|
  {
    exists j :: 0 <= j < |s.bookings| && j != id && Taken(s.bookings[j], from - buffer, to + buffer)
                && if s.bookings[id].asset.Some? then s.bookings[j].asset == s.bookings[id].asset
                   else s.bookings[j].listing == s.bookings[id].listing
  }

  /** The time an extension adds is free of blocks and, with the buffer, of other bookings. */
  lemma ExtensionErrorIs(s: State, id: Id, listing: Listing, newEndsAt: Time)
    requires id < |s.bookings|
    ensures var from := s.bookings[id].endsAt;
            ExtensionError(s.bookings, id, listing, newEndsAt) ==
            if from > newEndsAt then Some(InvalidRange)
            else if BlockedIn(listing, from, newEndsAt) || Crossed(s, id, listing.buffer, from, newEndsAt)
            then Some(DatesUnavailable) else None
  {
    var b := s.bookings[id];
    var w := Window(b.endsAt, newEndsAt);
    BlockedIff(listing, w);
    if b.asset.Some? {
      AssetOverlapIff(s.bookings, b.asset.value, w, listing.buffer, Some(id));
    } else {
      ListingOverlapIff(s.bookings, b.listing, w, listing.buffer, Some(id));
    }
  }

  predicate HasPending(s: State, id: Id) {
    exists k :: 0 <= k < |s.requests| && s.requests[k].booking == id && s.requests[k].status == RequestPending
  }

  ghost predicate Extendable(env: Env, s: State, id: Id, actor: Id, newEndsAt: Time) {
    && id < |s.bookings|
    && var b := s.bookings[id];
       && b.stage == Active && b.renter == actor && b.endsAt < newEndsAt && b.listing in env.catalog
       && !BlockedIn(env.catalog[b.listing], b.endsAt, newEndsAt)
       && !Crossed(s, id, env.catalog[b.listing].buffer, b.endsAt, newEndsAt)
       && !HasPending(s, id)
  }

  /** When a request is taken, and why it is not. */
  lemma RequestDoneIff(env: Env, s: State, id: Id, actor: Id, newEndsAt: Time)
    ensures var o := Step(env, s, RequestExtension(id, actor, newEndsAt));
            && (o.Done? <==> Extendable(env, s, id, actor, newEndsAt))
            && (o.Failed? ==>
                  o.error ==
                  if id >= |s.bookings| then NotFound
                  else if s.bookings[id].stage != Active then InvalidTransition
                  else if s.bookings[id].renter != actor then Forbidden
                  else if newEndsAt <= s.bookings[id].endsAt then DateRangeInvalid
                  else if s.bookings[id].listing !in env.catalog then NotFound
                  else if BlockedIn(env.catalog[s.bookings[id].listing], s.bookings[id].endsAt, newEndsAt)
                          || Crossed(s, id, env.catalog[s.bookings[id].listing].buffer, s.bookings[id].endsAt,
                                     newEndsAt)
                  then DatesUnavailable else UniqueViolation)
  {
    if id < |s.bookings| && s.bookings[id].listing in env.catalog && s.bookings[id].endsAt < newEndsAt {
      ExtensionErrorIs(s, id, env.catalog[s.bookings[id].listing], newEndsAt);
      QuoteIsFair(env.catalog[s.bookings[id].listing], s.bookings[id].endsAt, newEndsAt, 1);
    }
  }

  /** A request taken is pending, starts where the booking ends, is quoted for one unit, and changes nothing else. */
  lemma RequestStores(env: Env, s: State, id: Id, actor: Id, newEndsAt: Time)
    requires Step(env, s, RequestExtension(id, actor, newEndsAt)).Done?
    ensures id < |s.bookings| && s.bookings[id].listing in env.catalog
    ensures var o := Step(env, s, RequestExtension(id, actor, newEndsAt));
            var listing := env.catalog[s.bookings[id].listing];
            && o.id == |s.requests| < |o.state.requests|
            && var r := o.state.requests[o.id];
               && o.state == s.(requests := s.requests + [r])
               && r.booking == id && r.requestedBy == actor && r.status == RequestPending
               && r.currentEndsAt == s.bookings[id].endsAt && r.requestedEndsAt == newEndsAt
               && r.decidedBy == None && r.decidedAt == None
               && (exists n: nat :: NightsOf(n, s.bookings[id].endsAt, newEndsAt) && r.rental == listing.price * n)
               && ShareOf(r.service, r.rental, listing.commissionBps)
  {
    RequestDoneIff(env, s, id, actor, newEndsAt);
    var listing := env.catalog[s.bookings[id].listing];
    QuoteIsFair(listing, s.bookings[id].endsAt, newEndsAt, 1);
    var q := ComputeQuote(listing, s.bookings[id].endsAt, newEndsAt, 1).value;
    assert listing.price * q.nights * 1 == listing.price * q.nights;
  }

  /** Approval re-checks the window, never the stage; the booking grows longer and dearer, and is charged the extra. */
  lemma ApproveExtensionIs(env: Env, s: State, k: Id, actor: Id, reference: string)
    ensures Step(env, s, ApproveExtension(k, actor, reference)) ==
            if k >= |s.requests| then Failed(NotFound)
            else
              var r := s.requests[k];
              if r.status != RequestPending then Failed(ExtensionInvalidState)
              else if r.booking >= |s.bookings| || s.bookings[r.booking].listing !in env.catalog then Failed(NotFound)
              else
                var id, b := r.booking, s.bookings[r.booking];
                var listing := env.catalog[b.listing];
                var longer := b.(endsAt := r.requestedEndsAt, rental := b.rental + r.rental,
                                 service := b.service + r.service, total := b.total + r.rental + r.service,
                                 paid := Some(reference));
                if b.endsAt > r.requestedEndsAt then Failed(InvalidRange)
                else if BlockedIn(listing, b.endsAt, r.requestedEndsAt)
                        || Crossed(s, id, listing.buffer, b.endsAt, r.requestedEndsAt) then Failed(DatesUnavailable)
                else if && env.exclusion && (b.status == Pending || b.status == Confirmed)
                        && (exists j :: 0 <= j < |s.bookings| && j != id && SameUnit(s.bookings[j], b)
                                        && Taken(s.bookings[j], b.startsAt, r.requestedEndsAt))
                then Failed(ExclusionViolation)
                else
                  Done(s.(bookings := s.bookings[id := longer],
                          ledger := s.ledger
                            + Row(Transaction(id, Charge, r.rental + r.service, Some(b.renter), None, None, None,
                                              Some(reference))),
                          requests := s.requests[k := r.(status := Approved, decidedBy := Some(actor),
                                                         decidedAt := Some(env.now))],
                          history := s.history + [HistoryRow(id, Some(Point(Active, b.status)), Point(Active, b.status),
                                                             actor, env.now)]),
                       id)
  {
    if k < |s.requests| && s.requests[k].booking < |s.bookings| {
      var r, id := s.requests[k], s.requests[k].booking;
      var b := s.bookings[id];
      if b.listing in env.catalog { ExtensionErrorIs(s, id, env.catalog[b.listing], r.requestedEndsAt); }
      ExcludedIff(s.bookings, id, Extended(b, r, reference));
    }
  }

  /** Declining decides a pending request; it cannot be decided twice. */
  lemma DeclineExtensionIs(env: Env, s: State, k: Id, actor: Id)
    ensures Step(env, s, DeclineExtension(k, actor)) ==
            if k >= |s.requests| then Failed(NotFound)
            else if s.requests[k].status != RequestPending then Failed(ExtensionInvalidState)
            else Done(s.(requests := s.requests[k := s.requests[k].(status := RequestDeclined, decidedBy := Some(actor),
                                                                    decidedAt := Some(env.now))]), k)
  {
  }

  /** Only the requester withdraws, and only while pending. */
  lemma CancelExtensionIs(env: Env, s: State, k: Id, actor: Id)
    ensures Step(env, s, CancelExtension(k, actor)) ==
            if k >= |s.requests| then Failed(NotFound)
            else if s.requests[k].status != RequestPending then Failed(ExtensionInvalidState)
            else if s.requests[k].requestedBy != actor then Failed(Forbidden)
            else Done(s.(requests := s.requests[k := s.requests[k].(status := RequestCancelled)]), k)
  {
  }

  // ---------- blocks, and blocks alone ----------

  /** One blocked instant of the added time refuses a request and an approval. */
  lemma BlockedExtensionIsRefused(env: Env, s: State, id: Id, k: nat, t: Time, actor: Id, newEndsAt: Time)
    requires id < |s.bookings| && s.bookings[id].listing in env.catalog
    requires var listing := env.catalog[s.bookings[id].listing];
             k < |listing.blocks| && listing.blocks[k].from <= t < listing.blocks[k].to
    requires s.bookings[id].endsAt <= t < newEndsAt
    ensures var o := Step(env, s, RequestExtension(id, actor, newEndsAt));
            && o.Failed? && (s.bookings[id].stage == Active && s.bookings[id].renter == actor ==>
                             o.error == DatesUnavailable)
    ensures forall j, reference :: 0 <= j < |s.requests| && s.requests[j].booking == id
                                   && s.requests[j].requestedEndsAt == newEndsAt
                                   && s.requests[j].status == RequestPending
              ==> Step(env, s, ApproveExtension(j, actor, reference)) == Failed(DatesUnavailable)
  {
    var listing := env.catalog[s.bookings[id].listing];
    assert During(t, listing.blocks[k].from, listing.blocks[k].to) && During(t, s.bookings[id].endsAt, newEndsAt);
    RequestDoneIff(env, s, id, actor, newEndsAt);
    forall j, reference | 0 <= j < |s.requests| && s.requests[j].booking == id
                          && s.requests[j].requestedEndsAt == newEndsAt && s.requests[j].status == RequestPending
      ensures Step(env, s, ApproveExtension(j, actor, reference)) == Failed(DatesUnavailable)
    {
      ApproveExtensionIs(env, s, j, actor, reference);
    }
  }

  /** Blocks that miss the added time make no difference to either. */
  lemma UnblockedExtensionIsUnaffected(env: Env, s: State, a: Action, id: Id, to: Time)
    requires id < |s.bookings|
    requires || (a.RequestExtension? && a.booking == id && a.newEndsAt == to)
             || (a.ApproveExtension? && a.request < |s.requests| && s.requests[a.request].booking == id
                 && s.requests[a.request].requestedEndsAt == to)
    requires s.bookings[id].listing in env.catalog ==>
             !BlockedIn(env.catalog[s.bookings[id].listing], s.bookings[id].endsAt, to)
    ensures Step(env, s, a) == Step(Unblocked(env, s.bookings[id].listing), s, a)
  {
    var env' := Unblocked(env, s.bookings[id].listing);
    if s.bookings[id].listing in env.catalog {
      ExtensionErrorIs(s, id, env.catalog[s.bookings[id].listing], to);
      ExtensionErrorIs(s, id, env'.catalog[s.bookings[id].listing], to);
    }
  }
}
