/** Window checks over the bookings table, admission, and the exclusion constraint. */
module Availability {
  import opened Domain

  /** Postgres `&&` on half-open ranges: an empty range overlaps nothing. */
  predicate Overlaps(x: Window, y: Window) {
    x.from < x.to && y.from < y.to && x.from < y.to && y.from < x.to
  }

  function Padded(w: Window, buffer: nat): Window { Window(w.from - buffer, w.to + buffer) }

  /** Pending or confirmed, inside the padded window, and not the booking being extended. */
  predicate Hits(b: Booking, i: Id, w: Window, buffer: nat, exclude: Option<Id>) {
    b.Blocking() && Overlaps(b.Span(), Padded(w, buffer)) && exclude != Some(i)
  }

  predicate HasOverlapForAsset(bookings: seq<Booking>, asset: Id, w: Window, buffer: nat, exclude: Option<Id>) {
    exists i :: 0 <= i < |bookings| && bookings[i].asset == Some(asset) && Hits(bookings[i], i, w, buffer, exclude)
  }

  predicate HasOverlap(bookings: seq<Booking>, listing: Id, w: Window, buffer: nat, exclude: Option<Id>) {
    exists i :: 0 <= i < |bookings| && bookings[i].listing == listing && Hits(bookings[i], i, w, buffer, exclude)
  }

  function BookedQuantity(bookings: seq<Booking>, listing: Id, w: Window, buffer: nat): nat {
    if bookings == [] then 0
    else
      var i := |bookings| - 1;
      BookedQuantity(bookings[..i], listing, w, buffer) +
      if bookings[i].listing == listing && Hits(bookings[i], i, w, buffer, None) then bookings[i].quantity else 0
  }

  predicate IsBlocked(listing: Listing, w: Window) {
    exists k :: 0 <= k < |listing.blocks| && Overlaps(listing.blocks[k], w)
  }

  /** Would storing `b` as row `i` break no_overlapping_bookings? */
  predicate Excluded(bookings: seq<Booking>, i: Id, b: Booking) {
    && b.Blocking()
    && exists j :: 0 <= j < |bookings| && j != i && bookings[j].Blocking()
                   && bookings[j].Unit() == b.Unit() && Overlaps(bookings[j].Span(), b.Span())
  }

  /** The constraint as a statement about the whole table. */
  ghost predicate NoOverlaps(bookings: seq<Booking>) {
    forall i, j :: 0 <= i < j < |bookings| && bookings[i].Blocking() && bookings[j].Blocking()
                   && bookings[i].Unit() == bookings[j].Unit()
                   ==> !Overlaps(bookings[i].Span(), bookings[j].Span())
  }

  datatype Admission = Admitted(asset: Option<Id>) | Rejected(error: Error)

  /** The first active asset with no conflicting booking. */
  function FirstFree(bookings: seq<Booking>, assets: seq<Id>, w: Window, buffer: nat): Option<Id> {
    if assets == [] then None
    else if !HasOverlapForAsset(bookings, assets[0], w, buffer, None) then Some(assets[0])
    else FirstFree(bookings, assets[1..], w, buffer)
  }

  /** The unit and quantity checks of `create`. */
  function Admit(bookings: seq<Booking>, id: Id, listing: Listing, w: Window, quantity: nat): Admission {
    if listing.activeAssets != [] then
      if quantity > 1 then Rejected(QuantityInvalid)
      else
        var asset := FirstFree(bookings, listing.activeAssets, w, listing.buffer);
        if asset.None? then Rejected(DatesUnavailable) else Admitted(asset)
    else if quantity > listing.quantityAvailable then Rejected(QuantityInvalid)
    else if BookedQuantity(bookings, id, w, listing.buffer) + quantity > listing.quantityAvailable then
      Rejected(DatesUnavailable)
    else Admitted(None)
  }

  /** The window an extension adds must be free of blocks and, padded, of every other booking. */
  function ExtensionError(bookings: seq<Booking>, id: Id, listing: Listing, newEndsAt: Time): Option<Error>
    requires id < |bookings|
  {
    var b := bookings[id];
    var w := Window(b.endsAt, newEndsAt);
    if w.from > w.to then Some(InvalidRange)
    else if IsBlocked(listing, w) then Some(DatesUnavailable)
    else if (if b.asset.Some? then HasOverlapForAsset(bookings, b.asset.value, w, listing.buffer, Some(id))
             else HasOverlap(bookings, b.listing, w, listing.buffer, Some(id)))
    then Some(DatesUnavailable)
    else None
  }

  function FreeAssets(bookings: seq<Booking>, assets: seq<Id>, w: Window, buffer: nat): nat {
    if assets == [] then 0
    else
      var last := |assets| - 1;
      FreeAssets(bookings, assets[..last], w, buffer) +
      if HasOverlapForAsset(bookings, assets[last], w, buffer, None) then 0 else 1
  }

  /** quantityFree of getAvailableQuantity. */
  function QuantityFree(bookings: seq<Booking>, id: Id, listing: Listing, w: Window): nat {
    if listing.activeAssets != [] then FreeAssets(bookings, listing.activeAssets, w, listing.buffer)
    else
      var booked := BookedQuantity(bookings, id, w, listing.buffer);
      if listing.quantityAvailable < booked then 0 else listing.quantityAvailable - booked
  }

  /** Some(asset) is the earliest conflict-free asset; None means every asset conflicts. */
  lemma {:induction false} FirstFreeIsEarliest(bookings: seq<Booking>, assets: seq<Id>, w: Window, buffer: nat)
    ensures match FirstFree(bookings, assets, w, buffer)
            case Some(asset) =>
              exists k :: 0 <= k < |assets| && assets[k] == asset
                && !HasOverlapForAsset(bookings, asset, w, buffer, None)
                && forall j :: 0 <= j < k ==> HasOverlapForAsset(bookings, assets[j], w, buffer, None)
            case None =>
              forall j :: 0 <= j < |assets| ==> HasOverlapForAsset(bookings, assets[j], w, buffer, None)
  {
    if assets == [] {
    } else if !HasOverlapForAsset(bookings, assets[0], w, buffer, None) {
      assert assets[0] == assets[0];
    } else {
      FirstFreeIsEarliest(bookings, assets[1..], w, buffer);
      match FirstFree(bookings, assets[1..], w, buffer) {
        case Some(asset) =>
          var k :| 0 <= k < |assets[1..]| && assets[1..][k] == asset
                   && !HasOverlapForAsset(bookings, asset, w, buffer, None)
                   && forall j :: 0 <= j < k ==> HasOverlapForAsset(bookings, assets[1..][j], w, buffer, None);
          assert assets[k + 1] == asset;
          forall j | 0 <= j < k + 1 ensures HasOverlapForAsset(bookings, assets[j], w, buffer, None) {
            if j > 0 { assert assets[1..][j - 1] == assets[j]; }
          }
        case None =>
          forall j | 0 <= j < |assets| ensures HasOverlapForAsset(bookings, assets[j], w, buffer, None) {
            if j > 0 { assert assets[1..][j - 1] == assets[j]; }
          }
      }
    }
  }

  lemma {:induction false} FreeAssetsCounts(bookings: seq<Booking>, assets: seq<Id>, w: Window, buffer: nat)
    ensures FreeAssets(bookings, assets, w, buffer) <= |assets|
    ensures FreeAssets(bookings, assets, w, buffer) == 0
       <==> forall j :: 0 <= j < |assets| ==> HasOverlapForAsset(bookings, assets[j], w, buffer, None)
  {
    if assets == [] {
    } else {
      var last := |assets| - 1;
      FreeAssetsCounts(bookings, assets[..last], w, buffer);
      if forall j :: 0 <= j < last ==> HasOverlapForAsset(bookings, assets[..last][j], w, buffer, None) {
        forall j | 0 <= j < last ensures HasOverlapForAsset(bookings, assets[j], w, buffer, None) {
          assert assets[..last][j] == assets[j];
        }
      } else {
        var j :| 0 <= j < last && !HasOverlapForAsset(bookings, assets[..last][j], w, buffer, None);
        assert assets[..last][j] == assets[j];
      }
    }
  }

  /**
   * The number the renter is shown and the check `create` runs agree on every table:
   * a request passes exactly when it asks for no more than quantityFree, and for
   * one unit where units are tracked individually.
   */
  lemma QueryAgreesWithAdmission(bookings: seq<Booking>, id: Id, listing: Listing, w: Window, quantity: Positive)
    ensures Admit(bookings, id, listing, w, quantity).Admitted?
       <==> && quantity <= QuantityFree(bookings, id, listing, w)
            && (listing.activeAssets != [] ==> quantity == 1)
  {
    FirstFreeIsEarliest(bookings, listing.activeAssets, w, listing.buffer);
    FreeAssetsCounts(bookings, listing.activeAssets, w, listing.buffer);
  }

  /** A booking counted against the listing makes the booked quantity positive, and conversely. */
  lemma {:induction false} BookedQuantityPositive(bookings: seq<Booking>, listing: Id, w: Window, buffer: nat)
    ensures BookedQuantity(bookings, listing, w, buffer) == 0
       <==> !HasOverlap(bookings, listing, w, buffer, None)
  {
    if bookings == [] {
    } else {
      var n := |bookings| - 1;
      BookedQuantityPositive(bookings[..n], listing, w, buffer);
      if HasOverlap(bookings[..n], listing, w, buffer, None) {
        var i :| 0 <= i < n && bookings[..n][i].listing == listing && Hits(bookings[..n][i], i, w, buffer, None);
        assert bookings[i].listing == listing && Hits(bookings[i], i, w, buffer, None);
      }
      if HasOverlap(bookings, listing, w, buffer, None) {
        var i :| 0 <= i < |bookings| && bookings[i].listing == listing && Hits(bookings[i], i, w, buffer, None);
        if i < n { assert bookings[..n][i] == bookings[i]; }
      }
    }
  }
}
