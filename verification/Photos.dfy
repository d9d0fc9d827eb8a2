/** A listing's photos and their order: position 0 is the cover. */
module Photos {
  import opened Domain

  datatype Photo = Photo(listing: Id, storageKey: string, position: int)

  datatype PhotoError = LimitExceeded | PhotoNotFound | OrderMismatch

  const MAX_LISTING_PHOTOS := 4

  function IdsOf(photos: map<Id, Photo>, listing: Id): set<Id> {
    set i | i in photos && photos[i].listing == listing
  }

  /** The listing's positions are exactly 0 .. n-1. */
  ghost predicate Contiguous(photos: map<Id, Photo>, listing: Id) {
    && (forall i :: i in IdsOf(photos, listing) ==> 0 <= photos[i].position < |IdsOf(photos, listing)|)
    && (forall i, j :: i in IdsOf(photos, listing) && j in IdsOf(photos, listing) && i != j
                       ==> photos[i].position != photos[j].position)
  }

  /** Contiguous positions and no more photos than allowed, for every listing. */
  ghost predicate ValidTable(photos: map<Id, Photo>) {
    forall l: Id :: Contiguous(photos, l) && |IdsOf(photos, l)| <= MAX_LISTING_PHOTOS
  }

  ghost predicate Distinct(ids: seq<Id>) {
    forall i, j :: 0 <= i < j < |ids| ==> ids[i] != ids[j]
  }

  /** `order` lists exactly the listing's photos, by ascending position. */
  ghost predicate Listed(photos: map<Id, Photo>, listing: Id, order: seq<Id>) {
    && Distinct(order)
    && (forall i :: i in order <==> i in IdsOf(photos, listing))
    && (forall k :: 0 <= k < |order| ==> order[k] in photos)
    && (forall i, j :: 0 <= i < j < |order| ==> photos[order[i]].position <= photos[order[j]].position)
  }

  lemma {:induction false} DistinctSize(order: seq<Id>, ids: set<Id>)
    requires Distinct(order) && forall i :: i in order <==> i in ids
    ensures |order| == |ids|
  {
    if order == [] {
      assert ids == {};
    } else {
      var last := order[|order| - 1];
      assert order == order[..|order| - 1] + [last];
      DistinctSize(order[..|order| - 1], ids - {last});
    }
  }

  /** Reading back contiguous photos gives them at positions 0, 1, 2, ... */
  lemma ListedPositions(photos: map<Id, Photo>, listing: Id, order: seq<Id>, k: nat)
    requires Contiguous(photos, listing) && Listed(photos, listing, order) && k < |order|
    ensures photos[order[k]].position == k
  {
    DistinctSize(order, IdsOf(photos, listing));
    forall i | 0 <= i < |order| ensures order[i] in IdsOf(photos, listing) { assert order[i] in order; }
    AtLeast(photos, order, k);
    AtMost(photos, order, k);
  }

  /** There is only one way to read contiguous photos back: after a reorder, the submitted list. */
  lemma ReadBack(photos: map<Id, Photo>, listing: Id, order: seq<Id>, again: seq<Id>)
    requires Contiguous(photos, listing) && Listed(photos, listing, order) && Listed(photos, listing, again)
    ensures again == order
  {
    DistinctSize(order, IdsOf(photos, listing));
    DistinctSize(again, IdsOf(photos, listing));
    forall k | 0 <= k < |order| ensures again[k] == order[k] {
      ListedPositions(photos, listing, order, k);
      ListedPositions(photos, listing, again, k);
      assert order[k] in order && again[k] in again;
    }
  }

  lemma {:induction false} AtLeast(photos: map<Id, Photo>, order: seq<Id>, k: nat)
    requires k < |order| && forall i :: 0 <= i < |order| ==> order[i] in photos && photos[order[i]].position >= 0
    requires forall i, j :: 0 <= i < j < |order| ==> photos[order[i]].position < photos[order[j]].position
    ensures photos[order[k]].position >= k
  {
    if k == 0 {
    } else {
      AtLeast(photos, order, k - 1);
    }
  }

  lemma {:induction false} AtMost(photos: map<Id, Photo>, order: seq<Id>, k: nat)
    requires k < |order| && forall i :: 0 <= i < |order| ==> order[i] in photos && photos[order[i]].position < |order|
    requires forall i, j :: 0 <= i < j < |order| ==> photos[order[i]].position < photos[order[j]].position
    ensures photos[order[k]].position <= k
    decreases |order| - k
  {
    if k + 1 == |order| {
    } else {
      AtMost(photos, order, k + 1);
    }
  }

  /** Write `position := index` along `ids`, from left to right; a repeated id keeps its last index. */
  function Renumbered(photos: map<Id, Photo>, ids: seq<Id>): (r: map<Id, Photo>)
    requires forall i :: i in ids ==> i in photos
  {
    if ids == [] then photos
    else
      var n := |ids| - 1;
      assert forall i :: i in ids[..n] ==> i in ids;
      var before := Renumbered(photos, ids[..n]);
      before[ids[n] := photos[ids[n]].(position := n)]
  }

  lemma {:induction false} RenumberedAt(photos: map<Id, Photo>, ids: seq<Id>)
    requires forall i :: i in ids ==> i in photos
    ensures Renumbered(photos, ids).Keys == photos.Keys
    ensures forall i :: i in photos ==>
              Renumbered(photos, ids)[i] == photos[i].(position := Renumbered(photos, ids)[i].position)
    ensures forall i :: i in photos && i !in ids ==> Renumbered(photos, ids)[i] == photos[i]
    ensures forall k :: 0 <= k < |ids| && (forall j :: k < j < |ids| ==> ids[j] != ids[k])
                        ==> Renumbered(photos, ids)[ids[k]].position == k
    ensures forall i :: i in ids ==> 0 <= Renumbered(photos, ids)[i].position < |ids|
                                     && ids[Renumbered(photos, ids)[i].position] == i
  {
    if ids == [] {
    } else {
      var n := |ids| - 1;
      var init := ids[..n];
      assert ids == init + [ids[n]];
      RenumberedAt(photos, init);
      var before, r := Renumbered(photos, init), Renumbered(photos, ids);
      forall i | i in ids ensures 0 <= r[i].position < |ids| && ids[r[i].position] == i {
        if i != ids[n] {
          assert i in init;
          assert init[before[i].position] == i;
        }
      }
      forall k | 0 <= k < |ids| && (forall j :: k < j < |ids| ==> ids[j] != ids[k]) ensures r[ids[k]].position == k {
        if k < n {
          assert ids[n] != ids[k];
          forall j | k < j < |init| ensures init[j] != init[k] { assert ids[j] != ids[k]; }
          assert init[k] == ids[k] && before[init[k]].position == k;
        }
      }
    }
  }

  lemma {:induction false} RenumberedIds(photos: map<Id, Photo>, ids: seq<Id>, listing: Id)
    requires forall i :: i in ids ==> i in photos
    ensures IdsOf(Renumbered(photos, ids), listing) == IdsOf(photos, listing)
  {
    RenumberedAt(photos, ids);
  }

  /** Renumbering a listing's photos along a duplicate-free order lists them in that order. */
  lemma {:induction false} RenumberedLists(photos: map<Id, Photo>, ids: seq<Id>, listing: Id)
    requires Distinct(ids) && forall i :: i in ids <==> i in IdsOf(photos, listing)
    ensures Listed(Renumbered(photos, ids), listing, ids) && Contiguous(Renumbered(photos, ids), listing)
    ensures forall k :: 0 <= k < |ids| ==> Renumbered(photos, ids)[ids[k]].position == k
  {
    RenumberedAt(photos, ids);
    RenumberedIds(photos, ids, listing);
    DistinctSize(ids, IdsOf(photos, listing));
    var r := Renumbered(photos, ids);
    forall i, j | i in IdsOf(r, listing) && j in IdsOf(r, listing) && i != j ensures r[i].position != r[j].position {
      assert ids[r[i].position] == i && ids[r[j].position] == j;
    }
  }

  function IdSet(ids: seq<Id>): set<Id> { set i | i in ids }

  /** The source's test: as many different ids as photos, and every photo's id among them. */
  predicate OrderAccepted(photos: map<Id, Photo>, listing: Id, ids: seq<Id>) {
    var submitted := IdSet(ids);
    |IdsOf(photos, listing)| == |submitted| && IdsOf(photos, listing) <= submitted
  }

  /** An order is accepted exactly if it names the listing's photos, all of them and nothing else, however often. */
  lemma AcceptedIff(photos: map<Id, Photo>, listing: Id, ids: seq<Id>)
    ensures OrderAccepted(photos, listing, ids)
       <==> forall i :: i in ids <==> i in photos && photos[i].listing == listing
  {
    if OrderAccepted(photos, listing, ids) { AcceptedIds(photos, listing, ids); }
    if forall i :: i in ids <==> i in photos && photos[i].listing == listing {
      assert IdSet(ids) == IdsOf(photos, listing);
    }
  }

  lemma AcceptedIds(photos: map<Id, Photo>, listing: Id, ids: seq<Id>)
    requires OrderAccepted(photos, listing, ids)
    ensures forall i :: i in ids <==> i in IdsOf(photos, listing)
  {
    SameSize(IdsOf(photos, listing), IdSet(ids));
  }

  lemma SameSize(a: set<Id>, b: set<Id>)
    requires a <= b && |a| == |b|
    ensures a == b
  {
    assert b * a == a;
    assert |b - a| == 0;
  }

  lemma {:induction false} Subset(a: set<Id>, b: set<Id>)
    requires a <= b
    ensures |a| <= |b|
    decreases |a|
  {
    if a == {} {
    } else {
      var x :| x in a;
      Subset(a - {x}, b - {x});
    }
  }

  /** An accepted order leaves contiguous positions exactly when no id was submitted twice. */
  lemma {:induction false} ReorderContiguousIff(photos: map<Id, Photo>, listing: Id, ids: seq<Id>)
    requires OrderAccepted(photos, listing, ids)
    ensures forall i :: i in ids ==> i in photos
    ensures Contiguous(Renumbered(photos, ids), listing) <==> Distinct(ids)
  {
    AcceptedIds(photos, listing, ids);
    if Distinct(ids) {
      RenumberedLists(photos, ids, listing);
    } else {
      var i, j :| 0 <= i < j < |ids| && ids[i] == ids[j];
      RepeatedOrder(photos, listing, ids, i, j);
    }
  }

  /** Dropping one of two equal ids drops no photo. */
  lemma ShorterCovers(ids: seq<Id>, i: nat, j: nat, x: Id)
    requires i < j < |ids| && ids[i] == ids[j] && x in ids
    ensures x in ids[..i] + ids[i + 1..]
  {
    var shorter := ids[..i] + ids[i + 1..];
    var k :| 0 <= k < |ids| && ids[k] == x;
    if k < i {
      assert shorter[k] == x;
    } else if k > i {
      assert shorter[k - 1] == x;
    } else {
      assert shorter[j - 1] == x;
    }
  }

  /** With a repeated id there are more indices than photos, and the last index is taken. */
  lemma {:induction false} RepeatedOrder(photos: map<Id, Photo>, listing: Id, ids: seq<Id>, i: nat, j: nat)
    requires forall x :: x in ids <==> x in IdsOf(photos, listing)
    requires i < j < |ids| && ids[i] == ids[j]
    ensures !Contiguous(Renumbered(photos, ids), listing)
  {
    var last := |ids| - 1;
    RenumberedAt(photos, ids);
    RenumberedIds(photos, ids, listing);
    assert ids[last] in ids && Renumbered(photos, ids)[ids[last]].position == last;
    forall x | x in IdsOf(photos, listing) ensures x in ids[..i] + ids[i + 1..] {
      ShorterCovers(ids, i, j, x);
    }
    CoverSize(ids[..i] + ids[i + 1..], IdsOf(photos, listing));
  }

  lemma {:induction false} CoverSize(xs: seq<Id>, ids: set<Id>)
    requires forall i :: i in ids ==> i in xs
    ensures |ids| <= |xs|
  {
    if xs == [] {
      assert ids == {};
    } else {
      var last := xs[|xs| - 1];
      assert xs == xs[..|xs| - 1] + [last];
      CoverSize(xs[..|xs| - 1], ids - {last});
      Subset(ids, (ids - {last}) + {last});
    }
  }

  lemma {:induction false} MinPosition(photos: map<Id, Photo>, ids: set<Id>)
    requires ids != {} && forall i :: i in ids ==> i in photos
    ensures exists i :: i in ids && forall j :: j in ids ==> photos[i].position <= photos[j].position
    decreases |ids|
  {
    var x :| x in ids;
    if ids == {x} {
      assert x in ids && forall j :: j in ids ==> photos[x].position <= photos[j].position;
    } else {
      MinPosition(photos, ids - {x});
      var y :| y in ids - {x} && forall j :: j in ids - {x} ==> photos[y].position <= photos[j].position;
      var z := if photos[x].position <= photos[y].position then x else y;
      assert z in ids && forall j :: j in ids ==> photos[z].position <= photos[j].position;
    }
  }

  // ---------- the service ----------

  class PhotoService {
    var photos: map<Id, Photo>

    constructor ()
      ensures photos == map[] && Valid()
    {
      photos := map[];
    }

    ghost predicate Valid()
      reads this
    {
      ValidTable(photos)
    }

    /** ListingPhotoRepository.findByListing: ordered by position. */
    method FindByListing(listing: Id) returns (order: seq<Id>)
      ensures Listed(photos, listing, order)
    {
      var rest := set i | i in photos && photos[i].listing == listing;
      order := [];
      while rest != {}
        invariant rest <= IdsOf(photos, listing) && Distinct(order)
        invariant forall i :: i in order <==> i in IdsOf(photos, listing) - rest
        invariant forall k :: 0 <= k < |order| ==> order[k] in photos
        invariant forall i, j :: 0 <= i < j < |order| ==> photos[order[i]].position <= photos[order[j]].position
        invariant forall i, j :: 0 <= i < |order| && j in rest ==> photos[order[i]].position <= photos[j].position
        decreases |rest|
      {
        MinPosition(photos, rest);
        assert forall k :: 0 <= k < |order| ==> order[k] in order;
        var next :| next in rest && forall j :: j in rest ==> photos[next].position <= photos[j].position;
        order := order + [next];
        rest := rest - {next};
      }
    }

    /** At the position that is the number of photos; `id` is the generated primary key. */
    method AddPhoto(listing: Id, storageKey: string, id: Id) returns (error: Option<PhotoError>)
      requires id !in photos
      modifies this
      ensures old(Valid()) ==> Valid()
      ensures error.None? ==> (Contiguous(photos, listing) <==> Contiguous(old(photos), listing))
      ensures error == if |IdsOf(old(photos), listing)| >= 4 then Some(LimitExceeded) else None
      ensures photos == if error.Some? then old(photos)
                        else old(photos)[id := Photo(listing, storageKey, |IdsOf(old(photos), listing)|)]
    {
      var position := |IdsOf(photos, listing)|;
      if position >= MAX_LISTING_PHOTOS {
        return Some(LimitExceeded);
      }
      photos := photos[id := Photo(listing, storageKey, position)];
      if Contiguous(photos, listing) { AddedGap(old(photos), id, photos[id]); }
      if Contiguous(old(photos), listing) { AddedTo(old(photos), id, photos[id], listing); }
      if ValidTable(old(photos)) { AddedIds(old(photos), id, photos[id]); }
      return None;
    }

    /** Saves `position := index` for every photo of the order that is not there already. */
    method Resequence(order: seq<Id>)
      requires forall i :: i in order ==> i in photos
      modifies this
      ensures photos == Renumbered(old(photos), order)
    {
      ghost var before := photos;
      var index := 0;
      while index < |order|
        invariant 0 <= index <= |order|
        invariant forall i :: i in order[..index] ==> i in before
        invariant photos == Renumbered(before, order[..index])
      {
        RenumberedAt(before, order[..index]);
        assert order[..index + 1][..index] == order[..index];
        var p := order[index];
        assert p in order;
        if photos[p].position != index {
          photos := photos[p := photos[p].(position := index)];
        }
        index := index + 1;
      }
      assert order[..|order|] == order;
    }

    /** Removes the photo and renumbers the rest, keeping their relative order and closing every gap. */
    method RemovePhoto(listing: Id, id: Id) returns (error: Option<PhotoError>)
      modifies this
      ensures old(Valid()) ==> Valid()
      ensures error == if id !in old(photos) || old(photos)[id].listing != listing then Some(PhotoNotFound) else None
      ensures error.Some? ==> photos == old(photos)
      ensures error.None? ==> Removed(old(photos), photos, listing, id) && Contiguous(photos, listing)
    {
      if id !in photos || photos[id].listing != listing {
        return Some(PhotoNotFound);
      }
      photos := photos - {id};
      var remaining := FindByListing(listing);
      RemovedRenumbered(old(photos), id, listing, remaining);
      Resequence(remaining);
      if ValidTable(old(photos)) { RemovedValid(old(photos), photos, listing, id); }
      return None;
    }

    /** Rewrites the positions to the submitted order. */
    method ReorderPhotos(listing: Id, ids: seq<Id>) returns (error: Option<PhotoError>)
      modifies this
      ensures error == if OrderAccepted(old(photos), listing, ids) then None else Some(OrderMismatch)
      ensures error.Some? ==> photos == old(photos)
      ensures error.None? ==> (forall i :: i in ids ==> i in old(photos)) && photos == Renumbered(old(photos), ids)
      ensures error.None? && Distinct(ids) ==> Listed(photos, listing, ids) && (old(Valid()) ==> Valid())
    {
      if !OrderAccepted(photos, listing, ids) {
        return Some(OrderMismatch);
      }
      ghost var before := photos;
      AcceptedIds(photos, listing, ids);
      var index := 0;
      while index < |ids|
        invariant 0 <= index <= |ids|
        invariant forall i :: i in ids[..index] ==> i in before
        invariant photos == Renumbered(before, ids[..index])
      {
        RenumberedAt(before, ids[..index]);
        assert ids[..index + 1][..index] == ids[..index];
        assert ids[index] in ids;
        photos := photos[ids[index] := photos[ids[index]].(position := index)];
        index := index + 1;
      }
      assert ids[..|ids|] == ids;
      if Distinct(ids) {
        RenumberedLists(before, ids, listing);
        OthersKept(before, ids, listing);
      }
      return None;
    }
  }

  // ---------- lemmas about whole tables ----------

  lemma AddedIds(photos: map<Id, Photo>, id: Id, photo: Photo)
    requires ValidTable(photos) && id !in photos
             && photo.position == |IdsOf(photos, photo.listing)| < MAX_LISTING_PHOTOS
    ensures ValidTable(photos[id := photo])
  {
    var photos' := photos[id := photo];
    forall l: Id ensures Contiguous(photos', l) && |IdsOf(photos', l)| <= MAX_LISTING_PHOTOS {
      AddedTo(photos, id, photo, l);
    }
  }

  lemma AddedTo(photos: map<Id, Photo>, id: Id, photo: Photo, l: Id)
    requires Contiguous(photos, l) && id !in photos && photo.position == |IdsOf(photos, photo.listing)|
    ensures Contiguous(photos[id := photo], l)
    ensures |IdsOf(photos[id := photo], l)| == |IdsOf(photos, l)| + if l == photo.listing then 1 else 0
  {
    var photos' := photos[id := photo];
    assert IdsOf(photos', l) == if l == photo.listing then IdsOf(photos, l) + {id} else IdsOf(photos, l);
  }

  /** Adding closes no gap: the new photo takes the last position there can be. */
  lemma AddedGap(photos: map<Id, Photo>, id: Id, photo: Photo)
    requires id !in photos && photo.position == |IdsOf(photos, photo.listing)|
    requires Contiguous(photos[id := photo], photo.listing)
    ensures Contiguous(photos, photo.listing)
  {
    var photos', ids := photos[id := photo], IdsOf(photos, photo.listing);
    assert IdsOf(photos', photo.listing) == ids + {id};
    forall i | i in ids ensures 0 <= photos[i].position < |ids| {
      assert i in IdsOf(photos', photo.listing) && id in IdsOf(photos', photo.listing) && photos'[i] == photos[i];
    }
    forall i, j | i in ids && j in ids && i != j ensures photos[i].position != photos[j].position {
      assert i in IdsOf(photos', photo.listing) && j in IdsOf(photos', photo.listing);
      assert photos'[i] == photos[i] && photos'[j] == photos[j];
    }
  }

  /** What removing one photo leaves: the others, in the same relative order within the listing. */
  ghost predicate Removed(photos: map<Id, Photo>, photos': map<Id, Photo>, listing: Id, id: Id) {
    && photos'.Keys == photos.Keys - {id}
    && (forall i :: i in photos' ==> photos'[i] == photos[i].(position := photos'[i].position))
    && (forall i :: i in photos' && photos'[i].listing != listing ==> photos'[i] == photos[i])
    && (forall i, j :: i in IdsOf(photos', listing) && j in IdsOf(photos', listing) ==>
          photos[i].position < photos[j].position ==> photos'[i].position < photos'[j].position)
  }

  /** Renumbering one listing leaves the others as they are. */
  lemma {:induction false} OthersKept(photos: map<Id, Photo>, ids: seq<Id>, listing: Id)
    requires Distinct(ids) && forall i :: i in ids <==> i in IdsOf(photos, listing)
    ensures forall l: Id :: l != listing && Contiguous(photos, l) ==> Contiguous(Renumbered(photos, ids), l)
    ensures forall l: Id :: IdsOf(Renumbered(photos, ids), l) == IdsOf(photos, l)
    ensures Contiguous(Renumbered(photos, ids), listing)
  {
    RenumberedAt(photos, ids);
    RenumberedLists(photos, ids, listing);
    forall l: Id ensures IdsOf(Renumbered(photos, ids), l) == IdsOf(photos, l) {
      RenumberedIds(photos, ids, l);
    }
    forall l: Id, i | l != listing && i in IdsOf(photos, l) ensures Renumbered(photos, ids)[i] == photos[i] {
      assert i !in IdsOf(photos, listing);
    }
  }

  /** The other listings are untouched. */
  lemma RemovedValid(photos: map<Id, Photo>, photos': map<Id, Photo>, listing: Id, id: Id)
    requires ValidTable(photos) && Removed(photos, photos', listing, id) && Contiguous(photos', listing)
    requires id in photos && photos[id].listing == listing
    ensures ValidTable(photos')
  {
    forall l: Id ensures Contiguous(photos', l) && |IdsOf(photos', l)| <= MAX_LISTING_PHOTOS {
      assert IdsOf(photos', l) == IdsOf(photos, l) - {id};
      Subset(IdsOf(photos', l), IdsOf(photos, l));
      if l != listing { assert IdsOf(photos', l) == IdsOf(photos, l); }
    }
  }

  lemma {:induction false} RemovedRenumbered(photos: map<Id, Photo>, id: Id, listing: Id, order: seq<Id>)
    requires id in photos && photos[id].listing == listing && Listed(photos - {id}, listing, order)
    ensures forall i :: i in order ==> i in photos - {id}
    ensures var r := Renumbered(photos - {id}, order);
            && Contiguous(r, listing)
            && Removed(photos, r, listing, id)
  {
    var removed := photos - {id};
    var r := Renumbered(removed, order);
    RenumberedAt(removed, order);
    OthersKept(removed, order, listing);
    forall i, j | i in IdsOf(r, listing) && j in IdsOf(r, listing) && photos[i].position < photos[j].position
      ensures r[i].position < r[j].position
    {
      assert i in order && j in order;
      var x, y := r[i].position, r[j].position;
      assert order[x] == i && order[y] == j;
      assert removed[i] == photos[i] && removed[j] == photos[j];
    }
  }
}
