/** Photo positions over whole runs of adding, removing and reordering. */
module PhotoRuns {
  import opened Domain
  import opened Photos

  datatype PhotoAction =
    | Add(listing: Id, storageKey: string, id: Id)
    | Remove(listing: Id, id: Id)
    | Reorder(listing: Id, ids: seq<Id>)

  /** What an action does to the table; how photos sharing a position are read back is left open, as in the source. */
  ghost predicate PhotoStep(photos: map<Id, Photo>, a: PhotoAction, photos': map<Id, Photo>) {
    match a
    case Add(listing, storageKey, id) =>
      photos' == if id in photos || |IdsOf(photos, listing)| >= MAX_LISTING_PHOTOS then photos
                 else photos[id := Photo(listing, storageKey, |IdsOf(photos, listing)|)]
    case Remove(listing, id) =>
      if id !in photos || photos[id].listing != listing then photos' == photos
      else Removed(photos, photos', listing, id) && Contiguous(photos', listing)
    case Reorder(listing, ids) =>
      if !OrderAccepted(photos, listing, ids) then photos' == photos
      else (forall i :: i in ids ==> i in photos) && photos' == Renumbered(photos, ids)
  }

  /** The tables a run goes through, from the empty one. */
  ghost predicate PhotoRun(actions: seq<PhotoAction>, tables: seq<map<Id, Photo>>) {
    && |tables| == |actions| + 1 && tables[0] == map[]
    && forall k :: 0 <= k < |actions| ==> PhotoStep(tables[k], actions[k], tables[k + 1])
  }

  /** The one thing a caller must see to: an order that is accepted names no photo twice. */
  predicate NamesOnce(photos: map<Id, Photo>, a: PhotoAction) {
    a.Reorder? && OrderAccepted(photos, a.listing, a.ids) ==>
      forall i, j :: 0 <= i < j < |a.ids| ==> a.ids[i] != a.ids[j]
  }

  lemma {:induction false} ReorderedValid(photos: map<Id, Photo>, listing: Id, ids: seq<Id>)
    requires ValidTable(photos) && OrderAccepted(photos, listing, ids) && Distinct(ids)
    ensures forall i :: i in ids ==> i in photos
    ensures ValidTable(Renumbered(photos, ids))
  {
    AcceptedIds(photos, listing, ids);
    OthersKept(photos, ids, listing);
  }

  lemma StepValidIff(photos: map<Id, Photo>, a: PhotoAction, photos': map<Id, Photo>)
    requires ValidTable(photos) && PhotoStep(photos, a, photos')
    ensures ValidTable(photos') <==> NamesOnce(photos, a)
  {
    match a
    case Add(listing, storageKey, id) =>
      if photos' != photos { AddedIds(photos, id, Photo(listing, storageKey, |IdsOf(photos, listing)|)); }
    case Remove(listing, id) =>
      if id in photos && photos[id].listing == listing { RemovedValid(photos, photos', listing, id); }
    case Reorder(listing, ids) =>
      if OrderAccepted(photos, listing, ids) {
        ReorderContiguousIff(photos, listing, ids);
        if Distinct(ids) { ReorderedValid(photos, listing, ids); }
      }
  }

  /**
   * Every listing's positions are 0 .. n-1 with n within the limit, at every point of a run, exactly when no accepted
   * order names a photo twice.
   */
  lemma {:induction false} RunValidIff(actions: seq<PhotoAction>, tables: seq<map<Id, Photo>>)
    requires PhotoRun(actions, tables)
    ensures (forall k :: 0 <= k <= |actions| ==> ValidTable(tables[k]))
       <==> (forall k :: 0 <= k < |actions| ==> NamesOnce(tables[k], actions[k]))
  {
    if forall k :: 0 <= k <= |actions| ==> ValidTable(tables[k]) {
      forall k | 0 <= k < |actions| ensures NamesOnce(tables[k], actions[k]) {
        assert ValidTable(tables[k]) && ValidTable(tables[k + 1]);
        StepValidIff(tables[k], actions[k], tables[k + 1]);
      }
    }
    if forall k :: 0 <= k < |actions| ==> NamesOnce(tables[k], actions[k]) {
      forall k | 0 <= k <= |actions| ensures ValidTable(tables[k]) {
        ValidWhileOnce(actions, tables, k);
      }
    }
  }

  lemma {:induction false} ValidWhileOnce(actions: seq<PhotoAction>, tables: seq<map<Id, Photo>>, k: nat)
    requires PhotoRun(actions, tables) && k <= |actions|
    requires forall j :: 0 <= j < k ==> NamesOnce(tables[j], actions[j])
    ensures ValidTable(tables[k])
  {
    if k == 0 {
    } else {
      ValidWhileOnce(actions, tables, k - 1);
      StepValidIff(tables[k - 1], actions[k - 1], tables[k]);
    }
  }

  /** One request to the service; a generated id that is taken is refused by the primary key. */
  method Perform(service: PhotoService, a: PhotoAction)
    modifies service
    ensures PhotoStep(old(service.photos), a, service.photos)
  {
    match a {
      case Add(listing, storageKey, id) =>
        if id !in service.photos {
          var error := service.AddPhoto(listing, storageKey, id);
        }
      case Remove(listing, id) =>
        var error := service.RemovePhoto(listing, id);
      case Reorder(listing, ids) =>
        var error := service.ReorderPhotos(listing, ids);
    }
  }

  /** Requests served one after another go through the tables of a run. */
  method PerformAll(actions: seq<PhotoAction>) returns (service: PhotoService, tables: seq<map<Id, Photo>>)
    ensures PhotoRun(actions, tables) && service.photos == tables[|actions|]
  {
    service := new PhotoService();
    tables := [service.photos];
    var i := 0;
    while i < |actions|
      invariant 0 <= i <= |actions| && |tables| == i + 1 && tables[0] == map[] && service.photos == tables[i]
      invariant forall k :: 0 <= k < i ==> PhotoStep(tables[k], actions[k], tables[k + 1])
      invariant fresh(service)
    {
      Perform(service, actions[i]);
      tables := tables + [service.photos];
      i := i + 1;
    }
  }
}
