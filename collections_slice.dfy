/** The collections slice: a cached copy of the `collections` collection and the
    fetch status. `addCollection` records a cash collection and, in the same step,
    moves the machine's counter and appends to its history. */
module CollectionsSlice {
  import opened Wrappers
  import opened Values
  import opened Db
  import opened SliceCommon

  const FETCH_FAILED := "Failed to fetch collections"
  const MACHINE_NOT_FOUND := "Machine not found"
  const COLLECTION_NOT_FOUND := "Collection not found"
  /** The `TypeError` that spreading a machine's missing `history` raises. */
  const HISTORY_NOT_ITERABLE := "machine.history is not iterable"

  /** `{...collectionData, id: generateUniqueId(), createdAt: now}` */
  function NewCollection(data: Record, freshId: string, now: int): (r: Record)
    ensures r.Keys == data.Keys + {"id", "createdAt"}
    ensures IdOf(r) == Str(freshId) && Field(r, "createdAt") == Stamp(now)
    ensures forall k :: k in data && k !in {"id", "createdAt"} ==> r[k] == data[k]
  {
    data + map["id" := Str(freshId), "createdAt" := Stamp(now)]
  }

  /** The history entry a collection appends to its machine. */
  function CollectionEntry(amount: Value, now: int): Value {
    Obj(map["date" := Stamp(now), "action" := Str("collection"),
            "details" := Str("Collection of " + Show(amount) + " recorded")])
  }

  /** `{...machine, currentCounter, updatedAt: now, history: [...machine.history, entry]}` */
  function UpdatedMachine(machine: Record, data: Record, now: int): (r: Record)
    requires Field(machine, "history").List?
    ensures r.Keys == machine.Keys + {"currentCounter", "updatedAt", "history"}
    ensures Field(r, "currentCounter") == Field(data, "currentCounter")
    ensures Field(r, "updatedAt") == Stamp(now)
    ensures Field(r, "history").List?
    ensures Field(r, "history").items == Field(machine, "history").items + [CollectionEntry(Field(data, "amount"), now)]
    ensures forall k :: k in machine && k !in {"currentCounter", "updatedAt", "history"} ==> r[k] == machine[k]
  {
    machine + map["currentCounter" := Field(data, "currentCounter"),
                  "updatedAt" := Stamp(now),
                  "history" := List(Field(machine, "history").items + [CollectionEntry(Field(data, "amount"), now)])]
  }

  /** Exactly one entry is appended to the history, and it is a collection. */
  lemma OneHistoryEntryAppended(machine: Record, data: Record, now: int)
    requires Field(machine, "history").List?
    ensures var h := Field(UpdatedMachine(machine, data, now), "history").items;
            var old_h := Field(machine, "history").items;
            |h| == |old_h| + 1 && h[..|old_h|] == old_h
            && h[|old_h|].Obj? && h[|old_h|].fields["action"] == Str("collection")
  {
    var h := Field(UpdatedMachine(machine, data, now), "history").items;
    assert h[|h| - 1] == CollectionEntry(Field(data, "amount"), now);
  }

  /** `{...collection, ...updates}` where `updates` has had its `id` taken out. */
  function UpdatedCollection(collection: Record, updates: Record): (r: Record)
    ensures r.Keys == collection.Keys + (updates.Keys - {"id"})
    ensures forall k :: k in updates && k != "id" ==> r[k] == updates[k]
    ensures forall k :: k in collection && k !in updates ==> r[k] == collection[k]
    ensures IdOf(r) == IdOf(collection)
  {
    collection + (updates - {"id"})
  }

  /** The merge of `put` adds nothing to a record that already holds every stored
      field and the current `updatedAt`. */
  lemma MergeOfExtension(existing: Record, u: Record, now: int)
    requires existing.Keys <= u.Keys && Field(u, "updatedAt") == Stamp(now)
    ensures Merged(existing, u, now) == u
  {
    var m := Merged(existing, u, now);
    assert m.Keys == u.Keys;
    forall k | k in u ensures m[k] == u[k] { }
  }

  /** A `put` whose merge gives `m`, an id-preserving record, stores `m` in place of
      the first record with that id. */
  lemma UpsertedIsReplaced(items: seq<Record>, u: Record, now: int, m: Record)
    requires FindIndex(items, IdOf(u)) >= 0
    requires Merged(items[FindIndex(items, IdOf(u))], u, now) == m && IdOf(m) == IdOf(u)
    ensures Upserted(items, u, now) == Replaced(items, m)
  {
    var i := FindIndex(items, IdOf(u));
    var a := Upserted(items, u, now);
    ReplacedAt(items, m, i);
    forall j | 0 <= j < |items| ensures a[j] == Replaced(items, m)[j] {
    }
  }

  /** `addCollection` as one step on the stores: the result and the stores after it.
      Both writes happen, or, when the machine is missing or has no history array,
      neither does. */
  function AddCollectionStep(stores: map<string, seq<Record>>, data: Record, freshId: string, now: int)
    : (step: (Result<Record, string>, map<string, seq<Record>>))
    ensures step.0.Err? ==> step.1 == stores
    ensures step.0.Ok? ==> IdOf(step.0.value) == Str(freshId) && step.1.Keys == stores.Keys + {"collections", "machines"}
    ensures step.0.Ok? ==> step.0.value == NewCollection(data, freshId, now)
  {
    var machines := Collection(stores, "machines");
    var found := Find(machines, Field(data, "machineId"));
    if found.None? then (Err(MACHINE_NOT_FOUND), stores)
    else if !Field(found.value, "history").List? then (Err(HISTORY_NOT_ITERABLE), stores)
    else
      var c := NewCollection(data, freshId, now);
      (Ok(c), stores["collections" := Collection(stores, "collections") + [c]]
                    ["machines" := Replaced(machines, UpdatedMachine(found.value, data, now))])
  }

  /** All or nothing: a failure leaves every collection as it was; a success adds
      exactly one collection record, holding the input fields, the fresh id and
      `createdAt = now`, and touches no collection but the two. */
  lemma AddCollectionAllOrNothing(stores: map<string, seq<Record>>, data: Record, freshId: string, now: int)
    ensures var step := AddCollectionStep(stores, data, freshId, now);
            var r, after := step.0, step.1;
            && (r.Err? ==> after == stores)
            && (r.Err? <==> Find(Collection(stores, "machines"), Field(data, "machineId")).None?
                            || !Field(Find(Collection(stores, "machines"), Field(data, "machineId")).value, "history").List?)
            && (r.Ok? ==> Collection(after, "collections") == Collection(stores, "collections") + [r.value]
                          && |Collection(after, "machines")| == |Collection(stores, "machines")|)
            && (r.Ok? ==> r.value.Keys == data.Keys + {"id", "createdAt"}
                          && IdOf(r.value) == Str(freshId) && Field(r.value, "createdAt") == Stamp(now)
                          && forall k :: k in data && k !in {"id", "createdAt"} ==> r.value[k] == data[k])
            && (forall name :: name !in {"collections", "machines"} ==> Collection(after, name) == Collection(stores, name))
  {
    var machines := Collection(stores, "machines");
    var found := Find(machines, Field(data, "machineId"));
    if found.Some? && Field(found.value, "history").List? {
      var c := NewCollection(data, freshId, now);
      var after := stores["collections" := Collection(stores, "collections") + [c]]
                         ["machines" := Replaced(machines, UpdatedMachine(found.value, data, now))];
      assert AddCollectionStep(stores, data, freshId, now) == (Ok(c), after);
      forall name | name !in {"collections", "machines"}
        ensures Collection(after, name) == Collection(stores, name)
      {
      }
    }
  }

  /** A missing machine fails with "Machine not found" and changes nothing. */
  lemma AddCollectionMissingMachine(stores: map<string, seq<Record>>, data: Record, freshId: string, now: int)
    requires forall j :: 0 <= j < |Collection(stores, "machines")| ==> IdOf(Collection(stores, "machines")[j]) != Field(data, "machineId")
    ensures AddCollectionStep(stores, data, freshId, now) == (Err(MACHINE_NOT_FOUND), stores)
  {
  }

  /** On success the first machine with the collection's `machineId` now shows the
      submitted counter reading, the time, and one more history entry; every other
      machine record is as it was. */
  lemma AddCollectionUpdatesMachine(stores: map<string, seq<Record>>, data: Record, freshId: string, now: int)
    requires AddCollectionStep(stores, data, freshId, now).0.Ok?
    ensures var before := Collection(stores, "machines");
            var after := Collection(AddCollectionStep(stores, data, freshId, now).1, "machines");
            var i := FindIndex(before, Field(data, "machineId"));
            && 0 <= i < |before| == |after|
            && Field(after[i], "currentCounter") == Field(data, "currentCounter")
            && Field(after[i], "updatedAt") == Stamp(now)
            && Field(after[i], "history") == List(Field(before[i], "history").items + [CollectionEntry(Field(data, "amount"), now)])
            && (forall k :: k in before[i] && k !in {"currentCounter", "updatedAt", "history"} ==> after[i][k] == before[i][k])
            && (forall j :: 0 <= j < |before| && j != i ==> after[j] == before[j])
  {
    var before := Collection(stores, "machines");
    var i := FindIndex(before, Field(data, "machineId"));
    assert Find(before, Field(data, "machineId")) == Some(before[i]);
    var updated := UpdatedMachine(before[i], data, now);
    assert Collection(AddCollectionStep(stores, data, freshId, now).1, "machines") == Replaced(before, updated);
    ReplacedAt(before, updated, i);
  }

  /** The transaction of `addCollection`: the collection is added and the machine
      put, with nothing able to fail between the two writes. */
  method WriteCollectionAndMachine(db: MemoryDB, c: Record, machine: Record, updated: Record, now: int)
    requires Find(db.Items("machines"), IdOf(machine)) == Some(machine)
    requires IdOf(updated) == IdOf(machine) && machine.Keys <= updated.Keys
    requires Field(updated, "updatedAt") == Stamp(now)
    modifies db
    ensures db.stores == old(db.stores)["collections" := old(db.Items("collections")) + [c]]
                                       ["machines" := Replaced(old(db.Items("machines")), updated)]
    ensures old(db.Valid()) ==> db.Valid()
  {
    ghost var machines := db.Items("machines");
    MergeOfExtension(machine, updated, now);
    UpsertedIsReplaced(machines, updated, now, updated);
    var _ := db.Add("collections", c);
    assert db.Items("machines") == machines;
    var _ := db.Put("machines", updated, now);
  }

  /** The `addCollection` thunk: look the machine up, then write the collection
      and the updated machine in one transaction. */
  method AddCollectionThunk(db: MemoryDB, data: Record, freshId: string, now: int) returns (r: Result<Record, string>)
    modifies db
    ensures (r, db.stores) == AddCollectionStep(old(db.stores), data, freshId, now)
    ensures old(db.Valid()) ==> db.Valid()
  {
    var found := db.Get("machines", Field(data, "machineId"));
    if found.None? {
      return Err(MACHINE_NOT_FOUND);
    }
    var machine := found.value;
    if !Field(machine, "history").List? {
      return Err(HISTORY_NOT_ITERABLE);
    }
    var c := NewCollection(data, freshId, now);
    var updated := UpdatedMachine(machine, data, now);
    assert IdOf(updated) == IdOf(machine) by { assert "id" !in {"currentCounter", "updatedAt", "history"}; }
    WriteCollectionAndMachine(db, c, machine, updated, now);
    r := Ok(c);
  }

  class CollectionsState {
    var collections: seq<Record>
    var status: Status
    var error: Option<string>

    /** `initialState` */
    constructor ()
      ensures collections == [] && status == Idle && error == None
    {
      collections := [];
      status := Idle;
      error := None;
    }

    /** `fetchCollections.pending` */
    method FetchPending()
      modifies this
      ensures status == Loading && collections == old(collections) && error == old(error)
    {
      status := Loading;
    }

    /** `fetchCollections.fulfilled` */
    method FetchFulfilled(payload: seq<Record>)
      modifies this
      ensures status == Succeeded && collections == payload && error == old(error)
    {
      status := Succeeded;
      collections := payload;
    }

    /** `fetchCollections.rejected` */
    method FetchRejected(message: Option<string>)
      modifies this
      ensures status == Failed && error == Some(RejectionMessage(message, FETCH_FAILED))
      ensures collections == old(collections)
    {
      status := Failed;
      error := Some(RejectionMessage(message, FETCH_FAILED));
    }

    /** `addCollection.fulfilled` */
    method AddFulfilled(payload: Record)
      modifies this
      ensures collections == old(collections) + [payload]
      ensures status == old(status) && error == old(error)
    {
      collections := collections + [payload];
    }

    /** `updateCollection.fulfilled` */
    method UpdateFulfilled(payload: Record)
      modifies this
      ensures collections == Replaced(old(collections), payload)
      ensures status == old(status) && error == old(error)
    {
      ReplacedIsIndexUpdate(collections, payload);
      var index := FindIndex(collections, IdOf(payload));
      if index != -1 {
        collections := collections[index := payload];
      }
    }

    /** `deleteCollection.fulfilled` */
    method DeleteFulfilled(id: Value)
      modifies this
      ensures collections == WithoutIds(old(collections), {id})
      ensures status == old(status) && error == old(error)
    {
      collections := WithoutIds(collections, {id});
    }

    /** `fetchCollections`: pending, the store read, then fulfilled. */
    method FetchCollections(db: MemoryDB)
      modifies this
      ensures status == Succeeded && collections == db.Items("collections")
      ensures error == old(error)
    {
      FetchPending();
      var items := db.GetAll("collections");
      FetchFulfilled(items);
    }

    /** `addCollection` then its fulfilled case, which caches the new record. */
    method AddCollection(db: MemoryDB, data: Record, freshId: string, now: int) returns (r: Result<Record, string>)
      modifies this, db
      ensures (r, db.stores) == AddCollectionStep(old(db.stores), data, freshId, now)
      ensures collections == if r.Ok? then old(collections) + [r.value] else old(collections)
      ensures status == old(status) && error == old(error)
      ensures old(db.Valid()) ==> db.Valid()
    {
      r := AddCollectionThunk(db, data, freshId, now);
      if r.Ok? {
        AddFulfilled(r.value);
      }
    }

    /** `updateCollection` then its fulfilled case: an unknown id fails and changes
        nothing; otherwise the merged record is stored and cached. */
    method UpdateCollection(db: MemoryDB, id: Value, updates: Record, now: int) returns (r: Result<Record, string>)
      modifies this, db
      ensures old(db.Valid()) ==> db.Valid()
      ensures Find(old(db.Items("collections")), id).None? ==>
        r == Err(COLLECTION_NOT_FOUND) && db.stores == old(db.stores) && collections == old(collections)
      ensures Find(old(db.Items("collections")), id).Some? ==>
        (var u := UpdatedCollection(Find(old(db.Items("collections")), id).value, updates);
         && r == Ok(u)
         && db.stores == old(db.stores)["collections" := Replaced(old(db.Items("collections")), Merged(Find(old(db.Items("collections")), id).value, u, now))]
         && collections == Replaced(old(collections), u))
      ensures status == old(status) && error == old(error)
    {
      var found := db.Get("collections", id);
      if found.None? {
        return Err(COLLECTION_NOT_FOUND);
      }
      var u := UpdatedCollection(found.value, updates);
      UpsertedIsReplaced(db.Items("collections"), u, now, Merged(found.value, u, now));
      var _ := db.Put("collections", u, now);
      UpdateFulfilled(u);
      r := Ok(u);
    }

    /** `deleteCollection` then its fulfilled case. */
    method DeleteCollection(db: MemoryDB, id: Value)
      modifies this, db
      ensures "collections" in old(db.stores) ==>
        db.stores == old(db.stores)["collections" := WithoutIds(old(db.stores)["collections"], {id})]
      ensures "collections" !in old(db.stores) ==> db.stores == old(db.stores)
      ensures collections == WithoutIds(old(collections), {id})
      ensures status == old(status) && error == old(error)
      ensures old(db.Valid()) ==> db.Valid()
    {
      db.Delete("collections", id);
      DeleteFulfilled(id);
    }
  }
}
