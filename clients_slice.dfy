/** The clients slice: a cached copy of the `clients` collection, the fetch status,
    the last error and the `nextId` counter that numbers new clients. The
    `extraReducers` cases are the methods of `ClientsState`; each async thunk is its
    store call followed by the reducer case it dispatches. */
module ClientsSlice {
  import opened Wrappers
  import opened Values
  import opened Db
  import opened SliceCommon

  const FETCH_FAILED := "Failed to fetch clients"

  /** `clients.reduce((max, c) => c.id > max ? c.id : max, start)`. Only numeric
      ids compare greater. */
  function MaxIdFrom(start: int, s: seq<Record>): (m: int)
    ensures m >= start
    ensures forall j :: 0 <= j < |s| && IdOf(s[j]).Num? ==> IdOf(s[j]).n <= m
    ensures m == start || exists j :: 0 <= j < |s| && IdOf(s[j]) == Num(m)
    decreases |s|
  {
    if s == [] then start
    else
      var id := IdOf(s[0]);
      var m := MaxIdFrom(if id.Num? && id.n > start then id.n else start, s[1..]);
      assert forall j :: 1 <= j < |s| ==> s[j] == s[1..][j - 1];
      m
  }

  /** The highest numeric id, or 0 for a list without one. */
  function MaxId(s: seq<Record>): int {
    MaxIdFrom(0, s)
  }

  /** Every numeric cached id is below `nextId`. */
  predicate IdsBelow(s: seq<Record>, nextId: int) {
    forall j :: 0 <= j < |s| && IdOf(s[j]).Num? ==> IdOf(s[j]).n < nextId
  }

  /** `nextId` after a fetch is above every fetched id, and it is the least such
      value that is at least 1. */
  lemma FetchedNextIdIsLeastAbove(s: seq<Record>)
    ensures IdsBelow(s, MaxId(s) + 1)
    ensures MaxId(s) + 1 >= 1
    ensures forall n :: 1 <= n <= MaxId(s) ==> !IdsBelow(s, n)
  {
    forall n | 1 <= n <= MaxId(s) ensures !IdsBelow(s, n) {
      var j :| 0 <= j < |s| && IdOf(s[j]) == Num(MaxId(s));
    }
  }

  /** `{...clientData, id: nextId, createdAt: now, updatedAt: now}` */
  function NewClient(data: Record, nextId: int, now: int): (r: Record)
    ensures r.Keys == data.Keys + {"id", "createdAt", "updatedAt"}
    ensures IdOf(r) == Num(nextId)
    ensures Field(r, "createdAt") == Field(r, "updatedAt") == Stamp(now)
    ensures forall k :: k in data && k !in {"id", "createdAt", "updatedAt"} ==> r[k] == data[k]
  {
    data + map["id" := Num(nextId), "createdAt" := Stamp(now), "updatedAt" := Stamp(now)]
  }

  /** `({id, ...updates}) => ({...updates, id, updatedAt: now})` */
  function UpdatedClient(updates: Record, id: int, now: int): (r: Record)
    ensures r.Keys == updates.Keys + {"id", "updatedAt"}
    ensures IdOf(r) == Num(id) && Field(r, "updatedAt") == Stamp(now)
    ensures forall k :: k in updates && k !in {"id", "updatedAt"} ==> r[k] == updates[k]
  {
    (updates - {"id"}) + map["id" := Num(id), "updatedAt" := Stamp(now)]
  }

  /** After `updateClient` the stored record is the old one merged with the payload,
      while the cache holds the payload alone. The payload is stamped at `now` and
      `put` stamps the stored record again at its own reading `putNow`. The two
      agree on every other field the payload has, and the store keeps fields, such
      as `createdAt`, that the cache entry lacks. */
  lemma StoredUpdateExtendsCachedOne(existing: Record, updates: Record, id: int, now: int, putNow: int)
    ensures var u := UpdatedClient(updates, id, now);
            var stored := Merged(existing, u, putNow);
            stored.Keys == existing.Keys + u.Keys
            && (forall k :: k in u && k != "updatedAt" ==> stored[k] == u[k])
            && stored["updatedAt"] == Stamp(putNow) && u["updatedAt"] == Stamp(now)
            && (forall k :: k in existing && k !in u ==> stored[k] == existing[k])
  {
  }

  class ClientsState {
    var clients: seq<Record>
    var status: Status
    var error: Option<string>
    var nextId: int

    /** The counter stays above every cached id. */
    ghost predicate Valid()
      reads this
    {
      IdsBelow(clients, nextId)
    }

    /** `initialState` */
    constructor ()
      ensures clients == [] && status == Idle && error == None && nextId == 1
      ensures Valid()
    {
      clients := [];
      status := Idle;
      error := None;
      nextId := 1;
    }

    /** `fetchClients.pending` */
    method FetchPending()
      modifies this
      ensures status == Loading
      ensures clients == old(clients) && error == old(error) && nextId == old(nextId)
    {
      status := Loading;
    }

    /** `fetchClients.fulfilled`: the cache becomes the payload and the counter one
        past its highest id. */
    method FetchFulfilled(payload: seq<Record>)
      modifies this
      ensures status == Succeeded && clients == payload && error == old(error)
      ensures nextId == MaxId(payload) + 1
      ensures Valid()
    {
      status := Succeeded;
      clients := payload;
      nextId := MaxId(clients) + 1;
    }

    /** `fetchClients.rejected` */
    method FetchRejected(message: Option<string>)
      modifies this
      ensures status == Failed && error == Some(RejectionMessage(message, FETCH_FAILED))
      ensures clients == old(clients) && nextId == old(nextId)
    {
      status := Failed;
      error := Some(RejectionMessage(message, FETCH_FAILED));
    }

    /** `addClient.fulfilled`: appends the payload and moves the counter past its id. */
    method AddFulfilled(payload: Record)
      requires IdOf(payload).Num?
      modifies this
      ensures clients == old(clients) + [payload] && nextId == IdOf(payload).n + 1
      ensures status == old(status) && error == old(error)
      ensures old(Valid()) && IdOf(payload).n + 1 >= old(nextId) ==> Valid()
    {
      clients := clients + [payload];
      nextId := IdOf(payload).n + 1;
    }

    /** `updateClient.fulfilled`: the first cached entry with the payload's id
        becomes the payload; an unknown id changes nothing. */
    method UpdateFulfilled(payload: Record)
      modifies this
      ensures clients == Replaced(old(clients), payload)
      ensures status == old(status) && error == old(error) && nextId == old(nextId)
      ensures old(Valid()) ==> Valid()
    {
      ReplacedIsIndexUpdate(clients, payload);
      var index := FindIndex(clients, IdOf(payload));
      if index != -1 {
        clients := clients[index := payload];
      }
      assert clients == Replaced(old(clients), payload);
      ReplacedKeepsIds(old(clients), payload);
      assert forall j :: 0 <= j < |clients| ==> IdOf(clients[j]) in IdsOf(old(clients));
    }

    /** `deleteClient.fulfilled`: drops every cached entry with that id. */
    method DeleteFulfilled(id: Value)
      modifies this
      ensures clients == WithoutIds(old(clients), {id})
      ensures status == old(status) && error == old(error) && nextId == old(nextId)
      ensures old(Valid()) ==> Valid()
    {
      clients := WithoutIds(clients, {id});
      assert forall j :: 0 <= j < |clients| ==> clients[j] in old(clients);
    }

    /** `fetchClients`: pending, the store read, then fulfilled. */
    method FetchClients(db: MemoryDB)
      requires db.Valid()
      modifies this
      ensures status == Succeeded && clients == db.stores["clients"]
      ensures nextId == MaxId(clients) + 1 && Valid()
      ensures error == old(error)
    {
      FetchPending();
      var items := db.GetAll("clients");
      FetchFulfilled(items);
    }

    /** `addClient` then its fulfilled case: the new client gets id `nextId` and is
        appended both to the store and to the cache. */
    method AddClient(db: MemoryDB, data: Record, now: int) returns (c: Record)
      modifies this, db
      ensures c == NewClient(data, old(nextId), now)
      ensures db.stores == old(db.stores)["clients" := old(db.Items("clients")) + [c]]
      ensures clients == old(clients) + [c] && nextId == old(nextId) + 1
      ensures status == old(status) && error == old(error)
      ensures old(db.Valid()) ==> db.Valid()
      ensures old(Valid()) ==> Valid()
    {
      c := NewClient(data, nextId, now);
      var _ := db.Add("clients", c);
      AddFulfilled(c);
    }

    /** `updateClient` then its fulfilled case: the store merges, the cache replaces.
        `now` is the payload's clock reading and `putNow` the later one `put` takes. */
    method UpdateClient(db: MemoryDB, id: int, updates: Record, now: int, putNow: int) returns (u: Record)
      modifies this, db
      ensures u == UpdatedClient(updates, id, now)
      ensures db.stores == old(db.stores)["clients" := Upserted(old(db.Items("clients")), u, putNow)]
      ensures clients == Replaced(old(clients), u) && nextId == old(nextId)
      ensures status == old(status) && error == old(error)
      ensures old(db.Valid()) ==> db.Valid()
      ensures old(Valid()) ==> Valid()
    {
      u := UpdatedClient(updates, id, now);
      var _ := db.Put("clients", u, putNow);
      UpdateFulfilled(u);
    }

    /** `deleteClient` then its fulfilled case. */
    method DeleteClient(db: MemoryDB, id: Value)
      modifies this, db
      ensures "clients" in old(db.stores) ==>
        db.stores == old(db.stores)["clients" := WithoutIds(old(db.stores)["clients"], {id})]
      ensures "clients" !in old(db.stores) ==> db.stores == old(db.stores)
      ensures clients == WithoutIds(old(clients), {id}) && nextId == old(nextId)
      ensures status == old(status) && error == old(error)
      ensures old(db.Valid()) ==> db.Valid()
      ensures old(Valid()) ==> Valid()
    {
      db.Delete("clients", id);
      DeleteFulfilled(id);
    }
  }

  /** Adding clients one after another from the initial state numbers them 1..n and
      leaves `nextId = n + 1`; the sample seeder's ten clients leave it at 11. */
  method AddClientsInOrder(samples: seq<Record>, now: int) returns (ids: seq<Value>, nextId: int)
    ensures |ids| == |samples|
    ensures forall i :: 0 <= i < |ids| ==> ids[i] == Num(i + 1)
    ensures nextId == |samples| + 1
  {
    var db := new MemoryDB();
    var state := new ClientsState();
    ids := [];
    var i := 0;
    while i < |samples|
      invariant 0 <= i <= |samples|
      invariant |state.clients| == i && state.nextId == i + 1
      invariant |ids| == i && forall j :: 0 <= j < i ==> ids[j] == Num(j + 1)
    {
      var c := state.AddClient(db, samples[i], now);
      ids := ids + [IdOf(c)];
      i := i + 1;
    }
    nextId := state.nextId;
  }
}
