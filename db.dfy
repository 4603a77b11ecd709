/** The in-memory record store (`MemoryDB`) and the JSON export/import of its
    clients collection. */
module Db {
  import opened Wrappers
  import opened Values
  import Seqs

  /** `items.findIndex(item => item.id === id)`: the first position whose id is `id`, or -1. */
  function FindIndex(items: seq<Record>, id: Value): (i: int)
    ensures -1 <= i < |items|
    ensures 0 <= i ==> IdOf(items[i]) == id
    ensures 0 <= i ==> forall j :: 0 <= j < i ==> IdOf(items[j]) != id
    ensures i == -1 <==> forall j :: 0 <= j < |items| ==> IdOf(items[j]) != id
  {
    if items == [] then -1
    else if IdOf(items[0]) == id then 0
    else
      var k := FindIndex(items[1..], id);
      if k == -1 then -1 else k + 1
  }

  /** `items.find(item => item.id === id)`. */
  function Find(items: seq<Record>, id: Value): (r: Option<Record>)
    ensures r.None? <==> forall j :: 0 <= j < |items| ==> IdOf(items[j]) != id
    ensures r.Some? ==> r.value in items && IdOf(r.value) == id
    ensures r.Some? ==> exists i :: 0 <= i < |items| && r.value == items[i]
                                   && forall j :: 0 <= j < i ==> IdOf(items[j]) != id
  {
    var i := FindIndex(items, id);
    if i < 0 then None else Some(items[i])
  }

  /** `this.stores[store] || []` */
  function Collection(stores: map<string, seq<Record>>, name: string): seq<Record> {
    if name in stores then stores[name] else []
  }

  /** `{...existing, ...data, updatedAt: now}` */
  function Merged(existing: Record, data: Record, now: int): Record {
    existing + data + map["updatedAt" := Stamp(now)]
  }

  /** The collection after `put(store, data)`: the first record with the same id is
      merged with `data`; when there is none, `data` is appended. */
  function Upserted(items: seq<Record>, data: Record, now: int): (r: seq<Record>)
    ensures |r| == if FindIndex(items, IdOf(data)) >= 0 then |items| else |items| + 1
    ensures forall j :: 0 <= j < |items| && j != FindIndex(items, IdOf(data)) ==> r[j] == items[j]
  {
    var i := FindIndex(items, IdOf(data));
    if i >= 0 then items[i := Merged(items[i], data, now)] else items + [data]
  }

  /** The test `item => !ids.has(item.id)`. */
  function IdNotIn(ids: set<Value>): Record -> bool {
    r => IdOf(r) !in ids
  }

  /** The collection without every record whose id is in `ids`, the rest in order. */
  function WithoutIds(items: seq<Record>, ids: set<Value>): (r: seq<Record>)
    ensures |r| <= |items|
    ensures forall x :: x in r <==> x in items && IdOf(x) !in ids
  {
    Seqs.Filter(items, IdNotIn(ids))
  }

  /** A store with the `clients` and `backups` collections it is created with;
      no operation removes a collection. */
  class MemoryDB {
    var stores: map<string, seq<Record>>

    ghost predicate Valid()
      reads this
    {
      "clients" in stores && "backups" in stores
    }

    constructor ()
      ensures Valid()
      ensures stores == map["clients" := [], "backups" := []]
    {
      stores := map["clients" := [], "backups" := []];
    }

    /** The contents of a collection; a collection never referenced reads as empty. */
    function Items(store: string): seq<Record>
      reads this
    {
      Collection(stores, store)
    }

    method GetAll(store: string) returns (items: seq<Record>)
      ensures store in stores ==> items == stores[store]
      ensures store !in stores ==> items == []
    {
      items := Items(store);
    }

    /** The first record of the collection whose id is `id`; nothing when there is
        none or when the collection does not exist. */
    method Get(store: string, id: Value) returns (r: Option<Record>)
      ensures r == Find(Items(store), id)
      ensures r.None? <==> forall j :: 0 <= j < |Items(store)| ==> IdOf(Items(store)[j]) != id
      ensures r.Some? ==> exists i :: 0 <= i < |Items(store)| && Items(store)[i] == r.value && IdOf(r.value) == id
                                      && forall j :: 0 <= j < i ==> IdOf(Items(store)[j]) != id
      ensures store !in stores ==> r.None?
    {
      var items := Items(store);
      var i := FindIndex(items, id);
      if i < 0 {
        r := None;
      } else {
        r := Some(items[i]);
      }
    }

    /** Appends `data`, creating the collection when it is missing; there is no
        duplicate-key check. */
    method Add(store: string, data: Record) returns (r: Record)
      modifies this
      ensures stores == old(stores)[store := old(Items(store)) + [data]]
      ensures r == data
      ensures old(Valid()) ==> Valid()
    {
      if store !in stores {
        stores := stores[store := []];
      }
      stores := stores[store := stores[store] + [data]];
      r := data;
    }

    /** Merge upsert: the stored record with `data`'s id keeps its other fields, takes
        `data`'s fields and gets `updatedAt = now`; an absent id falls back to `Add`. */
    method Put(store: string, data: Record, now: int) returns (r: Record)
      modifies this
      ensures stores == old(stores)[store := Upserted(old(Items(store)), data, now)]
      ensures var i := FindIndex(old(Items(store)), IdOf(data));
              r == if i >= 0 then Merged(old(Items(store))[i], data, now) else data
      ensures old(Valid()) ==> Valid()
    {
      if store !in stores {
        stores := stores[store := []];
      }
      var items := stores[store];
      var index := FindIndex(items, IdOf(data));
      if index != -1 {
        var existing := items[index];
        r := Merged(existing, data, now);
        stores := stores[store := items[index := r]];
      } else {
        r := Add(store, data);
      }
    }

    /** Removes every record whose id is `id`; a missing collection is left alone. */
    method Delete(store: string, id: Value)
      modifies this
      ensures store !in old(stores) ==> stores == old(stores)
      ensures store in old(stores) ==> stores == old(stores)[store := WithoutIds(old(stores)[store], {id})]
      ensures old(Valid()) ==> Valid()
    {
      if store !in stores {
        return;
      }
      stores := stores[store := WithoutIds(stores[store], {id})];
    }
  }

  // ---------------------------------------------------------------------------
  // Properties of the store operations

  /** `get` finds what `add` stored when no earlier record has the same id. */
  lemma AddThenGet(items: seq<Record>, data: Record)
    requires forall j :: 0 <= j < |items| ==> IdOf(items[j]) != IdOf(data)
    ensures Find(items + [data], IdOf(data)) == Some(data)
  {
    assert (items + [data])[|items|] == data;
    assert FindIndex(items + [data], IdOf(data)) == |items|;
  }

  /** `put` on a present id: same length, only the first match changes, its old fields
      survive unless the patch names them, the patch wins, and `updatedAt` is the clock. */
  lemma PutMergesFirstMatch(items: seq<Record>, data: Record, now: int, i: nat)
    requires i < |items| && IdOf(items[i]) == IdOf(data)
    requires forall j :: 0 <= j < i ==> IdOf(items[j]) != IdOf(data)
    ensures var r := Upserted(items, data, now);
      && |r| == |items|
      && (forall j :: 0 <= j < |items| && j != i ==> r[j] == items[j])
      && r[i].Keys == items[i].Keys + data.Keys + {"updatedAt"}
      && (forall f :: f in items[i] && f !in data && f != "updatedAt" ==> r[i][f] == items[i][f])
      && (forall f :: f in data && f != "updatedAt" ==> r[i][f] == data[f])
      && r[i]["updatedAt"] == Stamp(now)
      && IdOf(r[i]) == IdOf(data)
  {
    assert FindIndex(items, IdOf(data)) == i;
  }

  /** `put` on an absent id is `add`. */
  lemma PutAbsentIsAdd(items: seq<Record>, data: Record, now: int)
    requires forall j :: 0 <= j < |items| ==> IdOf(items[j]) != IdOf(data)
    ensures Upserted(items, data, now) == items + [data]
  {
  }

  /** The same `put` twice differs from one `put` only in `updatedAt`. */
  lemma PutTwice(items: seq<Record>, data: Record, t1: int, t2: int)
    ensures var once := Upserted(items, data, t1);
            var twice := Upserted(once, data, t2);
            && |twice| == |once|
            && forall j :: 0 <= j < |once| ==> twice[j] - {"updatedAt"} == once[j] - {"updatedAt"}
  {
    var once := Upserted(items, data, t1);
    var i := FindIndex(items, IdOf(data));
    if i >= 0 {
      assert IdOf(once[i]) == IdOf(data);
      assert FindIndex(once, IdOf(data)) == i;
      var twice := Upserted(once, data, t2);
      assert twice[i] - {"updatedAt"} == once[i] - {"updatedAt"};
    } else {
      assert once[|items|] == data;
      assert FindIndex(once, IdOf(data)) == |items|;
      var twice := Upserted(once, data, t2);
      assert twice[|items|] - {"updatedAt"} == once[|items|] - {"updatedAt"};
    }
  }

  /** Deleting keeps the other records in their order and removes every match. */
  lemma {:induction false} DeleteKeepsOthersInOrder(items: seq<Record>, id: Value)
    ensures Seqs.IsSubsequence(WithoutIds(items, {id}), items)
    ensures forall j :: 0 <= j < |WithoutIds(items, {id})| ==> IdOf(WithoutIds(items, {id})[j]) != id
    ensures forall j :: 0 <= j < |items| && IdOf(items[j]) != id ==> items[j] in WithoutIds(items, {id})
  {
    Seqs.FilterIsSubsequence(items, IdNotIn({id}));
  }

  /** Deleting an id no record has changes nothing. */
  lemma DeleteAbsentIsNoOp(items: seq<Record>, id: Value)
    requires forall j :: 0 <= j < |items| ==> IdOf(items[j]) != id
    ensures WithoutIds(items, {id}) == items
  {
    Seqs.FilterKeepsAll(items, IdNotIn({id}));
  }

  /** Deleting the ids of `more` after those of `ids` is deleting both at once. */
  lemma WithoutIdsTwice(items: seq<Record>, ids: set<Value>, more: set<Value>)
    ensures WithoutIds(WithoutIds(items, ids), more) == WithoutIds(items, ids + more)
  {
    Seqs.FilterTwice(items, IdNotIn(ids), IdNotIn(more), IdNotIn(ids + more));
  }

  /** Deleting the ids of every record leaves nothing. */
  lemma WithoutOwnIds(items: seq<Record>, ids: set<Value>)
    requires forall j :: 0 <= j < |items| ==> IdOf(items[j]) in ids
    ensures WithoutIds(items, ids) == []
  {
    Seqs.FilterKeepsNone(items, IdNotIn(ids));
  }

  // ---------------------------------------------------------------------------
  // Export and import

  /** What the export keeps of a backup: its `id`, `metadata` and `createdAt`, never its data. */
  function BackupSummary(b: Record): (r: Record)
    ensures "data" !in r
    ensures r.Keys == b.Keys * {"id", "metadata", "createdAt"}
    ensures forall f :: f in r ==> r[f] == b[f]
  {
    map f | f in b.Keys * {"id", "metadata", "createdAt"} :: b[f]
  }

  /** The exported document for the given clients and backups collections. */
  function ExportDocument(clients: seq<Record>, backups: seq<Record>): (d: Document)
    ensures d.clients == Some(clients)
    ensures d.backupsMetadata.Some? && |d.backupsMetadata.value| == |backups|
    ensures forall j :: 0 <= j < |backups| ==> d.backupsMetadata.value[j] == BackupSummary(backups[j])
  {
    Document(Some(clients), Some(seq(|backups|, j requires 0 <= j < |backups| => BackupSummary(backups[j]))))
  }

  /** `exportDBToJSON`: the document it serialises. */
  method ExportDBToJSON(db: MemoryDB) returns (d: Document)
    ensures d.clients == Some(db.Items("clients"))
    ensures d == ExportDocument(db.Items("clients"), db.Items("backups"))
  {
    var clients := db.GetAll("clients");
    var backups := db.GetAll("backups");
    d := ExportDocument(clients, backups);
  }

  /** The result of `JSON.parse` on the text handed to the import. */
  datatype ImportInput = Malformed | Parsed(doc: Document)

  const IMPORT_ERROR := "Error al importar datos desde JSON"

  /** The clients collection after importing `doc`: its clients array when it has one. */
  function ImportedClients(current: seq<Record>, doc: Document): seq<Record> {
    match doc.clients
    case Some(incoming) => incoming
    case None => current
  }

  lemma IdsOfExtend(s: seq<Record>, i: nat)
    requires i < |s|
    ensures IdsOf(s[..i + 1]) == IdsOf(s[..i]) + {IdOf(s[i])}
  {
    assert s[..i + 1] == s[..i] + [s[i]];
  }

  /** Before any deletion, nothing is gone. */
  lemma NothingDeletedYet(items: seq<Record>, victims: seq<Record>)
    ensures WithoutIds(items, IdsOf(victims[..0])) == items
  {
    assert IdsOf(victims[..0]) == {};
    Seqs.FilterKeepsAll(items, IdNotIn({}));
  }

  /** Deleting by the next victim's id extends the set of deleted ids by one. */
  lemma DeleteNextId(items: seq<Record>, victims: seq<Record>, i: nat)
    requires i < |victims|
    ensures WithoutIds(WithoutIds(items, IdsOf(victims[..i])), {IdOf(victims[i])})
         == WithoutIds(items, IdsOf(victims[..i + 1]))
  {
    WithoutIdsTwice(items, IdsOf(victims[..i]), {IdOf(victims[i])});
    IdsOfExtend(victims, i);
  }

  /** Deletes from `store`, one `delete` call after the other, the record with
      each victim's id. */
  method DeleteEach(db: MemoryDB, store: string, victims: seq<Record>)
    requires db.Valid() && store in db.stores
    modifies db
    ensures db.Valid()
    ensures db.stores == old(db.stores)[store := WithoutIds(old(db.stores)[store], IdsOf(victims))]
  {
    ghost var before := db.stores;
    ghost var items := db.stores[store];
    NothingDeletedYet(items, victims);
    assert before[store := items] == before;
    var i := 0;
    while i < |victims|
      invariant 0 <= i <= |victims|
      invariant db.Valid()
      invariant db.stores == before[store := WithoutIds(items, IdsOf(victims[..i]))]
    {
      db.Delete(store, IdOf(victims[i]));
      DeleteNextId(items, victims, i);
      i := i + 1;
    }
    assert victims[..|victims|] == victims;
  }

  /** The first loop of the import: delete each existing client by its id. */
  method DeleteEachClient(db: MemoryDB)
    requires db.Valid()
    modifies db
    ensures db.Valid()
    ensures db.stores == old(db.stores)["clients" := []]
  {
    var existing := db.GetAll("clients");
    DeleteEach(db, "clients", existing);
    WithoutOwnIds(existing, IdsOf(existing));
  }

  /** The second loop of the import: add each imported client in order. */
  method AddEachClient(db: MemoryDB, incoming: seq<Record>)
    requires db.Valid() && db.stores["clients"] == []
    modifies db
    ensures db.Valid()
    ensures db.stores == old(db.stores)["clients" := incoming]
  {
    var j := 0;
    while j < |incoming|
      invariant 0 <= j <= |incoming|
      invariant db.stores == old(db.stores)["clients" := incoming[..j]]
    {
      var _ := db.Add("clients", incoming[j]);
      assert incoming[..j + 1] == incoming[..j] + [incoming[j]];
      j := j + 1;
    }
    assert incoming[..|incoming|] == incoming;
  }

  /** `importDBFromJSON`: parse first; then, when there is a clients array, delete
      every existing client by id and add the imported ones in order. Backups are
      never touched and no format version is checked. */
  method ImportDBFromJSON(db: MemoryDB, input: ImportInput) returns (r: Result<(), string>)
    requires db.Valid()
    modifies db
    ensures db.Valid()
    ensures input.Malformed? ==> r == Err(IMPORT_ERROR) && db.stores == old(db.stores)
    ensures input.Parsed? ==> r == Ok(())
    ensures input.Parsed? ==>
      db.stores == old(db.stores)["clients" := ImportedClients(old(db.stores["clients"]), input.doc)]
  {
    if input.Malformed? {
      return Err(IMPORT_ERROR);
    }
    r := Ok(());
    match input.doc.clients {
      case None =>
      case Some(incoming) =>
        DeleteEachClient(db);
        AddEachClient(db, incoming);
    }
  }

  /** Export followed by import gives back the exported clients, in order. This
      holds by definition of the document; `ExportThenImport` states the round
      trip on the store. */
  lemma ExportImportRoundTrip(clients: seq<Record>, backups: seq<Record>, current: seq<Record>)
    ensures ImportedClients(current, ExportDocument(clients, backups)) == clients
  {
  }

  /** Exporting then importing into the same store changes nothing. */
  method ExportThenImport(db: MemoryDB)
    requires db.Valid()
    modifies db
    ensures db.stores == old(db.stores)
  {
    var doc := ExportDBToJSON(db);
    var _ := ImportDBFromJSON(db, Parsed(doc));
  }
}
