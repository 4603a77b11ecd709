/** The backup manager: periodic snapshots of the store kept in its `backups`
    collection, retention of the newest few, and restore. */
module Backup {
  import opened Wrappers
  import opened Values
  import Text
  import Seqs
  import opened Db

  /** How many backups retention keeps. */
  const MAX_BACKUPS := 5
  const FORMAT_VERSION := "1.0"
  const NOT_FOUND := "Backup no encontrado"
  const UNREADABLE := "backup.data.text is not a function"

  /** The TypeError's text when `backup.data.text()` cannot be called: reading a
      property of an absent `data` fails before the call does. */
  function UnreadableMessage(data: Value): string {
    match data
    case Undefined => "Cannot read properties of undefined (reading 'text')"
    case Null => "Cannot read properties of null (reading 'text')"
    case _ => UNREADABLE
  }

  // ---------------------------------------------------------------------------
  // Ordering backups by their timestamp

  /** The backup's `metadata.timestamp` is a date. */
  predicate Stamped(b: Record) {
    var m := Field(b, "metadata");
    m.Obj? && "timestamp" in m.fields && m.fields["timestamp"].Stamp?
  }

  predicate AllStamped(s: seq<Record>) {
    forall j :: 0 <= j < |s| ==> Stamped(s[j])
  }

  /** `new Date(b.metadata.timestamp).getTime()` for a stamped backup. */
  function TimeOf(b: Record): int {
    if Stamped(b) then Field(b, "metadata").fields["timestamp"].ms else 0
  }

  /** Newest first. */
  predicate NewestFirstOrder(s: seq<Record>) {
    forall i, j :: 0 <= i < j < |s| ==> TimeOf(s[i]) >= TimeOf(s[j])
  }

  /** Inserts `b` before the first backup that is not strictly newer than it. */
  function InsertNewest(b: Record, sorted: seq<Record>): (r: seq<Record>)
    ensures |r| == |sorted| + 1
    ensures forall x :: x in r <==> x == b || x in sorted
    ensures multiset(r) == multiset(sorted) + multiset{b}
  {
    if sorted == [] || TimeOf(b) >= TimeOf(sorted[0]) then [b] + sorted
    else
      assert sorted == [sorted[0]] + sorted[1..];
      [sorted[0]] + InsertNewest(b, sorted[1..])
  }

  /** `backups.sort((a, b) => time(b) - time(a))`: a stable sort, newest first. */
  function NewestFirst(s: seq<Record>): (r: seq<Record>)
    ensures |r| == |s|
    ensures forall x :: x in r <==> x in s
    ensures multiset(r) == multiset(s)
  {
    if s == [] then []
    else
      assert s == [s[0]] + s[1..];
      InsertNewest(s[0], NewestFirst(s[1..]))
  }

  lemma {:induction false} InsertNewestSorts(b: Record, sorted: seq<Record>)
    requires NewestFirstOrder(sorted)
    ensures NewestFirstOrder(InsertNewest(b, sorted))
  {
    if sorted != [] && TimeOf(b) < TimeOf(sorted[0]) {
      InsertNewestSorts(b, sorted[1..]);
      var rest := InsertNewest(b, sorted[1..]);
      var r := InsertNewest(b, sorted);
      assert r == [sorted[0]] + rest;
      forall j | 0 < j < |r| ensures TimeOf(r[0]) >= TimeOf(r[j]) {
        assert r[j] == rest[j - 1];
        assert r[j] in rest;
      }
    }
  }

  /** The sort returns the backups newest first. */
  lemma {:induction false} NewestFirstSorts(s: seq<Record>)
    ensures NewestFirstOrder(NewestFirst(s))
  {
    if s != [] {
      NewestFirstSorts(s[1..]);
      InsertNewestSorts(s[0], NewestFirst(s[1..]));
    }
  }

  /** The test `b => time(b) === t`. */
  function TimeIs(t: int): Record -> bool {
    b => TimeOf(b) == t
  }

  lemma {:induction false} InsertNewestStable(b: Record, sorted: seq<Record>, t: int)
    ensures Seqs.Filter(InsertNewest(b, sorted), TimeIs(t))
         == (if TimeOf(b) == t then [b] else []) + Seqs.Filter(sorted, TimeIs(t))
  {
    var p := TimeIs(t);
    if sorted == [] || TimeOf(b) >= TimeOf(sorted[0]) {
      assert InsertNewest(b, sorted) == [b] + sorted;
      Seqs.FilterCons(b, sorted, p);
    } else {
      var x, rest := sorted[0], sorted[1..];
      assert InsertNewest(b, sorted) == [x] + InsertNewest(b, rest);
      assert sorted == [x] + rest;
      InsertNewestStable(b, rest, t);
      // `b` is strictly older than `x`, so at most one of them has time `t`.
      Seqs.FilterInsertStep(x, b, InsertNewest(b, rest), rest, p);
    }
  }

  /** The sort is stable: backups with the same timestamp keep their insertion order. */
  lemma {:induction false} NewestFirstStable(s: seq<Record>, t: int)
    ensures Seqs.Filter(NewestFirst(s), TimeIs(t)) == Seqs.Filter(s, TimeIs(t))
  {
    if s != [] {
      NewestFirstStable(s[1..], t);
      InsertNewestStable(s[0], NewestFirst(s[1..]), t);
      Seqs.FilterCons(s[0], s[1..], TimeIs(t));
      assert s == [s[0]] + s[1..];
    }
  }

  // ---------------------------------------------------------------------------
  // Retention

  /** The backups collection after `cleanupOldBackups`: with more than `MAX_BACKUPS`
      backups it is sorted newest first and every backup past the first
      `MAX_BACKUPS` is deleted by id. A backup without a date makes the comparator
      fail, and the failure is caught with the collection as it was. */
  function AfterCleanup(s: seq<Record>): (r: seq<Record>)
    ensures |r| <= |s|
    ensures forall x :: x in r ==> x in s
  {
    if |s| <= MAX_BACKUPS || !AllStamped(s) then s
    else
      var sorted := NewestFirst(s);
      WithoutIds(sorted, IdsOf(sorted[MAX_BACKUPS..]))
  }

  /** No id occurs twice. */
  predicate DistinctIds(s: seq<Record>) {
    forall i, j :: 0 <= i < j < |s| ==> IdOf(s[i]) != IdOf(s[j])
  }

  /** A record whose id is new can go in front of records with distinct ids. */
  lemma DistinctCons(x: Record, t: seq<Record>)
    requires DistinctIds(t) && IdOf(x) !in IdsOf(t)
    ensures DistinctIds([x] + t)
  {
    var r := [x] + t;
    forall i, j | 0 <= i < j < |r| ensures IdOf(r[i]) != IdOf(r[j]) {
      assert r[j] == t[j - 1];
      if i > 0 {
        assert r[i] == t[i - 1];
      } else {
        assert IdOf(t[j - 1]) in IdsOf(t);
      }
    }
  }

  lemma {:induction false} InsertNewestDistinct(b: Record, sorted: seq<Record>)
    requires DistinctIds(sorted) && IdOf(b) !in IdsOf(sorted)
    ensures DistinctIds(InsertNewest(b, sorted))
  {
    if sorted != [] && TimeOf(b) < TimeOf(sorted[0]) {
      var first, rest := sorted[0], sorted[1..];
      assert sorted == [first] + rest;
      assert DistinctIds(rest) by {
        forall i, j | 0 <= i < j < |rest| ensures IdOf(rest[i]) != IdOf(rest[j]) {
          assert rest[i] == sorted[i + 1] && rest[j] == sorted[j + 1];
        }
      }
      assert IdOf(b) !in IdsOf(rest) by {
        forall x | x in rest ensures x in sorted { }
      }
      InsertNewestDistinct(b, rest);
      var t := InsertNewest(b, rest);
      assert IdOf(first) !in IdsOf(t) by {
        forall x | x in t ensures IdOf(x) != IdOf(first) {
          if x != b {
            var k :| 0 <= k < |rest| && rest[k] == x;
            assert sorted[k + 1] == x;
          } else {
            assert first in sorted;
          }
        }
      }
      DistinctCons(first, t);
    } else {
      DistinctCons(b, sorted);
    }
  }

  /** The sort keeps ids distinct. */
  lemma {:induction false} NewestFirstDistinct(s: seq<Record>)
    requires DistinctIds(s)
    ensures DistinctIds(NewestFirst(s))
  {
    if s != [] {
      var rest := s[1..];
      NewestFirstDistinct(rest);
      assert IdsOf(NewestFirst(rest)) == IdsOf(rest);
      assert IdOf(s[0]) !in IdsOf(rest);
      InsertNewestDistinct(s[0], NewestFirst(rest));
    }
  }

  /** The kept backups are among the `MAX_BACKUPS` newest: filtering the sorted list
      by the evicted ids filters only its head. */
  lemma SplitAtRetention(sorted: seq<Record>)
    requires |sorted| > MAX_BACKUPS
    ensures WithoutIds(sorted, IdsOf(sorted[MAX_BACKUPS..]))
         == WithoutIds(sorted[..MAX_BACKUPS], IdsOf(sorted[MAX_BACKUPS..]))
  {
    var evicted := IdsOf(sorted[MAX_BACKUPS..]);
    assert sorted == sorted[..MAX_BACKUPS] + sorted[MAX_BACKUPS..];
    Seqs.FilterConcat(sorted[..MAX_BACKUPS], sorted[MAX_BACKUPS..], IdNotIn(evicted));
    WithoutOwnIds(sorted[MAX_BACKUPS..], evicted);
  }

  /** At most `MAX_BACKUPS` is left as soon as every backup carries a date. */
  lemma CleanupBound(s: seq<Record>)
    requires AllStamped(s)
    ensures |AfterCleanup(s)| <= MAX_BACKUPS
  {
    if |s| > MAX_BACKUPS {
      var sorted := NewestFirst(s);
      SplitAtRetention(sorted);
    }
  }

  /** With at most `MAX_BACKUPS` backups cleanup changes nothing. */
  lemma CleanupSmallIsNoOp(s: seq<Record>)
    requires |s| <= MAX_BACKUPS
    ensures AfterCleanup(s) == s
  {
  }

  /** With distinct ids exactly the `MAX_BACKUPS` newest are left, newest first,
      so `min(n, MAX_BACKUPS)` backups remain. */
  lemma CleanupKeepsNewestFive(s: seq<Record>)
    requires AllStamped(s) && DistinctIds(s) && |s| > MAX_BACKUPS
    ensures AfterCleanup(s) == NewestFirst(s)[..MAX_BACKUPS]
    ensures |AfterCleanup(s)| == MAX_BACKUPS
  {
    var sorted := NewestFirst(s);
    NewestFirstDistinct(s);
    SplitAtRetention(sorted);
    var evicted := IdsOf(sorted[MAX_BACKUPS..]);
    var head := sorted[..MAX_BACKUPS];
    assert forall j :: 0 <= j < |head| ==> IdNotIn(evicted)(head[j]);
    Seqs.FilterKeepsAll(head, IdNotIn(evicted));
  }

  /** Every kept backup ranks among the `MAX_BACKUPS` newest. */
  lemma CleanupKeepsOnlyNewest(s: seq<Record>)
    requires AllStamped(s) && |s| > MAX_BACKUPS
    ensures forall k :: k in AfterCleanup(s) ==> k in NewestFirst(s)[..MAX_BACKUPS]
  {
    SplitAtRetention(NewestFirst(s));
  }

  /** Every backup ranked past `MAX_BACKUPS` is gone, and none of them is newer
      than a backup ranked within it. */
  lemma CleanupEvictsOldest(s: seq<Record>)
    requires AllStamped(s) && |s| > MAX_BACKUPS
    ensures forall i, j :: 0 <= i < MAX_BACKUPS <= j < |s| ==> TimeOf(NewestFirst(s)[i]) >= TimeOf(NewestFirst(s)[j])
    ensures forall j :: MAX_BACKUPS <= j < |s| ==> NewestFirst(s)[j] !in AfterCleanup(s)
  {
    var sorted := NewestFirst(s);
    var evicted := IdsOf(sorted[MAX_BACKUPS..]);
    var kept := AfterCleanup(s);
    assert kept == WithoutIds(sorted, evicted);
    forall j | MAX_BACKUPS <= j < |sorted| ensures sorted[j] !in kept {
      assert sorted[j] == sorted[MAX_BACKUPS..][j - MAX_BACKUPS];
      assert IdOf(sorted[j]) in evicted;
    }
    NewestFirstSorts(s);
  }

  /** Cleanup only ever removes backups, so they all still carry a date. */
  lemma CleanupKeepsStamped(s: seq<Record>)
    requires AllStamped(s)
    ensures AllStamped(AfterCleanup(s))
  {
    if |s| > MAX_BACKUPS {
      var r := AfterCleanup(s);
      forall j | 0 <= j < |r| ensures Stamped(r[j]) {
        assert r[j] in NewestFirst(s);
      }
    }
  }

  /** `cleanupOldBackups`. The sort works on the very array the store holds (the
      one `getAll` returned), so the collection is left newest first. */
  method CleanupOldBackups(db: MemoryDB)
    requires db.Valid()
    modifies db
    ensures db.Valid()
    ensures db.stores == old(db.stores)["backups" := AfterCleanup(old(db.stores["backups"]))]
  {
    var backups := db.GetAll("backups");
    if |backups| > MAX_BACKUPS {
      if !AllStamped(backups) {
        return;
      }
      var sorted := NewestFirst(backups);
      db.stores := db.stores["backups" := sorted];
      var toDelete := sorted[MAX_BACKUPS..];
      DeleteEach(db, "backups", toDelete);
    }
  }

  // ---------------------------------------------------------------------------
  // One backup cycle

  /** `backup_${Date.now()}` */
  function BackupId(now: nat): Value {
    Str("backup_" + Text.NatToString(now))
  }

  /** The record `performBackup` adds. All clock readings are `now`; `size` is the
      byte length of the exported JSON text. */
  function BackupRecord(doc: Document, now: nat, size: nat): (r: Record)
    ensures IdOf(r) == BackupId(now)
    ensures Stamped(r) && TimeOf(r) == now
    ensures Field(r, "data") == Blob(doc)
    ensures Field(r, "metadata").Obj? && "version" in Field(r, "metadata").fields
    ensures Field(r, "metadata").fields["version"] == Str(FORMAT_VERSION)
    ensures "size" in Field(r, "metadata").fields && Field(r, "metadata").fields["size"] == Num(size)
    ensures Field(r, "createdAt") == Stamp(now)
    ensures r.Keys == {"id", "data", "metadata", "createdAt"}
  {
    map[
      "id" := BackupId(now),
      "data" := Blob(doc),
      "metadata" := Obj(map["timestamp" := Stamp(now), "size" := Num(size), "version" := Str(FORMAT_VERSION)]),
      "createdAt" := Stamp(now)
    ]
  }

  /** The store after `performBackup`: one record holding the export is added,
      then retention runs. */
  function BackupCycle(stores: map<string, seq<Record>>, now: nat, size: nat): (r: map<string, seq<Record>>)
    ensures r.Keys == stores.Keys + {"backups"}
    ensures forall name :: name in stores && name != "backups" ==> r[name] == stores[name]
    ensures |r["backups"]| <= |Collection(stores, "backups")| + 1
  {
    var backups := Collection(stores, "backups");
    var doc := ExportDocument(Collection(stores, "clients"), backups);
    stores["backups" := AfterCleanup(backups + [BackupRecord(doc, now, size)])]
  }

  /** `performBackup`. Errors would be caught and logged; in this model nothing in
      it can fail. */
  method PerformBackup(db: MemoryDB, now: nat, size: nat)
    requires db.Valid()
    modifies db
    ensures db.Valid()
    ensures db.stores == BackupCycle(old(db.stores), now, size)
  {
    var backupData := ExportDBToJSON(db);
    var record := BackupRecord(backupData, now, size);
    var _ := db.Add("backups", record);
    CleanupOldBackups(db);
  }

  /** The store after a run of backup cycles at the given (clock, size) readings. */
  function RunCycles(stores: map<string, seq<Record>>, clock: seq<(nat, nat)>): map<string, seq<Record>>
    decreases |clock|
  {
    if clock == [] then stores
    else RunCycles(BackupCycle(stores, clock[0].0, clock[0].1), clock[1..])
  }

  /** However many cycles run, at most `MAX_BACKUPS` backups are retained. */
  lemma {:induction false} RetentionBound(stores: map<string, seq<Record>>, clock: seq<(nat, nat)>)
    requires AllStamped(Collection(stores, "backups")) && |Collection(stores, "backups")| <= MAX_BACKUPS
    ensures AllStamped(Collection(RunCycles(stores, clock), "backups"))
    ensures |Collection(RunCycles(stores, clock), "backups")| <= MAX_BACKUPS
    decreases |clock|
  {
    if clock != [] {
      var backups := Collection(stores, "backups");
      var doc := ExportDocument(Collection(stores, "clients"), backups);
      var grown := backups + [BackupRecord(doc, clock[0].0, clock[0].1)];
      assert AllStamped(grown);
      CleanupBound(grown);
      CleanupKeepsStamped(grown);
      RetentionBound(BackupCycle(stores, clock[0].0, clock[0].1), clock[1..]);
    }
  }

  // ---------------------------------------------------------------------------
  // The auto-backup schedule

  /** The module's `backupInterval`: set while the schedule runs. */
  class AutoBackup {
    var running: bool
    const db: MemoryDB

    constructor (db: MemoryDB)
      ensures this.db == db && !running
    {
      this.db := db;
      running := false;
    }

    /** `startAutoBackup`: a no-op while running; otherwise one backup now and the
        schedule starts. */
    method Start(now: nat, size: nat)
      requires db.Valid()
      modifies this, db
      ensures running && db.Valid()
      ensures old(running) ==> db.stores == old(db.stores)
      ensures !old(running) ==> db.stores == BackupCycle(old(db.stores), now, size)
    {
      if running {
        return;
      }
      PerformBackup(db, now, size);
      running := true;
    }

    /** `stopAutoBackup`: clears the schedule; a no-op when it is not running. */
    method Stop()
      modifies this
      ensures !running
    {
      if running {
        running := false;
      }
    }

    /** One firing of the interval timer: a backup cycle while running; a cleared
        timer never fires. */
    method Tick(now: nat, size: nat)
      requires db.Valid()
      modifies db
      ensures db.Valid()
      ensures running ==> db.stores == BackupCycle(old(db.stores), now, size)
      ensures !running ==> db.stores == old(db.stores)
    {
      if running {
        PerformBackup(db, now, size);
      }
    }
  }

  // ---------------------------------------------------------------------------
  // Restore

  /** `restoreFromBackup`: an unknown id fails with "Backup no encontrado" and changes
      nothing; otherwise the blob's document is imported. */
  method RestoreFromBackup(db: MemoryDB, backupId: Value) returns (r: Result<bool, string>)
    requires db.Valid()
    modifies db
    ensures db.Valid()
    ensures Find(old(db.stores["backups"]), backupId).None? ==>
      r == Err(NOT_FOUND) && db.stores == old(db.stores)
    ensures Find(old(db.stores["backups"]), backupId).Some? ==>
      (var data := Field(Find(old(db.stores["backups"]), backupId).value, "data");
       && (!data.Blob? ==> r == Err(UnreadableMessage(data)) && db.stores == old(db.stores))
       && (data.Blob? ==>
             r == Ok(true) && db.stores == old(db.stores)["clients" := ImportedClients(old(db.stores["clients"]), data.doc)]))
  {
    var backup := db.Get("backups", backupId);
    if backup.None? {
      return Err(NOT_FOUND);
    }
    var data := Field(backup.value, "data");
    if !data.Blob? {
      return Err(UnreadableMessage(data));
    }
    var _ := ImportDBFromJSON(db, Parsed(data.doc));
    r := Ok(true);
  }

  /** Restoring the backup a cycle made brings back the clients of that moment.
      This holds by definition here: the backup's data is the export document
      itself, so the JSON text round trip is not part of the statement. */
  lemma RestoreBringsBackClients(stores: map<string, seq<Record>>, now: nat, size: nat, current: seq<Record>)
    ensures var b := BackupRecord(ExportDocument(Collection(stores, "clients"), Collection(stores, "backups")), now, size);
            Field(b, "data").Blob? && ImportedClients(current, Field(b, "data").doc) == Collection(stores, "clients")
  {
  }
}
