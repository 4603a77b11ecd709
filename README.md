# REKREA business manager — a Dafny model of its core

REKREA is a small React/Redux application for a company that places arcade, darts,
pinball and foosball machines in bars and collects their takings. This project models
the parts of it that hold logic, and proves what they promise:

- **the record store** (`MemoryDB`): a dictionary from collection name to an ordered
  array of records keyed by `id`, with `getAll`, `get`, `add`, a merging `put`, and
  `delete`, plus the JSON export and import of the clients collection (`db.dfy`);
- **the backup manager**: the start/stop schedule, one backup cycle (snapshot, then
  retention of the five newest), and restore (`backup.dfy`);
- **the two Redux slices**, clients and collections: the fetch status machine, the
  cached list kept in step with the store, the `nextId` counter of the clients slice,
  and the two-write `addCollection` step (`slice_common.dfy`, `clients_slice.dfy`,
  `collections_slice.dfy`);
- **the page helpers**: the client form's guards, payloads and field mapping, the
  schedule text, the three search filters, the machine-install guard chain
  (`clients_page.dfy`, `machines_page.dfy`, `collections_page.dfy`), and the status
  badge and serial number generator (`utils.dfy`).

JavaScript values are the datatype `Values.Value`. A record is a `map<string, Value>`,
so the object spread `{...a, ...b}` is the map union `a + b`. A date that the source
writes with `toISOString()` is `Stamp(ms)`, the instant it denotes. A `Blob` holding
an exported document is `Blob(doc)`. `MemoryDB`, the two slice states and the backup
schedule are classes whose methods change their fields. The sort, filter, reduce and
record-building code is written as functions. Each async thunk is modelled as its
store calls followed by the reducer case it dispatches. The clock, `Math.random`,
`generateUniqueId` and the byte size of a `Blob` are parameters.

## Model

| member | source | states |
|---|---|---|
| Db.FindIndex | src/lib/db.ts:61 | the index of the first record whose id is the key, or -1 exactly when no record has it |
| Db.Find | src/lib/db.ts:43-46 | the record at the first position whose id matches, so of several records with the same id the earliest is returned; nothing exactly when no record has the id |
| Db.Upserted | src/lib/db.ts:56-75 | the collection after `put`: same length when the id is present, one longer otherwise; every record other than the first match is unchanged |
| Db.WithoutIds | src/lib/db.ts:77-83 | a record is kept exactly when it was there and its id is not deleted; never longer |
| Db.MemoryDB.constructor | src/lib/db.ts:34-37 | a new store holds the empty `clients` and `backups` collections |
| Db.MemoryDB.GetAll | src/lib/db.ts:39-41 | the collection's own array; an unknown collection reads as empty |
| Db.MemoryDB.Get | src/lib/db.ts:43-46 | the first record whose id equals the key; nothing exactly when no record has it or the collection is unknown |
| Db.MemoryDB.Add | src/lib/db.ts:48-54 | the record is appended at the end and returned; the other entries and collections are unchanged; a missing collection is created; there is no duplicate-key check |
| Db.MemoryDB.Put | src/lib/db.ts:56-75 | the first record with the id is merged with the patch; an absent id falls back to `add`; no other collection changes |
| Db.MemoryDB.Delete | src/lib/db.ts:77-83 | every record with the id is removed; a missing collection is left alone |
| Db.AddThenGet | src/lib/db.ts:43-54 | after `add` of a record with a new id, `get` finds that record |
| Db.PutMergesFirstMatch | src/lib/db.ts:61-70 | `put` on a present id keeps the length and every other position; old fields survive unless the patch names them; patch fields win; `updatedAt` is the clock |
| Db.PutAbsentIsAdd | src/lib/db.ts:71-74 | `put` on an absent id is exactly `add` |
| Db.PutTwice | src/lib/db.ts:65-69 | the same `put` applied twice differs from one application only in `updatedAt` |
| Db.DeleteKeepsOthersInOrder | src/lib/db.ts:82 | after `delete` no record has the id, and every other record is kept in its order |
| Db.DeleteAbsentIsNoOp | src/lib/db.ts:77-83 | deleting an id that no record has changes nothing |
| Db.WithoutIdsTwice | src/lib/db.ts:82 | deleting one set of ids and then another equals deleting both at once |
| Db.BackupSummary | src/lib/db.ts:119-124 | an exported backup keeps only `id`, `metadata` and `createdAt`, never the data |
| Db.ExportDocument | src/lib/db.ts:111-127 | the export holds all clients in order and one summary per backup |
| Db.ExportDBToJSON | src/lib/db.ts:111-127 | the export is the document of the store's current clients and backups |
| Db.DeleteEachClient | src/lib/db.ts:141-144 | deleting each existing client by its id empties the clients collection and touches nothing else |
| Db.DeleteEach | src/lib/backup.ts:79-82 | deleting by each victim's id, one call after the other, leaves the collection without every record carrying one of those ids; no other collection changes |
| Db.AddEachClient | src/lib/db.ts:147-149 | adding the imported clients one by one leaves exactly them, in order |
| Db.ImportDBFromJSON | src/lib/db.ts:133-160 | unparsable input fails with "Error al importar datos desde JSON" before any change; otherwise the clients become the imported array when there is one, unchanged when there is none, and backups are never touched |
| Db.ExportImportRoundTrip | src/lib/db.ts:111-153 | importing an export gives back the exported clients, in order; this holds by definition of the document, and `Db.ExportThenImport` is the round trip on the store |
| Db.ExportThenImport | src/lib/db.ts:111-153 | exporting and then importing into the same store leaves the store unchanged |
| Backup.NewestFirst | src/lib/backup.ts:74-76 | the sort returns a permutation of the backups |
| Backup.NewestFirstSorts | src/lib/backup.ts:74-76 | the sorted backups are newest first |
| Backup.NewestFirstStable | src/lib/backup.ts:74-76 | backups with equal timestamps keep their insertion order (the sort is stable) |
| Backup.NewestFirstDistinct | src/lib/backup.ts:74-76 | sorting keeps ids distinct |
| Backup.AfterCleanup | src/lib/backup.ts:67-87 | cleanup never adds a backup and never lengthens the collection |
| Backup.CleanupSmallIsNoOp | src/lib/backup.ts:72 | at most `MAX_BACKUPS` = 5 backups are left unchanged |
| Backup.CleanupBound | src/lib/backup.ts:72-82 | after cleanup at most 5 backups remain |
| Backup.CleanupKeepsNewestFive | src/lib/backup.ts:72-82 | with distinct ids, exactly the 5 newest remain, newest first |
| Backup.CleanupKeepsOnlyNewest | src/lib/backup.ts:79-82 | every kept backup ranks among the 5 newest |
| Backup.CleanupEvictsOldest | src/lib/backup.ts:73-82 | by rank in the sorted list: every backup ranked past 5 is gone, and none of them is newer than a backup ranked in the top 5 |
| Backup.CleanupKeepsStamped | src/lib/backup.ts:72-82 | cleanup keeps every backup timestamped |
| Backup.CleanupOldBackups | src/lib/backup.ts:67-87 | the backups collection becomes the retained backups, newest first; nothing else changes |
| Backup.BackupRecord | src/lib/backup.ts:41-56 | the new record has exactly the keys id, data, metadata and createdAt: id `backup_<now>`, the export as data, metadata with version "1.0", timestamp `now` and the given size, and createdAt `now` |
| Backup.BackupCycle | src/lib/backup.ts:35-65 | a cycle changes only the backups collection, creating it when missing, and grows it by at most one |
| Backup.PerformBackup | src/lib/backup.ts:35-65 | one record holding the export is added, then retention runs; only the backups collection changes |
| Backup.RetentionBound | src/lib/backup.ts:35-87 | however many backup cycles run, at most 5 backups are retained |
| Backup.AutoBackup.constructor | src/lib/backup.ts:12 | the schedule starts stopped, over the given store |
| Backup.AutoBackup.Start | src/lib/backup.ts:14-26 | a start while running does nothing; otherwise one backup is taken and the schedule runs |
| Backup.AutoBackup.Stop | src/lib/backup.ts:28-33 | stopping clears the running flag, and does nothing when not running |
| Backup.AutoBackup.Tick | src/lib/backup.ts:23-25 | a timer firing runs a backup cycle while the schedule runs; a stopped schedule never fires |
| Backup.RestoreFromBackup | src/lib/backup.ts:89-110 | an unknown id fails with "Backup no encontrado" and changes nothing; a backup whose data is not a blob fails with the TypeError's text (the undefined/null wording when data is absent) and changes nothing; otherwise the backup's document is imported |
| Backup.RestoreBringsBackClients | src/lib/backup.ts:89-102 | restoring a backup that a cycle made brings back the clients of that moment; this holds by definition, since the backup's data is the export document itself |
| SliceCommon.RejectionMessage | src/store/slices/clientsSlice.ts:89 | a missing or empty error message is replaced by the default; any other message is kept |
| SliceCommon.Replaced | src/store/slices/clientsSlice.ts:95-100 | replacing the first cached entry with the payload's id: the length is kept, and nothing else changes |
| SliceCommon.ReplacedKeepsIds | src/store/slices/clientsSlice.ts:95-100 | replacing by id keeps the set of cached ids |
| SliceCommon.ReplacedAbsentIsNoOp | src/store/slices/clientsSlice.ts:96-99 | an id that is not cached leaves the list unchanged |
| SliceCommon.ReplacedAt | src/store/slices/clientsSlice.ts:96-99 | at the first index with the payload's id the entry becomes the payload; every other entry is unchanged |
| SliceCommon.ReplacedIsIndexUpdate | src/store/slices/clientsSlice.ts:96-99 | the replacement equals the reducer's assignment at `findIndex`, and no change when it returns -1 |
| ClientsSlice.MaxIdFrom | src/store/slices/clientsSlice.ts:83-84 | the reduce returns its start value or some cached numeric id, and is at least every numeric id |
| ClientsSlice.FetchedNextIdIsLeastAbove | src/store/slices/clientsSlice.ts:83-85 | after a fetch, `nextId` is above every cached id, at least 1, and the least such value |
| ClientsSlice.NewClient | src/store/slices/clientsSlice.ts:32-37 | a new client gets `id = nextId` and `createdAt = updatedAt = now`, and keeps the form's other fields |
| ClientsSlice.UpdatedClient | src/store/slices/clientsSlice.ts:46-54 | an update payload carries the id and `updatedAt = now`, and keeps the other given fields |
| ClientsSlice.StoredUpdateExtendsCachedOne | src/store/slices/clientsSlice.ts:44-57 | after an update, the stored record and the cached payload agree on every payload field except `updatedAt`, which the payload takes from its own clock reading and the store from `put`'s later one (src/lib/db.ts:67); the store also keeps the old fields the payload lacks |
| ClientsSlice.ClientsState.constructor | src/store/slices/clientsSlice.ts:11-16 | the initial state is idle, with an empty list, no error and `nextId = 1` |
| ClientsSlice.ClientsState.FetchPending | src/store/slices/clientsSlice.ts:76-78 | pending sets `loading` and changes nothing else |
| ClientsSlice.ClientsState.FetchFulfilled | src/store/slices/clientsSlice.ts:79-86 | the status is `succeeded`, the cache is the payload, and `nextId` is one past the highest id (so the counter invariant holds) |
| ClientsSlice.ClientsState.FetchRejected | src/store/slices/clientsSlice.ts:87-90 | the status is `failed` and the error is the message, or "Failed to fetch clients" |
| ClientsSlice.ClientsState.AddFulfilled | src/store/slices/clientsSlice.ts:91-94 | the payload is appended and `nextId = id + 1`; the counter invariant is kept when the payload's id is at least `nextId - 1`, as `AddClient`'s is |
| ClientsSlice.ClientsState.UpdateFulfilled | src/store/slices/clientsSlice.ts:95-100 | the first cached entry with the id becomes the payload; the length, the counter and its invariant are kept |
| ClientsSlice.ClientsState.DeleteFulfilled | src/store/slices/clientsSlice.ts:101-103 | every cached entry with the id is removed, and the rest keep their order |
| ClientsSlice.ClientsState.FetchClients | src/store/slices/clientsSlice.ts:18-22 | a fetch caches the stored clients, sets the status to `succeeded` and the counter past them, and leaves a previous error in place |
| ClientsSlice.ClientsState.AddClient | src/store/slices/clientsSlice.ts:24-42 | the new client gets id `nextId`; it is appended to both the store and the cache; the counter moves up by one; status and error are unchanged |
| ClientsSlice.ClientsState.UpdateClient | src/store/slices/clientsSlice.ts:44-59 | the payload is stamped with the thunk's clock reading; the store merges it, stamped again with `put`'s own reading; the cache replaces the entry with the payload; the counter, status and error are unchanged |
| ClientsSlice.ClientsState.DeleteClient | src/store/slices/clientsSlice.ts:61-68 | the id is removed from the store and from the cache, and a missing clients store is left alone; the counter, status and error are unchanged |
| ClientsSlice.AddClientsInOrder | src/components/ClientsSeeder.tsx:205-215 | adding n clients in turn from the initial state gives ids 1..n and leaves `nextId = n + 1` (11 after the seeder's ten) |
| CollectionsSlice.NewCollection | src/store/slices/collectionsSlice.ts:35-39 | the new collection keeps the input fields, and adds a fresh id and `createdAt = now` |
| CollectionsSlice.UpdatedMachine | src/store/slices/collectionsSlice.ts:42-54 | the machine keeps its other fields; its counter is the reading; `updatedAt = now`; one collection entry is appended to its history |
| CollectionsSlice.OneHistoryEntryAppended | src/store/slices/collectionsSlice.ts:46-53 | the new history is the old one plus exactly one entry, with action "collection" |
| CollectionsSlice.UpsertedIsReplaced | src/lib/db.ts:61-70 | a `put` whose merge gives an id-preserving record stores that record in place of the first match |
| CollectionsSlice.AddCollectionStep | src/store/slices/collectionsSlice.ts:22-63 | a failure leaves the stores as they were; a success returns the new collection record: the input fields, the fresh id and `createdAt = now` |
| CollectionsSlice.AddCollectionAllOrNothing | src/store/slices/collectionsSlice.ts:29-60 | a failure changes no collection; a success appends exactly one collection record, which has exactly the input's keys plus `id` and `createdAt`, every input field's value, the fresh id and `createdAt = now`; no other collection is touched |
| CollectionsSlice.AddCollectionMissingMachine | src/store/slices/collectionsSlice.ts:29-32 | a missing machine fails with "Machine not found" and changes nothing |
| CollectionsSlice.AddCollectionUpdatesMachine | src/store/slices/collectionsSlice.ts:42-59 | on success the first machine with the id shows the reading, the time and one more history entry, and every other machine is unchanged |
| CollectionsSlice.AddCollectionThunk | src/store/slices/collectionsSlice.ts:22-63 | the thunk's result and the store after it are exactly those of the add step: machine lookup, then both writes |
| CollectionsSlice.WriteCollectionAndMachine | src/store/slices/collectionsSlice.ts:56-60 | the two writes together: the collection is appended and the machine replaced |
| CollectionsSlice.UpdatedCollection | src/store/slices/collectionsSlice.ts:76-79 | the update keeps unmentioned fields, overrides mentioned ones, and keeps the id |
| CollectionsSlice.CollectionsState.constructor | src/store/slices/collectionsSlice.ts:11-15 | the initial state is idle, with an empty list and no error |
| CollectionsSlice.CollectionsState.FetchPending | src/store/slices/collectionsSlice.ts:101-103 | pending sets `loading` |
| CollectionsSlice.CollectionsState.FetchFulfilled | src/store/slices/collectionsSlice.ts:104-107 | the status is `succeeded` and the cache is the payload |
| CollectionsSlice.CollectionsState.FetchRejected | src/store/slices/collectionsSlice.ts:108-111 | the status is `failed` and the error is the message, or "Failed to fetch collections" |
| CollectionsSlice.CollectionsState.AddFulfilled | src/store/slices/collectionsSlice.ts:112-114 | the payload is appended |
| CollectionsSlice.CollectionsState.UpdateFulfilled | src/store/slices/collectionsSlice.ts:115-120 | the first cached entry with the id becomes the payload |
| CollectionsSlice.CollectionsState.DeleteFulfilled | src/store/slices/collectionsSlice.ts:121-123 | every cached entry with the id is removed |
| CollectionsSlice.CollectionsState.FetchCollections | src/store/slices/collectionsSlice.ts:17-20 | a fetch caches the stored collections, sets the status to `succeeded`, and leaves a previous error in place |
| CollectionsSlice.CollectionsState.AddCollection | src/store/slices/collectionsSlice.ts:22-64 | the store changes exactly as the add step describes, and a success, and only a success, is appended to the cache; status and error are unchanged |
| CollectionsSlice.CollectionsState.UpdateCollection | src/store/slices/collectionsSlice.ts:66-84 | an unknown id fails with "Collection not found" and changes nothing; otherwise the merged record is stored in place and the update is cached; status and error are unchanged |
| CollectionsSlice.CollectionsState.DeleteCollection | src/store/slices/collectionsSlice.ts:86-93 | the id is removed from the store and from the cache; status and error are unchanged |
| ClientsPage.Validate | src/pages/ClientsPage.tsx:60-87 | a form passes exactly when opening and closing times are set and the two midday times are both set or both empty; a missing opening time is reported first, and a missing closing time next, before an incomplete split schedule |
| ClientsPage.EmptyFormRejected | src/pages/ClientsPage.tsx:22-67 | submitting the untouched form stops at the missing opening time |
| ClientsPage.Submit | src/pages/ClientsPage.tsx:56-108 | a failed guard dispatches nothing; an edit sends the editing client's id and machines; a new client is sent with `machines = 0`; the form's other fields are passed on, and the payload has exactly the form's keys plus `machines` (and `id` for an edit) |
| ClientsPage.SplitGuard | src/pages/ClientsPage.tsx:79-87 | with both outer times set, the split-schedule guard passes exactly when both middle times are filled or both are empty |
| ClientsPage.EditForm | src/pages/ClientsPage.tsx:174-194 | the form shows the client's sixteen fields; a missing midday close, evening open or notes becomes "" |
| ClientsPage.EditThenSubmit | src/pages/ClientsPage.tsx:174-194 | submitting an unchanged edit form sends back the client's id, machines and schedule |
| ClientsPage.FormatSchedule | src/pages/ClientsPage.tsx:197-210 | a non-empty schedule has an opening time; with a midday close it starts `open-close` |
| ClientsPage.FormatScheduleCases | src/pages/ClientsPage.tsx:197-210 | a continuous day is exactly `open-close`; a day with a midday close is exactly `mo-mc`, followed by ` y eo-ec` only when both evening times are set |
| ClientsPage.MorningOnlySplitDay | src/pages/ClientsPage.tsx:197-210 | a client with times 08:00, 16:00, empty evening opening and 20:00, as the seeder's second client has, shows exactly "08:00-16:00" |
| ClientsPage.FormatScheduleEmpty | src/pages/ClientsPage.tsx:197-210 | the schedule text is empty exactly when neither the continuous case nor the split case applies |
| ClientsPage.AcceptedScheduleFormats | src/pages/ClientsPage.tsx:197-210 | every schedule the form accepts is written `open-close` when continuous and `mo-mc y eo-ec` when split |
| ClientsPage.FilterClients | src/pages/ClientsPage.tsx:212-216 | a client is kept exactly when its name or address contains the term (ignoring case) or its phone contains it |
| ClientsPage.FilterClientsOrder | src/pages/ClientsPage.tsx:212-216 | the filter keeps the order, and an empty term keeps every client |
| MachinesPage.FilterMachines | src/pages/MachinesPage.tsx:62-66 | a machine is kept exactly when its serial number, model or brand contains the term, ignoring case |
| MachinesPage.FilterMachinesOrder | src/pages/MachinesPage.tsx:62-66 | the filter keeps the order, and an empty term keeps every machine |
| MachinesPage.NewMachine | src/pages/MachinesPage.tsx:71-77 | a new machine is in the warehouse, with `initialCounter = 0`, `splitPercentage = 50` and the parsed cost |
| MachinesPage.NewMachineOffersInstallation | src/pages/MachinesPage.tsx:536-558 | a newly created machine is offered "Instalación" |
| MachinesPage.HandleInstall | src/pages/MachinesPage.tsx:102-157 | an install is dispatched only when every guard passes; the request accepts responsibility and carries the ids, the clock and the form's responsible name and id, installation date, location, observations and technician |
| MachinesPage.InstallGuardOrder | src/pages/MachinesPage.tsx:105-140 | each error means every earlier guard passed and this one failed: nothing selected (client 0 counts as none), then terms not accepted, then location or technician empty, then machine not listed |
| MachinesPage.InstallCarriesMachineCounter | src/pages/MachinesPage.tsx:132-154 | the request's counter is the `currentCounter` of the first listed machine with the selected id |
| MachinesPage.ActionLabel | src/pages/MachinesPage.tsx:536-558 | "Instalación" exactly for a machine in the warehouse, "Traslado" for any other |
| CollectionsPage.FilterCollections | src/pages/CollectionsPage.tsx:22-26 | a row is kept exactly when its client, technician or id contains the term, ignoring case; the result is never longer than the input |
| CollectionsPage.FilterCollectionsOrder | src/pages/CollectionsPage.tsx:19-26 | the result keeps the rows' order, and an empty term keeps every row |
| CollectionsPage.InitialSearchShowsAllRows | src/pages/CollectionsPage.tsx:9-26 | the page opens with an empty term, which shows all five rows |
| CollectionsPage.FilterCollectionsNarrows | src/pages/CollectionsPage.tsx:22-26 | typing more of a term only narrows the result |
| Utils.GetStatusConfig | src/lib/utils.ts:13-32 | the badge uses one of the three classes, and its label is "Activa", "Inactiva" or the status as written; StatusConfigClasses says which status gets which |
| Utils.StatusConfigClasses | src/lib/utils.ts:13-32 | 'active'/'activa' in any letter case gives the success class; 'inactive'/'inactiva' gives the destructive class; anything else gives the muted class and is shown as written; the first two get exactly the label "Activa" and "Inactiva" |
| Utils.StatusConfigIgnoresCase | src/lib/utils.ts:14 | statuses that differ only in letter case get the same class |
| Utils.StatusConfigIdempotent | src/lib/utils.ts:13-32 | applying the badge to its own label gives the same label |
| Utils.SerialPrefix | src/lib/utils.ts:36 | the prefix is the first two characters (or fewer) of the upper-cased type |
| Utils.RandomPartDigits | src/lib/utils.ts:38 | the random part is always exactly three digits and reads back as the draw |
| Utils.LastDigits | src/lib/utils.ts:37 | `Date.now().toString().slice(-6)` is one to six digits denoting the clock modulo one million |
| Utils.GenerateSerialNumber | src/lib/utils.ts:35-40 | the serial is between 6 and 13 characters long |
| Utils.SerialNumberShape | src/lib/utils.ts:35-40 | the serial is the type's prefix, "-", the clock's last six (or fewer) digits, which denote the clock modulo one million, "-", then three digits that read back as the draw |
| Text.Contains | src/pages/ClientsPage.tsx:213 | `includes` finds a prefix, and never a term longer than the text |
| Text.Lower | src/pages/ClientsPage.tsx:213 | `toLowerCase` keeps the length, turns each ASCII capital into its small letter and keeps every other character |
| Text.Upper | src/lib/utils.ts:36 | `toUpperCase` keeps the length, turns each ASCII small letter into its capital and keeps every other character |
| Text.ContainsAt | src/pages/ClientsPage.tsx:213 | `includes` holds exactly when the term occurs at some offset |
| Text.OccurrenceIsFound | src/pages/ClientsPage.tsx:213 | a term occurring at some offset is found by `includes` |
| Text.FoundIsOccurrence | src/pages/ClientsPage.tsx:213 | `includes` succeeds only where the term occurs at some offset |
| Text.NatToStringRoundTrip | src/lib/utils.ts:37-38 | a number's decimal text reads back as the number |

## Left out

- Rendering, dialogs, toasts, `window.confirm` and React hooks. `App.tsx` and `store/index.ts` only wire things together and are not modelled. `MachineQRCode.tsx` encodes a payload for a QR library and is not part of this model.
- The seeder's button handler is not modelled. Its ten sequential adds are covered by `ClientsSlice.AddClientsInOrder`; the seeder's failure counting is left out.
- Timers: the one-hour `BACKUP_INTERVAL` is not modelled; `setInterval`/`clearInterval` become the `running` flag and an explicit `Tick`. `downloadBackup` (DOM and URL handling) is left out.
- Clocks and randomness are parameters: `Date.now`, `toISOString`, `Math.random` (its floored draw) and `generateUniqueId` (a fresh id string).
- Backup.PerformBackup: one clock reading stands for the separate `Date.now()` and `new Date()` calls. The Blob's byte size is a parameter. Errors are not modelled because nothing in the model can fail.
- Backup.CleanupOldBackups: when some backup has no date timestamp, the model leaves the collection unchanged. In JavaScript the comparator would then throw, which the function's catch swallows, or it would return NaN, which makes the sort order implementation-defined.
- Backup.RestoreFromBackup: the Blob's `text()` is read directly as the stored document. A backup whose `data` is set but is not a blob fails with "backup.data.text is not a function"; one whose `data` is undefined or null fails with the engine's "Cannot read properties of undefined (reading 'text')" (or null). Both texts are those of the V8 engine; other engines word them differently. The program's own writes never store such a backup.
- Db.ImportDBFromJSON: JSON text and its syntax are not modelled. The input is already parsed into a document, or it is malformed. The document carries the client records and the backup summaries as values, so `Db.ExportThenImport` and `Db.BackupSummary` keep fields whose value is `undefined` (a client field, or a backup's `id`, `metadata` or `createdAt`); `JSON.stringify` (src/lib/db.ts:126) would drop those keys, and the re-read record would lack them.
- Aliasing: `getAll` returns the store's own array (src/lib/db.ts:39-41), and `fetchClients.fulfilled` caches that very array in the Redux state (src/store/slices/clientsSlice.ts:81); `fetchCollections.fulfilled` does the same once a `collections` store exists (src/store/slices/collectionsSlice.ts:106). The model copies values, so it does not capture what follows. Redux Toolkit runs reducers under Immer, which by default deep-freezes values placed into the state. Once the startup `fetchClients` (src/store/index.ts:26) has cached the array, the `push` in `add` (db.ts:52) and the indexed write in `put` (db.ts:65) on that same array would throw a TypeError. ClientsSlice.ClientsState.AddClient and ClientsSlice.ClientsState.UpdateClient would then be rejected, as would CollectionsSlice.CollectionsState.UpdateCollection after a fetch of an existing collections store, until a `delete` (db.ts:82) replaces the array with a fresh one. The model lets these writes succeed. This reading of Immer's default, a library outside this repository, was not executed. The in-place sort of the backups array is modelled by writing the sorted array back.
- Concurrency: two overlapping thunks (for example, two `addClient` calls reading the same `nextId`, or a `startAutoBackup` racing itself before the interval is set) are not modelled; steps run one after another.
- CollectionsSlice.CollectionsState.AddCollection: `db.transaction` is not a method of `MemoryDB` (src/lib/db.ts:24-30, 33-84). The model treats the two writes as one atomic step, as the source's comment intends. A machine whose `history` is not an array fails with a TypeError before either write, and a string `history` (which JavaScript would spread into characters) is treated the same way. The machine type and `machinesSlice` are not part of this model.
- ClientsSlice.MaxIdFrom: only numeric ids compare greater. JavaScript would coerce a numeric string id in `client.id > max`.
- ClientsSlice.ClientsState.AddFulfilled: requires the payload's id to be a number, as the `Client` type declares it.
- ClientsPage.FilterClients, MachinesPage.FilterMachines: require the searched fields to be strings, as the record types declare them. A missing field would make `toLowerCase` throw.
- Case mapping (`toLowerCase`, `toUpperCase`) is ASCII only; Unicode case mapping is not modelled.
- `parseFloat(cost)` is a parameter of `MachinesPage.NewMachine`. Intl date and currency formatting on the collections page is left out.
- `Values.Show` writes dates, arrays, objects and blobs as placeholders, and there is no NaN or floating point.
