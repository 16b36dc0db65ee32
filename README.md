# Kiwix library catalog refresh, modelled in Dafny

This project models the catalog-refresh core of the Kiwix reader's library:

- the `ZimFile` record: its fields and defaults, the string-backed `State` and `Category` enums, the
  `state`/`category` accessors, and `id` as the primary key;
- the two historical `updateZimFile` projections from a catalog entry's metadata onto a record. The current one
  keeps absent counts absent. The pre-version-2 one writes 0 for them;
- the schema migration from versions below 2 to version 2;
- `OPDSRefreshOperation`:
  - `processData` reconciles a parsed catalog into the stored records inside one write transaction;
  - `main` classifies errors and handles the first-refresh language filter and the last-refresh time;
- the bookkeeping of `LibraryOperationQueue.addOperation`.

Files and modules:

- `zim_file.dfy` (`ZimFiles`): the record, its enums and accessors, and the pre-version-2 record shape.
- `catalog.dfy` (`Catalog`): what the OPDS parser yields, taken as input.
- `library_operation_base.dfy` (`LibraryOperationBase`): the current `updateZimFile`.
- `library_base_operation.dfy` (`LibraryBaseOperation`): the old `updateZimFile`, and how its records
  compare with the current projection once migrated.
- `realm_config.dfy` (`RealmConfig`): the migration block and its version gate.
- `database.dfy` (`Database`): the store, a `Realm` object holding `objects: map<string, ZimFile>`.
- `opds_refresh_operation.dfy` (`OPDSRefresh`):
  - the reconciliation as specification functions (`Reconciled`, `PassHasUpdates`) and lemmas about them;
  - the `OPDSRefreshOperation` class, whose loops are proved against those functions.
- `library_operation_queue.dfy` (`LibraryQueue`): the queue's last-refresh bookkeeping.
- `wrappers.dfy` (`Wrappers`): `Option`, for Swift's optionals.

A reconciliation pass does four things:

1. It deletes every record whose raw state is `"cloud"` and whose id is not in the catalog.
2. For each catalog id with a readable entry, it re-projects the existing record when `updateExisting` is set.
   It inserts a new `cloud` record when there is none.
3. It sets `hasUpdates` on each deletion and insertion.
4. A failure of the transaction is thrown as `.process` and leaves the store as it was.

`hasUpdates` is not rolled back with a failed commit.

Notes on what the code does:

- Existing listed records are re-projected whatever their state, downloaded or local ones included. The local
  lifecycle fields (`stateRaw`, `includeInSearch`, the bookmark, `faviconData` and the `download*` fields) are
  left untouched.
- An absent `creationDate` is stamped with the current time on every update, including updates of existing
  records.
- The flag is `updateExisting`: when true, existing records are updated. The operation's only initializer sets it
  to true.
- The queue only sets `maxConcurrentOperationCount = 1`. Execution order is `OperationQueue`'s and is not modelled.

## Model

| member | source | states |
|---|---|---|
| `ZimFiles.StateFromRaw` | Model/Realm/ZimFile.swift:144-146 | decoding a raw state gives the case with that raw value, or nothing when no case has it |
| `ZimFiles.StateRawRoundTrip` | Model/Realm/ZimFile.swift:144-146 | decoding the raw value of a state gives that state back |
| `ZimFiles.CategoryFromRaw` | Model/Realm/ZimFile.swift:148-162 | decoding a raw category gives the case with that raw value (`stack_exchange` for `stackExchange`, names otherwise), or nothing |
| `ZimFiles.CategoryRawRoundTrip` | Model/Realm/ZimFile.swift:148-162 | decoding the raw value of a category gives that category back |
| `ZimFiles.StateAndCategoryRawValuesDisjoint` | Model/Realm/ZimFile.swift:144-162 | no string is the raw value of both a state and a category |
| `ZimFiles.NewZimFile` | Model/Realm/ZimFile.swift:20-51 | a fresh record is `cloud`, category `other`, included in search, with 0 bytes written, absent optional counts and every other field at its default |
| `ZimFiles.GetState` | Model/Realm/ZimFile.swift:88 | `state` is the decoded `stateRaw`, and `cloud` for a string that is no state |
| `ZimFiles.SetState` | Model/Realm/ZimFile.swift:89 | setting `state` writes the state's raw value into `stateRaw` and changes nothing else |
| `ZimFiles.StateSetThenGet` | Model/Realm/ZimFile.swift:87-90 | reading `state` after setting it returns the value set |
| `ZimFiles.GetCategory` | Model/Realm/ZimFile.swift:93 | as written, `category` is `stateRaw` decoded as a category, and `other` for any other string |
| `ZimFiles.SetCategory` | Model/Realm/ZimFile.swift:94 | setting `category` writes its raw value into `categoryRaw` and changes nothing else |
| `ZimFiles.CategoryGetterIgnoresSetter` | Model/Realm/ZimFile.swift:92-95 | whenever `stateRaw` holds a valid state, `category` reads `other` whatever was set |
| `ZimFiles.CategoryOf` | Model/Realm/ZimFile.swift:92-95 | the intended getter: `categoryRaw` decoded, `other` for an unknown string |
| `ZimFiles.CategorySetThenGet` | Model/Realm/ZimFile.swift:92-95 | with the intended getter, reading `category` after setting it returns the value set |
| `Database.Realm.constructor` | Model/Realm/ZimFile.swift:112-114 | the store holds each record under its own `id` (one record per primary key) |
| `Catalog.ZimFileIDSet` | Model/LibraryOperations/OPDSRefreshOperation.swift:92 | the catalog id set holds exactly the ids listed, duplicates collapsed |
| `Catalog.GetZimFileMetaData` | Model/LibraryOperations/OPDSRefreshOperation.swift:105 | the lookup yields the entry filed under the id, or nothing for an unreadable entry |
| `LibraryOperationBase.UpdateZimFile` | Model/LibraryOperations/LibraryOperationBase.swift:28-48 | identity and local lifecycle fields are untouched; names, texts, category and flags are copied verbatim; absent creator/publisher become `""` and an absent date becomes `now`; both URLs come from the download URL; optional counts stay optional |
| `LibraryOperationBase.UpdateForgetsPreviousValues` | Model/LibraryOperations/LibraryOperationBase.swift:28-48 | after an update the remote-owned fields depend only on the metadata and the time |
| `LibraryOperationBase.UpdateIdempotent` | Model/LibraryOperations/LibraryOperationBase.swift:28-48 | updating twice from the same metadata at the same time is updating once |
| `LibraryOperationBase.UpdateCommutesWithSetState` | Model/LibraryOperations/LibraryOperationBase.swift:28-48 | the update never changes `state`, so it commutes with the `state` setter |
| `LibraryBaseOperation.UpdateLegacyZimFile` | Model/LibraryOperations/LibraryBaseOperation.swift:10-29 | the old projection sets `id`, `pid`, `bookDescription` and `remoteURL` from the metadata, coerces absent counts to 0, defaults creator/publisher to `""`, the date to `now` and the icon to empty data; it writes only `hasPicture` among the flags and no state or download field |
| `LibraryBaseOperation.LegacyCountsConflateAbsentAndZero` | Model/LibraryOperations/LibraryBaseOperation.swift:20-22 | entries differing only in an absent versus a 0 size give the same old record but different current records |
| `LibraryBaseOperation.MigratedLegacyAgreesWithCurrent` | Model/Realm/RealmConfig.swift:32-42 | an old-projection record, migrated as written from the object Realm prepares, agrees with the current projection on the texts, creator, publisher, date, pictures flag, the counts the entry has and the category (renamed), and holds the entry's favicon |
| `LibraryBaseOperation.CorrectedMigrationAgreesWithCurrent` | Model/Realm/ZimFile.swift:67-75 | with the renames `fileSize -> size` and `remoteURL -> downloadURL` the old definition records, a migrated old-projection record also agrees with the current projection on the download URL and on a size the entry has |
| `RealmConfig.MigrationObjectOf` | Model/Realm/ZimFile.swift:53-83 | a record of the old definition exposes `pid` (possibly absent) and its other read properties to the migration |
| `RealmConfig.PreparedObject` | Model/Realm/ZimFile.swift:20-83 | the object Realm prepares for a record of the old definition carries every same-named property over (values of properties that became optional kept) and leaves every new or renamed property at its default |
| `RealmConfig.RenameCategory` | Model/Realm/RealmConfig.swift:38-41 | `stackExchange` becomes `stack_exchange`, `ted` becomes `other`, every other value is kept, and no output is renamed again |
| `RealmConfig.RenameCategoryIdempotent` | Model/Realm/RealmConfig.swift:39-40 | applying the rename to its own output changes nothing |
| `RealmConfig.MigrateZimFile` | Model/Realm/RealmConfig.swift:32-42 | `name` takes `pid` or `""`; `fileDescription` takes `bookDescription` or `""`; `hasPictures`/`hasIndex` take `hasPicture`/`hasEmbeddedIndex` or false; `faviconData` takes `icon`; the category is renamed; nothing else changes |
| `RealmConfig.MigratedCategoryIsRenamed` | Model/Realm/RealmConfig.swift:38-41 | when the old category was carried over, the migrated category is its renamed value |
| `RealmConfig.MigrateZimFileIdempotent` | Model/Realm/RealmConfig.swift:33-41 | migrating a migrated record again changes nothing |
| `RealmConfig.MigrationDropsDownloadURLAndSize` | Model/Realm/RealmConfig.swift:32-42 | as written, a migrated record has no download URL and no size, whatever `remoteURL` and `fileSize` held |
| `RealmConfig.MigrateLegacyZimFile` | Model/Realm/ZimFile.swift:67-75 | the intended migration is the block's transform plus `downloadURL` taken from `remoteURL` and `size` from `fileSize`, and differs from the block in nothing else |
| `RealmConfig.MigrationKeepsEveryOldProperty` | Model/Realm/ZimFile.swift:53-83 | with the two renames, every property of the old definition survives under its new name; only the category goes through the rename table |
| `RealmConfig.MigrationBlock` | Model/Realm/RealmConfig.swift:28-45 | below schema version 2 every stored object is migrated; at version 2 every record is kept as it is |
| `OPDSRefresh.NewCloudZimFile` | Model/LibraryOperations/OPDSRefreshOperation.swift:108-114 | an inserted record has the entry's identifier, state `cloud`, the entry's projected fields and every local field (`includeInSearch`, bookmark, favicon data, download fields) at its default |
| `OPDSRefresh.ReconciledKeys` | Model/LibraryOperations/OPDSRefreshOperation.swift:94-117 | after a pass the ids are exactly the kept ones plus the inserted ones |
| `OPDSRefresh.NonCloudRecordsSurvive` | Model/LibraryOperations/OPDSRefreshOperation.swift:96-107 | a record that is not `cloud` survives whether or not it is listed, with its local fields untouched; it is re-projected exactly when `updateExisting` and it has a readable entry |
| `OPDSRefresh.StaleCloudRecordsDeleted` | Model/LibraryOperations/OPDSRefreshOperation.swift:96-101 | a `cloud` record not in the catalog is deleted and the pass reports updates |
| `OPDSRefresh.NewEntriesInsertedAsCloud` | Model/LibraryOperations/OPDSRefreshOperation.swift:108-114 | a listed readable id with no record gains a `cloud` record with `id = meta.identifier` and the projected fields, and the pass reports updates |
| `OPDSRefresh.UnreadableEntriesSkipped` | Model/LibraryOperations/OPDSRefreshOperation.swift:105 | a listed id with no readable entry is neither inserted nor updated |
| `OPDSRefresh.ExistingRecordsUpdatedOnlyIfAsked` | Model/LibraryOperations/OPDSRefreshOperation.swift:106-107 | an existing listed record is re-projected if and only if `updateExisting` |
| `OPDSRefresh.HasUpdatesIffIdsChange` | Model/LibraryOperations/OPDSRefreshOperation.swift:96-116 | a pass reports updates exactly when it deletes or inserts a record; updates of existing records never count |
| `OPDSRefresh.FirstPassIntoEmptyStore` | Model/LibraryOperations/OPDSRefreshOperation.swift:104-116 | into an empty store a pass inserts exactly the listed readable ids, all `cloud`, and reports updates exactly when it inserted one |
| `OPDSRefresh.UnrecognisedStateSurvives` | Model/LibraryOperations/OPDSRefreshOperation.swift:96-97 | a record whose `stateRaw` is no state reads as `cloud` yet is never deleted, since deletion compares the raw string |
| `OPDSRefresh.ReconciledKeyedByPrimaryKey` | Model/LibraryOperations/OPDSRefreshOperation.swift:106-113 | a pass keeps every record under its own id |
| `OPDSRefresh.SecondPassIsQuiet` | Model/LibraryOperations/OPDSRefreshOperation.swift:96-116 | a second pass with the same catalog and time changes nothing and reports no updates |
| `OPDSRefresh.ThrownFrom` | Model/LibraryOperations/OPDSRefreshOperation.swift:30-33 | a failed fetch throws `.retrieve` with its description; a failed write throws `.process`; nothing is thrown exactly when fetch, parse and write all succeed |
| `OPDSRefresh.OPDSRefreshOperation.constructor` | Model/LibraryOperations/OPDSRefreshOperation.swift:15-23 | a new operation updates existing records, has no updates and no error |
| `OPDSRefresh.OPDSRefreshOperation.ProcessData` | Model/LibraryOperations/OPDSRefreshOperation.swift:90-121 | on success the store becomes the reconciled store; any failure throws `.process` and leaves the store unchanged; `hasUpdates` records the pass's deletions and insertions unless the database could not be opened |
| `OPDSRefresh.OPDSRefreshOperation.RemoveStale` | Model/LibraryOperations/OPDSRefreshOperation.swift:96-101 | every stale `cloud` record is deleted, each deletion setting `hasUpdates` |
| `OPDSRefresh.OPDSRefreshOperation.Upsert` | Model/LibraryOperations/OPDSRefreshOperation.swift:104-116 | each listed readable id is updated (when asked) or inserted as `cloud`; each insertion sets `hasUpdates` |
| `OPDSRefresh.OPDSRefreshOperation.Execute` | Model/LibraryOperations/OPDSRefreshOperation.swift:25-53 | an `OPDSRefreshError` is recorded in `error`, any other failure leaves `error` as it was; on success the filter becomes `[localeCode]` only if there was no last-refresh time, which is then set to `now` |
| `LibraryQueue.LastRefresh` | Model/LibraryOperations/LibraryOperationBase.swift:18-23 | there is a last refresh exactly when some submitted operation is a refresh |
| `LibraryQueue.LastRefreshIsLatest` | Model/LibraryOperations/LibraryOperationBase.swift:18-23 | the last refresh is a submitted refresh after which no other refresh was submitted |
| `LibraryQueue.LibraryOperationQueue.constructor` | Model/LibraryOperations/LibraryOperationBase.swift:13-16 | the queue runs at most one operation at a time and has no last refresh |
| `LibraryQueue.LibraryOperationQueue.AddOperation` | Model/LibraryOperations/LibraryOperationBase.swift:18-23 | submitting a refresh makes it the last refresh; any other operation leaves the reference unchanged |

## Left out

- `fetchData` (both refresh files) is network I/O: an HTTP request with a 30-second timeout, a cache policy, a
  semaphore and progress reporting. Its result is the input `FetchResult`, either data or `.retrieve(description)`.
- Model/OPDS/OPDSRefreshOperation.swift, an earlier variant that only fetches and parses, is not part of this model.
- The OPDS parser itself (native XML parsing behind Model/OPDS/OPDSStreamParser.swift) is not part of this model. Its output is the input `ParsedCatalog`: the listed
  ids and the readable entries by id. The model requires each entry to carry its own id as `identifier`
  (`WellKeyed`). The source looks a record up by the listed id but stores a new one under `meta.identifier`.
  With a mismatch, `database.add` raises when `meta.identifier` is already a stored key or is shared by two listed
  ids. Otherwise the record is stored outside the catalog id set. The next pass then deletes it as a stale `cloud`
  record and inserts it again, so every pass reports updates. That path is not modelled.
- Ids and raw values are compared as sequences of code points. Swift's `String` equality, and so
  `Set(parser.zimFileIDs)`, treat canonically equivalent strings as equal, while Realm's primary-key lookup and
  the deletion predicate compare the stored text. Unicode canonical equivalence is not modelled. So for two
  listed ids that differ only in normalisation, the model inserts two records where the program keeps one id.
- `OPDSRefresh.OPDSRefreshOperation.ProcessData`: persistence failures are an input (`WriteFault`). Opening the
  database may fail, or committing the write may fail. Which storage errors cause them is not modelled.
- Records are values in a map. Realm's managed objects, updated in place and possibly aliased elsewhere, are not
  captured. An update is a map assignment of the re-projected record. The `state`/`category` setters are functions
  returning the updated record.
- `Date()` is the parameter `now`, one value per pass. The source reads the clock on every `updateZimFile` call.
  Dates are whole seconds, not Foundation's floating-point `Date`.
- `Locale.current.languageCode` and the `Defaults` store (SwiftyUserDefaults) are injected. They are an optional
  language-code parameter and a `Defaults` object with the two keys the refresh uses.
- `os_log` logging is left out.
- Counts arrive as `int64`. The `int64Value` conversion of the metadata's numbers is not modelled.
- `RealmConfig.PreparedObject` takes Realm's automatic migration as described: same-named properties are copied,
  and a property that only became optional keeps its value. Realm's own migration code is not part of this model.
- `RealmConfig.MigrationBlock` takes each stored object as a pair of what the block reads and the object Realm
  prepared. It keeps to the block as written, so it does not perform the two renames (see Findings).
- The database file move and `resetDatabase` are filesystem work.
- `indexedProperties` only affects query speed.
- The size, date and count descriptions and `NumberAbbrevationFormatter` are floating-point and formatter code.
  `isInDocumentDirectory` is filesystem work. `Category.description` and `icon` are localisation and images.
- `LibraryOperationQueue`: operations are not run. Serial execution, submission order and the weak reference's
  lifetime are concurrency and memory management. Only the last-refresh bookkeeping and the concurrency limit are
  modelled.
- The UI controllers and iOS/AppDelegate.swift (app lifecycle, background fetch) are not part of this model.

## Findings

| source | as written | input that shows it | evidently intended | confidence | as-written member | corrected member |
|---|---|---|---|---|---|---|
| Model/Realm/ZimFile.swift:93 | the `category` getter decodes `stateRaw` | a fresh record (`stateRaw = "cloud"`) whose category is set to `wikipedia` reads `category == .other` | decode `categoryRaw`, the field the setter writes | high; not executed | `ZimFiles.CategoryGetterIgnoresSetter` | `ZimFiles.CategorySetThenGet` |
| Model/Realm/RealmConfig.swift:32-42 | the block renames five properties, but not `remoteURL -> downloadURL` or `fileSize -> size`, which the old definition at Model/Realm/ZimFile.swift:67 and :75 records as renames, and nothing else copies them | a record stored before schema version 2 with `remoteURL = "https://download.kiwix.org/zim/a.zim"` and `fileSize = 1000` migrates to `downloadURL == nil` and `size == nil` | declare the two renames (`renameProperty`) so both values carry over; a later refresh re-projects them only for records still in the catalog | medium; not executed | `RealmConfig.MigrationDropsDownloadURLAndSize` | `RealmConfig.MigrationKeepsEveryOldProperty` |
