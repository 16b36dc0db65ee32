/**
 * The catalog refresh (Model/LibraryOperations/OPDSRefreshOperation.swift): reconciling a parsed catalog into
 * the stored records inside one write transaction (`processData`), and the bookkeeping of `main` around it:
 * error classification, the first-refresh language filter and the last-refresh time.
 */
module OPDSRefresh {
  import opened Wrappers
  import opened ZimFiles
  import opened Catalog
  import opened LibraryOperationBase
  import opened Database

  datatype OPDSRefreshError = Retrieve(localizedDescription: string) | Parse | Process

  type Store = map<string, ZimFile>

  // ---------------------------------------------------------------------------------------------
  // What one reconciliation pass does to the store

  /** The records the delete predicate selects: `cloud` records whose id is not in the catalog. */
  function StaleIDs(store: Store, ids: set<string>): set<string> {
    set k | k in store && k !in ids && store[k].stateRaw == StateRawValue(Cloud)
  }

  /** The catalog ids that get a new record: readable entries with no record yet. */
  function InsertedIDs(store: Store, ids: set<string>, entries: map<string, ZimFileMetaData>): set<string> {
    set id | id in ids && id in entries && id !in store
  }

  /** The record inserted for a catalog entry that has none: defaults, then the projection, then `cloud`. */
  function NewCloudZimFile(meta: ZimFileMetaData, now: Date): (z: ZimFile)
    ensures z.id == meta.identifier && GetState(z) == Cloud && z.stateRaw == StateRawValue(Cloud)
    ensures SameRemoteFields(z, UpdateZimFile(NewZimFile(), meta, now))
    ensures SameLocalFields(z, NewZimFile().(id := meta.identifier))
  {
    StateSetThenGet(UpdateZimFile(NewZimFile().(id := meta.identifier), meta, now), Cloud);
    SetState(UpdateZimFile(NewZimFile().(id := meta.identifier), meta, now), Cloud)
  }

  /**
   * The store after the upsert loop has handled the ids in `done`: every record is kept, re-projected when
   * `updateExisting` and its id was handled with a readable entry; each handled readable id without a record
   * gains a new `cloud` record.
   */
  function Upserted(store: Store, done: set<string>, entries: map<string, ZimFileMetaData>, updateExisting: bool, now: Date): Store {
    map k | k in store.Keys + InsertedIDs(store, done, entries) ::
      if k in store then
        if updateExisting && k in done && k in entries then UpdateZimFile(store[k], entries[k], now) else store[k]
      else NewCloudZimFile(entries[k], now)
  }

  /** The store after a successful pass: stale records deleted, then every catalog id upserted. */
  function Reconciled(store: Store, parser: ParsedCatalog, updateExisting: bool, now: Date): Store {
    var ids := ZimFileIDSet(parser);
    Upserted(store - StaleIDs(store, ids), ids, parser.entries, updateExisting, now)
  }

  /** Whether the pass deletes or inserts at least one record. */
  function PassHasUpdates(store: Store, parser: ParsedCatalog): bool {
    var ids := ZimFileIDSet(parser);
    StaleIDs(store, ids) != {} || InsertedIDs(store, ids, parser.entries) != {}
  }

  // ---------------------------------------------------------------------------------------------
  // Properties of a pass

  /** The ids after a pass: the kept ones and the inserted ones, nothing else. */
  lemma {:induction false} ReconciledKeys(store: Store, parser: ParsedCatalog, updateExisting: bool, now: Date)
    ensures
      var ids := ZimFileIDSet(parser);
      Reconciled(store, parser, updateExisting, now).Keys
      == (store.Keys - StaleIDs(store, ids)) + InsertedIDs(store, ids, parser.entries)
  {
    var ids := ZimFileIDSet(parser);
    var pruned := store - StaleIDs(store, ids);
    assert InsertedIDs(pruned, ids, parser.entries) == InsertedIDs(store, ids, parser.entries);
  }

  /**
   * A record that is not `cloud` survives the pass whether or not the catalog lists it. Its local lifecycle
   * fields are untouched; it is re-projected exactly when `updateExisting` and the catalog has a readable entry
   * for it, and is otherwise unchanged.
   */
  lemma {:induction false} NonCloudRecordsSurvive(store: Store, parser: ParsedCatalog, updateExisting: bool, now: Date, k: string)
    requires k in store && store[k].stateRaw != StateRawValue(Cloud)
    ensures var result := Reconciled(store, parser, updateExisting, now);
      && k in result
      && SameLocalFields(result[k], store[k])
      && result[k] == if updateExisting && k in ZimFileIDSet(parser) && k in parser.entries
                      then UpdateZimFile(store[k], parser.entries[k], now) else store[k]
  {
    var ids := ZimFileIDSet(parser);
    assert k !in StaleIDs(store, ids);
  }

  /** A `cloud` record whose id is not in the catalog is deleted, and the pass reports updates. */
  lemma {:induction false} StaleCloudRecordsDeleted(store: Store, parser: ParsedCatalog, updateExisting: bool, now: Date, k: string)
    requires k in store && store[k].stateRaw == StateRawValue(Cloud) && k !in ZimFileIDSet(parser)
    ensures k !in Reconciled(store, parser, updateExisting, now)
    ensures PassHasUpdates(store, parser)
  {
    var ids := ZimFileIDSet(parser);
    assert k in StaleIDs(store, ids);
    ReconciledKeys(store, parser, updateExisting, now);
  }

  /**
   * A catalog id with a readable entry and no record gains a record carrying the entry's identifier, in state
   * `cloud`, with the entry's projected fields; the pass reports updates.
   */
  lemma {:induction false} NewEntriesInsertedAsCloud(store: Store, parser: ParsedCatalog, updateExisting: bool, now: Date, id: string)
    requires WellKeyed(parser)
    requires id in ZimFileIDSet(parser) && id in parser.entries && id !in store
    ensures var result := Reconciled(store, parser, updateExisting, now);
      && id in result
      && result[id].id == parser.entries[id].identifier == id
      && GetState(result[id]) == Cloud
      && SameRemoteFields(result[id], UpdateZimFile(NewZimFile(), parser.entries[id], now))
    ensures PassHasUpdates(store, parser)
  {
    var ids := ZimFileIDSet(parser);
    assert id in InsertedIDs(store, ids, parser.entries);
    ReconciledKeys(store, parser, updateExisting, now);
  }

  /** A catalog id whose entry could not be read is skipped: its record, if any, is left as it was. */
  lemma {:induction false} UnreadableEntriesSkipped(store: Store, parser: ParsedCatalog, updateExisting: bool, now: Date, id: string)
    requires id in ZimFileIDSet(parser) && id !in parser.entries
    ensures var result := Reconciled(store, parser, updateExisting, now);
      && (id in result <==> id in store)
      && (id in store ==> result[id] == store[id])
  {
    var ids := ZimFileIDSet(parser);
    assert id !in StaleIDs(store, ids);
    assert id !in InsertedIDs(store, ids, parser.entries);
    ReconciledKeys(store, parser, updateExisting, now);
  }

  /** An existing record listed with a readable entry is re-projected only when `updateExisting`. */
  lemma {:induction false} ExistingRecordsUpdatedOnlyIfAsked(store: Store, parser: ParsedCatalog, updateExisting: bool, now: Date, id: string)
    requires id in ZimFileIDSet(parser) && id in parser.entries && id in store
    ensures var result := Reconciled(store, parser, updateExisting, now);
      && id in result
      && result[id] == if updateExisting then UpdateZimFile(store[id], parser.entries[id], now) else store[id]
  {
    var ids := ZimFileIDSet(parser);
    assert id !in StaleIDs(store, ids);
  }

  /** A pass reports updates exactly when the set of stored ids changes: re-projections alone never count. */
  lemma {:induction false} HasUpdatesIffIdsChange(store: Store, parser: ParsedCatalog, updateExisting: bool, now: Date)
    ensures PassHasUpdates(store, parser) <==> Reconciled(store, parser, updateExisting, now).Keys != store.Keys
  {
    var ids := ZimFileIDSet(parser);
    var stale := StaleIDs(store, ids);
    var inserted := InsertedIDs(store, ids, parser.entries);
    var keys := Reconciled(store, parser, updateExisting, now).Keys;
    ReconciledKeys(store, parser, updateExisting, now);
    if stale != {} {
      var k :| k in stale;
      assert k in store.Keys && k !in keys;
    } else if inserted != {} {
      var k :| k in inserted;
      assert k in keys && k !in store.Keys;
    } else {
      assert keys == store.Keys;
    }
  }

  /**
   * Into an empty store a pass inserts exactly the listed ids that have a readable entry, each as a `cloud`
   * record, and reports updates exactly when there is at least one.
   */
  lemma {:induction false} FirstPassIntoEmptyStore(parser: ParsedCatalog, updateExisting: bool, now: Date)
    ensures var result := Reconciled(map[], parser, updateExisting, now);
      && result.Keys == ZimFileIDSet(parser) * parser.entries.Keys
      && (forall id :: id in result ==> GetState(result[id]) == Cloud)
      && (PassHasUpdates(map[], parser) <==> result != map[])
  {
    var ids := ZimFileIDSet(parser);
    var result := Reconciled(map[], parser, updateExisting, now);
    ReconciledKeys(map[], parser, updateExisting, now);
    assert StaleIDs(map[], ids) == {};
    assert InsertedIDs(map[], ids, parser.entries) == ids * parser.entries.Keys;
    if result != map[] {
      var k :| k in result;
    }
  }

  /**
   * The delete predicate compares `stateRaw` with the raw value of `cloud`, not the decoded `state`: a record
   * whose `stateRaw` is no state at all reads as `cloud` but is never deleted.
   */
  lemma {:induction false} UnrecognisedStateSurvives(store: Store, parser: ParsedCatalog, updateExisting: bool, now: Date, k: string)
    requires k in store && StateFromRaw(store[k].stateRaw).None?
    ensures GetState(store[k]) == Cloud
    ensures k in Reconciled(store, parser, updateExisting, now)
  {
    NonCloudRecordsSurvive(store, parser, updateExisting, now, k);
  }

  /** A pass keeps every record under its own id. */
  lemma {:induction false} ReconciledKeyedByPrimaryKey(store: Store, parser: ParsedCatalog, updateExisting: bool, now: Date)
    requires KeyedByPrimaryKey(store) && WellKeyed(parser)
    ensures KeyedByPrimaryKey(Reconciled(store, parser, updateExisting, now))
  {
    var result := Reconciled(store, parser, updateExisting, now);
    forall k | k in result ensures result[k].id == k {
      if k in store {
        NonCloudOrListed(store, parser, k);
      }
    }
  }

  // a record that survives is either not `cloud` or listed in the catalog
  lemma {:induction false} NonCloudOrListed(store: Store, parser: ParsedCatalog, k: string)
    requires k in store && k !in StaleIDs(store, ZimFileIDSet(parser))
    ensures store[k].stateRaw != StateRawValue(Cloud) || k in ZimFileIDSet(parser)
  {
  }

  /**
   * Running the pass again with the same catalog at the same time changes nothing and reports no updates.
   */
  lemma {:induction false} SecondPassIsQuiet(store: Store, parser: ParsedCatalog, updateExisting: bool, now: Date)
    requires WellKeyed(parser)
    ensures var once := Reconciled(store, parser, updateExisting, now);
      && !PassHasUpdates(once, parser)
      && Reconciled(once, parser, updateExisting, now) == once
  {
    var ids := ZimFileIDSet(parser);
    var once := Reconciled(store, parser, updateExisting, now);
    var twice := Reconciled(once, parser, updateExisting, now);
    ReconciledKeys(store, parser, updateExisting, now);
    // no stale record is left: a kept `cloud` record is listed, and an inserted one is listed and `cloud`
    forall k | k in once && k !in ids ensures once[k].stateRaw != StateRawValue(Cloud) {
      assert k !in InsertedIDs(store, ids, parser.entries);
      NonCloudOrListed(store, parser, k);
    }
    assert StaleIDs(once, ids) == {};
    // every listed readable id already has a record
    assert InsertedIDs(once, ids, parser.entries) == {} by {
      forall id | id in ids && id in parser.entries ensures id in once {
        if id !in store {
          assert id in InsertedIDs(store, ids, parser.entries);
        } else {
          assert id !in StaleIDs(store, ids);
        }
      }
    }
    ReconciledKeys(once, parser, updateExisting, now);
    assert twice.Keys == once.Keys;
    forall k | k in once ensures twice[k] == once[k] {
      if updateExisting && k in ids && k in parser.entries {
        var meta := parser.entries[k];
        if k in store {
          assert k !in StaleIDs(store, ids);
          UpdateIdempotent(store[k], meta, now);
        } else {
          var projected := UpdateZimFile(NewZimFile().(id := meta.identifier), meta, now);
          UpdateIdempotent(NewZimFile().(id := meta.identifier), meta, now);
          UpdateCommutesWithSetState(projected, meta, now, Cloud);
        }
      }
    }
  }

  // ---------------------------------------------------------------------------------------------
  // The operation

  /** How the persistence layer fares: opening the database or committing the write may fail. */
  datatype WriteFault = NoFault | OpenFails | CommitFails

  /** What `fetchData` yields: the catalog document, or the description of the retrieval failure. */
  datatype FetchResult = Fetched(data: Data) | FetchFailed(localizedDescription: string)

  /** A failure thrown inside `main`: an `OPDSRefreshError`, or any other error. */
  datatype Thrown = RefreshError(error: OPDSRefreshError) | OtherError(localizedDescription: string)

  /** What parsing the fetched document yields. */
  datatype ParseOutcome = Parsed(parser: ParsedCatalog) | ParseThrew(thrown: Thrown)

  /** The error that leaves the body of `main`, if any: retrieval first, then parsing, then the write. */
  function ThrownFrom(fetch: FetchResult, parse: Data -> ParseOutcome, fault: WriteFault): (t: Option<Thrown>)
    ensures fetch.FetchFailed? ==> t == Some(RefreshError(Retrieve(fetch.localizedDescription)))
    ensures t.None? <==> fetch.Fetched? && parse(fetch.data).Parsed? && fault.NoFault?
    ensures fetch.Fetched? && parse(fetch.data).Parsed? && !fault.NoFault? ==> t == Some(RefreshError(Process))
  {
    match fetch
    case FetchFailed(description) => Some(RefreshError(Retrieve(description)))
    case Fetched(data) =>
      match parse(data)
      case ParseThrew(thrown) => Some(thrown)
      case Parsed(_) => if fault.NoFault? then None else Some(RefreshError(Process))
  }

  /** The user defaults the refresh reads and writes. */
  class Defaults {
    var libraryLastRefreshTime: Option<Date>
    var libraryFilterLanguageCodes: seq<string>

    constructor ()
      ensures libraryLastRefreshTime.None? && libraryFilterLanguageCodes == []
    {
      libraryLastRefreshTime := None;
      libraryFilterLanguageCodes := [];
    }
  }

  class OPDSRefreshOperation {
    const updateExisting: bool
    var hasUpdates: bool
    var error: Option<OPDSRefreshError>

    constructor ()
      ensures updateExisting && !hasUpdates && error.None?
    {
      updateExisting := true;
      hasUpdates := false;
      error := None;
    }

    /**
     * `processData`: one write transaction that deletes the stale records and upserts the catalog's entries.
     * Any failure of the transaction is thrown as `Process` and leaves the store as it was; `hasUpdates` is set
     * by the pass itself and is not rolled back with it.
     */
    method ProcessData(database: Realm, parser: ParsedCatalog, now: Date, fault: WriteFault)
      returns (thrown: Option<OPDSRefreshError>)
      requires database.Valid() && WellKeyed(parser)
      modifies this`hasUpdates, database`objects
      ensures database.Valid()
      ensures thrown == if fault.NoFault? then None else Some(Process)
      ensures database.objects == if fault.NoFault? then Reconciled(old(database.objects), parser, updateExisting, now)
                                  else old(database.objects)
      ensures hasUpdates == if fault.OpenFails? then old(hasUpdates)
                            else old(hasUpdates) || PassHasUpdates(old(database.objects), parser)
    {
      var zimFileIDs := ZimFileIDSet(parser);
      if fault.OpenFails? {
        return Some(Process);
      }
      var before := database.objects;  // what a rolled-back write restores
      RemoveStale(database, zimFileIDs);
      ghost var pruned := database.objects;
      assert InsertedIDs(pruned, zimFileIDs, parser.entries) == InsertedIDs(before, zimFileIDs, parser.entries);
      Upsert(database, parser, zimFileIDs, now);
      if fault.CommitFails? {
        // the write is rolled back
        database.objects := before;
        return Some(Process);
      }
      return None;
    }

    /** Inside the write: delete every stale record, noting each deletion in `hasUpdates`. */
    method RemoveStale(database: Realm, zimFileIDs: set<string>)
      requires database.Valid()
      modifies this`hasUpdates, database`objects
      ensures database.Valid()
      ensures database.objects == old(database.objects) - StaleIDs(old(database.objects), zimFileIDs)
      ensures hasUpdates == (old(hasUpdates) || StaleIDs(old(database.objects), zimFileIDs) != {})
    {
      var stale := StaleIDs(database.objects, zimFileIDs);
      var pending := stale;
      while pending != {}
        invariant pending <= stale
        invariant database.objects == old(database.objects) - (stale - pending)
        invariant hasUpdates == (old(hasUpdates) || stale - pending != {})
        decreases pending
      {
        var id :| id in pending;
        database.objects := database.objects - {id};
        hasUpdates := true;
        pending := pending - {id};
      }
    }

    /**
     * Inside the write: for each catalog id with a readable entry, re-project its record when `updateExisting`,
     * or insert a new `cloud` record (noting it in `hasUpdates`) when there is none.
     */
    method Upsert(database: Realm, parser: ParsedCatalog, zimFileIDs: set<string>, now: Date)
      requires database.Valid() && WellKeyed(parser)
      modifies this`hasUpdates, database`objects
      ensures database.Valid()
      ensures database.objects == Upserted(old(database.objects), zimFileIDs, parser.entries, updateExisting, now)
      ensures hasUpdates == (old(hasUpdates) || InsertedIDs(old(database.objects), zimFileIDs, parser.entries) != {})
    {
      ghost var start := database.objects;
      var remaining := zimFileIDs;
      while remaining != {}
        invariant remaining <= zimFileIDs
        invariant database.objects == Upserted(start, zimFileIDs - remaining, parser.entries, updateExisting, now)
        invariant KeyedByPrimaryKey(database.objects)
        invariant hasUpdates == (old(hasUpdates) || InsertedIDs(start, zimFileIDs - remaining, parser.entries) != {})
        decreases remaining
      {
        var zimFileID :| zimFileID in remaining;
        ghost var done := zimFileIDs - remaining;
        assert zimFileIDs - (remaining - {zimFileID}) == done + {zimFileID};
        UpsertStepKeys(start, done, zimFileID, parser.entries);
        var meta := GetZimFileMetaData(parser, zimFileID);
        if meta.None? {
          UpsertStepSkip(start, done, zimFileID, parser.entries, updateExisting, now);
        } else if zimFileID in database.objects {
          UpsertStepExisting(start, done, zimFileID, parser.entries, updateExisting, now);
          if updateExisting {
            database.objects := database.objects[zimFileID := UpdateZimFile(database.objects[zimFileID], meta.value, now)];
          }
        } else {
          UpsertStepInsert(start, done, zimFileID, parser.entries, updateExisting, now);
          var zimFile := NewZimFile();
          zimFile := zimFile.(id := meta.value.identifier);
          zimFile := UpdateZimFile(zimFile, meta.value, now);
          zimFile := SetState(zimFile, Cloud);
          database.objects := database.objects[zimFile.id := zimFile];
          hasUpdates := true;
        }
        remaining := remaining - {zimFileID};
      }
      assert zimFileIDs - remaining == zimFileIDs;
    }

    /**
     * `main`: fetch, parse and process. An `OPDSRefreshError` is recorded in `error`; any other failure is only
     * logged. On success the language filter is set to the locale's language if the library was never refreshed
     * before, and the last refresh time is set to `now`.
     */
    method Execute(fetch: FetchResult, parse: Data -> ParseOutcome, database: Realm, defaults: Defaults,
                   localeLanguageCode: Option<string>, now: Date, fault: WriteFault)
      requires database.Valid()
      requires fetch.Fetched? && parse(fetch.data).Parsed? ==> WellKeyed(parse(fetch.data).parser)
      modifies this`hasUpdates, this`error, database`objects, defaults
      ensures database.Valid()
      ensures var thrown := ThrownFrom(fetch, parse, fault);
        error == if thrown.Some? && thrown.value.RefreshError? then Some(thrown.value.error) else old(error)
      ensures database.objects ==
        if ThrownFrom(fetch, parse, fault).None?
        then Reconciled(old(database.objects), parse(fetch.data).parser, updateExisting, now)
        else old(database.objects)
      ensures hasUpdates ==
        if fetch.Fetched? && parse(fetch.data).Parsed? && !fault.OpenFails?
        then old(hasUpdates) || PassHasUpdates(old(database.objects), parse(fetch.data).parser)
        else old(hasUpdates)
      ensures ThrownFrom(fetch, parse, fault).None? ==>
        && defaults.libraryLastRefreshTime == Some(now)
        && defaults.libraryFilterLanguageCodes ==
             if old(defaults.libraryLastRefreshTime).None? && localeLanguageCode.Some?
             then [localeLanguageCode.value] else old(defaults.libraryFilterLanguageCodes)
      ensures ThrownFrom(fetch, parse, fault).Some? ==>
        && defaults.libraryLastRefreshTime == old(defaults.libraryLastRefreshTime)
        && defaults.libraryFilterLanguageCodes == old(defaults.libraryFilterLanguageCodes)
    {
      var thrown: Option<Thrown> := None;
      match fetch {
        case FetchFailed(description) =>
          thrown := Some(RefreshError(Retrieve(description)));
        case Fetched(data) =>
          match parse(data) {
            case ParseThrew(t) =>
              thrown := Some(t);
            case Parsed(parser) =>
              var processError := ProcessData(database, parser, now, fault);
              if processError.Some? {
                thrown := Some(RefreshError(processError.value));
              }
          }
      }
      if thrown.None? {
        // first successful refresh: narrow the library to the locale's language
        if defaults.libraryLastRefreshTime.None? && localeLanguageCode.Some? {
          defaults.libraryFilterLanguageCodes := [localeLanguageCode.value];
        }
        // stamp the time of this refresh
        defaults.libraryLastRefreshTime := Some(now);
      } else if thrown.value.RefreshError? {
        error := Some(thrown.value.error);
      }
    }
  }

  // One turn of the upsert loop, stated on the store the loop starts from: the ids handled so far grow by `id`.

  lemma {:induction false} UpsertStepKeys(store: Store, done: set<string>, id: string, entries: map<string, ZimFileMetaData>)
    requires id !in done
    ensures id in entries && id !in store ==>
      InsertedIDs(store, done + {id}, entries) == InsertedIDs(store, done, entries) + {id}
    ensures !(id in entries && id !in store) ==>
      InsertedIDs(store, done + {id}, entries) == InsertedIDs(store, done, entries)
  {
  }

  lemma {:induction false} UpsertStepSkip(store: Store, done: set<string>, id: string, entries: map<string, ZimFileMetaData>,
                                          updateExisting: bool, now: Date)
    requires id !in done && id !in entries
    ensures Upserted(store, done + {id}, entries, updateExisting, now) == Upserted(store, done, entries, updateExisting, now)
  {
    UpsertStepKeys(store, done, id, entries);
  }

  lemma {:induction false} UpsertStepExisting(store: Store, done: set<string>, id: string, entries: map<string, ZimFileMetaData>,
                                              updateExisting: bool, now: Date)
    requires id !in done && id in entries && id in store
    ensures var current := Upserted(store, done, entries, updateExisting, now);
      && id in current && current[id] == store[id]
      && Upserted(store, done + {id}, entries, updateExisting, now)
         == if updateExisting then current[id := UpdateZimFile(current[id], entries[id], now)] else current
  {
    UpsertStepKeys(store, done, id, entries);
  }

  lemma {:induction false} UpsertStepInsert(store: Store, done: set<string>, id: string, entries: map<string, ZimFileMetaData>,
                                            updateExisting: bool, now: Date)
    requires id !in done && id in entries && id !in store
    ensures var current := Upserted(store, done, entries, updateExisting, now);
      && id !in current
      && Upserted(store, done + {id}, entries, updateExisting, now) == current[id := NewCloudZimFile(entries[id], now)]
  {
    UpsertStepKeys(store, done, id, entries);
    var current := Upserted(store, done, entries, updateExisting, now);
    var next := Upserted(store, done + {id}, entries, updateExisting, now);
    var expected := current[id := NewCloudZimFile(entries[id], now)];
    assert next.Keys == expected.Keys;
    forall k | k in next.Keys
      ensures next[k] == expected[k]
    {
      if k != id {
        assert k in store || k in InsertedIDs(store, done, entries);
      }
    }
  }
}
