/**
 * The schema migration of the library database (Model/Realm/RealmConfig.swift): the target schema version and
 * the per-record transform that the migration block applies to every stored `ZimFile` of an older schema.
 */
module RealmConfig {
  import opened Wrappers
  import opened ZimFiles

  /** The schema version the code expects. */
  const SchemaVersion: nat := 2

  /**
   * An object of an older schema as the migration block reads it: `oldObject["…"]` for each property the block
   * reads, absent when the stored property holds no value. `categoryRaw` is absent also when the stored value is
   * not a string.
   */
  datatype MigrationObject = MigrationObject(
    pid: Option<string>,
    bookDescription: Option<string>,
    hasPicture: Option<bool>,
    hasEmbeddedIndex: Option<bool>,
    icon: Option<Data>,
    categoryRaw: Option<string>)

  /** How a record stored under the pre-version-2 definition reads through `oldObject["…"]`. */
  function MigrationObjectOf(z: LegacyZimFile): (o: MigrationObject)
    ensures o.pid == z.pid && o.bookDescription == Some(z.bookDescription)
    ensures o.hasPicture == Some(z.hasPicture) && o.hasEmbeddedIndex == Some(z.hasEmbeddedIndex)
    ensures o.icon == Some(z.icon) && o.categoryRaw == Some(z.categoryRaw)
  {
    MigrationObject(z.pid, Some(z.bookDescription), Some(z.hasPicture), Some(z.hasEmbeddedIndex), Some(z.icon), Some(z.categoryRaw))
  }

  /**
   * The new object Realm hands the block for a record of the old definition, before the block runs: every
   * property whose name the new definition keeps is carried over (one that only became optional keeps its value);
   * every property the new definition adds or renames starts at its default.
   */
  function PreparedObject(z: LegacyZimFile): (r: ZimFile)
    // same-named properties carried over
    ensures r.id == z.id && r.title == z.title && r.languageCode == z.languageCode
    ensures r.creationDate == Some(z.creationDate) && r.creator == Some(z.creator) && r.publisher == Some(z.publisher)
    ensures r.articleCount == Some(z.articleCount) && r.mediaCount == Some(z.mediaCount)
    ensures r.includeInSearch == z.includeInSearch && r.openInPlaceURLBookmark == z.openInPlaceURLBookmark
    ensures r.stateRaw == z.stateRaw && r.categoryRaw == z.categoryRaw
    ensures r.downloadTotalBytesWritten == z.downloadTotalBytesWritten
    ensures r.downloadResumeData == z.downloadResumeData && r.downloadErrorDescription == z.downloadErrorDescription
    // new or renamed properties at their defaults
    ensures r.name == "" && r.fileDescription == ""
    ensures r.downloadURL.None? && r.faviconURL.None? && r.faviconData.None? && r.size.None?
    ensures !r.hasDetails && !r.hasIndex && !r.hasPictures && !r.hasVideos
  {
    NewZimFile().(
      id := z.id,
      title := z.title,
      languageCode := z.languageCode,
      creationDate := Some(z.creationDate),
      creator := Some(z.creator),
      publisher := Some(z.publisher),
      articleCount := Some(z.articleCount),
      mediaCount := Some(z.mediaCount),
      includeInSearch := z.includeInSearch,
      openInPlaceURLBookmark := z.openInPlaceURLBookmark,
      stateRaw := z.stateRaw,
      categoryRaw := z.categoryRaw,
      downloadTotalBytesWritten := z.downloadTotalBytesWritten,
      downloadResumeData := z.downloadResumeData,
      downloadErrorDescription := z.downloadErrorDescription)
  }

  /** The category rename table: `stackExchange` became `stack_exchange` and `ted` was folded into `other`. */
  function RenameCategory(raw: string): (r: string)
    ensures raw != "stackExchange" && raw != "ted" ==> r == raw
    ensures raw == "stackExchange" ==> CategoryFromRaw(r) == Some(StackExchange)
    ensures raw == "ted" ==> CategoryFromRaw(r) == Some(Other)
    // no output is itself renamed
    ensures r != "stackExchange" && r != "ted"
  {
    if raw == "stackExchange" then "stack_exchange"
    else if raw == "ted" then "other"
    else raw
  }

  /** Renaming a renamed category changes nothing. */
  lemma {:induction false} RenameCategoryIdempotent(raw: string)
    ensures RenameCategory(RenameCategory(raw)) == RenameCategory(raw)
  {
    var once := RenameCategory(raw);
    assert once != "stackExchange" && once != "ted";
  }

  /**
   * The body of `enumerateObjects` for one record: `newObject` is the record as the new schema first holds it;
   * the block renames five properties (with a default for each absent one) and the two category values.
   */
  function MigrateZimFile(oldObject: MigrationObject, newObject: ZimFile): (r: ZimFile)
    ensures r.name == oldObject.pid.GetOr("")
    ensures r.fileDescription == oldObject.bookDescription.GetOr("")
    ensures r.hasPictures == oldObject.hasPicture.GetOr(false)
    ensures r.hasIndex == oldObject.hasEmbeddedIndex.GetOr(false)
    ensures r.faviconData == oldObject.icon
    ensures r.categoryRaw == if oldObject.categoryRaw.Some? && oldObject.categoryRaw.value in {"stackExchange", "ted"}
                             then RenameCategory(oldObject.categoryRaw.value) else newObject.categoryRaw
    // every other property keeps what the new object held
    ensures r.(name := newObject.name, fileDescription := newObject.fileDescription, hasPictures := newObject.hasPictures,
               hasIndex := newObject.hasIndex, faviconData := newObject.faviconData, categoryRaw := newObject.categoryRaw)
            == newObject
  {
    var migrated := newObject.(
      name := oldObject.pid.GetOr(""),
      fileDescription := oldObject.bookDescription.GetOr(""),
      hasPictures := oldObject.hasPicture.GetOr(false),
      hasIndex := oldObject.hasEmbeddedIndex.GetOr(false),
      faviconData := oldObject.icon);
    match oldObject.categoryRaw
    case Some(categoryRaw) =>
      if categoryRaw == "stackExchange" then migrated.(categoryRaw := "stack_exchange")
      else if categoryRaw == "ted" then migrated.(categoryRaw := "other")
      else migrated
    case None => migrated
  }

  /** When the new object carried the old `categoryRaw` over, the migrated category is the renamed one. */
  lemma {:induction false} MigratedCategoryIsRenamed(oldObject: MigrationObject, newObject: ZimFile)
    requires oldObject.categoryRaw == Some(newObject.categoryRaw)
    ensures MigrateZimFile(oldObject, newObject).categoryRaw == RenameCategory(newObject.categoryRaw)
  {
  }

  /**
   * As written, migration loses a record's download URL and file size: the old definition lists `remoteURL` and
   * `fileSize` as renamed to `downloadURL` and `size`, but no rename is declared and the block copies neither.
   */
  lemma {:induction false} MigrationDropsDownloadURLAndSize(z: LegacyZimFile)
    ensures var migrated := MigrateZimFile(MigrationObjectOf(z), PreparedObject(z));
      && migrated.downloadURL.None? && migrated.size.None?
      && (z.remoteURL.Some? ==> migrated.downloadURL != z.remoteURL)
  {
  }

  /** The migration the old definition describes: the block's transform plus the two renames it leaves out. */
  function MigrateLegacyZimFile(z: LegacyZimFile): (r: ZimFile)
    ensures r.downloadURL == z.remoteURL && r.size == Some(z.fileSize)
    ensures r.(downloadURL := None, size := None) == MigrateZimFile(MigrationObjectOf(z), PreparedObject(z))
  {
    MigrateZimFile(MigrationObjectOf(z), PreparedObject(z)).(downloadURL := z.remoteURL, size := Some(z.fileSize))
  }

  /**
   * With the two renames, every property of the old definition survives migration under its new name; only the
   * category goes through the rename table.
   */
  lemma {:induction false} MigrationKeepsEveryOldProperty(z: LegacyZimFile)
    ensures var r := MigrateLegacyZimFile(z);
      && r.id == z.id && r.name == z.pid.GetOr("") && r.title == z.title
      && r.fileDescription == z.bookDescription && r.languageCode == z.languageCode
      && r.creationDate == Some(z.creationDate) && r.creator == Some(z.creator) && r.publisher == Some(z.publisher)
      && r.articleCount == Some(z.articleCount) && r.mediaCount == Some(z.mediaCount) && r.size == Some(z.fileSize)
      && r.hasPictures == z.hasPicture && r.hasIndex == z.hasEmbeddedIndex && r.includeInSearch == z.includeInSearch
      && r.faviconData == Some(z.icon) && r.downloadURL == z.remoteURL
      && r.openInPlaceURLBookmark == z.openInPlaceURLBookmark && r.stateRaw == z.stateRaw
      && r.categoryRaw == RenameCategory(z.categoryRaw)
      && r.downloadTotalBytesWritten == z.downloadTotalBytesWritten
      && r.downloadResumeData == z.downloadResumeData && r.downloadErrorDescription == z.downloadErrorDescription
  {
    MigratedCategoryIsRenamed(MigrationObjectOf(z), PreparedObject(z));
  }

  /** Running the block twice on the same record gives what running it once gave. */
  lemma {:induction false} MigrateZimFileIdempotent(oldObject: MigrationObject, newObject: ZimFile)
    ensures MigrateZimFile(oldObject, MigrateZimFile(oldObject, newObject)) == MigrateZimFile(oldObject, newObject)
  {
  }

  /**
   * The migration block: for a database of schema version below 2 every stored object is migrated; a database
   * already at version 2 keeps its records as they are.
   */
  method MigrationBlock(oldSchemaVersion: nat, objects: seq<(MigrationObject, ZimFile)>) returns (migrated: seq<ZimFile>)
    ensures |migrated| == |objects|
    ensures oldSchemaVersion < SchemaVersion ==>
      forall i :: 0 <= i < |objects| ==> migrated[i] == MigrateZimFile(objects[i].0, objects[i].1)
    ensures oldSchemaVersion >= SchemaVersion ==>
      forall i :: 0 <= i < |objects| ==> migrated[i] == objects[i].1
  {
    if oldSchemaVersion < SchemaVersion {
      migrated := [];
      var i := 0;
      while i < |objects|
        invariant 0 <= i <= |objects|
        invariant |migrated| == i
        invariant forall j :: 0 <= j < i ==> migrated[j] == MigrateZimFile(objects[j].0, objects[j].1)
      {
        var (oldObject, newObject) := objects[i];
        migrated := migrated + [MigrateZimFile(oldObject, newObject)];
        i := i + 1;
      }
    } else {
      // the block does nothing: every object keeps what it holds
      migrated := seq(|objects|, i requires 0 <= i < |objects| => objects[i].1);
    }
  }
}
