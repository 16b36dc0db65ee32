/**
 * `LibraryBaseOperation.updateZimFile` for the pre-version-2 schema
 * (Model/LibraryOperations/LibraryBaseOperation.swift), and how its records relate to the current projection
 * once migrated.
 */
module LibraryBaseOperation {
  import opened Wrappers
  import opened ZimFiles
  import opened Catalog
  import LibraryOperationBase
  import RealmConfig

  /**
   * `updateZimFile(zimFile, meta:)` on a record of the old definition, with `now` standing for `Date()`:
   * absent counts are written as 0, and of the capability flags only `hasPicture` is written.
   */
  function UpdateLegacyZimFile(zimFile: LegacyZimFile, meta: ZimFileMetaData, now: Date): (r: LegacyZimFile)
    ensures r.id == meta.identifier
    ensures r.pid == Some(meta.name) && r.title == meta.title && r.bookDescription == meta.fileDescription
    ensures r.languageCode == meta.languageCode && r.categoryRaw == meta.category
    ensures r.creator == meta.creator.GetOr("") && r.publisher == meta.publisher.GetOr("")
    ensures r.creationDate == meta.creationDate.GetOr(now)
    ensures r.remoteURL == meta.downloadURL
    ensures r.icon == meta.favicon.GetOr([])
    // absent counts are coerced to 0
    ensures r.fileSize == meta.size.GetOr(0) && r.articleCount == meta.articleCount.GetOr(0)
    ensures r.mediaCount == meta.mediaCount.GetOr(0)
    ensures r.hasPicture == meta.hasPictures
    // no other flag, no state and no download field is touched
    ensures r.hasEmbeddedIndex == zimFile.hasEmbeddedIndex && r.includeInSearch == zimFile.includeInSearch
    ensures r.stateRaw == zimFile.stateRaw && r.openInPlaceURLBookmark == zimFile.openInPlaceURLBookmark
    ensures r.downloadTotalBytesWritten == zimFile.downloadTotalBytesWritten
    ensures r.downloadResumeData == zimFile.downloadResumeData
    ensures r.downloadErrorDescription == zimFile.downloadErrorDescription
  {
    zimFile.(
      id := meta.identifier,
      pid := Some(meta.name),
      title := meta.title,
      bookDescription := meta.fileDescription,
      languageCode := meta.languageCode,
      creator := meta.creator.GetOr(""),
      publisher := meta.publisher.GetOr(""),
      remoteURL := meta.downloadURL,
      fileSize := meta.size.GetOr(0),
      articleCount := meta.articleCount.GetOr(0),
      mediaCount := meta.mediaCount.GetOr(0),
      hasPicture := meta.hasPictures,
      categoryRaw := meta.category,
      creationDate := meta.creationDate.GetOr(now),
      icon := meta.favicon.GetOr([]))
  }

  /**
   * The old projection cannot tell an absent count from a count of 0, where the current projection keeps the two
   * apart: entries that differ only there give the same old record and different current records.
   */
  lemma {:induction false} LegacyCountsConflateAbsentAndZero(
    legacy: LegacyZimFile, zimFile: ZimFile, meta: ZimFileMetaData, now: Date)
    requires meta.size.None?
    ensures UpdateLegacyZimFile(legacy, meta, now) == UpdateLegacyZimFile(legacy, meta.(size := Some(0)), now)
    ensures LibraryOperationBase.UpdateZimFile(zimFile, meta, now)
            != LibraryOperationBase.UpdateZimFile(zimFile, meta.(size := Some(0)), now)
  {
    var absent := LibraryOperationBase.UpdateZimFile(zimFile, meta, now);
    var zero := LibraryOperationBase.UpdateZimFile(zimFile, meta.(size := Some(0)), now);
    assert absent.size != zero.size;
  }

  /**
   * A record written by the old projection and then migrated as written holds, under the new names, what the
   * current projection writes from the same entry: the texts, creator, publisher and date, the pictures flag, the
   * counts when the entry has them, and the category up to the rename table; its favicon is the entry's favicon
   * or empty data. The download URL and the size are lost (`MigrationDropsDownloadURLAndSize`).
   */
  lemma {:induction false} MigratedLegacyAgreesWithCurrent(
    legacy: LegacyZimFile, zimFile: ZimFile, meta: ZimFileMetaData, now: Date)
    ensures
      var written := UpdateLegacyZimFile(legacy, meta, now);
      var migrated := RealmConfig.MigrateZimFile(RealmConfig.MigrationObjectOf(written), RealmConfig.PreparedObject(written));
      var current := LibraryOperationBase.UpdateZimFile(zimFile, meta, now);
      && migrated.name == current.name && migrated.title == current.title
      && migrated.fileDescription == current.fileDescription && migrated.languageCode == current.languageCode
      && migrated.creator == current.creator && migrated.publisher == current.publisher
      && migrated.creationDate == current.creationDate
      && migrated.hasPictures == current.hasPictures
      && (meta.articleCount.Some? ==> migrated.articleCount == current.articleCount)
      && (meta.mediaCount.Some? ==> migrated.mediaCount == current.mediaCount)
      && migrated.categoryRaw == RealmConfig.RenameCategory(current.categoryRaw)
      && migrated.faviconData == Some(meta.favicon.GetOr([]))
  {
    var written := UpdateLegacyZimFile(legacy, meta, now);
    RealmConfig.MigratedCategoryIsRenamed(RealmConfig.MigrationObjectOf(written), RealmConfig.PreparedObject(written));
  }

  /**
   * With the two renames the block leaves out, a migrated old-projection record also agrees with the current
   * projection on the download URL, and on the size when the entry has one.
   */
  lemma {:induction false} CorrectedMigrationAgreesWithCurrent(
    legacy: LegacyZimFile, zimFile: ZimFile, meta: ZimFileMetaData, now: Date)
    ensures
      var migrated := RealmConfig.MigrateLegacyZimFile(UpdateLegacyZimFile(legacy, meta, now));
      var current := LibraryOperationBase.UpdateZimFile(zimFile, meta, now);
      && migrated.downloadURL == current.downloadURL
      && (meta.size.Some? ==> migrated.size == current.size)
      && migrated.name == current.name && migrated.fileDescription == current.fileDescription
      && migrated.hasPictures == current.hasPictures
      && migrated.categoryRaw == RealmConfig.RenameCategory(current.categoryRaw)
  {
    var written := UpdateLegacyZimFile(legacy, meta, now);
    RealmConfig.MigrationKeepsEveryOldProperty(written);
  }
}
