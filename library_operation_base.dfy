/**
 * `LibraryBaseOperation.updateZimFile` for the current schema (Model/LibraryOperations/LibraryOperationBase.swift):
 * the field-by-field copy of a catalog entry's metadata onto a record.
 */
module LibraryOperationBase {
  import opened Wrappers
  import opened ZimFiles
  import opened Catalog

  /** The fields a catalog refresh must leave alone: identity and the record's local lifecycle. */
  predicate SameLocalFields(a: ZimFile, b: ZimFile) {
    && a.id == b.id
    && a.stateRaw == b.stateRaw
    && a.includeInSearch == b.includeInSearch
    && a.openInPlaceURLBookmark == b.openInPlaceURLBookmark
    && a.faviconData == b.faviconData
    && a.downloadTotalBytesWritten == b.downloadTotalBytesWritten
    && a.downloadResumeData == b.downloadResumeData
    && a.downloadErrorDescription == b.downloadErrorDescription
  }

  /** The fields a catalog refresh owns. */
  predicate SameRemoteFields(a: ZimFile, b: ZimFile) {
    && a.name == b.name && a.title == b.title && a.fileDescription == b.fileDescription
    && a.languageCode == b.languageCode && a.categoryRaw == b.categoryRaw
    && a.creator == b.creator && a.publisher == b.publisher && a.creationDate == b.creationDate
    && a.downloadURL == b.downloadURL && a.faviconURL == b.faviconURL
    && a.size == b.size && a.articleCount == b.articleCount && a.mediaCount == b.mediaCount
    && a.hasDetails == b.hasDetails && a.hasIndex == b.hasIndex
    && a.hasPictures == b.hasPictures && a.hasVideos == b.hasVideos
  }

  /** The two groups cover every field of a record. */
  lemma FieldsDetermineRecord(a: ZimFile, b: ZimFile)
    requires SameLocalFields(a, b) && SameRemoteFields(a, b)
    ensures a == b
  {
  }

  /**
   * `updateZimFile(zimFile, meta:)`, with `now` standing for `Date()`: the remote-owned fields take the
   * metadata's values; nothing else changes.
   */
  function UpdateZimFile(zimFile: ZimFile, meta: ZimFileMetaData, now: Date): (r: ZimFile)
    // local lifecycle and identity untouched
    ensures SameLocalFields(r, zimFile)
    // copied verbatim
    ensures r.name == meta.name && r.title == meta.title && r.fileDescription == meta.fileDescription
    ensures r.languageCode == meta.languageCode && r.categoryRaw == meta.category
    ensures r.hasDetails == meta.hasDetails && r.hasIndex == meta.hasIndex
    ensures r.hasPictures == meta.hasPictures && r.hasVideos == meta.hasVideos
    // defaults for absent strings and dates
    ensures r.creator == Some(meta.creator.GetOr("")) && r.publisher == Some(meta.publisher.GetOr(""))
    ensures r.creationDate == Some(meta.creationDate.GetOr(now))
    // both URLs come from the download URL
    ensures r.downloadURL == meta.downloadURL && r.faviconURL == meta.downloadURL
    // optional counts stay optional: absent is never 0
    ensures r.size == meta.size && r.articleCount == meta.articleCount && r.mediaCount == meta.mediaCount
  {
    zimFile.(
      name := meta.name,
      title := meta.title,
      fileDescription := meta.fileDescription,
      languageCode := meta.languageCode,
      categoryRaw := meta.category,
      creator := Some(meta.creator.GetOr("")),
      publisher := Some(meta.publisher.GetOr("")),
      creationDate := Some(meta.creationDate.GetOr(now)),
      downloadURL := meta.downloadURL,
      faviconURL := meta.downloadURL,
      size := meta.size,
      articleCount := meta.articleCount,
      mediaCount := meta.mediaCount,
      hasDetails := meta.hasDetails,
      hasIndex := meta.hasIndex,
      hasPictures := meta.hasPictures,
      hasVideos := meta.hasVideos)
  }

  /** What a record holds after an update depends only on the metadata and the time, not on what it held before. */
  lemma {:induction false} UpdateForgetsPreviousValues(a: ZimFile, b: ZimFile, meta: ZimFileMetaData, now: Date)
    ensures SameRemoteFields(UpdateZimFile(a, meta, now), UpdateZimFile(b, meta, now))
  {
  }

  /** Updating twice from the same metadata at the same time is updating once. */
  lemma {:induction false} UpdateIdempotent(zimFile: ZimFile, meta: ZimFileMetaData, now: Date)
    ensures UpdateZimFile(UpdateZimFile(zimFile, meta, now), meta, now) == UpdateZimFile(zimFile, meta, now)
  {
    var once := UpdateZimFile(zimFile, meta, now);
    var twice := UpdateZimFile(once, meta, now);
    UpdateForgetsPreviousValues(once, zimFile, meta, now);
    FieldsDetermineRecord(twice, once);
  }

  /** The update never changes `state`, so it commutes with the `state` setter. */
  lemma {:induction false} UpdateCommutesWithSetState(zimFile: ZimFile, meta: ZimFileMetaData, now: Date, s: State)
    ensures UpdateZimFile(SetState(zimFile, s), meta, now) == SetState(UpdateZimFile(zimFile, meta, now), s)
  {
    var x := UpdateZimFile(SetState(zimFile, s), meta, now);
    var y := SetState(UpdateZimFile(zimFile, meta, now), s);
    FieldsDetermineRecord(x, y);
  }
}
