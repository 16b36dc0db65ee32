/**
 * The persistent `ZimFile` record of the Kiwix library (Model/Realm/ZimFile.swift): its fields and their
 * defaults, the string-backed `State` and `Category` enums, the `state`/`category` accessors over the raw
 * fields, and `id` as the primary key. The pre-version-2 shape of the record is `LegacyZimFile`.
 */
module ZimFiles {
  import opened Wrappers

  /** Swift's `Int64`. */
  newtype int64 = x: int | -0x8000_0000_0000_0000 <= x < 0x8000_0000_0000_0000

  /** A point in time, as a whole number of seconds. */
  type Date = int

  /** Foundation's `Data`: a byte string. */
  type Data = seq<bv8>

  // ---------------------------------------------------------------------------------------------
  // State

  /** The local lifecycle of a record; the raw value of each case is its name. */
  datatype State = Cloud | Local | Retained | DownloadQueued | DownloadInProgress | DownloadPaused | DownloadError

  function StateRawValue(s: State): string {
    match s
    case Cloud => "cloud"
    case Local => "local"
    case Retained => "retained"
    case DownloadQueued => "downloadQueued"
    case DownloadInProgress => "downloadInProgress"
    case DownloadPaused => "downloadPaused"
    case DownloadError => "downloadError"
  }

  /** `State(rawValue:)`: the case whose raw value is `raw`, if there is one. */
  function StateFromRaw(raw: string): (r: Option<State>)
    ensures r.Some? ==> StateRawValue(r.value) == raw
    ensures r.None? ==> forall s: State :: StateRawValue(s) != raw
  {
    if raw == "cloud" then Some(Cloud)
    else if raw == "local" then Some(Local)
    else if raw == "retained" then Some(Retained)
    else if raw == "downloadQueued" then Some(DownloadQueued)
    else if raw == "downloadInProgress" then Some(DownloadInProgress)
    else if raw == "downloadPaused" then Some(DownloadPaused)
    else if raw == "downloadError" then Some(DownloadError)
    else None
  }

  /** Distinct cases have distinct raw values, so decoding an encoded state gives it back. */
  lemma StateRawRoundTrip(s: State)
    ensures StateFromRaw(StateRawValue(s)) == Some(s)
  {
  }

  // ---------------------------------------------------------------------------------------------
  // Category

  /** The kind of content; the raw value of each case is its name, except `StackExchange`. */
  datatype Category =
    | Wikibooks | Wikinews | Wikipedia | Wikiquote | Wikisource | Wikiversity | Wikivoyage | Wiktionary
    | Ted | Vikidia | StackExchange
    | Other

  function CategoryRawValue(c: Category): string {
    match c
    case Wikibooks => "wikibooks"
    case Wikinews => "wikinews"
    case Wikipedia => "wikipedia"
    case Wikiquote => "wikiquote"
    case Wikisource => "wikisource"
    case Wikiversity => "wikiversity"
    case Wikivoyage => "wikivoyage"
    case Wiktionary => "wiktionary"
    case Ted => "ted"
    case Vikidia => "vikidia"
    case StackExchange => "stack_exchange"
    case Other => "other"
  }

  /** `Category(rawValue:)`: the case whose raw value is `raw`, if there is one. */
  function CategoryFromRaw(raw: string): (r: Option<Category>)
    ensures r.Some? ==> CategoryRawValue(r.value) == raw
    ensures r.None? ==> forall c: Category :: CategoryRawValue(c) != raw
  {
    if raw == "wikibooks" then Some(Wikibooks)
    else if raw == "wikinews" then Some(Wikinews)
    else if raw == "wikipedia" then Some(Wikipedia)
    else if raw == "wikiquote" then Some(Wikiquote)
    else if raw == "wikisource" then Some(Wikisource)
    else if raw == "wikiversity" then Some(Wikiversity)
    else if raw == "wikivoyage" then Some(Wikivoyage)
    else if raw == "wiktionary" then Some(Wiktionary)
    else if raw == "ted" then Some(Ted)
    else if raw == "vikidia" then Some(Vikidia)
    else if raw == "stack_exchange" then Some(StackExchange)
    else if raw == "other" then Some(Other)
    else None
  }

  lemma CategoryRawRoundTrip(c: Category)
    ensures CategoryFromRaw(CategoryRawValue(c)) == Some(c)
  {
  }

  /** No string is the raw value of both a state and a category. */
  lemma StateAndCategoryRawValuesDisjoint(s: State, c: Category)
    ensures StateRawValue(s) != CategoryRawValue(c)
  {
  }

  // ---------------------------------------------------------------------------------------------
  // The record

  datatype ZimFile = ZimFile(
    id: string,
    name: string,
    title: string,
    fileDescription: string,
    languageCode: string,
    categoryRaw: string,
    creator: Option<string>,
    publisher: Option<string>,
    creationDate: Option<Date>,
    downloadURL: Option<string>,
    faviconURL: Option<string>,
    faviconData: Option<Data>,
    size: Option<int64>,
    articleCount: Option<int64>,
    mediaCount: Option<int64>,
    hasDetails: bool,
    hasIndex: bool,
    hasPictures: bool,
    hasVideos: bool,
    includeInSearch: bool,
    openInPlaceURLBookmark: Option<Data>,
    stateRaw: string,
    downloadTotalBytesWritten: int64,
    downloadResumeData: Option<Data>,
    downloadErrorDescription: Option<string>)

  /** `ZimFile()`: a record with every field at its declared default. */
  function NewZimFile(): (z: ZimFile)
    ensures z.stateRaw == StateRawValue(Cloud) && z.categoryRaw == CategoryRawValue(Other)
    ensures z.includeInSearch && z.downloadTotalBytesWritten == 0
    ensures z.size.None? && z.articleCount.None? && z.mediaCount.None?
    ensures z.id == "" && z.name == "" && z.title == "" && z.fileDescription == "" && z.languageCode == ""
    ensures z.creator.None? && z.publisher.None? && z.creationDate.None?
    ensures z.downloadURL.None? && z.faviconURL.None? && z.faviconData.None?
    ensures !z.hasDetails && !z.hasIndex && !z.hasPictures && !z.hasVideos
    ensures z.openInPlaceURLBookmark.None? && z.downloadResumeData.None? && z.downloadErrorDescription.None?
  {
    ZimFile(
      id := "", name := "", title := "", fileDescription := "", languageCode := "",
      categoryRaw := CategoryRawValue(Other),
      creator := None, publisher := None, creationDate := None,
      downloadURL := None, faviconURL := None, faviconData := None,
      size := None, articleCount := None, mediaCount := None,
      hasDetails := false, hasIndex := false, hasPictures := false, hasVideos := false,
      includeInSearch := true,
      openInPlaceURLBookmark := None,
      stateRaw := StateRawValue(Cloud),
      downloadTotalBytesWritten := 0,
      downloadResumeData := None,
      downloadErrorDescription := None)
  }

  /** The `state` getter: `stateRaw` decoded, `Cloud` for any string that is no state's raw value. */
  function GetState(z: ZimFile): (s: State)
    ensures z.stateRaw == StateRawValue(s) || (s == Cloud && forall t: State :: StateRawValue(t) != z.stateRaw)
  {
    StateFromRaw(z.stateRaw).GetOr(Cloud)
  }

  /** The `state` setter: writes the raw value of `s` into `stateRaw` and nothing else. */
  function SetState(z: ZimFile, s: State): (r: ZimFile)
    ensures r.(stateRaw := z.stateRaw) == z
    ensures StateFromRaw(r.stateRaw) == Some(s)
  {
    StateRawRoundTrip(s);
    z.(stateRaw := StateRawValue(s))
  }

  /** Reading `state` after setting it gives back the value set. */
  lemma {:induction false} StateSetThenGet(z: ZimFile, s: State)
    ensures GetState(SetState(z, s)) == s
  {
    StateRawRoundTrip(s);
  }

  /**
   * The `category` getter AS WRITTEN: it decodes `stateRaw` (not `categoryRaw`), falling back to `Other`.
   */
  function GetCategory(z: ZimFile): (c: Category)
    ensures z.stateRaw == CategoryRawValue(c) || (c == Other && forall t: Category :: CategoryRawValue(t) != z.stateRaw)
  {
    CategoryFromRaw(z.stateRaw).GetOr(Other)
  }

  /** The `category` setter: writes the raw value of `c` into `categoryRaw` and nothing else. */
  function SetCategory(z: ZimFile, c: Category): (r: ZimFile)
    ensures r.(categoryRaw := z.categoryRaw) == z
    ensures CategoryFromRaw(r.categoryRaw) == Some(c)
  {
    CategoryRawRoundTrip(c);
    z.(categoryRaw := CategoryRawValue(c))
  }

  /**
   * Whenever `stateRaw` holds a valid state, the `category` getter reads `Other`, whatever the setter wrote:
   * e.g. a fresh record whose category is set to `Wikipedia` still reads `Other`.
   */
  lemma {:induction false} CategoryGetterIgnoresSetter(z: ZimFile, c: Category)
    requires StateFromRaw(z.stateRaw).Some?
    ensures GetCategory(SetCategory(z, c)) == Other
  {
    var s := StateFromRaw(z.stateRaw).value;
    forall t: Category ensures CategoryRawValue(t) != z.stateRaw {
      StateAndCategoryRawValuesDisjoint(s, t);
    }
  }

  /** The category getter as evidently intended: `categoryRaw` decoded, `Other` for an unknown string. */
  function CategoryOf(z: ZimFile): (c: Category)
    ensures z.categoryRaw == CategoryRawValue(c) || (c == Other && forall t: Category :: CategoryRawValue(t) != z.categoryRaw)
  {
    CategoryFromRaw(z.categoryRaw).GetOr(Other)
  }

  /** With the intended getter, reading `category` after setting it gives back the value set. */
  lemma {:induction false} CategorySetThenGet(z: ZimFile, c: Category)
    ensures CategoryOf(SetCategory(z, c)) == c
  {
    CategoryRawRoundTrip(c);
  }

  // ---------------------------------------------------------------------------------------------
  // Primary key

  /** `primaryKey()`: the name of the field that identifies a record. */
  const PrimaryKey: string := "id"

  /**
   * A store of records indexed by primary key, the `PrimaryKey` property `id`: each record sits under its own
   * `id`, so one record per id.
   */
  ghost predicate KeyedByPrimaryKey(objects: map<string, ZimFile>) {
    forall k :: k in objects ==> objects[k].id == k
  }

  // ---------------------------------------------------------------------------------------------
  // The record before schema version 2

  /** The shape of a record before schema version 2 (the "old definition" kept as a comment in the source). */
  datatype LegacyZimFile = LegacyZimFile(
    id: string,
    pid: Option<string>,
    title: string,
    bookDescription: string,
    languageCode: string,
    creationDate: Date,
    creator: string,
    publisher: string,
    articleCount: int64,
    mediaCount: int64,
    fileSize: int64,
    hasPicture: bool,
    hasEmbeddedIndex: bool,
    includeInSearch: bool,
    icon: Data,
    remoteURL: Option<string>,
    openInPlaceURLBookmark: Option<Data>,
    stateRaw: string,
    categoryRaw: string,
    downloadTotalBytesWritten: int64,
    downloadResumeData: Option<Data>,
    downloadErrorDescription: Option<string>)
}
