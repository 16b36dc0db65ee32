/**
 * What the OPDS catalog parser yields, taken as given: the list of zim file ids in the catalog and, per id,
 * the entry's metadata when the entry could be read. The parser itself is not part of this model.
 */
module Catalog {
  import opened Wrappers
  import opened ZimFiles

  /** The metadata of one catalog entry, with the fields the record projections read. */
  datatype ZimFileMetaData = ZimFileMetaData(
    identifier: string,
    name: string,
    title: string,
    fileDescription: string,
    languageCode: string,
    category: string,
    creator: Option<string>,
    publisher: Option<string>,
    creationDate: Option<Date>,
    downloadURL: Option<string>,
    favicon: Option<Data>,
    size: Option<int64>,
    articleCount: Option<int64>,
    mediaCount: Option<int64>,
    hasDetails: bool,
    hasIndex: bool,
    hasPictures: bool,
    hasVideos: bool)

  /** A parsed catalog: the ids in document order (possibly repeated) and the readable entries by id. */
  datatype ParsedCatalog = ParsedCatalog(zimFileIDs: seq<string>, entries: map<string, ZimFileMetaData>)

  /** `Set(parser.zimFileIDs)`: repeated ids collapse into one. */
  function ZimFileIDSet(parser: ParsedCatalog): (ids: set<string>)
    ensures forall i :: 0 <= i < |parser.zimFileIDs| ==> parser.zimFileIDs[i] in ids
    ensures forall id :: id in ids ==> exists i :: 0 <= i < |parser.zimFileIDs| && parser.zimFileIDs[i] == id
  {
    set id | id in parser.zimFileIDs
  }

  /** `parser.getZimFileMetaData(id:)`: absent for an id whose entry could not be read. */
  function GetZimFileMetaData(parser: ParsedCatalog, id: string): (meta: Option<ZimFileMetaData>)
    ensures meta.Some? <==> id in parser.entries
    ensures meta.Some? ==> meta.value == parser.entries[id]
  {
    if id in parser.entries then Some(parser.entries[id]) else None
  }

  /** The parser files each entry under its own identifier. */
  ghost predicate WellKeyed(parser: ParsedCatalog) {
    forall id :: id in parser.entries ==> parser.entries[id].identifier == id
  }
}
