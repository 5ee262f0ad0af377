/**
 * The provider's listing data as the two scripts read it: a page of
 * items, each with model versions that carry files, and the page's
 * metadata with the link to the next page.  JSON objects are typed
 * records here; a key the scripts read with `.get(...)` and that may be
 * absent is an `Option`.
 */
module Listing {
  import opened Wrappers

  /** One entry of a version's `files` list. */
  datatype FileEntry = FileEntry(
    name: string,               // `file.get('name', '')`
    fileType: Option<string>,   // `file.get('type')`
    downloadUrl: string         // `file.get('downloadUrl', '')`
  )

  /** One entry of an item's `modelVersions` list. */
  datatype ModelVersion = ModelVersion(
    name: string,
    baseModel: Option<string>,  // `version.get('baseModel')`
    files: seq<FileEntry>
  )

  /** One entry of a page's `items` list. */
  datatype Item = Item(
    name: string,
    itemType: Option<string>,   // the item's `type` key, if present
    baseModel: Option<string>,  // set per version before downloading
    versions: seq<ModelVersion>
  )

  /** What `urllib.parse.urlparse` returns, its six fields. */
  datatype Url = Url(scheme: string, netloc: string, path: string, params: string, query: string, fragment: string)

  /**
   * A URL as the provider sends it: the raw text, which is what the
   * pagination loop compares and remembers, and the result of parsing
   * it (`None` when `urlparse` raises).
   */
  datatype PageUrl = PageUrl(raw: string, parsed: Option<Url>)

  /** A page's `metadata` object when it is non-empty. */
  datatype Metadata = Metadata(nextPage: Option<PageUrl>)

  /**
   * A page of the listing; `metadata` is `None` when the key is missing
   * or its value is empty, the cases in which `if not metadata` holds.
   */
  datatype Page = Page(items: seq<Item>, metadata: Option<Metadata>)
}
