/**
 * The object keys of a paginated `list_objects_v2` listing, as scripts/ingest_documents.py
 * (`clear_bucket`) and scripts/ingest_chunks.py (`list_all_pdfs`) read them: each page
 * holds the keys of its "Contents", or none when a page has no "Contents" entry.
 */
module S3Listing {
  import opened Wrappers

  /** The keys of all pages, page by page, in listing order. */
  function ListedKeys(pages: seq<Option<seq<string>>>): seq<string> {
    if pages == [] then []
    else
      var n := |pages| - 1;
      ListedKeys(pages[..n]) + pages[n].GetOr([])
  }
}
