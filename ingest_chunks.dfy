/**
 * The pure parts of scripts/ingest_chunks.py: which listed keys are PDFs, how each chunk's
 * object is named, the metadata fallback chain, and the upload count and status of one
 * PDF.
 *
 * S3 reads and writes are not modelled: a metadata file is an input (None when it cannot
 * be fetched or parsed), and whether each chunk's upload succeeds is the parameter
 * `uploadSucceeds`.
 */
module IngestChunks {
  import opened Wrappers
  import opened Text
  import opened S3Listing

  // ---------------------------------------------------------------- list_all_pdfs

  predicate IsPdfKey(key: string) { EndsWith(Lower(key), ".pdf") }

  /** `list_all_pdfs`: the two append loops over pages and their contents. */
  method ListAllPdfs(pages: seq<Option<seq<string>>>) returns (pdfs: seq<string>)
    ensures pdfs == Filter(ListedKeys(pages), IsPdfKey)
  {
    pdfs := [];
    for p := 0 to |pages|
      invariant pdfs == Filter(ListedKeys(pages[..p]), IsPdfKey)
    {
      assert pages[..p + 1][..p] == pages[..p];
      var contents := pages[p].GetOr([]);
      ghost var before := ListedKeys(pages[..p]);
      assert before + contents[..0] == before;
      for j := 0 to |contents|
        invariant pdfs == Filter(before + contents[..j], IsPdfKey)
      {
        assert before + contents[..j + 1] == (before + contents[..j]) + [contents[j]];
        FilterSnoc(before + contents[..j], contents[j], IsPdfKey);
        var key := contents[j];
        if EndsWith(Lower(key), ".pdf") {
          pdfs := pdfs + [key];
        }
      }
      assert contents[..|contents|] == contents;
      assert ListedKeys(pages[..p + 1]) == before + contents;
    }
    assert pages[..|pages|] == pages;
  }

  /** Exactly the keys ending in ".pdf", in any case, are kept, in listing order. */
  lemma PdfKeysExactly(pages: seq<Option<seq<string>>>, key: string)
    ensures var pdfs := Filter(ListedKeys(pages), IsPdfKey);
      (key in pdfs <==> key in ListedKeys(pages) && EndsWith(Lower(key), ".pdf")) &&
      Subsequence(pdfs, ListedKeys(pages))
  {
    FilterMember(ListedKeys(pages), IsPdfKey, key);
    FilterSubsequence(ListedKeys(pages), IsPdfKey);
  }

  // ---------------------------------------------------------------- chunk names

  /** The chunk's `doc_id`: its metadata's, or the PDF key's final component. */
  function ChunkDocId(metadataDocId: Option<string>, pdfKey: string): string {
    metadataDocId.GetOr(Basename(pdfKey))
  }

  /** `{base_name}_chunk_{index:03d}` with spaces of the base name replaced by "_". */
  function ChunkName(docId: string, index: nat): string {
    ChunkBaseName(docId) + "_chunk_" + ZeroPad(index, 3)
  }

  /** The document part of a chunk's name: its final path component without extension,
      spaces replaced by "_". */
  function ChunkBaseName(docId: string): (base: string)
    ensures ' ' !in base
  {
    var r := ReplaceChar(SplitextRoot(Basename(docId)), ' ', '_');
    assert forall i :: 0 <= i < |r| ==> r[i] != ' ';
    r
  }

  function ChunkMetaKey(docId: string, index: nat): string {
    ChunkName(docId, index) + ".metadata.json"
  }

  /** The keys `upload_chunk` writes for one chunk: its text object and its metadata. */
  function ChunkKeys(docId: string, index: nat): (string, string) {
    (ChunkName(docId, index), ChunkMetaKey(docId, index))
  }

  /** The name has no space; it ends with the index written with at least three digits,
      and the index can be read back from it. */
  lemma ChunkNameShape(docId: string, index: nat)
    ensures var name := ChunkName(docId, index);
      var digits := name[|ChunkBaseName(docId)| + 7..];
      ' ' !in name && StartsWith(name, ChunkBaseName(docId) + "_chunk_") && |digits| >= 3 &&
      (forall i :: 0 <= i < |digits| ==> IsDigit(digits[i])) && DigitsValue(digits) == index
  {
    var base := ChunkBaseName(docId);
    PaddedNameShape(base, index);
    assert ChunkName(docId, index) == base + "_chunk_" + ZeroPad(index, 3);
  }

  /** The shape of `base + "_chunk_" + ZeroPad(index, 3)` for any base without spaces. */
  lemma PaddedNameShape(base: string, index: nat)
    requires ' ' !in base
    ensures var name := base + "_chunk_" + ZeroPad(index, 3);
      var digits := name[|base| + 7..];
      ' ' !in name && StartsWith(name, base + "_chunk_") && |digits| >= 3 &&
      (forall i :: 0 <= i < |digits| ==> IsDigit(digits[i])) && DigitsValue(digits) == index
  {
    var prefix := base + "_chunk_";
    assert ' ' !in prefix by {
      forall i | 0 <= i < |prefix| ensures prefix[i] != ' ' {
        if i < |base| { assert prefix[i] == base[i]; }
      }
    }
    var pad := ZeroPad(index, 3);
    ZeroPadValue(index, 3);
    NoSpaceConcat(prefix, pad);
  }

  lemma NoSpaceConcat(prefix: string, digits: string)
    requires ' ' !in prefix
    requires forall i :: 0 <= i < |digits| ==> IsDigit(digits[i])
    ensures var name := prefix + digits;
      ' ' !in name && StartsWith(name, prefix) && name[|prefix|..] == digits
  {
    var name := prefix + digits;
    assert name[..|prefix|] == prefix;
    assert name[|prefix|..] == digits;
    forall i | 0 <= i < |name|
      ensures name[i] != ' '
    {
      if i >= |prefix| {
        assert name[i] == digits[i - |prefix|];
        assert IsDigit(digits[i - |prefix|]);
      } else {
        assert name[i] == prefix[i];
      }
    }
  }

  /** The chunks of one document get distinct names, so distinct metadata keys. */
  lemma ChunkNamesDistinct(docId: string, i: nat, j: nat)
    requires ChunkName(docId, i) == ChunkName(docId, j)
    ensures i == j
  {
    ChunkNameShape(docId, i);
    ChunkNameShape(docId, j);
  }

  // ---------------------------------------------------------------- get_metadata

  /** The fields of a metadata.json that `get_metadata` reads. */
  datatype Attributes = Attributes(url: Option<string>, sourceId: Option<string>)
  datatype MetadataFile = MetadataFile(sourceUrl: Option<string>, url: Option<string>,
                                       metadataAttributes: Option<Attributes>)

  predicate Truthy(v: Option<string>) { v.Some? && v.value != "" }

  /** Index of the first truthy candidate, |candidates| when there is none. */
  function FirstTruthy(candidates: seq<Option<string>>): (k: nat)
    ensures k <= |candidates|
    ensures forall i :: 0 <= i < k ==> !Truthy(candidates[i])
    ensures k < |candidates| ==> Truthy(candidates[k])
  {
    if candidates == [] then 0
    else if Truthy(candidates[0]) then 0
    else
      var k := FirstTruthy(candidates[1..]);
      assert forall i :: 1 <= i < k + 1 ==> candidates[i] == candidates[1..][i - 1];
      1 + k
  }

  /** Python's `a or b or ... or default`. */
  function OrElse(candidates: seq<Option<string>>, default: string): string {
    var k := FirstTruthy(candidates);
    if k < |candidates| then candidates[k].value else default
  }

  /** `get_metadata`: (source_url, source_id), "n/a" for what is missing or unreadable. */
  function GetMetadata(file: Option<MetadataFile>): (string, string) {
    match file
    case None => ("n/a", "n/a")
    case Some(data) =>
      var meta := data.metadataAttributes.GetOr(Attributes(None, None));
      (OrElse([data.sourceUrl, data.url, meta.url], "n/a"), OrElse([meta.sourceId], "n/a"))
  }

  /** The source URL is the first non-empty of source_url, url and metadataAttributes.url,
      else "n/a"; the source id is metadataAttributes.sourceId when non-empty, else "n/a". */
  lemma MetadataFallback(data: MetadataFile)
    ensures var meta := data.metadataAttributes.GetOr(Attributes(None, None));
      var (sourceUrl, sourceId) := GetMetadata(Some(data));
      sourceUrl == (if Truthy(data.sourceUrl) then data.sourceUrl.value
                    else if Truthy(data.url) then data.url.value
                    else if Truthy(meta.url) then meta.url.value
                    else "n/a") &&
      sourceId == (if Truthy(meta.sourceId) then meta.sourceId.value else "n/a")
  {
    var meta := data.metadataAttributes.GetOr(Attributes(None, None));
    var cs := [data.sourceUrl, data.url, meta.url];
    var k := FirstTruthy(cs);
    assert cs[0] == data.sourceUrl && cs[1] == data.url && cs[2] == meta.url;
    assert [meta.sourceId][0] == meta.sourceId;
  }

  // ---------------------------------------------------------------- upload status

  /** The summary logged for one PDF. */
  datatype Summary = Summary(chunksExtracted: nat, chunksUploaded: nat, status: string)

  /** Number of indices below `n` whose upload succeeds. */
  function CountSucceeded(n: nat, uploadSucceeds: nat -> bool): nat {
    if n == 0 then 0
    else CountSucceeded(n - 1, uploadSucceeds) + (if uploadSucceeds(n - 1) then 1 else 0)
  }

  /** `process_and_upload_pdf` after `get_metadata`: the chunk metadata's doc ids are
      given (None when a chunk has none), and None stands for a failed extraction. It
      returns the summary and the (chunk, metadata) keys of every upload attempted. */
  method ProcessAndUploadPdf(pdfKey: string, chunks: Option<seq<Option<string>>>,
                             uploadSucceeds: nat -> bool)
    returns (summary: Summary, keys: seq<(string, string)>)
    ensures chunks.None? ==> summary == Summary(0, 0, "failed") && keys == []
    ensures chunks.Some? ==>
      var cs := chunks.value;
      summary.chunksExtracted == |cs| &&
      summary.chunksUploaded == CountSucceeded(|cs|, uploadSucceeds) &&
      summary.status == (if summary.chunksUploaded == |cs| then "success" else "partial") &&
      |keys| == |cs| &&
      forall i :: 0 <= i < |cs| ==> keys[i] == ChunkKeys(ChunkDocId(cs[i], pdfKey), i)
  {
    if chunks.None? {
      return Summary(0, 0, "failed"), [];
    }
    var cs := chunks.value;
    keys := seq(|cs|, i requires 0 <= i < |cs| => ChunkKeys(ChunkDocId(cs[i], pdfKey), i));
    var uploaded := UploadChunks(cs, uploadSucceeds);
    var status := if uploaded == |chunks.value| then "success" else "partial";
    summary := Summary(|chunks.value|, uploaded, status);
  }

  /** The upload loop: one attempt per chunk, counting the successes. */
  method UploadChunks(cs: seq<Option<string>>, uploadSucceeds: nat -> bool) returns (uploaded: nat)
    ensures uploaded == CountSucceeded(|cs|, uploadSucceeds)
  {
    uploaded := 0;
    for i := 0 to |cs|
      invariant uploaded == CountSucceeded(i, uploadSucceeds)
    {
      if uploadSucceeds(i) {
        uploaded := uploaded + 1;
      }
    }
  }

  /** At most every chunk is uploaded, and all are exactly when every upload succeeds. */
  lemma {:induction false} CountSucceededBounds(n: nat, uploadSucceeds: nat -> bool)
    ensures CountSucceeded(n, uploadSucceeds) <= n
    ensures CountSucceeded(n, uploadSucceeds) == n <==> forall i :: 0 <= i < n ==> uploadSucceeds(i)
  {
    if n > 0 {
      CountSucceededBounds(n - 1, uploadSucceeds);
    }
  }
}
