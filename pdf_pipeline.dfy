/**
 * `process_pdf_from_s3` of pdf_chunking/pdfChunker.py without its I/O: the analysed pages
 * are structured, cut by the chunker the document id selects, filtered, and assembled
 * into the final records.
 *
 * The layout analysis is not modelled: its result comes in as `pages`. The file is
 * downloaded to a local path derived from the S3 key, and the structurer reads that path's
 * name. The bucket name only addresses the analysis input and is left out with it.
 */
module PdfPipeline {
  import opened Wrappers
  import opened Text
  import opened PdfPages
  import PdfStructurer
  import GenericChunker
  import StatuteChunker
  import ManualChunker
  import CleanFilter
  import opened RecordAssembler

  datatype Strategy = StatuteRules | ManualChapters | RomanHeadings

  /** The chunker switch: "wi" anywhere in the lowered id selects the statute chunker,
      before "wpam" is looked at. */
  function StrategyFor(docId: string): Strategy {
    var id := Lower(docId);
    if Contains(id, "wi") then StatuteRules
    else if Contains(id, "wpam") then ManualChapters
    else RomanHeadings
  }

  /** The path the PDF is downloaded to before analysis: "/tmp/pdf/", the key's final
      component without its extension, then ".pdf". */
  function LocalPdfPath(s3FilePath: string): string {
    "/tmp/pdf/" + SplitextRoot(Basename(s3FilePath)) + ".pdf"
  }

  /** The downloaded file's name is the key's final component with its extension replaced
      by ".pdf". */
  lemma LocalPdfName(s3FilePath: string)
    ensures Basename(LocalPdfPath(s3FilePath)) == SplitextRoot(Basename(s3FilePath)) + ".pdf"
  {
    var stem := SplitextRoot(Basename(s3FilePath));
    assert '/' !in stem && '/' !in ".pdf";
    NameInDirectory("/tmp/pdf/", stem, ".pdf");
  }

  lemma NameInDirectory(dir: string, stem: string, ext: string)
    requires dir != "" && dir[|dir| - 1] == '/' && '/' !in stem && '/' !in ext
    ensures Basename(dir + stem + ext) == stem + ext
  {
    assert dir + stem + ext == dir + (stem + ext);
    BasenameAppend(dir, stem + ext);
  }

  /** The markup switch reads the downloaded file's name and the chunker switch the key's,
      but both come from the same key: a file rendered as a statute is always cut by the
      statute chunker. */
  lemma StatuteMarkupUsesStatuteChunker(s3FilePath: string)
    ensures PdfStructurer.IsStatuteFile(LocalPdfPath(s3FilePath)) ==>
      StrategyFor(Basename(s3FilePath)) == StatuteRules
  {
    var b := Basename(s3FilePath);
    var name := Lower(SplitextRoot(b) + ".pdf");
    LocalPdfName(s3FilePath);
    if PdfStructurer.IsStatuteFile(LocalPdfPath(s3FilePath)) {
      if Contains(name, "wi-admin") {
        WordInKeyAt(b, "wi-admin");
      } else {
        WordInKeyAt(b, "wi-statute");
      }
    }
  }

  /** Either statute marker found in the downloaded file's name puts "wi" in the key's. */
  lemma WordInKeyAt(b: string, t: string)
    requires t == "wi-admin" || t == "wi-statute"
    requires Contains(Lower(SplitextRoot(b) + ".pdf"), t)
    ensures Contains(Lower(b), "wi")
  {
    assert '.' !in t && t[..2] == "wi";
    WordInKey(b, t);
  }

  /** A dot-free word of at least four characters in the downloaded file's name already
      occurs in the key's final component. */
  lemma WordInKey(b: string, t: string)
    requires |t| >= 4 && '.' !in t && Contains(Lower(SplitextRoot(b) + ".pdf"), t)
    ensures Contains(Lower(b), t[..2])
  {
    var root := SplitextRoot(b);
    var name := Lower(root + ".pdf");
    var i :| 0 <= i <= |name| && OccursAt(name, t, i);
    StemOccurrence(root, t, i);
    assert Lower(b)[i..i + 2] == name[i..i + 2];
    assert OccursAt(Lower(b), t[..2], i);
  }

  /** A dot-free word found in `stem + ".pdf"` lies inside the stem. */
  lemma StemOccurrence(stem: string, t: string, i: nat)
    requires |t| >= 4 && '.' !in t && OccursAt(Lower(stem + ".pdf"), t, i)
    ensures i + |t| <= |stem|
  {
    var name := Lower(stem + ".pdf");
    assert name[|stem|] == '.';
    if i + |t| > |stem| {
      assert false;
    }
  }

  function RawChunks(s: Strategy, headerSplit: seq<string>, file: string, mapping: seq<PageLine>): seq<Chunk> {
    match s
    case StatuteRules => StatuteChunker.StatuteChunks(mapping, Basename(file))
    case ManualChapters => ManualChunker.WpamChunks(headerSplit, Basename(file), mapping)
    case RomanHeadings => GenericChunker.Chunks(headerSplit, Basename(file), mapping)
  }

  /** The raw chunks as the filter sees them: dicts that all carry "text". */
  function Items(raw: seq<Chunk>): (r: seq<CleanFilter.Item>)
    ensures |r| == |raw| && forall i :: 0 <= i < |raw| ==> r[i] == CleanFilter.TextItem(raw[i].text)
  {
    seq(|raw|, i requires 0 <= i < |raw| => CleanFilter.TextItem(raw[i].text))
  }

  lemma KeptInRange(raw: seq<Chunk>)
    ensures InRange(CleanFilter.Kept(Items(raw)), raw)
  {
    CleanFilter.KeptIndexed(Items(raw));
  }

  /** The chunks the selected chunker cuts from the analysed pages. */
  function DocumentChunks(s3FilePath: string, pages: seq<PdfStructurer.Page>): seq<Chunk> {
    var statute := PdfStructurer.IsStatuteFile(LocalPdfPath(s3FilePath));
    var pls := PdfStructurer.PagesLines(pages, statute);
    var mapping := PdfStructurer.LineIndex(pls, PdfStructurer.PageNums(pages));
    var headerSplit := PdfStructurer.HeaderSplit(Join(Flatten(pls), "\n"), statute);
    RawChunks(StrategyFor(Basename(s3FilePath)), headerSplit, s3FilePath, mapping)
  }

  function OriginOf(s3FilePath: string, documentUrl: string, sourceId: string): Origin {
    Origin(Basename(s3FilePath), s3FilePath, documentUrl, sourceId)
  }

  /** The records of a successful run; the structurer hands over no flowcharts. */
  function PdfRecords(s3FilePath: string, documentUrl: string, sourceId: string,
                      pages: seq<PdfStructurer.Page>): seq<Record>
  {
    var raw := DocumentChunks(s3FilePath, pages);
    KeptInRange(raw);
    Records(CleanFilter.Kept(Items(raw)), raw, [], OriginOf(s3FilePath, documentUrl, sourceId))
  }

  const MissingMediaBucket: string := "MEDIA_BUCKET_NAME environment variable is not set."

  /** `process_pdf_from_s3`: fails before any work when the media bucket is not
      configured (an unset or empty variable). */
  method ProcessPdfFromS3(s3FilePath: string, documentUrl: string, sourceId: string, mediaBucketName: string,
                          pages: seq<PdfStructurer.Page>)
    returns (r: Result<seq<Record>, string>)
    ensures mediaBucketName == "" ==> r == Failure(MissingMediaBucket)
    ensures mediaBucketName != "" ==> r == Success(PdfRecords(s3FilePath, documentUrl, sourceId, pages))
  {
    if mediaBucketName == "" {
      return Failure(MissingMediaBucket);
    }
    var headerSplit, mapping, flowchartChunks := PdfStructurer.ProcessDocument(pages, LocalPdfPath(s3FilePath));
    var rawChunks := RunChunker(s3FilePath, headerSplit, mapping);
    assert rawChunks == DocumentChunks(s3FilePath, pages);
    var cleanedTextChunks, removedChunks := CleanFilter.ExtractCleanPlaintext(Items(rawChunks));
    KeptInRange(rawChunks);
    var allChunks := AssembleRecords(cleanedTextChunks, rawChunks, flowchartChunks,
                                     OriginOf(s3FilePath, documentUrl, sourceId));
    return Success(allChunks);
  }

  /** The chunker switch of `process_pdf_from_s3`, tested on the lowered document id. */
  method RunChunker(s3FilePath: string, headerSplit: seq<string>, mapping: seq<PageLine>)
    returns (rawChunks: seq<Chunk>)
    ensures rawChunks == RawChunks(StrategyFor(Basename(s3FilePath)), headerSplit, s3FilePath, mapping)
  {
    var docId := Basename(s3FilePath);
    var isStatute := Contains(Lower(docId), "wi");
    if isStatute {
      rawChunks := StatuteChunker.ChunkDocumentStatute(headerSplit, s3FilePath, mapping);
    } else if Contains(Lower(docId), "wpam") {
      rawChunks := ManualChunker.ChunkDocumentWpam(headerSplit, s3FilePath, mapping);
    } else {
      rawChunks := GenericChunker.ChunkDocument(headerSplit, s3FilePath, mapping);
    }
  }

  /** The records assembled from any raw chunks without flowcharts are the kept text
      chunks: numbered in order, counted in the total, and at least 15 words long. */
  lemma KeptRecords(raw: seq<Chunk>, o: Origin)
    requires InRange(CleanFilter.Kept(Items(raw)), raw)
    ensures var rs := Records(CleanFilter.Kept(Items(raw)), raw, [], o);
      forall i :: 0 <= i < |rs| ==>
        rs[i].chunkId == TextId(o.docId, i) &&
        "total_chunks" in rs[i].metadata && rs[i].metadata["total_chunks"] == Num(|rs|) &&
        SplitWordCount(rs[i].text) >= CleanFilter.IndexWords
  {
    var items := Items(raw);
    var kept := CleanFilter.Kept(items);
    var rs := Records(kept, raw, [], o);
    RecordsNumbered(kept, raw, [], o);
    RecordsContent(kept, raw, [], o);
    CleanFilter.KeptIndexed(items);
    forall i | 0 <= i < |rs|
      ensures SplitWordCount(rs[i].text) >= CleanFilter.IndexWords
    {
      var idx := kept[i].0;
      assert items[idx] == CleanFilter.TextItem(raw[idx].text);
      CleanFilter.KeptTextShape(raw[idx].text, kept[i].1);
    }
  }

  /** Every final record of a run is a kept text chunk: numbered in order, counted in the
      total, and at least 15 words long. */
  lemma RecordsAreKeptText(s3FilePath: string, documentUrl: string, sourceId: string,
                           pages: seq<PdfStructurer.Page>)
    ensures var rs := PdfRecords(s3FilePath, documentUrl, sourceId, pages);
      forall i :: 0 <= i < |rs| ==>
        rs[i].chunkId == TextId(Basename(s3FilePath), i) &&
        "total_chunks" in rs[i].metadata && rs[i].metadata["total_chunks"] == Num(|rs|) &&
        SplitWordCount(rs[i].text) >= CleanFilter.IndexWords
  {
    var raw := DocumentChunks(s3FilePath, pages);
    KeptInRange(raw);
    KeptRecords(raw, OriginOf(s3FilePath, documentUrl, sourceId));
  }
}
