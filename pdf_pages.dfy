/**
 * Chunk records and the page-range resolver `get_pages_for_chunk` of
 * pdf_chunking/pdfChunker.py (two identical copies, in `chunk_document` and in
 * `chunk_document_wpam`).
 */
module PdfPages {
  import opened Wrappers
  import opened Text
  import opened PdfMarkup
  import opened Extremes

  /** One `(line_text, page_num)` entry of the line→page index. */
  datatype PageLine = PageLine(text: string, page: int)

  /** The "metadata" dict of a raw chunk; statute chunks carry no subheading. */
  datatype ChunkMeta = ChunkMeta(docId: string, heading: string, subheading: Option<string>,
                                 startPage: int, endPage: int)

  /** A raw chunk: its "text" and its "metadata". */
  datatype Chunk = Chunk(text: string, meta: ChunkMeta)

  /** A value of a JSON-like metadata dict: a string or an integer. */
  datatype MetaValue = Str(s: string) | Num(n: int)

  /** A flowchart chunk as the structurer would hand it over: its "text" and its
      "metadata" dict (the flowchart extraction itself is not modelled). */
  datatype Flowchart = Flowchart(text: string, metadata: map<string, MetaValue>)

  /** `set([clean_line(l) for l in chunk_lines if l.strip()])`. */
  function LineSet(chunkLines: seq<string>): set<string>
  {
    if chunkLines == [] then {}
    else
      var n := |chunkLines| - 1;
      LineSet(chunkLines[..n]) + (if Strip(chunkLines[n]) != "" then {CleanLine(chunkLines[n])} else {})
  }

  /** Does the index entry's cleaned text equal one of the cleaned chunk lines? */
  function InLineSet(lineSet: set<string>): PageLine -> bool
  {
    (e: PageLine) => CleanLine(e.text) in lineSet
  }

  /** Pages of the index entries that `keep` selects, in index order. */
  function MatchedPages(mapping: seq<PageLine>, keep: PageLine -> bool): (r: seq<int>)
    ensures |r| <= |mapping|
  {
    if mapping == [] then []
    else
      var n := |mapping| - 1;
      MatchedPages(mapping[..n], keep) + (if keep(mapping[n]) then [mapping[n].page] else [])
  }

  /** A page is matched exactly when some selected index entry lies on it. */
  lemma {:induction false} MatchedPagesMember(mapping: seq<PageLine>, keep: PageLine -> bool, p: int)
    ensures p in MatchedPages(mapping, keep) <==>
      exists i :: 0 <= i < |mapping| && mapping[i].page == p && keep(mapping[i])
  {
    if mapping != [] {
      var n := |mapping| - 1;
      var prefix := mapping[..n];
      MatchedPagesMember(prefix, keep, p);
      if p in MatchedPages(mapping, keep) {
        if p in MatchedPages(prefix, keep) {
          var i :| 0 <= i < n && prefix[i].page == p && keep(prefix[i]);
          assert mapping[i] == prefix[i];
        } else {
          assert mapping[n].page == p && keep(mapping[n]);
        }
      } else {
        forall i | 0 <= i < |mapping| && mapping[i].page == p
          ensures !keep(mapping[i])
        {
          if i < n {
            assert mapping[i] == prefix[i];
          }
        }
      }
    }
  }

  /** The (start, end) page pair of a chunk: the smallest and largest page of an index
      entry whose cleaned text equals a cleaned non-blank chunk line, or (1, 1) when no
      entry matches. */
  function PagesFor(chunkLines: seq<string>, mapping: seq<PageLine>): (r: (int, int))
    ensures r.0 <= r.1
  {
    var ps := MatchedPages(mapping, InLineSet(LineSet(chunkLines)));
    if ps == [] then (1, 1) else (SeqMin(ps), SeqMax(ps))
  }

  /** The range is (1, 1) when no index entry matches, and otherwise the least and the
      greatest matched page. */
  lemma PagesForRange(chunkLines: seq<string>, mapping: seq<PageLine>)
    ensures var r := PagesFor(chunkLines, mapping);
      var ps := MatchedPages(mapping, InLineSet(LineSet(chunkLines)));
      (ps == [] ==> r == (1, 1)) &&
      (ps != [] ==> r.0 in ps && r.1 in ps && forall p :: p in ps ==> r.0 <= p <= r.1)
  {
  }

  /** `get_pages_for_chunk`: collect the pages of matching index entries into a set. */
  method GetPagesForChunk(chunkLines: seq<string>, mapping: seq<PageLine>) returns (startPage: int, endPage: int)
    ensures (startPage, endPage) == PagesFor(chunkLines, mapping)
  {
    var pages: set<int> := {};
    var lineSet := LineSet(chunkLines);
    var i := 0;
    while i < |mapping|
      invariant i <= |mapping|
      invariant forall p :: p in pages ==> p in MatchedPages(mapping[..i], InLineSet(lineSet))
      invariant forall p :: p in MatchedPages(mapping[..i], InLineSet(lineSet)) ==> p in pages
    {
      var cleaned := CleanLine(mapping[i].text);
      assert cleaned in lineSet <==> InLineSet(lineSet)(mapping[i]);
      if cleaned in lineSet {
        pages := pages + {mapping[i].page};
      }
      assert mapping[..i + 1][..i] == mapping[..i];
      i := i + 1;
    }
    assert mapping[..i] == mapping;
    if pages == {} {
      startPage, endPage := 1, 1;
    } else {
      startPage, endPage := SetMinMax(pages);
    }
    SameExtremes(pages, MatchedPages(mapping, InLineSet(lineSet)), startPage, endPage);
  }
}
