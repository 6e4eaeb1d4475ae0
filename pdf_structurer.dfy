/**
 * The structurer `process_document` of pdf_chunking/pdfChunker.py: it turns the pages of
 * an analysed document into the line→page index and the list of title blocks.
 *
 * The layout linearizer is not modelled: each page carries the text it renders in the
 * two configurations the code chooses between (plain for statutes, tagged otherwise).
 */
module PdfStructurer {
  import opened Wrappers
  import opened Text
  import opened PdfMarkup
  import opened PdfPages

  /** A page: its number, its plain rendering and its rendering with layout tags. */
  datatype Page = Page(pageNum: int, plainText: string, taggedText: string)

  /** Statute and administrative-code files get the plain rendering and no title split. */
  predicate IsStatuteFile(localPdfPath: string) {
    var name := Lower(Basename(localPdfPath));
    Contains(name, "wi-admin") || Contains(name, "wi-statute")
  }

  function PageText(page: Page, statute: bool): string {
    if statute then page.plainText else page.taggedText
  }

  /** `[x.strip() for x in page_text.split("\n") if x.strip()]`. */
  function PageLines(text: string): seq<string> {
    StrippedNonEmpty(Split(text, '\n'))
  }

  /** The stripped non-blank lines of every page, page after page. */
  function PagesLines(pages: seq<Page>, statute: bool): (r: seq<seq<string>>)
    ensures |r| == |pages|
  {
    seq(|pages|, i requires 0 <= i < |pages| => PageLines(PageText(pages[i], statute)))
  }

  function PageNums(pages: seq<Page>): (r: seq<int>)
    ensures |r| == |pages|
  {
    seq(|pages|, i requires 0 <= i < |pages| => pages[i].pageNum)
  }

  function PageEntries(lines: seq<string>, pageNum: int): seq<PageLine> {
    seq(|lines|, k requires 0 <= k < |lines| => PageLine(lines[k], pageNum))
  }

  lemma PageEntriesSnoc(lines: seq<string>, j: nat, pageNum: int)
    requires j < |lines|
    ensures PageEntries(lines[..j + 1], pageNum) == PageEntries(lines[..j], pageNum) + [PageLine(lines[j], pageNum)]
  {
  }

  /** The line→page index: one entry per line of each page, tagged with the page number. */
  function LineIndex(pagesLines: seq<seq<string>>, nums: seq<int>): seq<PageLine>
    requires |pagesLines| == |nums|
  {
    if nums == [] then []
    else
      var n := |nums| - 1;
      LineIndex(pagesLines[..n], nums[..n]) + PageEntries(pagesLines[n], nums[n])
  }

  lemma LineIndexSnoc(pagesLines: seq<seq<string>>, nums: seq<int>, i: nat)
    requires |pagesLines| == |nums| && i < |nums|
    ensures LineIndex(pagesLines[..i + 1], nums[..i + 1])
         == LineIndex(pagesLines[..i], nums[..i]) + PageEntries(pagesLines[i], nums[i])
  {
    assert pagesLines[..i + 1][..i] == pagesLines[..i] && nums[..i + 1][..i] == nums[..i];
  }

  /** The title blocks: the joined text as one block for statutes, else split at "<titles>". */
  function HeaderSplit(text: string, statute: bool): seq<string> {
    if statute then [text] else SplitOn(text, "<titles>")
  }

  /** The inner loop of `process_document`: one index entry per line of the page. */
  method AppendPageEntries(mapping: seq<PageLine>, lines: seq<string>, pageNum: int) returns (r: seq<PageLine>)
    ensures r == mapping + PageEntries(lines, pageNum)
  {
    r := mapping;
    var j := 0;
    while j < |lines|
      invariant j <= |lines|
      invariant r == mapping + PageEntries(lines[..j], pageNum)
    {
      PageEntriesSnoc(lines, j, pageNum);
      r := r + [PageLine(lines[j], pageNum)];
      j := j + 1;
    }
    assert lines[..j] == lines;
  }

  /** The loop of `process_document` over the pages: the structured lines and the index. */
  method IndexDocument(pages: seq<Page>, statute: bool) returns (structured: seq<string>, mapping: seq<PageLine>)
    ensures structured == Flatten(PagesLines(pages, statute))
    ensures mapping == LineIndex(PagesLines(pages, statute), PageNums(pages))
  {
    ghost var pls := PagesLines(pages, statute);
    ghost var nums := PageNums(pages);
    structured := [];
    mapping := [];
    var i := 0;
    while i < |pages|
      invariant i <= |pages|
      invariant structured == Flatten(pls[..i])
      invariant mapping == LineIndex(pls[..i], nums[..i])
    {
      var page := pages[i];
      var lines := PageLines(PageText(page, statute));
      assert lines == pls[i];
      mapping := AppendPageEntries(mapping, lines, page.pageNum);
      LineIndexSnoc(pls, nums, i);
      assert nums[i] == page.pageNum;
      assert mapping == LineIndex(pls[..i + 1], nums[..i + 1]);
      TakeSnoc(pls, i);
      FlattenAppend(pls[..i], pls[i]);
      structured := structured + lines;
      assert structured == Flatten(pls[..i + 1]);
      i := i + 1;
    }
    assert pls[..i] == pls && nums[..i] == nums;
  }

  /** `process_document`; the flowchart extraction is switched off in the source, so the
      flowchart list is always empty. */
  method ProcessDocument(pages: seq<Page>, localPdfPath: string)
    returns (headerSplit: seq<string>, mapping: seq<PageLine>, flowchartChunks: seq<Flowchart>)
    ensures mapping == LineIndex(PagesLines(pages, IsStatuteFile(localPdfPath)), PageNums(pages))
    ensures headerSplit == HeaderSplit(Join(Flatten(PagesLines(pages, IsStatuteFile(localPdfPath))), "\n"),
                                       IsStatuteFile(localPdfPath))
    ensures flowchartChunks == []
  {
    var statute := IsStatuteFile(localPdfPath);
    var structured;
    structured, mapping := IndexDocument(pages, statute);
    var result := Join(structured, "\n");
    if statute {
      headerSplit := [result];
    } else {
      headerSplit := SplitOn(result, "<titles>");
    }
    flowchartChunks := [];
  }

  /** The index has exactly one entry per structured line, carrying that line. */
  lemma {:induction false} IndexMatchesLines(pagesLines: seq<seq<string>>, nums: seq<int>)
    requires |pagesLines| == |nums|
    ensures |LineIndex(pagesLines, nums)| == |Flatten(pagesLines)|
    ensures forall k :: 0 <= k < |LineIndex(pagesLines, nums)| ==>
      LineIndex(pagesLines, nums)[k].text == Flatten(pagesLines)[k]
  {
    if nums != [] {
      var n := |nums| - 1;
      IndexMatchesLines(pagesLines[..n], nums[..n]);
    }
  }

  /** Every index entry lies on one of the given pages. */
  lemma {:induction false} IndexPagesExist(pagesLines: seq<seq<string>>, nums: seq<int>)
    requires |pagesLines| == |nums|
    ensures forall k :: 0 <= k < |LineIndex(pagesLines, nums)| ==> LineIndex(pagesLines, nums)[k].page in nums
  {
    if nums != [] {
      var n := |nums| - 1;
      IndexPagesExist(pagesLines[..n], nums[..n]);
      var idx := LineIndex(pagesLines, nums);
      var prev := LineIndex(pagesLines[..n], nums[..n]);
      forall k | 0 <= k < |idx|
        ensures idx[k].page in nums
      {
        if k < |prev| {
          var q := prev[k].page;
          assert q in nums[..n];
        } else {
          assert idx[k].page == nums[n];
        }
      }
    }
  }

  predicate NonDecreasing(xs: seq<int>) {
    forall i, j :: 0 <= i < j < |xs| ==> xs[i] <= xs[j]
  }

  function IndexPages(idx: seq<PageLine>): seq<int> {
    seq(|idx|, k requires 0 <= k < |idx| => idx[k].page)
  }

  /** Pages given in page order yield an index in page-then-line order. */
  lemma {:induction false} IndexInPageOrder(pagesLines: seq<seq<string>>, nums: seq<int>)
    requires |pagesLines| == |nums|
    requires NonDecreasing(nums)
    ensures NonDecreasing(IndexPages(LineIndex(pagesLines, nums)))
  {
    if nums != [] {
      var n := |nums| - 1;
      assert NonDecreasing(nums[..n]) by {
        forall a, b | 0 <= a < b < n ensures nums[..n][a] <= nums[..n][b] {
          assert nums[..n][a] == nums[a] && nums[..n][b] == nums[b];
        }
      }
      IndexInPageOrder(pagesLines[..n], nums[..n]);
      IndexPagesExist(pagesLines[..n], nums[..n]);
      var prev := LineIndex(pagesLines[..n], nums[..n]);
      var full := LineIndex(pagesLines, nums);
      var tail := PageEntries(pagesLines[n], nums[n]);
      assert full == prev + tail;
      var pidx := IndexPages(prev);
      var idx := IndexPages(full);
      forall a, b | 0 <= a < b < |idx|
        ensures idx[a] <= idx[b]
      {
        if b < |prev| {
          assert idx[a] == pidx[a] && idx[b] == pidx[b];
        } else if a < |prev| {
          assert idx[b] == tail[b - |prev|].page == nums[n];
          var q := prev[a].page;
          assert q in nums[..n];
          var k :| 0 <= k < n && nums[..n][k] == q;
          assert nums[k] == q;
        } else {
          assert idx[a] == tail[a - |prev|].page && idx[b] == tail[b - |prev|].page;
        }
      }
    }
  }

  /** Every structured line is non-empty and stripped. */
  lemma StructuredLinesStripped(pages: seq<Page>, statute: bool)
    ensures forall k :: 0 <= k < |Flatten(PagesLines(pages, statute))| ==>
      Flatten(PagesLines(pages, statute))[k] != "" && IsStripped(Flatten(PagesLines(pages, statute))[k])
  {
    var pls := PagesLines(pages, statute);
    FlattenEach(pls, (l: string) => l != "" && IsStripped(l));
  }

  /** For tagged documents the title blocks, joined back with "<titles>", are the joined
      structured lines; a statute keeps the whole text as its single block. */
  lemma HeaderSplitJoin(text: string, statute: bool)
    ensures statute ==> HeaderSplit(text, statute) == [text]
    ensures !statute ==> Join(HeaderSplit(text, statute), "<titles>") == text
  {
    SplitOnJoin(text, "<titles>");
  }
}
