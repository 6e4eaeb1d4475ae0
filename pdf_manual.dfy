/**
 * The manual chunker `chunk_document_wpam` of pdf_chunking/pdfChunker.py: chapter lines
 * and section-title lines open new chunks, a buffer over 1200 words is cut, chunks that
 * look like a table of contents are dropped, and afterwards a small chunk is merged with
 * its successor when both carry the same heading and the pair is short enough.
 *
 * The line pass is a left fold `Run` of `Step`, recording each flush call on a non-empty
 * buffer as a `Cut`; `CutChunks` renders a cut (or drops it). The merge pass is the
 * front-recursive `MergeSmall`, proved equal to combining the groups of `MergeGroups`.
 */
module ManualChunker {
  import opened Wrappers
  import opened Text
  import opened PdfMarkup
  import opened PdfPages

  const MaxWords: nat := 1200
  /** `min_merge_words`: only chunks with fewer words are merged. */
  const MinMergeWords: nat := 80
  /** `max_merge_total`: a merged pair has at most this many words. */
  const MaxMergeTotal: nat := 500

  // ---------------------------------------------------------------- line patterns

  /** Some spaces from `i`, at least one, then a digit: the `\s+\d+` tail of the chapter
      patterns (the space run is maximal because a digit is not a space). */
  predicate DigitAfterSpaces(s: string, i: nat)
    requires i <= |s|
  {
    var w := SpanFrom(s, i, IsSpace);
    i < w < |s| && IsDigit(s[w])
  }

  /** `chapter_pattern.match(line)` for `^Chapter\s+\d+` with re.IGNORECASE. */
  predicate IsChapterLine(line: string) {
    |line| >= 7 && Lower(line[..7]) == "chapter" && DigitAfterSpaces(line, 7)
  }

  /** `re.match(r"^Chapter\s+\d+", text)`: the same pattern, case-sensitive. */
  predicate StartsWithChapter(text: string) {
    |text| >= 7 && text[..7] == "Chapter" && DigitAfterSpaces(text, 7)
  }

  /** `section_header_pattern.match(line)` for `^[A-Z][A-Za-z\s]{3,}$`. */
  predicate IsSectionHeader(line: string) {
    |line| >= 4 && IsUpper(line[0]) && forall k :: 1 <= k < |line| ==> IsAlpha(line[k]) || IsSpace(line[k])
  }

  /** The section test: the title pattern and fewer than eight words. */
  predicate IsSectionLine(line: string) {
    IsSectionHeader(line) && SplitWordCount(line) < 8
  }

  predicate IsManualBody(line: string) {
    !IsChapterLine(line) && !IsSectionLine(line)
  }

  // ---------------------------------------------------------------- table-of-contents test

  /** `\b\d+-\d+\b` found at index `i`: a whole digit run, a dash, a whole digit run. The
      runs are maximal because the word boundaries exclude a neighbouring digit. */
  predicate PageRefAt(s: string, i: nat) {
    i < |s| && IsDigit(s[i]) && (i == 0 || !IsWordChar(s[i - 1])) &&
    var d := SpanFrom(s, i, IsDigit);
    d < |s| && s[d] == '-' &&
    var e := SpanFrom(s, d + 1, IsDigit);
    d + 1 < e && (e == |s| || !IsWordChar(s[e]))
  }

  /** `re.search(r"\b\d+-\d+\b", s)` finds something. */
  predicate HasPageRef(s: string) {
    exists i :: 0 <= i < |s| && PageRefAt(s, i)
  }

  /** The pattern read literally: digits on `[i, d)`, a dash at `d`, digits on `(d, e)`,
      and word boundaries before `i` and at `e`. */
  predicate PageRefMatch(s: string, i: nat, d: nat, e: nat) {
    i < d && d + 1 < e <= |s| &&
    (forall k :: i <= k < d ==> IsDigit(s[k])) && s[d] == '-' &&
    (forall k :: d < k < e ==> IsDigit(s[k])) &&
    (i == 0 || !IsWordChar(s[i - 1])) && (e == |s| || !IsWordChar(s[e]))
  }

  lemma PageRefIsMatch(s: string)
    ensures HasPageRef(s) <==> exists i: nat, d: nat, e: nat :: PageRefMatch(s, i, d, e)
  {
    if exists i: nat, d: nat, e: nat :: PageRefMatch(s, i, d, e) {
      var i: nat, d: nat, e: nat :| PageRefMatch(s, i, d, e);
      MatchIsPageRef(s, i, d, e);
    }
    if HasPageRef(s) {
      var i :| 0 <= i < |s| && PageRefAt(s, i);
      PageRefIsMatchAt(s, i);
    }
  }

  lemma MatchIsPageRef(s: string, i: nat, d: nat, e: nat)
    requires PageRefMatch(s, i, d, e)
    ensures PageRefAt(s, i)
  {
    SpanFromAt(s, i, IsDigit, d);
    SpanFromAt(s, d + 1, IsDigit, e);
  }

  lemma PageRefIsMatchAt(s: string, i: nat)
    requires PageRefAt(s, i)
    ensures PageRefMatch(s, i, SpanFrom(s, i, IsDigit), SpanFrom(s, SpanFrom(s, i, IsDigit) + 1, IsDigit))
  {
  }

  /** `sum(1 for l in lines if re.search(r"\b\d+-\d+\b", l))`. */
  function PageRefLines(lines: seq<string>): (n: nat)
    ensures n <= |lines|
  {
    if lines == [] then 0
    else PageRefLines(lines[..|lines| - 1]) + (if HasPageRef(lines[|lines| - 1]) then 1 else 0)
  }

  predicate HasTocKeyword(text: string) {
    var lowered := Lower(text);
    Contains(lowered, "table of contents") || Contains(lowered, "appendix") ||
    Contains(lowered, "glossary") || Contains(lowered, "revisions")
  }

  /** `is_probably_toc`. The ratio test `page_refs / max(1, len(lines)) > 0.3` is written
      as `10 * page_refs > 3 * len(lines)`, which it equals at ordinary line counts. */
  predicate IsProbablyToc(text: string) {
    if HasTocKeyword(text) then true
    else
      var lines := SplitLines(text);
      if |lines| < 2 then false
      else if 10 * PageRefLines(lines) > 3 * |lines| then true
      else StartsWithChapter(text) && HasPageRef(text)
  }

  /** Without a keyword, a text of one line is never taken for a table of contents. */
  lemma SingleLineNotToc(text: string)
    requires !HasTocKeyword(text)
    requires forall k :: 0 <= k < |text| ==> !IsLineBreak(text[k])
    ensures !IsProbablyToc(text)
  {
    if text != "" {
      assert FirstLineBreak(text) == |text|;
    }
  }

  /** Without a keyword, several lines that are all page references are a table of contents. */
  lemma PageRefLinesAreToc(text: string)
    requires !HasTocKeyword(text)
    requires |SplitLines(text)| >= 2
    requires forall k :: 0 <= k < |SplitLines(text)| ==> HasPageRef(SplitLines(text)[k])
    ensures IsProbablyToc(text)
  {
    AllPageRefLines(SplitLines(text));
  }

  lemma {:induction false} AllPageRefLines(lines: seq<string>)
    requires forall k :: 0 <= k < |lines| ==> HasPageRef(lines[k])
    ensures PageRefLines(lines) == |lines|
  {
    if lines != [] {
      var n := |lines| - 1;
      assert forall k :: 0 <= k < n ==> lines[..n][k] == lines[k];
      AllPageRefLines(lines[..n]);
    }
  }

  // ---------------------------------------------------------------- the line pass

  /** One call of `flush_chunk` on a non-empty buffer, with the chapter and section then
      in force (None before the first one). */
  datatype Cut = Cut(chapter: Option<string>, section: Option<string>, buffer: seq<string>)

  /** The loop state: `current_chapter`, `current_section`, `buffer`, and the cuts so far. */
  datatype State = State(chapter: Option<string>, section: Option<string>, buffer: seq<string>, cuts: seq<Cut>)

  function CutOf(buffer: seq<string>, chapter: Option<string>, section: Option<string>): seq<Cut> {
    if buffer == [] then [] else [Cut(chapter, section, buffer)]
  }

  /** One iteration of the inner loop on a non-empty cleaned line. */
  function Step(st: State, line: string): State {
    if IsChapterLine(line) then
      State(Some(line), None, [], st.cuts + CutOf(st.buffer, st.chapter, st.section))
    else if IsSectionLine(line) then
      State(st.chapter, Some(line), [], st.cuts + CutOf(st.buffer, st.chapter, st.section))
    else
      var buffer := st.buffer + [line];
      if LinesWordRuns(buffer) > MaxWords then
        State(st.chapter, st.section, [], st.cuts + [Cut(st.chapter, st.section, buffer)])
      else
        State(st.chapter, st.section, buffer, st.cuts)
  }

  function Run(lines: seq<string>): State {
    if lines == [] then State(None, None, [], [])
    else Step(Run(lines[..|lines| - 1]), lines[|lines| - 1])
  }

  lemma RunSnoc(lines: seq<string>, line: string)
    ensures Run(lines + [line]) == Step(Run(lines), line)
  {
    assert (lines + [line])[..|lines|] == lines;
  }

  function Final(st: State): seq<Cut> {
    st.cuts + CutOf(st.buffer, st.chapter, st.section)
  }

  function BodyLines(cuts: seq<Cut>): seq<string> {
    if cuts == [] then [] else BodyLines(cuts[..|cuts| - 1]) + cuts[|cuts| - 1].buffer
  }

  lemma BodyLinesSnoc(cuts: seq<Cut>, c: Cut)
    ensures BodyLines(cuts + [c]) == BodyLines(cuts) + c.buffer
  {
    assert (cuts + [c])[..|cuts|] == cuts;
  }

  lemma BodyLinesCutOf(cuts: seq<Cut>, buffer: seq<string>, chapter: Option<string>, section: Option<string>)
    ensures BodyLines(cuts + CutOf(buffer, chapter, section)) == BodyLines(cuts) + buffer
  {
    if buffer == [] {
      assert cuts + CutOf(buffer, chapter, section) == cuts;
    } else {
      BodyLinesSnoc(cuts, Cut(chapter, section, buffer));
    }
  }

  /** One step hands the line on (to the buffer or to a cut) exactly when it is a body line. */
  lemma StepConservesLines(st: State, line: string)
    ensures BodyLines(Step(st, line).cuts) + Step(st, line).buffer ==
      BodyLines(st.cuts) + st.buffer + (if IsManualBody(line) then [line] else [])
  {
    BodyLinesCutOf(st.cuts, st.buffer, st.chapter, st.section);
    if !IsChapterLine(line) && !IsSectionLine(line) {
      var buffer := st.buffer + [line];
      if LinesWordRuns(buffer) > MaxWords {
        BodyLinesSnoc(st.cuts, Cut(st.chapter, st.section, buffer));
      }
    }
  }

  lemma {:induction false} RunConservesLines(lines: seq<string>)
    ensures BodyLines(Run(lines).cuts) + Run(lines).buffer == Filter(lines, IsManualBody)
  {
    if lines != [] {
      var n := |lines| - 1;
      var xs := lines[..n];
      var line := lines[n];
      RunConservesLines(xs);
      assert lines == xs + [line];
      RunSnoc(xs, line);
      FilterSnoc(xs, line, IsManualBody);
      StepConservesLines(Run(xs), line);
    }
  }

  /** Every line that is neither a chapter nor a section line is handed to exactly one
      flush call, in input order. */
  lemma ConservesLines(lines: seq<string>)
    ensures BodyLines(Final(Run(lines))) == Filter(lines, IsManualBody)
  {
    RunConservesLines(lines);
    var st := Run(lines);
    BodyLinesCutOf(st.cuts, st.buffer, st.chapter, st.section);
  }

  // ---------------------------------------------------------------- rendering a cut


  /** `[clean_line(b) for b in buffer if isinstance(b, str) and b]`. */
  function ReClean(buffer: seq<string>): seq<string> {
    var kept := Filter(buffer, NonEmpty);
    seq(|kept|, k requires 0 <= k < |kept| => CleanLine(kept[k]))
  }

  /** Python's `x or ""` on an optional string. */
  function OrEmpty(o: Option<string>): string { o.GetOr("") }

  /** The chunk text: the stripped "chapter\nsection" heading, when non-empty, then the
      re-cleaned lines, joined by newlines and stripped. */
  function CutText(c: Cut): string {
    var body := ReClean(c.buffer);
    var heading := Strip(OrEmpty(c.chapter) + "\n" + OrEmpty(c.section));
    Strip(Join(if heading != "" then [heading] + body else body, "\n"))
  }

  /** The chunk of a cut, or nothing when its text is empty or looks like a table of contents. */
  function CutChunks(c: Cut, docId: string, mapping: seq<PageLine>): (r: seq<Chunk>)
    ensures |r| <= 1
  {
    var text := CutText(c);
    if text == "" || IsProbablyToc(text) then []
    else
      var chapter := OrEmpty(c.chapter);
      var section := OrEmpty(c.section);
      var pages := PagesFor(ReClean(c.buffer), mapping);
      [Chunk(text, ChunkMeta(docId, if chapter != "" then chapter else "Untitled",
                             if section != "" then Some(section) else None, pages.0, pages.1))]
  }

  /** A cut yields a chunk exactly when its text is non-empty and not a table of contents;
      the chunk carries that text and an ordered page range. */
  lemma CutChunksOk(c: Cut, docId: string, mapping: seq<PageLine>)
    ensures var r := CutChunks(c, docId, mapping);
      (r == [] <==> CutText(c) == "" || IsProbablyToc(CutText(c))) &&
      (r != [] ==> r[0].text == CutText(c) && r[0].meta.startPage <= r[0].meta.endPage)
  {
  }

  function RenderCuts(cuts: seq<Cut>, docId: string, mapping: seq<PageLine>): seq<Chunk> {
    if cuts == [] then []
    else RenderCuts(cuts[..|cuts| - 1], docId, mapping) + CutChunks(cuts[|cuts| - 1], docId, mapping)
  }

  lemma RenderCutsAppend(cuts: seq<Cut>, gs: seq<Cut>, docId: string, mapping: seq<PageLine>)
    requires |gs| <= 1
    ensures RenderCuts(cuts + gs, docId, mapping) ==
      RenderCuts(cuts, docId, mapping) + (if gs == [] then [] else CutChunks(gs[0], docId, mapping))
  {
    if gs == [] {
      assert cuts + gs == cuts;
    } else {
      assert (cuts + gs)[..|cuts|] == cuts;
    }
  }

  /** What every emitted chunk satisfies: non-empty text that is not a table of contents,
      an ordered page range, and a heading ("Untitled" when there is no chapter). */
  predicate EmittedOk(c: Chunk) {
    c.text != "" && !IsProbablyToc(c.text) && c.meta.startPage <= c.meta.endPage && c.meta.heading != ""
  }

  /** No chunk flagged as a table of contents, and no empty chunk, is ever emitted. */
  lemma {:induction false} RenderedOk(cuts: seq<Cut>, docId: string, mapping: seq<PageLine>)
    ensures forall k :: 0 <= k < |RenderCuts(cuts, docId, mapping)| ==> EmittedOk(RenderCuts(cuts, docId, mapping)[k])
  {
    if cuts != [] {
      var n := |cuts| - 1;
      RenderedOk(cuts[..n], docId, mapping);
      var prev := RenderCuts(cuts[..n], docId, mapping);
      var last := CutChunks(cuts[n], docId, mapping);
      CutChunksOk(cuts[n], docId, mapping);
      forall k | 0 <= k < |prev + last| ensures EmittedOk((prev + last)[k]) {
        if k < |prev| { assert (prev + last)[k] == prev[k]; }
        else { assert (prev + last)[k] == last[0]; }
      }
    }
  }

  // ---------------------------------------------------------------- the merge pass

  /** `text.strip() + "\n\n" + next_chunk["text"].strip()`. */
  function Combined(a: Chunk, b: Chunk): string {
    Strip(a.text) + "\n\n" + Strip(b.text)
  }

  /** The word count of the combined text is the sum of the two texts' word counts: the
      stripped ends only drop whitespace and the blank-line seam holds no word character. */
  lemma CombinedWordRuns(a: Chunk, b: Chunk)
    ensures WordRuns(Combined(a, b)) == WordRuns(a.text) + WordRuns(b.text)
  {
    StripWordRuns(a.text);
    StripWordRuns(b.text);
    SeparatedRuns(Strip(a.text), "\n\n", Strip(b.text), IsWordChar);
  }

  /** A chunk merges with its successor when it is small, both share the metadata heading,
      and the combined text stays within the total (stated through `CombinedWordRuns` as the
      sum of the two counts; `CanMergeIsCombinedTest` gives the test on the combined text). */
  predicate CanMerge(a: Chunk, b: Chunk) {
    WordRuns(a.text) < MinMergeWords && a.meta.heading == b.meta.heading &&
    WordRuns(a.text) + WordRuns(b.text) <= MaxMergeTotal
  }

  /** `CanMerge` is exactly the merge test of the loop, which counts the words of the
      combined text. */
  lemma CanMergeIsCombinedTest(a: Chunk, b: Chunk)
    ensures CanMerge(a, b) <==>
      WordRuns(a.text) < MinMergeWords && a.meta.heading == b.meta.heading &&
      WordRuns(Combined(a, b)) <= MaxMergeTotal
  {
    CombinedWordRuns(a, b);
  }

  /** The merged record: the combined text, the first chunk's metadata, the second's end page. */
  function MergePair(a: Chunk, b: Chunk): Chunk {
    Chunk(Combined(a, b), a.meta.(endPage := b.meta.endPage))
  }

  function MergeSmall(cs: seq<Chunk>): seq<Chunk>
    decreases |cs|
  {
    if cs == [] then []
    else if |cs| >= 2 && CanMerge(cs[0], cs[1]) then [MergePair(cs[0], cs[1])] + MergeSmall(cs[2..])
    else [cs[0]] + MergeSmall(cs[1..])
  }

  /** `MergeSmall` on a suffix, unfolded once. */
  lemma MergeSmallAt(cs: seq<Chunk>, i: nat)
    requires i < |cs|
    ensures i + 1 < |cs| && CanMerge(cs[i], cs[i + 1]) ==>
      MergeSmall(cs[i..]) == [MergePair(cs[i], cs[i + 1])] + MergeSmall(cs[i + 2..])
    ensures !(i + 1 < |cs| && CanMerge(cs[i], cs[i + 1])) ==>
      MergeSmall(cs[i..]) == [cs[i]] + MergeSmall(cs[i + 1..])
  {
    assert cs[i..][0] == cs[i];
    if i + 1 < |cs| {
      assert cs[i..][1] == cs[i + 1];
      assert cs[i..][2..] == cs[i + 2..];
    }
    assert cs[i..][1..] == cs[i + 1..];
  }

  /** `len(re.findall(r"\w+", combined))` for the combined text of two chunks. */
  method CombinedWordCount(a: Chunk, b: Chunk) returns (n: nat)
    ensures n == WordRuns(a.text) + WordRuns(b.text)
  {
    var combined := Combined(a, b);
    CombinedWordRuns(a, b);
    n := WordRuns(combined);
  }

  /** One pass of the merge loop's body at index `i`: the record it appends and how many
      input chunks it consumes (two when `chunks[i]` merged with its successor). */
  method MergeNext(chunks: seq<Chunk>, i: nat) returns (next: Chunk, used: nat)
    requires i < |chunks|
    ensures 1 <= used <= 2 && i + used <= |chunks|
    ensures MergeSmall(chunks[i..]) == [next] + MergeSmall(chunks[i + used..])
  {
    MergeSmallAt(chunks, i);
    var chunk := chunks[i];
    var text := chunk.text;
    var wordCount := WordRuns(text);
    if wordCount < MinMergeWords && i + 1 < |chunks| {
      var nextChunk := chunks[i + 1];
      var sameHeading := chunk.meta.heading == nextChunk.meta.heading;
      var combinedWords := CombinedWordCount(chunk, nextChunk);
      if sameHeading && combinedWords <= MaxMergeTotal {
        return Chunk(Combined(chunk, nextChunk), chunk.meta.(endPage := nextChunk.meta.endPage)), 2;
      }
    }
    return chunk, 1;
  }

  lemma AppendStep<T>(done: seq<T>, x: T, rest: seq<T>, whole: seq<T>)
    requires done + ([x] + rest) == whole
    ensures (done + [x]) + rest == whole
  {
    assert (done + [x]) + rest == done + ([x] + rest);
  }

  /** The merge loop of `chunk_document_wpam`. */
  method MergeSmallChunks(chunks: seq<Chunk>) returns (merged: seq<Chunk>)
    ensures merged == MergeSmall(chunks)
  {
    merged := [];
    var i := 0;
    assert chunks[0..] == chunks;
    while i < |chunks|
      invariant i <= |chunks|
      invariant merged + MergeSmall(chunks[i..]) == MergeSmall(chunks)
      decreases |chunks| - i
    {
      var next, used := MergeNext(chunks, i);
      AppendStep(merged, next, MergeSmall(chunks[i + used..]), MergeSmall(chunks));
      merged := merged + [next];
      i := i + used;
    }
    assert chunks[i..] == [];
    assert merged + MergeSmall(chunks[i..]) == merged;
  }

  /** Sizes of the merge groups: a pair where the merge happened, a single chunk otherwise. */
  function MergeGroups(cs: seq<Chunk>): (r: seq<seq<Chunk>>)
    ensures forall k :: 0 <= k < |r| ==> 1 <= |r[k]| <= 2
    decreases |cs|
  {
    if cs == [] then []
    else if |cs| >= 2 && CanMerge(cs[0], cs[1]) then [cs[..2]] + MergeGroups(cs[2..])
    else [cs[..1]] + MergeGroups(cs[1..])
  }

  function CombineGroup(g: seq<Chunk>): Chunk
    requires 1 <= |g| <= 2
  {
    if |g| == 1 then g[0] else MergePair(g[0], g[1])
  }

  lemma FlattenCons<T>(x: seq<T>, xs: seq<seq<T>>)
    ensures Flatten([x] + xs) == x + Flatten(xs)
  {
    FlattenConcat([x], xs);
    assert Flatten([x]) == Flatten([x][..0]) + x;
    assert [x][..0] == [];
  }

  /** The groups cut the chunks into consecutive pieces, so every chunk lands in exactly
      one output chunk, in order. */
  lemma {:induction false} MergeGroupsPartition(cs: seq<Chunk>)
    ensures Flatten(MergeGroups(cs)) == cs
    decreases |cs|
  {
    if cs != [] {
      var n := if |cs| >= 2 && CanMerge(cs[0], cs[1]) then 2 else 1;
      var rest := MergeGroups(cs[n..]);
      MergeGroupsPartition(cs[n..]);
      assert MergeGroups(cs) == [cs[..n]] + rest;
      FlattenCons(cs[..n], rest);
      assert cs == cs[..n] + cs[n..];
    }
  }

  /** The first group starts with the first chunk. */
  lemma MergeGroupsHead(cs: seq<Chunk>)
    requires cs != []
    ensures MergeGroups(cs) != [] && MergeGroups(cs)[0][0] == cs[0]
  {
  }

  /** A pair is merged only when allowed. */
  lemma {:induction false} MergeGroupsPairsMerge(cs: seq<Chunk>)
    ensures forall k :: 0 <= k < |MergeGroups(cs)| && |MergeGroups(cs)[k]| == 2 ==>
      CanMerge(MergeGroups(cs)[k][0], MergeGroups(cs)[k][1])
    decreases |cs|
  {
    if cs != [] {
      var r := MergeGroups(cs);
      var n := if |cs| >= 2 && CanMerge(cs[0], cs[1]) then 2 else 1;
      var rest := MergeGroups(cs[n..]);
      MergeGroupsPairsMerge(cs[n..]);
      assert r == [cs[..n]] + rest;
      forall k | 0 <= k < |r| && |r[k]| == 2 ensures CanMerge(r[k][0], r[k][1]) {
        if k > 0 { assert r[k] == rest[k - 1]; }
      }
    }
  }

  /** A chunk stays alone only when it could not merge with its successor. */
  lemma {:induction false} MergeGroupsSinglesCannotMerge(cs: seq<Chunk>)
    ensures forall k :: 0 <= k < |MergeGroups(cs)| - 1 && |MergeGroups(cs)[k]| == 1 ==>
      !CanMerge(MergeGroups(cs)[k][0], MergeGroups(cs)[k + 1][0])
    decreases |cs|
  {
    if cs != [] {
      var r := MergeGroups(cs);
      var n := if |cs| >= 2 && CanMerge(cs[0], cs[1]) then 2 else 1;
      var rest := MergeGroups(cs[n..]);
      MergeGroupsSinglesCannotMerge(cs[n..]);
      assert r == [cs[..n]] + rest;
      if n == 1 && |cs| >= 2 {
        MergeGroupsHead(cs[1..]);
      }
      forall k | 0 <= k < |r| - 1 && |r[k]| == 1 ensures !CanMerge(r[k][0], r[k + 1][0]) {
        if k > 0 { assert r[k] == rest[k - 1] && r[k + 1] == rest[k]; }
      }
    }
  }

  /** The merge pass emits the combination of each group, in order. */
  lemma {:induction false} MergeSmallIsGroups(cs: seq<Chunk>)
    ensures |MergeSmall(cs)| == |MergeGroups(cs)|
    ensures forall k :: 0 <= k < |MergeSmall(cs)| ==> MergeSmall(cs)[k] == CombineGroup(MergeGroups(cs)[k])
    decreases |cs|
  {
    if cs != [] {
      var n := if |cs| >= 2 && CanMerge(cs[0], cs[1]) then 2 else 1;
      MergeSmallIsGroups(cs[n..]);
      var x := if n == 2 then MergePair(cs[0], cs[1]) else cs[0];
      assert MergeSmall(cs) == [x] + MergeSmall(cs[n..]);
      assert MergeGroups(cs) == [cs[..n]] + MergeGroups(cs[n..]);
      GroupsCons(MergeSmall(cs[n..]), MergeGroups(cs[n..]), x, cs[..n]);
    }
  }

  lemma GroupsCons(m: seq<Chunk>, g: seq<seq<Chunk>>, x: Chunk, grp: seq<Chunk>)
    requires 1 <= |grp| <= 2 && x == CombineGroup(grp)
    requires |m| == |g| && forall k :: 0 <= k < |g| ==> 1 <= |g[k]| <= 2
    requires forall k :: 0 <= k < |m| ==> m[k] == CombineGroup(g[k])
    ensures |[x] + m| == |[grp] + g|
    ensures forall k :: 0 <= k < |[x] + m| ==> ([x] + m)[k] == CombineGroup(([grp] + g)[k])
  {
    ImageCons(CombineGroup, m, g, x, grp);
  }

  /** Prepending an element and its image keeps a sequence the pointwise image of another. */
  lemma ImageCons<A, B>(f: A --> B, m: seq<B>, g: seq<A>, x: B, a: A)
    requires f.requires(a) && x == f(a)
    requires |m| == |g| && forall k :: 0 <= k < |g| ==> f.requires(g[k]) && m[k] == f(g[k])
    ensures |[x] + m| == |[a] + g|
    ensures forall k :: 0 <= k < |[x] + m| ==> f.requires(([a] + g)[k]) && ([x] + m)[k] == f(([a] + g)[k])
  {
    var xs, gs := [x] + m, [a] + g;
    assert forall k :: 1 <= k < |xs| ==> xs[k] == m[k - 1] && gs[k] == g[k - 1];
  }

  /** A merged record keeps the first chunk's metadata but the second chunk's end page. */
  lemma MergedPairMeta(a: Chunk, b: Chunk)
    ensures MergePair(a, b).meta.heading == a.meta.heading && MergePair(a, b).meta.subheading == a.meta.subheading
    ensures MergePair(a, b).meta.startPage == a.meta.startPage && MergePair(a, b).meta.endPage == b.meta.endPage
  {
  }

  // ---------------------------------------------------------------- the document

  function WpamChunks(headerSplit: seq<string>, docId: string, mapping: seq<PageLine>): seq<Chunk> {
    MergeSmall(RenderCuts(Final(Run(BlocksLines(headerSplit))), docId, mapping))
  }

  /** The closure `flush_chunk`. */
  method FlushCut(chunks: seq<Chunk>, buffer: seq<string>, chapter: Option<string>, section: Option<string>,
                  docId: string, mapping: seq<PageLine>) returns (r: seq<Chunk>)
    ensures buffer == [] ==> r == chunks
    ensures buffer != [] ==> r == chunks + CutChunks(Cut(chapter, section, buffer), docId, mapping)
  {
    if buffer == [] {
      return chunks;
    }
    var cleaned := ReClean(buffer);
    var chapterText := OrEmpty(chapter);
    var sectionText := OrEmpty(section);
    var heading := Strip(chapterText + "\n" + sectionText);
    var text := Strip(Join(if heading != "" then [heading] + cleaned else cleaned, "\n"));
    if text == "" || IsProbablyToc(text) {
      assert text == CutText(Cut(chapter, section, buffer));
      return chunks;
    }
    var sp, ep := GetPagesForChunk(cleaned, mapping);
    var chunk := Chunk(text, ChunkMeta(docId, if chapterText != "" then chapterText else "Untitled",
                                       if sectionText != "" then Some(sectionText) else None, sp, ep));
    ghost var c := Cut(chapter, section, buffer);
    assert text == CutText(c);
    assert CutChunks(c, docId, mapping) == [chunk];
    r := chunks + [chunk];
  }

  /** One iteration of the inner loop on a non-empty cleaned line. */
  method StepLine(chunks: seq<Chunk>, chapter: Option<string>, section: Option<string>, buffer: seq<string>,
                  line: string, docId: string, mapping: seq<PageLine>, ghost seen: seq<string>)
    returns (chunks': seq<Chunk>, chapter': Option<string>, section': Option<string>, buffer': seq<string>)
    requires var st := Run(seen);
      chapter == st.chapter && section == st.section && buffer == st.buffer &&
      chunks == RenderCuts(st.cuts, docId, mapping)
    ensures var st := Run(seen + [line]);
      chapter' == st.chapter && section' == st.section && buffer' == st.buffer &&
      chunks' == RenderCuts(st.cuts, docId, mapping)
  {
    RunSnoc(seen, line);
    ghost var cuts := Run(seen).cuts;
    chapter', section', buffer' := chapter, section, buffer;
    if IsChapterLine(line) {
      RenderCutsAppend(cuts, CutOf(buffer, chapter, section), docId, mapping);
      chunks' := FlushCut(chunks, buffer, chapter, section, docId, mapping);
      chapter', section', buffer' := Some(line), None, [];
    } else if IsSectionLine(line) {
      RenderCutsAppend(cuts, CutOf(buffer, chapter, section), docId, mapping);
      chunks' := FlushCut(chunks, buffer, chapter, section, docId, mapping);
      section', buffer' := Some(line), [];
    } else {
      chunks' := chunks;
      buffer' := buffer + [line];
      if LinesWordRuns(buffer') > MaxWords {
        RenderCutsAppend(cuts, [Cut(chapter, section, buffer')], docId, mapping);
        chunks' := FlushCut(chunks, buffer', chapter, section, docId, mapping);
        buffer' := [];
      }
    }
  }

  /** The inner loop over the content lines of one title block. */
  method ChunkBlock(chunks: seq<Chunk>, chapter: Option<string>, section: Option<string>, buffer: seq<string>,
                    lines: seq<string>, docId: string, mapping: seq<PageLine>, ghost seen: seq<string>)
    returns (chunks': seq<Chunk>, chapter': Option<string>, section': Option<string>, buffer': seq<string>)
    requires var st := Run(seen);
      chapter == st.chapter && section == st.section && buffer == st.buffer &&
      chunks == RenderCuts(st.cuts, docId, mapping)
    ensures var st := Run(seen + CleanStream(lines));
      chapter' == st.chapter && section' == st.section && buffer' == st.buffer &&
      chunks' == RenderCuts(st.cuts, docId, mapping)
  {
    chunks', chapter', section', buffer' := chunks, chapter, section, buffer;
    assert seen + CleanStream(lines[..0]) == seen;
    ghost var fed := seen;
    var j := 0;
    while j < |lines|
      invariant j <= |lines|
      invariant fed == seen + CleanStream(lines[..j])
      invariant var st := Run(fed);
        chapter' == st.chapter && section' == st.section && buffer' == st.buffer &&
        chunks' == RenderCuts(st.cuts, docId, mapping)
    {
      var line := CleanLine(lines[j]);
      FedSnoc(seen, lines, j);
      if line != "" {
        chunks', chapter', section', buffer' :=
          StepLine(chunks', chapter', section', buffer', line, docId, mapping, fed);
        fed := fed + [line];
      }
      j := j + 1;
    }
    assert lines[..j] == lines;
  }

  /** The line pass of `chunk_document_wpam`, up to the final flush. */
  method CollectChunks(headerSplit: seq<string>, docId: string, mapping: seq<PageLine>) returns (chunks: seq<Chunk>)
    ensures chunks == RenderCuts(Final(Run(BlocksLines(headerSplit))), docId, mapping)
  {
    var currentChapter: Option<string> := None;
    var currentSection: Option<string> := None;
    var buffer: seq<string> := [];
    chunks := [];
    var i := 0;
    while i < |headerSplit|
      invariant i <= |headerSplit|
      invariant var st := Run(BlocksLines(headerSplit[..i]));
        currentChapter == st.chapter && currentSection == st.section && buffer == st.buffer &&
        chunks == RenderCuts(st.cuts, docId, mapping)
    {
      var lines := SubHeaderContentSplitter(headerSplit[i]);
      BlocksLinesSnoc(headerSplit, i);
      chunks, currentChapter, currentSection, buffer :=
        ChunkBlock(chunks, currentChapter, currentSection, buffer, lines, docId, mapping, BlocksLines(headerSplit[..i]));
      i := i + 1;
    }
    assert headerSplit[..i] == headerSplit;
    ghost var st := Run(BlocksLines(headerSplit));
    RenderCutsAppend(st.cuts, CutOf(buffer, currentChapter, currentSection), docId, mapping);
    chunks := FlushCut(chunks, buffer, currentChapter, currentSection, docId, mapping);
  }

  /** `chunk_document_wpam`. */
  method ChunkDocumentWpam(headerSplit: seq<string>, file: string, mapping: seq<PageLine>) returns (merged: seq<Chunk>)
    ensures merged == WpamChunks(headerSplit, Basename(file), mapping)
  {
    var docId := Basename(file);
    var chunks := CollectChunks(headerSplit, docId, mapping);
    merged := MergeSmallChunks(chunks);
  }
}
