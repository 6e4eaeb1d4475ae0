/**
 * The generic chunker `chunk_document` of pdf_chunking/pdfChunker.py: a single pass over
 * the cleaned lines of every title block that opens a section at each Roman-numeral line,
 * a subsection at each multi-word capital-letter line, and cuts a chunk whenever the
 * buffered body exceeds 1200 `\w+` words.
 *
 * The pass is specified by a left fold `Run` of `Step` over the cleaned lines; each cut
 * is recorded as a `Flush` (heading, subheading, body, and whether it was an overflow
 * cut), and chunk records are computed from the flushes.
 */
module GenericChunker {
  import opened Wrappers
  import opened Text
  import opened PdfMarkup
  import opened PdfPages

  /** `max_words`; `overlap_size` is declared in the source but never used. */
  const MaxWords: nat := 1200

  predicate IsRomanChar(c: char) { c in "IVXLCDM" }

  /** The class `[\.\-–:]` (the third member is the en dash U+2013). */
  predicate IsMarkPunct(c: char) { c == '.' || c == '-' || c == '\U{2013}' || c == ':' }

  /** `roman_pattern.match(line)` for `^(?:[IVXLCDM]+)\s*[\.\-–:]`. The three classes are
      disjoint, so taking each greedy run maximal is the only way the pattern can match. */
  predicate IsRomanHeading(line: string) {
    var r := SpanFrom(line, 0, IsRomanChar);
    var w := SpanFrom(line, r, IsSpace);
    0 < r && w < |line| && IsMarkPunct(line[w])
  }

  /** `capital_pattern.match(line)` for `^[A-Z]\s*[\.\-–:]`. */
  predicate IsCapitalMark(line: string) {
    |line| > 0 && IsUpper(line[0]) &&
    var w := SpanFrom(line, 1, IsSpace);
    w < |line| && IsMarkPunct(line[w])
  }

  /** The subsection test: the capital pattern and more than one whitespace-separated word. */
  predicate IsSubHeading(line: string) {
    IsCapitalMark(line) && SplitWordCount(line) > 1
  }

  /** A line the pass buffers as body text. */
  predicate IsBodyLine(line: string) {
    !IsRomanHeading(line) && !IsSubHeading(line)
  }

  // ---------------------------------------------------------------- regex reference

  /** The regex read literally, at split points `r` and `w`: a non-empty prefix of Roman
      letters up to `r`, spaces up to `w`, and a mark character at `w`. */
  predicate RomanMatchesAt(line: string, r: nat, w: nat) {
    0 < r <= w < |line| &&
    (forall k :: 0 <= k < r ==> IsRomanChar(line[k])) &&
    (forall k :: r <= k < w ==> IsSpace(line[k])) &&
    IsMarkPunct(line[w])
  }

  predicate CapitalMatchesAt(line: string, w: nat) {
    1 <= w < |line| && IsUpper(line[0]) &&
    (forall k :: 1 <= k < w ==> IsSpace(line[k])) &&
    IsMarkPunct(line[w])
  }

  /** The Roman test holds exactly when the pattern matches at some split points. */
  lemma RomanHeadingIsMatch(line: string)
    ensures IsRomanHeading(line) <==> exists r: nat, w: nat :: RomanMatchesAt(line, r, w)
  {
    var r := SpanFrom(line, 0, IsRomanChar);
    var w := SpanFrom(line, r, IsSpace);
    if exists r': nat, w': nat :: RomanMatchesAt(line, r', w') {
      var r': nat, w': nat :| RomanMatchesAt(line, r', w');
      assert !IsRomanChar(line[r']) by {
        if r' < w' { assert IsSpace(line[r']); } else { assert IsMarkPunct(line[r']); }
      }
      SpanFromAt(line, 0, IsRomanChar, r');
      SpanFromAt(line, r', IsSpace, w');
    }
    if IsRomanHeading(line) {
      assert RomanMatchesAt(line, r, w);
    }
  }

  /** The capital-letter test holds exactly when the pattern matches at some split point. */
  lemma CapitalMarkIsMatch(line: string)
    ensures IsCapitalMark(line) <==> exists w: nat :: CapitalMatchesAt(line, w)
  {
    if exists w': nat :: CapitalMatchesAt(line, w') {
      var w': nat :| CapitalMatchesAt(line, w');
      SpanFromAt(line, 1, IsSpace, w');
    }
    if IsCapitalMark(line) {
      assert CapitalMatchesAt(line, SpanFrom(line, 1, IsSpace));
    }
  }

  // ---------------------------------------------------------------- the fold

  /** One cut: the heading and subheading in force, the buffered body, and whether the
      cut was made because the body overflowed. */
  datatype Flush = Flush(heading: string, subheading: string, body: seq<string>, overflow: bool)

  /** The loop state: `roman_heading`, `sub_heading`, `local_buffer`, and the cuts so far. */
  datatype State = State(heading: string, subheading: string, buffer: seq<string>, flushes: seq<Flush>)

  /** `flush_chunk` returns early on an empty buffer. */
  function FlushOf(buffer: seq<string>, heading: string, subheading: string): seq<Flush> {
    if buffer == [] then [] else [Flush(heading, subheading, buffer, false)]
  }

  /** One iteration of the inner loop on a non-empty cleaned line. */
  function Step(st: State, line: string): State {
    if IsRomanHeading(line) then
      State(line, "", [], st.flushes + FlushOf(st.buffer, st.heading, st.subheading))
    else if IsSubHeading(line) then
      State(st.heading, line, [], st.flushes + FlushOf(st.buffer, st.heading, st.subheading))
    else
      var buffer := st.buffer + [line];
      if LinesWordRuns(buffer) > MaxWords then
        State(st.heading, st.subheading, [], st.flushes + [Flush(st.heading, st.subheading, buffer, true)])
      else
        State(st.heading, st.subheading, buffer, st.flushes)
  }

  const Start := State("", "", [], [])

  function Run(lines: seq<string>): State {
    if lines == [] then Start else Step(Run(lines[..|lines| - 1]), lines[|lines| - 1])
  }

  lemma RunSnoc(lines: seq<string>, line: string)
    ensures Run(lines + [line]) == Step(Run(lines), line)
  {
    assert (lines + [line])[..|lines|] == lines;
  }

  /** The cuts of the whole pass, including the final flush. */
  function Final(st: State): seq<Flush> {
    st.flushes + FlushOf(st.buffer, st.heading, st.subheading)
  }

  // ---------------------------------------------------------------- chunk records

  /** `chunk_text`: the heading prefix (with the subheading when it is non-empty) and the
      body lines joined by newlines, stripped. */
  function ChunkText(heading: string, subheading: string, body: seq<string>): string {
    var prefix := if subheading != "" then heading + "\n" + subheading else heading;
    if prefix != "" then Strip(Join([prefix] + body, "\n")) else Strip(Join(body, "\n"))
  }

  function MakeChunk(f: Flush, docId: string, mapping: seq<PageLine>): (c: Chunk)
    ensures c.meta.startPage <= c.meta.endPage
  {
    var pages := PagesFor(f.body, mapping);
    Chunk(ChunkText(f.heading, f.subheading, f.body),
          ChunkMeta(docId, f.heading, Some(f.subheading), pages.0, pages.1))
  }

  function MakeChunks(fs: seq<Flush>, docId: string, mapping: seq<PageLine>): (r: seq<Chunk>)
    ensures |r| == |fs|
    ensures forall k :: 0 <= k < |r| ==> r[k] == MakeChunk(fs[k], docId, mapping)
  {
    seq(|fs|, k requires 0 <= k < |fs| => MakeChunk(fs[k], docId, mapping))
  }

  /** The chunk records of the whole document. */
  function Chunks(headerSplit: seq<string>, docId: string, mapping: seq<PageLine>): seq<Chunk> {
    MakeChunks(Final(Run(BlocksLines(headerSplit))), docId, mapping)
  }

  // ---------------------------------------------------------------- the imperative pass

  /** The closure `flush_chunk`: append the chunk of a non-empty buffer. */
  method FlushChunk(chunks: seq<Chunk>, buffer: seq<string>, heading: string, subheading: string,
                    docId: string, mapping: seq<PageLine>) returns (r: seq<Chunk>)
    ensures r == chunks + MakeChunks(FlushOf(buffer, heading, subheading), docId, mapping)
  {
    if buffer == [] {
      r := chunks;
      return;
    }
    var prefix := if subheading != "" then heading + "\n" + subheading else heading;
    var chunkText := if prefix != "" then Join([prefix] + buffer, "\n") else Join(buffer, "\n");
    var startPage, endPage := GetPagesForChunk(buffer, mapping);
    var chunk := Chunk(Strip(chunkText), ChunkMeta(docId, heading, Some(subheading), startPage, endPage));
    ghost var f := Flush(heading, subheading, buffer, false);
    assert Strip(chunkText) == ChunkText(heading, subheading, buffer);
    assert chunk == MakeChunk(f, docId, mapping);
    assert MakeChunks([f], docId, mapping) == [chunk];
    r := chunks + [chunk];
  }

  lemma MakeChunksAppend(fs: seq<Flush>, gs: seq<Flush>, docId: string, mapping: seq<PageLine>)
    ensures MakeChunks(fs + gs, docId, mapping) == MakeChunks(fs, docId, mapping) + MakeChunks(gs, docId, mapping)
  {
  }

  /** One iteration of the inner loop of `chunk_document` on a non-empty cleaned line. */
  method StepLine(chunks: seq<Chunk>, heading: string, subheading: string, buffer: seq<string>, line: string,
                  docId: string, mapping: seq<PageLine>, ghost seen: seq<string>)
    returns (chunks': seq<Chunk>, heading': string, subheading': string, buffer': seq<string>)
    requires var st := Run(seen);
      heading == st.heading && subheading == st.subheading && buffer == st.buffer &&
      chunks == MakeChunks(st.flushes, docId, mapping)
    ensures var st := Run(seen + [line]);
      heading' == st.heading && subheading' == st.subheading && buffer' == st.buffer &&
      chunks' == MakeChunks(st.flushes, docId, mapping)
  {
    RunSnoc(seen, line);
    ghost var fs := Run(seen).flushes;
    heading', subheading', buffer' := heading, subheading, buffer;
    if IsRomanHeading(line) {
      MakeChunksAppend(fs, FlushOf(buffer, heading, subheading), docId, mapping);
      chunks' := FlushChunk(chunks, buffer, heading, subheading, docId, mapping);
      heading' := line;
      subheading' := "";
      buffer' := [];
    } else if IsSubHeading(line) {
      chunks' := chunks;
      if buffer != [] {
        MakeChunksAppend(fs, FlushOf(buffer, heading, subheading), docId, mapping);
        chunks' := FlushChunk(chunks, buffer, heading, subheading, docId, mapping);
        buffer' := [];
      }
      subheading' := line;
    } else {
      chunks' := chunks;
      buffer' := buffer + [line];
      if LinesWordRuns(buffer') > MaxWords {
        MakeChunksAppend(fs, [Flush(heading, subheading, buffer', true)], docId, mapping);
        chunks' := FlushChunk(chunks, buffer', heading, subheading, docId, mapping);
        buffer' := [];
      }
    }
  }

  /** The inner loop of `chunk_document` over the content lines of one title block. */
  method ChunkBlock(chunks: seq<Chunk>, heading: string, subheading: string, buffer: seq<string>,
                    lines: seq<string>, docId: string, mapping: seq<PageLine>, ghost seen: seq<string>)
    returns (chunks': seq<Chunk>, heading': string, subheading': string, buffer': seq<string>)
    requires var st := Run(seen);
      heading == st.heading && subheading == st.subheading && buffer == st.buffer &&
      chunks == MakeChunks(st.flushes, docId, mapping)
    ensures var st := Run(seen + CleanStream(lines));
      heading' == st.heading && subheading' == st.subheading && buffer' == st.buffer &&
      chunks' == MakeChunks(st.flushes, docId, mapping)
  {
    chunks', heading', subheading', buffer' := chunks, heading, subheading, buffer;
    assert seen + CleanStream(lines[..0]) == seen;
    ghost var fed := seen;
    var j := 0;
    while j < |lines|
      invariant j <= |lines|
      invariant fed == seen + CleanStream(lines[..j])
      invariant var st := Run(fed);
        heading' == st.heading && subheading' == st.subheading && buffer' == st.buffer &&
        chunks' == MakeChunks(st.flushes, docId, mapping)
    {
      var line := CleanLine(lines[j]);
      FedSnoc(seen, lines, j);
      if line != "" {
        chunks', heading', subheading', buffer' :=
          StepLine(chunks', heading', subheading', buffer', line, docId, mapping, fed);
        fed := fed + [line];
      }
      j := j + 1;
    }
    assert lines[..j] == lines;
  }

  /** `chunk_document`. */
  method ChunkDocument(headerSplit: seq<string>, file: string, mapping: seq<PageLine>) returns (chunks: seq<Chunk>)
    ensures chunks == Chunks(headerSplit, Basename(file), mapping)
  {
    var docId := Basename(file);
    var romanHeading, subHeading, localBuffer := "", "", [];
    chunks := [];
    var i := 0;
    while i < |headerSplit|
      invariant i <= |headerSplit|
      invariant var st := Run(BlocksLines(headerSplit[..i]));
        romanHeading == st.heading && subHeading == st.subheading && localBuffer == st.buffer &&
        chunks == MakeChunks(st.flushes, docId, mapping)
    {
      var lines := SubHeaderContentSplitter(headerSplit[i]);
      BlocksLinesSnoc(headerSplit, i);
      chunks, romanHeading, subHeading, localBuffer :=
        ChunkBlock(chunks, romanHeading, subHeading, localBuffer, lines, docId, mapping, BlocksLines(headerSplit[..i]));
      i := i + 1;
    }
    assert headerSplit[..i] == headerSplit;
    MakeChunksAppend(Run(BlocksLines(headerSplit)).flushes, FlushOf(localBuffer, romanHeading, subHeading), docId, mapping);
    chunks := FlushChunk(chunks, localBuffer, romanHeading, subHeading, docId, mapping);
  }

  // ---------------------------------------------------------------- properties

  /** The body lines of the cuts, cut after cut. */
  function BodyLines(fs: seq<Flush>): seq<string> {
    if fs == [] then [] else BodyLines(fs[..|fs| - 1]) + fs[|fs| - 1].body
  }

  lemma BodyLinesSnoc(fs: seq<Flush>, f: Flush)
    ensures BodyLines(fs + [f]) == BodyLines(fs) + f.body
  {
    assert (fs + [f])[..|fs|] == fs;
  }

  lemma BodyLinesFlushOf(fs: seq<Flush>, buffer: seq<string>, heading: string, subheading: string)
    ensures BodyLines(fs + FlushOf(buffer, heading, subheading)) == BodyLines(fs) + buffer
  {
    if buffer == [] {
      assert fs + FlushOf(buffer, heading, subheading) == fs;
    } else {
      BodyLinesSnoc(fs, Flush(heading, subheading, buffer, false));
    }
  }

  /** One step hands the line on (to the buffer or to a cut) exactly when it is a body line. */
  lemma StepConservesLines(st: State, line: string)
    ensures BodyLines(Step(st, line).flushes) + Step(st, line).buffer ==
      BodyLines(st.flushes) + st.buffer + (if IsBodyLine(line) then [line] else [])
  {
    BodyLinesFlushOf(st.flushes, st.buffer, st.heading, st.subheading);
    if !IsRomanHeading(line) && !IsSubHeading(line) {
      var buffer := st.buffer + [line];
      if LinesWordRuns(buffer) > MaxWords {
        BodyLinesSnoc(st.flushes, Flush(st.heading, st.subheading, buffer, true));
      }
    }
  }

  /** The pass kept so far: cut bodies then the open buffer are the body lines seen. */
  lemma {:induction false} RunConservesLines(lines: seq<string>)
    ensures BodyLines(Run(lines).flushes) + Run(lines).buffer == Filter(lines, IsBodyLine)
  {
    if lines != [] {
      var n := |lines| - 1;
      var xs := lines[..n];
      var line := lines[n];
      RunConservesLines(xs);
      assert lines == xs + [line];
      RunSnoc(xs, line);
      FilterSnoc(xs, line, IsBodyLine);
      StepConservesLines(Run(xs), line);
    }
  }

  /** Every body line lands in exactly one chunk, in input order; heading lines in none. */
  lemma ConservesLines(lines: seq<string>)
    ensures BodyLines(Final(Run(lines))) == Filter(lines, IsBodyLine)
  {
    RunConservesLines(lines);
    var st := Run(lines);
    BodyLinesFlushOf(st.flushes, st.buffer, st.heading, st.subheading);
  }

  /** What every cut satisfies: a non-empty body, an overflow cut over the word limit and
      any other cut within it, headings that are Roman lines and subheadings that are
      capital-letter lines. */
  predicate GoodFlush(f: Flush) {
    f.body != [] &&
    (f.overflow ==> LinesWordRuns(f.body) > MaxWords) &&
    (!f.overflow ==> LinesWordRuns(f.body) <= MaxWords) &&
    (f.heading == "" || IsRomanHeading(f.heading)) &&
    (f.subheading == "" || IsSubHeading(f.subheading))
  }

  predicate AllGood(fs: seq<Flush>) {
    forall k :: 0 <= k < |fs| ==> GoodFlush(fs[k])
  }

  lemma AllGoodAppend(fs: seq<Flush>, gs: seq<Flush>)
    requires AllGood(fs) && AllGood(gs)
    ensures AllGood(fs + gs)
  {
    forall k | 0 <= k < |fs + gs| ensures GoodFlush((fs + gs)[k]) {
      if k < |fs| { assert (fs + gs)[k] == fs[k]; } else { assert (fs + gs)[k] == gs[k - |fs|]; }
    }
  }

  predicate GoodState(st: State) {
    LinesWordRuns(st.buffer) <= MaxWords &&
    (st.heading == "" || IsRomanHeading(st.heading)) &&
    (st.subheading == "" || IsSubHeading(st.subheading)) &&
    AllGood(st.flushes)
  }

  /** Flushing the open buffer of a good state adds only good cuts. */
  lemma FlushOfGood(st: State)
    requires GoodState(st)
    ensures AllGood(st.flushes + FlushOf(st.buffer, st.heading, st.subheading))
  {
    var g := FlushOf(st.buffer, st.heading, st.subheading);
    if st.buffer != [] {
      assert GoodFlush(g[0]);
    }
    AllGoodAppend(st.flushes, g);
  }

  lemma StepGood(st: State, line: string)
    requires GoodState(st)
    ensures GoodState(Step(st, line))
  {
    if IsRomanHeading(line) || IsSubHeading(line) {
      FlushOfGood(st);
    } else {
      var buffer := st.buffer + [line];
      if LinesWordRuns(buffer) > MaxWords {
        var f := Flush(st.heading, st.subheading, buffer, true);
        assert GoodFlush([f][0]);
        AllGoodAppend(st.flushes, [f]);
      }
    }
  }

  lemma {:induction false} RunGood(lines: seq<string>)
    ensures GoodState(Run(lines))
  {
    if lines != [] {
      RunGood(lines[..|lines| - 1]);
      StepGood(Run(lines[..|lines| - 1]), lines[|lines| - 1]);
    }
  }

  /** No chunk comes from an empty buffer; a chunk cut at a heading or at the end holds at
      most 1200 words, and one cut for overflow holds more. */
  lemma FinalGood(lines: seq<string>)
    ensures forall k :: 0 <= k < |Final(Run(lines))| ==> GoodFlush(Final(Run(lines))[k])
  {
    RunGood(lines);
    FlushOfGood(Run(lines));
  }

  /** "C.", "D.", "I.", "L.", "M.", "V." and "X." open a top-level section, whatever the
      state, because the Roman test comes first. */
  lemma RomanLetterOpensSection(st: State, line: string)
    requires |line| >= 2 && line[0] in "CDILMVX" && IsMarkPunct(line[1])
    ensures Step(st, line).heading == line && Step(st, line).subheading == ""
    ensures Step(st, line).buffer == []
  {
    assert RomanMatchesAt(line, 1, 1);
    RomanHeadingIsMatch(line);
  }
}
