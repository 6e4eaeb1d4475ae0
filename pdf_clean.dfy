/**
 * The clean-text filter `extract_clean_plaintext` of pdf_chunking/pdfChunker.py: each
 * raw chunk is reduced to its non-empty cleaned lines, re-joined with blank lines, and
 * then either kept (with its position in the input) or removed with a reason.
 *
 * The per-chunk decision is the function `Classify`; the loop of the source is the
 * method `ExtractCleanPlaintext`, proved equal to the folds `Kept` and `RemovedOf`.
 */
module CleanFilter {
  import opened Text
  import opened PdfMarkup
  import GenericChunker
  import StatuteChunker

  /** `looks_like_index`: fewer than this many whitespace-separated words. */
  const IndexWords: nat := 15

  /** The "Too short" rule applies below this many words. */
  const ShortWords: nat := 50

  /** An element of `doc_chunks`: a dict carrying "text", or anything else. */
  datatype Item = NotText | TextItem(text: string)

  datatype Reason = Empty | IndexTitle | TooShort(words: nat, sentences: nat)

  /** An entry of `removed_chunks`. */
  datatype Removed = Removed(text: string, reason: Reason)

  /** What the loop does with one element. */
  datatype Verdict = Skip | Keep(text: string) | Drop(removed: Removed)

  // ---------------------------------------------------------------- heading_pattern

  /** `[IVXLCDM]+\.` at the start: the maximal run of Roman letters is followed by '.'
      (a '.' is no Roman letter, so no shorter run can be followed by one). */
  predicate RomanDot(line: string) {
    var r := SpanFrom(line, 0, GenericChunker.IsRomanChar);
    0 < r < |line| && line[r] == '.'
  }

  /** The first alternative read literally, with the run ending at `r`. */
  predicate RomanDotAt(line: string, r: nat) {
    0 < r < |line| && (forall k :: 0 <= k < r ==> GenericChunker.IsRomanChar(line[k])) && line[r] == '.'
  }

  lemma RomanDotIsMatch(line: string)
    ensures RomanDot(line) <==> exists r: nat :: RomanDotAt(line, r)
  {
    if exists r: nat :: RomanDotAt(line, r) {
      var r: nat :| RomanDotAt(line, r);
      SpanFromAt(line, 0, GenericChunker.IsRomanChar, r);
    }
    if RomanDot(line) {
      assert RomanDotAt(line, SpanFrom(line, 0, GenericChunker.IsRomanChar));
    }
  }

  /** `[A-Z]\.` at the start. */
  predicate CapitalDot(line: string) {
    |line| >= 2 && IsUpper(line[0]) && line[1] == '.'
  }

  /** `heading_pattern.match(line)` for `^(?:[IVXLCDM]+\.)|^[A-Z]\.|^Tax\s\d+\.\d+`; the
      third alternative is the statute chunker's Tax rule pattern without its tail. */
  predicate IsFilterHeading(line: string) {
    RomanDot(line) || CapitalDot(line) || StatuteChunker.IsTaxRule(line)
  }

  // ---------------------------------------------------------------- statistics

  /** `l.endswith((".", "?", "!"))`. */
  predicate EndsSentence(l: string) {
    |l| > 0 && l[|l| - 1] in ".?!"
  }

  /** `sum(1 for l in lines if l.endswith((".", "?", "!")))`. */
  function SentenceLines(lines: seq<string>): (n: nat)
    ensures n <= |lines|
  {
    if lines == [] then 0 else (if EndsSentence(lines[0]) then 1 else 0) + SentenceLines(lines[1..])
  }

  /** `[clean_line(l) for l in chunk_text.split("\n") if clean_line(l)]`. */
  function ItemLines(chunkText: string): seq<string> {
    CleanStream(Split(chunkText, '\n'))
  }

  const Para: string := "\n\n"

  // ---------------------------------------------------------------- one chunk

  /** The loop body of `extract_clean_plaintext` for one element. */
  function Classify(item: Item): Verdict {
    match item
    case NotText => Skip
    case TextItem(chunkText) =>
      var lines := ItemLines(chunkText);
      if lines == [] then Drop(Removed(chunkText, Empty))
      else
        var text := Join(lines, Para);
        var wordCount := LinesSplitWords(lines);
        var sentenceCount := SentenceLines(lines);
        if SplitWordCount(text) < IndexWords then Drop(Removed(text, IndexTitle))
        else if IsFilterHeading(lines[0]) then Keep(text)
        else if wordCount < ShortWords && sentenceCount == 1 then
          Drop(Removed(text, TooShort(wordCount, sentenceCount)))
        else Keep(text)
  }

  /** The index test counts the words of the joined text; that is the per-line word sum. */
  lemma JoinedWords(lines: seq<string>)
    ensures SplitWordCount(Join(lines, Para)) == LinesSplitWords(lines)
  {
    JoinSplitWords(lines, Para);
  }

  /** Any element other than a dict with "text" is skipped, and only such elements are. */
  lemma SkipIffNotText(item: Item)
    ensures Classify(item) == Skip <==> item == NotText
  {
  }

  /** A chunk with no non-empty cleaned line is removed as "Empty", keeping its raw text. */
  lemma EmptyChunkRemoved(chunkText: string)
    ensures Classify(TextItem(chunkText)).Drop? && Classify(TextItem(chunkText)).removed.reason == Empty
      <==> ItemLines(chunkText) == []
    ensures ItemLines(chunkText) == [] ==> Classify(TextItem(chunkText)).removed.text == chunkText
  {
  }

  /** Fewer than 15 words in all removes the chunk as an index or title, even when its
      first line is a heading. */
  lemma FewWordsRemoved(chunkText: string)
    requires ItemLines(chunkText) != [] && LinesSplitWords(ItemLines(chunkText)) < IndexWords
    ensures Classify(TextItem(chunkText)) == Drop(Removed(Join(ItemLines(chunkText), Para), IndexTitle))
  {
    JoinedWords(ItemLines(chunkText));
  }

  /** With at least 15 words, a chunk whose first line is a heading is kept. */
  lemma HeadingKept(chunkText: string)
    requires ItemLines(chunkText) != [] && LinesSplitWords(ItemLines(chunkText)) >= IndexWords
    requires IsFilterHeading(ItemLines(chunkText)[0])
    ensures Classify(TextItem(chunkText)) == Keep(Join(ItemLines(chunkText), Para))
  {
    JoinedWords(ItemLines(chunkText));
  }

  /** A chunk is removed as "Too short" exactly when it has a non-heading first line,
      15 to 49 words and exactly one line ending a sentence. */
  lemma TooShortExactly(chunkText: string)
    ensures (Classify(TextItem(chunkText)).Drop? && Classify(TextItem(chunkText)).removed.reason.TooShort?)
      <==> (var lines := ItemLines(chunkText);
            lines != [] && !IsFilterHeading(lines[0]) &&
            IndexWords <= LinesSplitWords(lines) < ShortWords && SentenceLines(lines) == 1)
  {
    var lines := ItemLines(chunkText);
    if lines != [] {
      JoinedWords(lines);
    }
  }

  /** A kept text is the blank-line join of the cleaned lines, has at least 15 words, and
      is heading-led, long, or does not have exactly one sentence line. */
  lemma KeptTextShape(chunkText: string, t: string)
    requires Classify(TextItem(chunkText)) == Keep(t)
    ensures var lines := ItemLines(chunkText);
      lines != [] && t == Join(lines, Para) && SplitWordCount(t) >= IndexWords &&
      (IsFilterHeading(lines[0]) || LinesSplitWords(lines) >= ShortWords || SentenceLines(lines) != 1)
  {
    JoinedWords(ItemLines(chunkText));
  }

  // ---------------------------------------------------------------- the loop

  /** The verdict on each element, in order. */
  function Verdicts(items: seq<Item>): seq<Verdict> {
    seq(|items|, i requires 0 <= i < |items| => Classify(items[i]))
  }

  /** The `(idx, text)` pairs of the Keep verdicts. */
  function KeptOf(vs: seq<Verdict>): seq<(nat, string)> {
    if vs == [] then []
    else
      var n := |vs| - 1;
      KeptOf(vs[..n]) + (match vs[n] case Keep(t) => [(n, t)] case _ => [])
  }

  /** The removed entries of the Drop verdicts, in order. */
  function DroppedOf(vs: seq<Verdict>): seq<Removed> {
    if vs == [] then []
    else
      var n := |vs| - 1;
      DroppedOf(vs[..n]) + (match vs[n] case Drop(r) => [r] case _ => [])
  }

  /** `all_cleaned_content`. */
  function Kept(items: seq<Item>): seq<(nat, string)> { KeptOf(Verdicts(items)) }

  /** `removed_chunks`. */
  function RemovedOf(items: seq<Item>): seq<Removed> { DroppedOf(Verdicts(items)) }

  lemma OfSnoc(vs: seq<Verdict>, i: nat)
    requires i < |vs|
    ensures KeptOf(vs[..i + 1]) == KeptOf(vs[..i]) + (match vs[i] case Keep(t) => [(i, t)] case _ => [])
    ensures DroppedOf(vs[..i + 1]) == DroppedOf(vs[..i]) + (match vs[i] case Drop(r) => [r] case _ => [])
  {
    assert vs[..i + 1][..i] == vs[..i];
  }

  /** `extract_clean_plaintext`. */
  method ExtractCleanPlaintext(docChunks: seq<Item>) returns (kept: seq<(nat, string)>, removed: seq<Removed>)
    ensures kept == Kept(docChunks) && removed == RemovedOf(docChunks)
  {
    ghost var vs := Verdicts(docChunks);
    kept, removed := [], [];
    var idx := 0;
    while idx < |docChunks|
      invariant idx <= |docChunks|
      invariant kept == KeptOf(vs[..idx]) && removed == DroppedOf(vs[..idx])
    {
      OfSnoc(vs, idx);
      var verdict := Classify(docChunks[idx]);
      assert verdict == vs[idx];
      match verdict {
        case Skip =>
        case Keep(text) => kept := kept + [(idx, text)];
        case Drop(r) => removed := removed + [r];
      }
      idx := idx + 1;
    }
    assert vs[..idx] == vs;
  }

  // ---------------------------------------------------------------- properties of the loop

  function Skips(vs: seq<Verdict>): nat {
    if vs == [] then 0 else Skips(vs[..|vs| - 1]) + (if vs[|vs| - 1] == Skip then 1 else 0)
  }

  /** Every verdict other than Skip contributes exactly one entry to one of the lists. */
  lemma {:induction false} VerdictsPartition(vs: seq<Verdict>)
    ensures |KeptOf(vs)| + |DroppedOf(vs)| + Skips(vs) == |vs|
  {
    if vs != [] {
      VerdictsPartition(vs[..|vs| - 1]);
    }
  }

  /** The Skip verdicts are exactly the elements that are not dicts carrying "text". */
  lemma SkipsAreNotText(items: seq<Item>)
    ensures Skips(Verdicts(items)) == |items| - TextItems(items)
  {
    var vs := Verdicts(items);
    forall i | 0 <= i < |items|
      ensures vs[i] == Skip <==> items[i] == NotText
    {
      SkipIffNotText(items[i]);
    }
    SkipsCountNotText(vs, items);
  }

  /** Skip verdicts that sit exactly at the non-text elements are counted by TextItems. */
  lemma {:induction false} SkipsCountNotText(vs: seq<Verdict>, items: seq<Item>)
    requires |vs| == |items|
    requires forall i :: 0 <= i < |items| ==> (vs[i] == Skip <==> items[i] == NotText)
    ensures Skips(vs) == |items| - TextItems(items)
  {
    if items != [] {
      var n := |items| - 1;
      SkipsCountNotText(vs[..n], items[..n]);
    }
  }

  /** Number of elements that are dicts carrying "text". */
  function TextItems(items: seq<Item>): (n: nat)
    ensures n <= |items|
  {
    if items == [] then 0 else TextItems(items[..|items| - 1]) + (if items[|items| - 1].TextItem? then 1 else 0)
  }

  /** Every text-carrying element lands in exactly one of the two lists. */
  lemma Partition(items: seq<Item>)
    ensures |Kept(items)| + |RemovedOf(items)| == TextItems(items)
  {
    VerdictsPartition(Verdicts(items));
    SkipsAreNotText(items);
  }

  /** Kept pairs name Keep verdicts, at strictly increasing positions. */
  lemma {:induction false} KeptOfIndexed(vs: seq<Verdict>)
    ensures forall k :: 0 <= k < |KeptOf(vs)| ==>
      KeptOf(vs)[k].0 < |vs| && vs[KeptOf(vs)[k].0] == Keep(KeptOf(vs)[k].1)
    ensures forall a, b :: 0 <= a < b < |KeptOf(vs)| ==> KeptOf(vs)[a].0 < KeptOf(vs)[b].0
  {
    if vs != [] {
      var n := |vs| - 1;
      KeptOfIndexed(vs[..n]);
    }
  }

  /** The kept indices are in range, strictly increasing, and each names an element the
      filter keeps with exactly that text. */
  lemma KeptIndexed(items: seq<Item>)
    ensures forall k :: 0 <= k < |Kept(items)| ==>
      Kept(items)[k].0 < |items| && Classify(items[Kept(items)[k].0]) == Keep(Kept(items)[k].1)
    ensures forall a, b :: 0 <= a < b < |Kept(items)| ==> Kept(items)[a].0 < Kept(items)[b].0
  {
    KeptOfIndexed(Verdicts(items));
  }

  lemma {:induction false} KeptOfComplete(vs: seq<Verdict>, i: nat, t: string)
    requires i < |vs| && vs[i] == Keep(t)
    ensures (i, t) in KeptOf(vs)
  {
    var n := |vs| - 1;
    if i < n {
      KeptOfComplete(vs[..n], i, t);
    }
  }

  /** Every element the filter keeps appears among the kept pairs. */
  lemma KeptComplete(items: seq<Item>, i: nat, t: string)
    requires i < |items| && Classify(items[i]) == Keep(t)
    ensures (i, t) in Kept(items)
  {
    KeptOfComplete(Verdicts(items), i, t);
  }

  lemma {:induction false} DroppedOfExactly(vs: seq<Verdict>, r: Removed)
    ensures r in DroppedOf(vs) <==> exists i :: 0 <= i < |vs| && vs[i] == Drop(r)
  {
    if vs != [] {
      var n := |vs| - 1;
      DroppedOfExactly(vs[..n], r);
      if exists i :: 0 <= i < |vs| && vs[i] == Drop(r) {
        var i :| 0 <= i < |vs| && vs[i] == Drop(r);
        if i < n {
          assert vs[..n][i] == vs[i];
        }
      }
    }
  }

  /** Every removed entry comes from an element the filter drops. */
  lemma RemovedSound(items: seq<Item>, r: Removed)
    requires r in RemovedOf(items)
    ensures exists i :: 0 <= i < |items| && Classify(items[i]) == Drop(r)
  {
    var vs := Verdicts(items);
    DroppedOfExactly(vs, r);
    var i :| 0 <= i < |vs| && vs[i] == Drop(r);
    assert Classify(items[i]) == Drop(r);
  }

  /** Every dropped element's entry is among the removed ones. */
  lemma RemovedComplete(items: seq<Item>, i: nat, r: Removed)
    requires i < |items| && Classify(items[i]) == Drop(r)
    ensures r in RemovedOf(items)
  {
    var vs := Verdicts(items);
    assert vs[i] == Drop(r);
    DroppedOfExactly(vs, r);
  }
}
