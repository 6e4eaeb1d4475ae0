/**
 * The statute chunker `chunk_document_statute` of pdf_chunking/pdfChunker.py: every
 * index line that starts a rule ("Tax 16.01 ...", or "16.01 ..." in a statute file)
 * opens a rule whose following lines form its body; afterwards adjacent chunks that
 * carry the same heading are merged into one.
 *
 * The raw pass is a left fold `RawRun` over the line→page index, recording each cut
 * rule as a `Rule`; the merge pass is a left fold `MergeRun` over the raw chunks, proved
 * equal to the combination of the maximal runs of equal headings (`HeadingRuns`).
 */
module StatuteChunker {
  import opened Wrappers
  import opened Text
  import opened Extremes
  import opened PdfPages

  // ---------------------------------------------------------------- rule patterns

  /** `(\d+\.\d+[A-Za-z\-]*)` matched at the start: digits, a dot, a digit (the trailing
      class may match nothing). The digit run is maximal since '.' is not a digit. */
  predicate IsNumberedRule(s: string) {
    var d := SpanFrom(s, 0, IsDigit);
    0 < d && d + 1 < |s| && s[d] == '.' && IsDigit(s[d + 1])
  }

  /** `(Tax\s\d+\.\d+[^ \n]*)` matched at the start. */
  predicate IsTaxRule(s: string) {
    |s| >= 4 && s[..3] == "Tax" && IsSpace(s[3]) && IsNumberedRule(s[4..])
  }

  /** The pattern in force: the numbered form when the id mentions "statute". */
  predicate IsRuleLine(line: string, statuteId: bool) {
    if statuteId then IsNumberedRule(line) else IsTaxRule(line)
  }

  predicate UsesStatutePattern(docId: string) {
    Contains(Lower(docId), "statute")
  }

  /** `\d+\.\d+` read literally at split point `d`. */
  predicate NumberedRuleAt(s: string, d: nat) {
    0 < d && d + 1 < |s| && (forall k :: 0 <= k < d ==> IsDigit(s[k])) && s[d] == '.' && IsDigit(s[d + 1])
  }

  lemma NumberedRuleIsMatch(s: string)
    ensures IsNumberedRule(s) <==> exists d: nat :: NumberedRuleAt(s, d)
  {
    if exists d: nat :: NumberedRuleAt(s, d) {
      var d: nat :| NumberedRuleAt(s, d);
      SpanFromAt(s, 0, IsDigit, d);
    }
    if IsNumberedRule(s) {
      assert NumberedRuleAt(s, SpanFrom(s, 0, IsDigit));
    }
  }

  // ---------------------------------------------------------------- the raw pass

  /** A cut rule: its heading line and its `(clean, page_num)` body lines. */
  datatype Rule = Rule(heading: string, lines: seq<PageLine>)

  /** The loop state: `heading` (None before the first rule), `local_buffer`, the rules cut. */
  datatype RawState = RawState(heading: Option<string>, buffer: seq<PageLine>, rules: seq<Rule>)

  /** `flush_chunk` keeps a rule only with a truthy heading and a non-empty buffer. */
  function FlushRule(heading: Option<string>, buffer: seq<PageLine>): seq<Rule> {
    if heading.Some? && heading.value != "" && buffer != [] then [Rule(heading.value, buffer)] else []
  }

  /** One iteration on a non-empty stripped index line. */
  function RawStep(st: RawState, clean: string, page: int, statuteId: bool): RawState {
    if IsRuleLine(clean, statuteId) then RawState(Some(clean), [], st.rules + FlushRule(st.heading, st.buffer))
    else RawState(st.heading, st.buffer + [PageLine(clean, page)], st.rules)
  }

  /** One iteration on an index entry: blank lines are skipped. */
  function RawNext(prev: RawState, entry: PageLine, statuteId: bool): RawState {
    var clean := Strip(entry.text);
    if clean == "" then prev else RawStep(prev, clean, entry.page, statuteId)
  }

  function RawRun(mapping: seq<PageLine>, statuteId: bool): RawState {
    if mapping == [] then RawState(None, [], [])
    else RawNext(RawRun(mapping[..|mapping| - 1], statuteId), mapping[|mapping| - 1], statuteId)
  }

  lemma RawRunAppend(mapping: seq<PageLine>, entry: PageLine, statuteId: bool)
    ensures RawRun(mapping + [entry], statuteId) == RawNext(RawRun(mapping, statuteId), entry, statuteId)
  {
    assert (mapping + [entry])[..|mapping|] == mapping;
  }

  lemma RawRunSnoc(mapping: seq<PageLine>, i: nat, statuteId: bool)
    requires i < |mapping|
    ensures RawRun(mapping[..i + 1], statuteId) == RawNext(RawRun(mapping[..i], statuteId), mapping[i], statuteId)
  {
    assert mapping[..i + 1] == mapping[..i] + [mapping[i]];
    RawRunAppend(mapping[..i], mapping[i], statuteId);
  }

  /** All rules of the raw pass, including the final flush. */
  function RawRules(mapping: seq<PageLine>, statuteId: bool): seq<Rule> {
    var st := RawRun(mapping, statuteId);
    st.rules + FlushRule(st.heading, st.buffer)
  }

  function Texts(lines: seq<PageLine>): seq<string> {
    seq(|lines|, k requires 0 <= k < |lines| => lines[k].text)
  }

  function Pages(lines: seq<PageLine>): (r: seq<int>)
    ensures |r| == |lines|
  {
    seq(|lines|, k requires 0 <= k < |lines| => lines[k].page)
  }

  /** The raw chunk of a rule: heading, newline, the stripped joined body; its pages are
      the least and greatest page of its body lines. */
  function RuleChunk(r: Rule, docId: string): Chunk
    requires r.lines != []
  {
    var ps := Pages(r.lines);
    Chunk(r.heading + "\n" + Strip(Join(Texts(r.lines), "\n")),
          ChunkMeta(docId, r.heading, None, SeqMin(ps), SeqMax(ps)))
  }

  /** A rule's chunk spans the pages of all its body lines. */
  lemma RuleChunkPages(r: Rule, docId: string)
    requires r.lines != []
    ensures var c := RuleChunk(r, docId);
      c.meta.startPage <= c.meta.endPage &&
      forall k :: 0 <= k < |r.lines| ==> c.meta.startPage <= r.lines[k].page <= c.meta.endPage
  {
    var ps := Pages(r.lines);
    assert forall k :: 0 <= k < |r.lines| ==> ps[k] == r.lines[k].page;
    SeqBounds(ps);
  }

  lemma SeqBounds(ps: seq<int>)
    requires ps != []
    ensures forall k :: 0 <= k < |ps| ==> SeqMin(ps) <= ps[k] <= SeqMax(ps)
  {
    forall k | 0 <= k < |ps| ensures SeqMin(ps) <= ps[k] <= SeqMax(ps) {
      var p := ps[k];
      assert p in ps;
    }
  }

  predicate NonEmptyBodies(rules: seq<Rule>) {
    forall k :: 0 <= k < |rules| ==> rules[k].lines != []
  }

  function RuleChunks(rules: seq<Rule>, docId: string): (r: seq<Chunk>)
    requires NonEmptyBodies(rules)
    ensures |r| == |rules|
  {
    seq(|rules|, k requires 0 <= k < |rules| => RuleChunk(rules[k], docId))
  }

  /** What every rule of the pass satisfies: its heading is a stripped rule line and its
      body is non-empty. */
  predicate GoodRule(r: Rule, statuteId: bool) {
    r.lines != [] && r.heading != "" && IsStripped(r.heading) && IsRuleLine(r.heading, statuteId)
  }

  predicate GoodRules(rules: seq<Rule>, statuteId: bool) {
    forall k :: 0 <= k < |rules| ==> GoodRule(rules[k], statuteId)
  }

  predicate GoodRawState(st: RawState, statuteId: bool) {
    (st.heading.Some? ==> st.heading.value != "" && IsStripped(st.heading.value) &&
                            IsRuleLine(st.heading.value, statuteId)) &&
    GoodRules(st.rules, statuteId)
  }

  /** Flushing a good state adds only good rules. */
  lemma FlushRuleGood(st: RawState, statuteId: bool)
    requires GoodRawState(st, statuteId)
    ensures GoodRules(st.rules + FlushRule(st.heading, st.buffer), statuteId)
  {
    var g := FlushRule(st.heading, st.buffer);
    var all := st.rules + g;
    forall k | 0 <= k < |all| ensures GoodRule(all[k], statuteId) {
      if k < |st.rules| { assert all[k] == st.rules[k]; } else { assert all[k] == g[0]; }
    }
  }

  lemma RawStepGood(st: RawState, clean: string, page: int, statuteId: bool)
    requires GoodRawState(st, statuteId) && clean != "" && IsStripped(clean)
    ensures GoodRawState(RawStep(st, clean, page, statuteId), statuteId)
  {
    if IsRuleLine(clean, statuteId) {
      FlushRuleGood(st, statuteId);
    }
  }

  lemma {:induction false} RawRunGood(mapping: seq<PageLine>, statuteId: bool)
    ensures GoodRawState(RawRun(mapping, statuteId), statuteId)
  {
    if mapping != [] {
      var n := |mapping| - 1;
      RawRunGood(mapping[..n], statuteId);
      var clean := Strip(mapping[n].text);
      StripOk(mapping[n].text);
      if clean != "" {
        RawStepGood(RawRun(mapping[..n], statuteId), clean, mapping[n].page, statuteId);
      }
    }
  }

  /** No rule is cut without body lines, and every rule is headed by a rule line. */
  lemma RawRulesGood(mapping: seq<PageLine>, statuteId: bool)
    ensures forall k :: 0 <= k < |RawRules(mapping, statuteId)| ==> GoodRule(RawRules(mapping, statuteId)[k], statuteId)
  {
    RawRunGood(mapping, statuteId);
    FlushRuleGood(RawRun(mapping, statuteId), statuteId);
  }

  lemma RawRulesBodies(mapping: seq<PageLine>, statuteId: bool)
    ensures NonEmptyBodies(RawRules(mapping, statuteId))
  {
    RawRulesGood(mapping, statuteId);
  }

  /** No line of the index starts a rule. */
  predicate NoRuleLine(mapping: seq<PageLine>, statuteId: bool) {
    forall k :: 0 <= k < |mapping| ==> !IsRuleLine(Strip(mapping[k].text), statuteId)
  }

  lemma {:induction false} NoRuleNoHeading(mapping: seq<PageLine>, statuteId: bool)
    requires NoRuleLine(mapping, statuteId)
    ensures RawRun(mapping, statuteId).heading == None && RawRun(mapping, statuteId).rules == []
  {
    if mapping != [] {
      var n := |mapping| - 1;
      assert NoRuleLine(mapping[..n], statuteId) by {
        forall k | 0 <= k < n ensures !IsRuleLine(Strip(mapping[..n][k].text), statuteId) {
          assert mapping[..n][k] == mapping[k];
        }
      }
      NoRuleNoHeading(mapping[..n], statuteId);
    }
  }

  /** After the same rule line, the pass no longer depends on what came before it, as long
      as that produced no rule and no heading. */
  lemma {:induction false} ForgetPrefix(pre: seq<PageLine>, rest: seq<PageLine>, statuteId: bool)
    requires RawRun(pre, statuteId).heading == None && RawRun(pre, statuteId).rules == []
    requires rest != [] && Strip(rest[0].text) != "" && IsRuleLine(Strip(rest[0].text), statuteId)
    ensures RawRun(pre + rest, statuteId) == RawRun(rest, statuteId)
  {
    var n := |rest| - 1;
    if n == 0 {
      assert rest == [] + [rest[0]];
      RawRunAppend(pre, rest[0], statuteId);
      RawRunAppend([], rest[0], statuteId);
    } else {
      ForgetPrefix(pre, rest[..n], statuteId);
      SplitLast(pre, rest);
      RawRunAppend(pre + rest[..n], rest[n], statuteId);
      RawRunAppend(rest[..n], rest[n], statuteId);
    }
  }

  /** Lines before the first rule line produce no chunk: dropping them changes nothing. */
  lemma PreRuleLinesIgnored(pre: seq<PageLine>, rest: seq<PageLine>, statuteId: bool)
    requires NoRuleLine(pre, statuteId)
    requires rest != [] && Strip(rest[0].text) != "" && IsRuleLine(Strip(rest[0].text), statuteId)
    ensures RawRules(pre + rest, statuteId) == RawRules(rest, statuteId)
  {
    NoRuleNoHeading(pre, statuteId);
    ForgetPrefix(pre, rest, statuteId);
  }

  /** An index without any rule line yields no chunk at all. */
  lemma NoRuleNoChunk(mapping: seq<PageLine>, statuteId: bool)
    requires NoRuleLine(mapping, statuteId)
    ensures RawRules(mapping, statuteId) == []
  {
    NoRuleNoHeading(mapping, statuteId);
  }

  // ---------------------------------------------------------------- the merge pass

  /** The open group of the merge loop: `last_heading`, `last_lines`, `last_start`, `last_end`. */
  datatype Group = Group(heading: string, lines: seq<string>, start: int, end: int)

  datatype MergeState = MergeState(last: Option<Group>, merged: seq<Chunk>)

  function GroupChunk(g: Group, docId: string): Chunk {
    Chunk(g.heading + "\n" + Strip(Join(g.lines, "\n")), ChunkMeta(docId, g.heading, None, g.start, g.end))
  }

  /** `if last_heading:` emits the open group when its heading is truthy. */
  function EmitGroup(last: Option<Group>, docId: string): seq<Chunk> {
    if last.Some? && last.value.heading != "" then [GroupChunk(last.value, docId)] else []
  }

  /** `ch["text"].split("\n", 1)[1]`; every raw chunk text holds a newline. */
  function BodyOf(c: Chunk): string {
    AfterFirstNewline(c.text)
  }

  function MergeStep(st: MergeState, c: Chunk, docId: string): MergeState {
    if st.last.Some? && c.meta.heading == st.last.value.heading then
      var g := st.last.value;
      MergeState(Some(Group(g.heading, g.lines + [BodyOf(c)], g.start, c.meta.endPage)), st.merged)
    else
      MergeState(Some(Group(c.meta.heading, [BodyOf(c)], c.meta.startPage, c.meta.endPage)),
                 st.merged + EmitGroup(st.last, docId))
  }

  function MergeRun(cs: seq<Chunk>, docId: string): MergeState {
    if cs == [] then MergeState(None, [])
    else MergeStep(MergeRun(cs[..|cs| - 1], docId), cs[|cs| - 1], docId)
  }

  lemma MergeRunSnoc(cs: seq<Chunk>, i: nat, docId: string)
    requires i < |cs|
    ensures MergeRun(cs[..i + 1], docId) == MergeStep(MergeRun(cs[..i], docId), cs[i], docId)
  {
    assert cs[..i + 1][..i] == cs[..i];
  }

  function Merged(cs: seq<Chunk>, docId: string): seq<Chunk> {
    var st := MergeRun(cs, docId);
    st.merged + EmitGroup(st.last, docId)
  }

  // ---------------------------------------------------------------- reference grouping

  predicate NonEmptyRuns(rs: seq<seq<Chunk>>) {
    forall k :: 0 <= k < |rs| ==> rs[k] != []
  }

  /** Add a chunk to the runs: onto the last run if it shares that run's heading. */
  function Extend(rs: seq<seq<Chunk>>, c: Chunk): (r: seq<seq<Chunk>>)
    requires NonEmptyRuns(rs)
    ensures NonEmptyRuns(r) && r != []
  {
    if rs != [] && rs[|rs| - 1][0].meta.heading == c.meta.heading then
      rs[..|rs| - 1] + [rs[|rs| - 1] + [c]]
    else rs + [[c]]
  }

  /** The maximal runs of consecutive chunks with equal headings. */
  function HeadingRuns(cs: seq<Chunk>): (r: seq<seq<Chunk>>)
    ensures NonEmptyRuns(r)
    ensures cs == [] <==> r == []
  {
    if cs == [] then [] else Extend(HeadingRuns(cs[..|cs| - 1]), cs[|cs| - 1])
  }

  function Bodies(run: seq<Chunk>): seq<string> {
    seq(|run|, k requires 0 <= k < |run| => BodyOf(run[k]))
  }

  /** The group of a run: its heading, its bodies in order, its first start and last end. */
  function GroupOf(run: seq<Chunk>): Group
    requires run != []
  {
    Group(run[0].meta.heading, Bodies(run), run[0].meta.startPage, run[|run| - 1].meta.endPage)
  }

  function Combine(runs: seq<seq<Chunk>>, docId: string): seq<Chunk>
    requires forall k :: 0 <= k < |runs| ==> runs[k] != []
  {
    seq(|runs|, k requires 0 <= k < |runs| => GroupChunk(GroupOf(runs[k]), docId))
  }

  predicate SameHeading(run: seq<Chunk>) {
    forall k :: 0 <= k < |run| ==> run[k].meta.heading == run[0].meta.heading
  }

  lemma ExtendFlatten(rs: seq<seq<Chunk>>, c: Chunk)
    requires NonEmptyRuns(rs)
    ensures Flatten(Extend(rs, c)) == Flatten(rs) + [c]
  {
    if rs != [] && rs[|rs| - 1][0].meta.heading == c.meta.heading {
      var m := |rs| - 1;
      assert rs == rs[..m] + [rs[m]];
      FlattenAppend(rs[..m], rs[m]);
      FlattenAppend(rs[..m], rs[m] + [c]);
    } else {
      FlattenAppend(rs, [c]);
    }
  }

  predicate AllSameHeading(rs: seq<seq<Chunk>>) {
    forall k :: 0 <= k < |rs| ==> SameHeading(rs[k])
  }

  predicate NeighboursDiffer(rs: seq<seq<Chunk>>)
    requires NonEmptyRuns(rs)
  {
    forall k :: 0 <= k < |rs| - 1 ==> rs[k][0].meta.heading != rs[k + 1][0].meta.heading
  }

  lemma ExtendSame(rs: seq<seq<Chunk>>, c: Chunk)
    requires NonEmptyRuns(rs) && AllSameHeading(rs)
    ensures AllSameHeading(Extend(rs, c))
  {
    var r: seq<seq<Chunk>> := Extend(rs, c);
    if rs != [] && rs[|rs| - 1][0].meta.heading == c.meta.heading {
      var m := |rs| - 1;
      forall k | 0 <= k < |r| ensures SameHeading(r[k]) {
        if k < m { assert r[k] == rs[k]; }
        else {
          assert SameHeading(rs[m]);
          assert r[k] == rs[m] + [c];
        }
      }
    } else {
      forall k | 0 <= k < |r| ensures SameHeading(r[k]) {
        if k < |rs| { assert r[k] == rs[k]; }
      }
    }
  }

  lemma ExtendDiffer(rs: seq<seq<Chunk>>, c: Chunk)
    requires NonEmptyRuns(rs) && NeighboursDiffer(rs)
    ensures NeighboursDiffer(Extend(rs, c))
  {
    var r: seq<seq<Chunk>> := Extend(rs, c);
    if rs != [] && rs[|rs| - 1][0].meta.heading == c.meta.heading {
      var m := |rs| - 1;
      forall k | 0 <= k < |r| - 1
        ensures r[k][0].meta.heading != r[k + 1][0].meta.heading
      {
        assert r[k] == rs[k];
        if k + 1 < m { assert r[k + 1] == rs[k + 1]; }
        else { assert r[k + 1][0] == rs[m][0]; }
      }
    } else {
      forall k | 0 <= k < |r| - 1
        ensures r[k][0].meta.heading != r[k + 1][0].meta.heading
      {
        assert r[k] == rs[k];
        if k + 1 < |rs| { assert r[k + 1] == rs[k + 1]; }
      }
    }
  }

  /** The runs cover the chunks in order, each run has one heading, and neighbouring runs
      have different headings. */
  lemma {:induction false} HeadingRunsPartition(cs: seq<Chunk>)
    ensures Flatten(HeadingRuns(cs)) == cs
    ensures AllSameHeading(HeadingRuns(cs))
    ensures NeighboursDiffer(HeadingRuns(cs))
  {
    if cs != [] {
      var n := |cs| - 1;
      HeadingRunsPartition(cs[..n]);
      var rs: seq<seq<Chunk>> := HeadingRuns(cs[..n]);
      ExtendFlatten(rs, cs[n]);
      ExtendSame(rs, cs[n]);
      ExtendDiffer(rs, cs[n]);
      assert cs == cs[..n] + [cs[n]];
    }
  }

  predicate HeadingsNonEmpty(cs: seq<Chunk>) {
    forall k :: 0 <= k < |cs| ==> cs[k].meta.heading != ""
  }

  /** The fold state that the runs `rs` stand for: the last run open, the others combined. */
  function StateOfRuns(rs: seq<seq<Chunk>>, docId: string): MergeState
    requires NonEmptyRuns(rs)
  {
    if rs == [] then MergeState(None, [])
    else MergeState(Some(GroupOf(rs[|rs| - 1])), Combine(rs[..|rs| - 1], docId))
  }

  lemma CombineSnoc(rs: seq<seq<Chunk>>, run: seq<Chunk>, docId: string)
    requires NonEmptyRuns(rs) && run != []
    ensures Combine(rs + [run], docId) == Combine(rs, docId) + [GroupChunk(GroupOf(run), docId)]
  {
  }

  /** One merge step on the state of some runs is the state of the extended runs. */
  lemma MergeStepExtend(rs: seq<seq<Chunk>>, c: Chunk, docId: string)
    requires NonEmptyRuns(rs)
    requires forall k :: 0 <= k < |rs| ==> rs[k][0].meta.heading != ""
    ensures MergeStep(StateOfRuns(rs, docId), c, docId) == StateOfRuns(Extend(rs, c), docId)
  {
    var r: seq<seq<Chunk>> := Extend(rs, c);
    if rs != [] && rs[|rs| - 1][0].meta.heading == c.meta.heading {
      var m := |rs| - 1;
      var last := rs[m];
      assert r[..|r| - 1] == rs[..m];
      assert r[|r| - 1] == last + [c];
      assert Bodies(last + [c]) == Bodies(last) + [BodyOf(c)];
    } else {
      assert r[..|r| - 1] == rs;
      assert Bodies([c]) == [BodyOf(c)];
      if rs != [] {
        var m := |rs| - 1;
        assert rs == rs[..m] + [rs[m]];
        CombineSnoc(rs[..m], rs[m], docId);
      }
    }
  }

  /** Every run starts with a chunk of the sequence, so with a non-empty heading. */
  lemma RunHeadsNonEmpty(cs: seq<Chunk>)
    requires HeadingsNonEmpty(cs)
    ensures forall k :: 0 <= k < |HeadingRuns(cs)| ==> HeadingRuns(cs)[k][0].meta.heading != ""
  {
    var rs: seq<seq<Chunk>> := HeadingRuns(cs);
    HeadingRunsPartition(cs);
    forall k | 0 <= k < |rs| ensures rs[k][0].meta.heading != "" {
      FlattenMember(rs, k);
      var c := rs[k][0];
      assert c in cs;
    }
  }

  /** The merge fold keeps the combined runs closed so far and the open last run. */
  lemma {:induction false} MergeRunInvariant(cs: seq<Chunk>, docId: string)
    requires HeadingsNonEmpty(cs)
    ensures MergeRun(cs, docId) == StateOfRuns(HeadingRuns(cs), docId)
  {
    if cs != [] {
      var n := |cs| - 1;
      assert HeadingsNonEmpty(cs[..n]) by {
        forall k | 0 <= k < n ensures cs[..n][k].meta.heading != "" { assert cs[..n][k] == cs[k]; }
      }
      MergeRunInvariant(cs[..n], docId);
      RunHeadsNonEmpty(cs[..n]);
      MergeStepExtend(HeadingRuns(cs[..n]), cs[n], docId);
    }
  }

  /** The first chunk of a run is a chunk of the flattened sequence. */
  lemma FlattenMember(rs: seq<seq<Chunk>>, m: nat)
    requires m < |rs| && rs[m] != []
    ensures rs[m][0] in Flatten(rs)
  {
    if m < |rs| - 1 {
      FlattenMember(rs[..|rs| - 1], m);
      assert rs[..|rs| - 1][m] == rs[m];
    }
  }

  /** The merge pass emits exactly one chunk per maximal run of equal headings. */
  lemma MergedIsCombinedRuns(cs: seq<Chunk>, docId: string)
    requires HeadingsNonEmpty(cs)
    ensures Merged(cs, docId) == Combine(HeadingRuns(cs), docId)
  {
    MergeRunInvariant(cs, docId);
    var rs: seq<seq<Chunk>> := HeadingRuns(cs);
    if cs != [] {
      RunHeadsNonEmpty(cs);
      var m := |rs| - 1;
      assert rs == rs[..m] + [rs[m]];
      CombineSnoc(rs[..m], rs[m], docId);
    }
  }

  /** After the merge no two adjacent chunks share a heading. */
  lemma MergedHeadingsDistinct(cs: seq<Chunk>, docId: string)
    requires HeadingsNonEmpty(cs)
    ensures forall k :: 0 <= k < |Merged(cs, docId)| - 1 ==>
      Merged(cs, docId)[k].meta.heading != Merged(cs, docId)[k + 1].meta.heading
  {
    MergedIsCombinedRuns(cs, docId);
    HeadingRunsPartition(cs);
  }

  // ---------------------------------------------------------------- the document

  /** The raw chunks of the index, and the merged chunks of the document. */
  function RawChunks(mapping: seq<PageLine>, docId: string): seq<Chunk> {
    var rules := RawRules(mapping, UsesStatutePattern(docId));
    RawRulesBodies(mapping, UsesStatutePattern(docId));
    RuleChunks(rules, docId)
  }

  function StatuteChunks(mapping: seq<PageLine>, docId: string): seq<Chunk> {
    Merged(RawChunks(mapping, docId), docId)
  }

  /** Raw chunks carry the heading of their rule, which is never empty. */
  lemma RawHeadingsNonEmpty(mapping: seq<PageLine>, docId: string)
    ensures HeadingsNonEmpty(RawChunks(mapping, docId))
  {
    RawRulesGood(mapping, UsesStatutePattern(docId));
  }

  /** A raw chunk's text after its heading line is its stripped joined body; this is what
      the merge collects. */
  lemma RawChunkBody(r: Rule, docId: string)
    requires r.lines != [] && '\n' !in r.heading
    ensures BodyOf(RuleChunk(r, docId)) == Strip(Join(Texts(r.lines), "\n"))
  {
    AfterHeadingLine(r.heading, Strip(Join(Texts(r.lines), "\n")));
  }

  // ---------------------------------------------------------------- the imperative passes

  /** The closure `flush_chunk`. */
  method FlushRuleChunk(chunks: seq<Chunk>, heading: Option<string>, buffer: seq<PageLine>, docId: string)
    returns (r: seq<Chunk>)
    ensures heading.Some? && heading.value != "" && buffer != [] ==>
      r == chunks + [RuleChunk(Rule(heading.value, buffer), docId)]
    ensures !(heading.Some? && heading.value != "" && buffer != []) ==> r == chunks
  {
    r := chunks;
    if heading.Some? && heading.value != "" && buffer != [] {
      var pages := Pages(buffer);
      var chunkText := heading.value + "\n" + Strip(Join(Texts(buffer), "\n"));
      r := chunks + [Chunk(chunkText, ChunkMeta(docId, heading.value, None, SeqMin(pages), SeqMax(pages)))];
    }
  }

  lemma RuleChunksSnoc(rules: seq<Rule>, g: seq<Rule>, docId: string)
    requires NonEmptyBodies(rules) && NonEmptyBodies(g)
    ensures NonEmptyBodies(rules + g)
    ensures RuleChunks(rules + g, docId) == RuleChunks(rules, docId) + RuleChunks(g, docId)
  {
    BodiesAppend(rules, g);
    RuleChunksAppend(rules, g, docId);
  }

  lemma BodiesAppend(rules: seq<Rule>, g: seq<Rule>)
    requires NonEmptyBodies(rules) && NonEmptyBodies(g)
    ensures NonEmptyBodies(rules + g)
  {
    var all := rules + g;
    forall k | 0 <= k < |all| ensures all[k].lines != [] {
      if k < |rules| { assert all[k] == rules[k]; } else { assert all[k] == g[k - |rules|]; }
    }
  }

  lemma RuleChunksAppend(rules: seq<Rule>, g: seq<Rule>, docId: string)
    requires NonEmptyBodies(rules) && NonEmptyBodies(g) && NonEmptyBodies(rules + g)
    ensures RuleChunks(rules + g, docId) == RuleChunks(rules, docId) + RuleChunks(g, docId)
  {
    var all := rules + g;
    var a, b, c := RuleChunks(all, docId), RuleChunks(rules, docId), RuleChunks(g, docId);
    forall k | 0 <= k < |a| ensures a[k] == (b + c)[k] {
      if k < |rules| { assert all[k] == rules[k]; } else { assert all[k] == g[k - |rules|]; }
    }
  }

  /** One iteration of the loop over the index, at entry `i`. */
  method RawStepAt(chunks: seq<Chunk>, heading: Option<string>, buffer: seq<PageLine>,
                   mapping: seq<PageLine>, i: nat, docId: string, statuteId: bool)
    returns (chunks': seq<Chunk>, heading': Option<string>, buffer': seq<PageLine>)
    requires i < |mapping|
    requires var st := RawRun(mapping[..i], statuteId);
      heading == st.heading && buffer == st.buffer && NonEmptyBodies(st.rules) &&
      chunks == RuleChunks(st.rules, docId)
    ensures var st := RawRun(mapping[..i + 1], statuteId);
      heading' == st.heading && buffer' == st.buffer && NonEmptyBodies(st.rules) &&
      chunks' == RuleChunks(st.rules, docId)
  {
    RawRunSnoc(mapping, i, statuteId);
    ghost var rules := RawRun(mapping[..i], statuteId).rules;
    assert RawRun(mapping[..i], statuteId) == RawState(heading, buffer, rules);
    chunks', heading', buffer' := chunks, heading, buffer;
    var clean := Strip(mapping[i].text);
    if clean != "" {
      if IsRuleLine(clean, statuteId) {
        chunks' := FlushRuleChunk(chunks, heading, buffer, docId);
        FlushMatches(chunks, rules, heading, buffer, docId, chunks');
        heading', buffer' := Some(clean), [];
        assert RawRun(mapping[..i + 1], statuteId) == RawState(heading', buffer', rules + FlushRule(heading, buffer));
      } else {
        buffer' := buffer + [PageLine(clean, mapping[i].page)];
        assert RawRun(mapping[..i + 1], statuteId) == RawState(heading, buffer', rules);
      }
    }
  }

  /** The chunk list after a flush is that of the rules after the flush. */
  lemma FlushMatches(chunks: seq<Chunk>, rules: seq<Rule>, heading: Option<string>, buffer: seq<PageLine>,
                     docId: string, flushed: seq<Chunk>)
    requires NonEmptyBodies(rules) && chunks == RuleChunks(rules, docId)
    requires heading.Some? && heading.value != "" && buffer != [] ==>
      flushed == chunks + [RuleChunk(Rule(heading.value, buffer), docId)]
    requires !(heading.Some? && heading.value != "" && buffer != []) ==> flushed == chunks
    ensures NonEmptyBodies(rules + FlushRule(heading, buffer))
    ensures flushed == RuleChunks(rules + FlushRule(heading, buffer), docId)
  {
    var g := FlushRule(heading, buffer);
    RuleChunksSnoc(rules, g, docId);
    if g == [] {
      assert rules + g == rules;
    } else {
      assert RuleChunks(g, docId) == [RuleChunk(Rule(heading.value, buffer), docId)];
    }
  }

  /** The loop of `chunk_document_statute` over the line→page index. */
  method RawStatuteChunks(mapping: seq<PageLine>, docId: string) returns (chunks: seq<Chunk>)
    ensures chunks == RawChunks(mapping, docId)
  {
    var statuteId := UsesStatutePattern(docId);
    var heading: Option<string> := None;
    var localBuffer: seq<PageLine> := [];
    chunks := [];
    var i := 0;
    while i < |mapping|
      invariant i <= |mapping|
      invariant var st := RawRun(mapping[..i], statuteId);
        heading == st.heading && localBuffer == st.buffer && NonEmptyBodies(st.rules) &&
        chunks == RuleChunks(st.rules, docId)
    {
      chunks, heading, localBuffer := RawStepAt(chunks, heading, localBuffer, mapping, i, docId, statuteId);
      i := i + 1;
    }
    assert mapping[..i] == mapping;
    ghost var st := RawRun(mapping, statuteId);
    ghost var g := FlushRule(heading, localBuffer);
    RuleChunksSnoc(st.rules, g, docId);
    chunks := FlushRuleChunk(chunks, heading, localBuffer, docId);
    assert chunks == RuleChunks(st.rules + g, docId);
    assert st.rules + g == RawRules(mapping, statuteId);
  }

  /** The merge loop of `chunk_document_statute`. */
  method MergeDuplicates(chunks: seq<Chunk>, docId: string) returns (merged: seq<Chunk>)
    ensures merged == Merged(chunks, docId)
  {
    merged := [];
    var lastHeading: Option<string> := None;
    var lastLines: seq<string> := [];
    var lastStart, lastEnd := 0, 0;
    var i := 0;
    while i < |chunks|
      invariant i <= |chunks|
      invariant var st := MergeRun(chunks[..i], docId);
        merged == st.merged &&
        (lastHeading.None? <==> st.last.None?) &&
        (st.last.Some? ==> st.last.value == Group(lastHeading.value, lastLines, lastStart, lastEnd))
    {
      MergeRunSnoc(chunks, i, docId);
      var ch := chunks[i];
      var h := ch.meta.heading;
      if lastHeading.Some? && h == lastHeading.value {
        lastLines := lastLines + [AfterFirstNewline(ch.text)];
        lastEnd := ch.meta.endPage;
      } else {
        if lastHeading.Some? && lastHeading.value != "" {
          merged := merged + [Chunk(lastHeading.value + "\n" + Strip(Join(lastLines, "\n")),
                                    ChunkMeta(docId, lastHeading.value, None, lastStart, lastEnd))];
        }
        lastHeading, lastStart, lastEnd := Some(h), ch.meta.startPage, ch.meta.endPage;
        lastLines := [AfterFirstNewline(ch.text)];
      }
      i := i + 1;
    }
    assert chunks[..i] == chunks;
    if lastHeading.Some? && lastHeading.value != "" {
      merged := merged + [Chunk(lastHeading.value + "\n" + Strip(Join(lastLines, "\n")),
                                ChunkMeta(docId, lastHeading.value, None, lastStart, lastEnd))];
    }
  }

  /** `chunk_document_statute`. */
  method ChunkDocumentStatute(headerSplit: seq<string>, file: string, mapping: seq<PageLine>)
    returns (merged: seq<Chunk>)
    ensures merged == StatuteChunks(mapping, Basename(file))
  {
    var docId := Basename(file);
    var chunks := RawStatuteChunks(mapping, docId);
    merged := MergeDuplicates(chunks, docId);
  }
}
