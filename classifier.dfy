/**
 * The FAQ side of the classifier step, packages/messages/lambdas/classifier/main.py:
 * a retrieved FAQ document "Q: ...\nA: ..." is parsed into a question and an answer,
 * and the parsable results become FAQs identified by a prefix of their content hash.
 *
 * The knowledge-base query is not modelled; SHA-256 is the uninterpreted function
 * `contentHash` (text to hex digest).
 */
module Classifier {
  import opened Wrappers
  import opened Text

  /** An FAQ of the FAQResource. */
  datatype Faq = Faq(faqId: string, question: string, answer: string)

  datatype Qa = Qa(q: string, a: string)

  /** Index of the first line that starts with `prefix`. */
  function FirstStarting(lines: seq<string>, prefix: string): (r: Option<nat>)
    ensures r.Some? ==> r.value < |lines| && StartsWith(lines[r.value], prefix) &&
                        forall j :: 0 <= j < r.value ==> !StartsWith(lines[j], prefix)
    ensures r.None? ==> forall j :: 0 <= j < |lines| ==> !StartsWith(lines[j], prefix)
  {
    if lines == [] then None
    else if StartsWith(lines[0], prefix) then Some(0)
    else
      var r := FirstStarting(lines[1..], prefix);
      if r.None? then None
      else
        assert forall j :: 1 <= j <= r.value ==> lines[j] == lines[1..][j - 1];
        Some(r.value + 1)
  }

  function QaLines(document: string): seq<string> { Split(Strip(document), '\n') }

  /** The text after a two-character prefix, stripped. */
  function AfterPrefix(line: string): (r: string)
    requires |line| >= 2
    ensures IsStripped(r)
  {
    StripOk(line[2..]);
    Strip(line[2..])
  }

  /** The answer begun on line `ai`: the rest of that line and every later line, joined
      and stripped. */
  function AnswerFrom(lines: seq<string>, ai: nat): (r: string)
    requires ai < |lines| && |lines[ai]| >= 2
    ensures IsStripped(r)
  {
    var text := Join([AfterPrefix(lines[ai])] + lines[ai + 1..], "\n");
    StripOk(text);
    Strip(text)
  }

  /** The question and answer of the document, or None when the format is not met. */
  function ParseQa(document: string): Option<Qa> {
    ParseQaLines(QaLines(document))
  }

  function ParseQaLines(lines: seq<string>): Option<Qa> {
    var qi := FirstStarting(lines, "Q:");
    var ai := FirstStarting(lines, "A:");
    if qi.None? || ai.None? then None
    else if qi.value >= ai.value then None
    else
      var question := AfterPrefix(lines[qi.value]);
      var answer := AnswerFrom(lines, ai.value);
      if question == "" || answer == "" then None else Some(Qa(question, answer))
  }

  /** One of the two search loops: the index of the first line starting with `prefix`. */
  method FindFirstLine(lines: seq<string>, prefix: string) returns (idx: Option<nat>)
    ensures idx == FirstStarting(lines, prefix)
  {
    idx := None;
    var i := 0;
    while i < |lines|
      invariant i <= |lines|
      invariant idx.None? ==> forall j :: 0 <= j < i ==> !StartsWith(lines[j], prefix)
      invariant idx.Some? ==> idx == FirstStarting(lines, prefix)
    {
      if StartsWith(lines[i], prefix) {
        idx := Some(i);
        break;
      }
      i := i + 1;
    }
  }

  /** `parse_qa_document`: the two searches, then the extraction. */
  method ParseQaDocument(document: string) returns (r: Option<Qa>)
    ensures r == ParseQa(document)
  {
    var lines := Split(Strip(document), '\n');
    r := ParseQaFromLines(lines);
  }

  /** The searches and the extraction on the document's lines. */
  method ParseQaFromLines(lines: seq<string>) returns (r: Option<Qa>)
    ensures r == ParseQaLines(lines)
  {
    var questionIdx := FindFirstLine(lines, "Q:");
    var answerIdx := FindFirstLine(lines, "A:");
    if questionIdx.None? || answerIdx.None? {
      return None;
    }
    if questionIdx.value >= answerIdx.value {
      return None;
    }
    var question := AfterPrefix(lines[questionIdx.value]);
    var answer := AnswerFrom(lines, answerIdx.value);
    if question == "" || answer == "" {
      return None;
    }
    return Some(Qa(question, answer));
  }

  // ---------------------------------------------------------------- properties

  /** Some "A:" line has no "Q:" line at or before it. */
  predicate AnswerFirst(lines: seq<string>) {
    exists a :: 0 <= a < |lines| && StartsWith(lines[a], "A:") && NoneStartUpTo(lines, "Q:", a)
  }

  predicate NoneStartUpTo(lines: seq<string>, prefix: string, a: nat) {
    forall j :: 0 <= j <= a && j < |lines| ==> !StartsWith(lines[j], prefix)
  }

  /** A document is refused when it has no "Q:" line, no "A:" line, or its first "Q:"
      line does not come before its first "A:" line. */
  lemma ParseQaRejects(document: string)
    ensures var lines := QaLines(document);
      (forall j :: 0 <= j < |lines| ==> !StartsWith(lines[j], "Q:")) ||
      (forall j :: 0 <= j < |lines| ==> !StartsWith(lines[j], "A:")) ||
      AnswerFirst(lines)
      ==> ParseQa(document).None?
  {
    RejectsLines(QaLines(document));
  }

  /** `ParseQaRejects` on the lines of the document. */
  lemma RejectsLines(lines: seq<string>)
    ensures (forall j :: 0 <= j < |lines| ==> !StartsWith(lines[j], "Q:")) ||
      (forall j :: 0 <= j < |lines| ==> !StartsWith(lines[j], "A:")) ||
      AnswerFirst(lines)
      ==> ParseQaLines(lines).None?
  {
    var qi := FirstStarting(lines, "Q:");
    var ai := FirstStarting(lines, "A:");
    if qi.Some? && ai.Some? && AnswerFirst(lines) {
      AnswerFirstOrder(lines);
    }
  }

  /** When some "A:" line precedes every "Q:" line, the first "A:" line is found first. */
  lemma AnswerFirstOrder(lines: seq<string>)
    requires AnswerFirst(lines)
    requires FirstStarting(lines, "Q:").Some? && FirstStarting(lines, "A:").Some?
    ensures FirstStarting(lines, "Q:").value > FirstStarting(lines, "A:").value
  {
    var a :| 0 <= a < |lines| && StartsWith(lines[a], "A:") && NoneStartUpTo(lines, "Q:", a);
    assert FirstStarting(lines, "A:").value <= a;
    assert FirstStarting(lines, "Q:").value > a;
  }

  /** A parsed document has a first "Q:" line before its first "A:" line (see
      `FirstStarting`); the question is the rest of that Q line (`AfterPrefix`) and the
      answer the rest of that A line with all later lines (`AnswerFrom`), both stripped
      and non-empty. */
  lemma ParseQaFields(document: string)
    requires ParseQa(document).Some?
    ensures var lines := QaLines(document);
      var qa := ParseQa(document).value;
      var qi, ai := FirstStarting(lines, "Q:"), FirstStarting(lines, "A:");
      qi.Some? && ai.Some? && qi.value < ai.value &&
      qa == Qa(AfterPrefix(lines[qi.value]), AnswerFrom(lines, ai.value)) &&
      qa.q != "" && qa.a != "" && IsStripped(qa.q) && IsStripped(qa.a)
  {
    var lines := QaLines(document);
    var qi := FirstStarting(lines, "Q:").value;
    var ai := FirstStarting(lines, "A:").value;
    assert ParseQaLines(lines).value == Qa(AfterPrefix(lines[qi]), AnswerFrom(lines, ai));
  }

  /** `x + "\n" + y` splits into its two lines when neither holds a newline. */
  lemma SplitTwoLines(x: string, y: string)
    requires '\n' !in x && '\n' !in y
    ensures Split(x + "\n" + y, '\n') == [x, y]
  {
    assert [x, y][1..] == [y];
    assert Join([x, y], "\n") == x + "\n" + y;
    SplitJoin([x, y], '\n');
  }

  /** The two lines of "Q: q\nA: a" followed by whitespace. */
  lemma QaLinesOfUpload(q: string, a: string, w: string)
    requires a != "" && IsStripped(a) && '\n' !in q && '\n' !in a && AllSpace(w)
    ensures QaLines("Q: " + q + "\nA: " + a + w) == ["Q: " + q, "A: " + a]
  {
    var x, y := "Q: " + q, "A: " + a;
    var body := x + "\n" + y;
    assert "Q: " + q + "\nA: " + a + w == body + w;
    assert body[0] == 'Q' && body[|body| - 1] == a[|a| - 1];
    StripTrailingSpace(body, w);
    SplitTwoLines(x, y);
  }

  /** A stripped text after a prefix and one space is recovered by `AfterPrefix`. */
  lemma AfterPrefixOf(p: string, t: string)
    requires |p| == 2 && IsStripped(t)
    ensures AfterPrefix(p + " " + t) == t
  {
    assert (p + " " + t)[2..] == " " + t;
    StripLeadingSpace(" ", t);
  }

  lemma ParseUploadLines(q: string, a: string)
    requires q != "" && a != "" && IsStripped(q) && IsStripped(a)
    ensures ParseQaLines(["Q: " + q, "A: " + a]) == Some(Qa(q, a))
  {
    var x, y := "Q: " + q, "A: " + a;
    var lines := [x, y];
    assert x == "Q:" + " " + q && y == "A:" + " " + a;
    assert StartsWith(x, "Q:") && !StartsWith(x, "A:") && StartsWith(y, "A:");
    assert FirstStarting(lines, "Q:") == Some(0);
    assert FirstStarting(lines[1..], "A:") == Some(0);
    assert FirstStarting(lines, "A:") == Some(1);
    AfterPrefixOf("Q:", q);
    AfterPrefixOf("A:", a);
    assert [AfterPrefix(y)] + lines[2..] == [a];
    StripStripped(a);
    assert AnswerFrom(lines, 1) == a;
  }

  /** The upload format round-trips: "Q: q\nA: a" followed by any whitespace parses back to
      q and a when both are stripped, non-empty single lines. */
  lemma ParseQaRoundTrip(q: string, a: string, w: string)
    requires q != "" && a != "" && IsStripped(q) && IsStripped(a)
    requires '\n' !in q && '\n' !in a && AllSpace(w)
    ensures ParseQa("Q: " + q + "\nA: " + a + w) == Some(Qa(q, a))
  {
    QaLinesOfUpload(q, a, w);
    ParseUploadLines(q, a);
  }

  // ---------------------------------------------------------------- FAQ results

  /** The FAQ a parsable result becomes. */
  function FaqOf(text: string, contentHash: string -> string): Faq
    requires ParseQa(text).Some?
  {
    var qa := ParseQa(text).value;
    Faq(Take(contentHash(text), 7), qa.q, qa.a)
  }

  predicate Parses(text: string) { ParseQa(text).Some? }

  /** The FAQs of the results, in order, skipping unparsable ones. */
  function FaqsOf(texts: seq<string>, contentHash: string -> string): seq<Faq> {
    if texts == [] then []
    else
      var n := |texts| - 1;
      FaqsOf(texts[..n], contentHash) + (if Parses(texts[n]) then [FaqOf(texts[n], contentHash)] else [])
  }

  /** `process_faq_results` over the results' content texts: None when nothing parses. */
  method ProcessFaqResults(texts: seq<string>, contentHash: string -> string) returns (r: Option<seq<Faq>>)
    ensures r == if FaqsOf(texts, contentHash) == [] then None else Some(FaqsOf(texts, contentHash))
  {
    var faqs := [];
    var i := 0;
    while i < |texts|
      invariant i <= |texts|
      invariant faqs == FaqsOf(texts[..i], contentHash)
    {
      var text := texts[i];
      FaqsOfSnoc(texts, i, contentHash);
      var faqId := Take(contentHash(text), 7);
      var qa := ParseQaDocument(text);
      if qa.Some? {
        assert FaqOf(text, contentHash) == Faq(faqId, qa.value.q, qa.value.a);
        faqs := faqs + [Faq(faqId, qa.value.q, qa.value.a)];
      }
      i := i + 1;
    }
    assert texts[..i] == texts;
    return if faqs == [] then None else Some(faqs);
  }

  lemma FaqsOfSnoc(texts: seq<string>, i: nat, contentHash: string -> string)
    requires i < |texts|
    ensures FaqsOf(texts[..i + 1], contentHash) == FaqsOf(texts[..i], contentHash) +
      (if Parses(texts[i]) then [FaqOf(texts[i], contentHash)] else [])
  {
    assert texts[..i + 1][..i] == texts[..i];
  }

  /** The FAQs are exactly the parsable results, in order, each identified by the first
      seven characters of its content hash. */
  lemma {:induction false} FaqsAreParsedResults(texts: seq<string>, contentHash: string -> string)
    ensures var fs := FaqsOf(texts, contentHash);
      var ok := Filter(texts, Parses);
      |fs| == |ok| &&
      forall k :: 0 <= k < |fs| ==>
        fs[k].faqId == Take(contentHash(ok[k]), 7) &&
        Some(Qa(fs[k].question, fs[k].answer)) == ParseQa(ok[k])
  {
    if texts != [] {
      var n := |texts| - 1;
      FaqsAreParsedResults(texts[..n], contentHash);
      var fs0, ok0 := FaqsOf(texts[..n], contentHash), Filter(texts[..n], Parses);
      var fs, ok := FaqsOf(texts, contentHash), Filter(texts, Parses);
      if Parses(texts[n]) {
        assert fs == fs0 + [FaqOf(texts[n], contentHash)];
        assert ok == ok0 + [texts[n]];
        forall k | 0 <= k < |fs|
          ensures fs[k].faqId == Take(contentHash(ok[k]), 7) &&
                  Some(Qa(fs[k].question, fs[k].answer)) == ParseQa(ok[k])
        {
          if k < |fs0| {
            assert fs[k] == fs0[k] && ok[k] == ok0[k];
          }
        }
      } else {
        assert fs == fs0 && ok == ok0;
      }
    }
  }

  lemma {:induction false} FilterEmpty<T>(xs: seq<T>, p: T -> bool)
    ensures Filter(xs, p) == [] <==> forall i :: 0 <= i < |xs| ==> !p(xs[i])
  {
    if xs != [] {
      var n := |xs| - 1;
      FilterEmpty(xs[..n], p);
      if !p(xs[n]) && Filter(xs[..n], p) == [] {
        forall i | 0 <= i < |xs|
          ensures !p(xs[i])
        {
          if i < n { assert xs[i] == xs[..n][i]; }
        }
      } else if !p(xs[n]) {
        var i :| 0 <= i < n && p(xs[..n][i]);
        assert xs[i] == xs[..n][i];
      }
    }
  }

  /** `process_faq_results` gives None exactly when no result parses. */
  lemma NoFaqsIffNoneParse(texts: seq<string>, contentHash: string -> string)
    ensures FaqsOf(texts, contentHash) == [] <==> forall i :: 0 <= i < |texts| ==> !Parses(texts[i])
  {
    FaqsAreParsedResults(texts, contentHash);
    FilterEmpty(texts, Parses);
  }
}
