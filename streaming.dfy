/**
 * The document and answer handling of the response-streaming step,
 * packages/messages/lambdas/streaming/main.py: FAQs become documents and are mixed with
 * the retrieved documents under the source priority, the model's cumulative partial
 * answers are turned into deltas, and the documents the model calls relevant are kept.
 *
 * The model call itself, chat history, WebSocket sending and configuration loading are
 * not modelled: the partial answers come in as a sequence and the priority list as a
 * parameter.
 */
module Streaming {
  import opened Wrappers
  import opened Text
  import opened SourcePriority
  import opened Classifier

  /** The FAQ rendered as a retrieved document with source id "faqs". */
  function FaqDocument(faq: Faq): RagDocument {
    RagDocument(faq.faqId, "FAQ: " + faq.question, "Q: " + faq.question + "\nA: " + faq.answer,
                None, Some("faqs"))
  }

  /** The FAQs of an optional resource; a missing resource has none. */
  function FaqList(faqs: Option<seq<Faq>>): seq<Faq> {
    if faqs.Some? then faqs.value else []
  }

  // ---------------------------------------------------------------- FAQs as documents

  /** `convert_faqs_to_documents`: one document per FAQ, in order. */
  method ConvertFaqsToDocuments(faqs: Option<seq<Faq>>) returns (documents: seq<RagDocument>)
    ensures faqs.None? || faqs.value == [] ==> documents == []
    ensures |documents| == |FaqList(faqs)|
    ensures forall i :: 0 <= i < |documents| ==>
      var f := FaqList(faqs)[i];
      documents[i].documentId == f.faqId && documents[i].title == "FAQ: " + f.question &&
      documents[i].content == "Q: " + f.question + "\nA: " + f.answer &&
      documents[i].source.None? && documents[i].sourceId == Some("faqs")
  {
    if faqs.None? || faqs.value == [] {
      return [];
    }
    documents := [];
    var i := 0;
    while i < |faqs.value|
      invariant i <= |faqs.value| && |documents| == i
      invariant forall k :: 0 <= k < i ==> documents[k] == FaqDocument(faqs.value[k])
    {
      documents := documents + [FaqDocument(faqs.value[i])];
      i := i + 1;
    }
  }

  function FaqDocuments(faqs: Option<seq<Faq>>): seq<RagDocument> {
    seq(|FaqList(faqs)|, i requires 0 <= i < |FaqList(faqs)| => FaqDocument(FaqList(faqs)[i]))
  }

  /** `mix_and_filter_documents`: the FAQ documents, then the retrieved ones, reordered by
      the source priority (which keeps the order when the list is empty). */
  method MixAndFilterDocuments(faqs: Option<seq<Faq>>, documents: Option<seq<RagDocument>>,
                               sourceIdPriority: seq<string>)
    returns (mixed: seq<RagDocument>)
    ensures mixed == Reordered(FaqDocuments(faqs) + documents.GetOr([]), sourceIdPriority)
  {
    var faqDocuments := ConvertFaqsToDocuments(faqs);
    assert faqDocuments == FaqDocuments(faqs);
    var ragDocuments := if documents.Some? then documents.value else [];
    var allDocuments := faqDocuments + ragDocuments;
    if allDocuments == [] {
      return [];
    }
    if sourceIdPriority != [] {
      mixed := ReorderDocuments(allDocuments, sourceIdPriority);
    } else {
      mixed := allDocuments;
    }
  }

  /** Mixing drops nothing and adds nothing, and without a priority list the FAQ documents
      come first, then the retrieved documents in their order. */
  lemma MixedPermutes(faqs: Option<seq<Faq>>, documents: Option<seq<RagDocument>>, priority: seq<string>)
    ensures var all := FaqDocuments(faqs) + documents.GetOr([]);
      multiset(Reordered(all, priority)) == multiset(all) &&
      (priority == [] ==> Reordered(all, priority) == all)
  {
    ReorderedPermutes(FaqDocuments(faqs) + documents.GetOr([]), priority);
  }

  // ---------------------------------------------------------------- fragments

  /** `fragment_message`: consecutive pieces of three characters, the last one shorter. */
  method FragmentMessage(message: string) returns (fragments: seq<string>)
    ensures Flatten(fragments) == message
    ensures message == "" ==> fragments == []
    ensures forall k :: 0 <= k < |fragments| ==> 1 <= |fragments[k]| <= 3
    ensures forall k :: 0 <= k < |fragments| - 1 ==> |fragments[k]| == 3
  {
    fragments := [];
    var i := 0;
    while i < |message|
      invariant i <= |message|
      invariant Flatten(fragments) == message[..i]
      invariant forall k :: 0 <= k < |fragments| ==> 1 <= |fragments[k]| <= 3
      invariant forall k :: 0 <= k < |fragments| - 1 ==> |fragments[k]| == 3
      invariant fragments != [] && i < |message| ==> |fragments[|fragments| - 1]| == 3
      invariant fragments == [] <==> i == 0
    {
      var fragLen := if 3 < |message| - i then 3 else |message| - i;
      FlattenAppend(fragments, message[i..i + fragLen]);
      assert message[..i + fragLen] == message[..i] + message[i..i + fragLen];
      fragments := fragments + [message[i..i + fragLen]];
      i := i + fragLen;
    }
    assert message[..i] == message;
  }

  // ---------------------------------------------------------------- answer deltas

  /** A cumulative partial response; a missing answer or id list behaves like an empty one. */
  datatype Partial = Partial(answer: string, relevantDocumentIds: seq<string>)

  /** The generator's state: characters sent so far, the answer they form, the deltas
      yielded, and the relevant ids seen. */
  datatype Progress = Progress(previousLength: nat, fullAnswer: string, deltas: seq<string>,
                               relevant: seq<string>)

  /** One partial response: a longer answer yields its new tail; ids are taken only from
      partials that carry an answer. */
  function Step(st: Progress, p: Partial): Progress {
    if p.answer == "" then st
    else
      var st1 := if |p.answer| > st.previousLength
        then Progress(|p.answer|, p.answer, st.deltas + [p.answer[st.previousLength..]], st.relevant)
        else st;
      if p.relevantDocumentIds != [] then st1.(relevant := p.relevantDocumentIds) else st1
  }

  function Run(ps: seq<Partial>, relevant: seq<string>): Progress {
    if ps == [] then Progress(0, "", [], relevant)
    else Step(Run(ps[..|ps| - 1], relevant), ps[|ps| - 1])
  }

  class ResponseGenerator {
    var relevantDocumentIds: seq<string>

    constructor ()
      ensures relevantDocumentIds == []
    {
      relevantDocumentIds := [];
    }

    /** `generate`: the deltas yielded while consuming the partial responses, and the
        answer logged afterwards; the relevant ids are left in the object. */
    method Generate(partials: seq<Partial>) returns (deltas: seq<string>, fullAnswer: string)
      modifies this
      ensures var r := Run(partials, old(relevantDocumentIds));
        deltas == r.deltas && fullAnswer == r.fullAnswer && relevantDocumentIds == r.relevant
    {
      var previousLength: nat := 0;
      fullAnswer := "";
      deltas := [];
      ghost var init := relevantDocumentIds;
      var i := 0;
      while i < |partials|
        invariant i <= |partials|
        invariant Run(partials[..i], init) ==
          Progress(previousLength, fullAnswer, deltas, relevantDocumentIds)
      {
        var p := partials[i];
        assert partials[..i + 1][..i] == partials[..i];
        if p.answer != "" {
          var currentAnswer := p.answer;
          if |currentAnswer| > previousLength {
            var newContent := currentAnswer[previousLength..];
            previousLength := |currentAnswer|;
            fullAnswer := currentAnswer;
            deltas := deltas + [newContent];
          }
          if p.relevantDocumentIds != [] {
            relevantDocumentIds := p.relevantDocumentIds;
          }
        }
        i := i + 1;
      }
      assert partials[..i] == partials;
    }
  }

  /** The answers only grow: every non-empty answer extends each earlier non-empty one. */
  predicate Extending(ps: seq<Partial>) {
    forall i, j :: 0 <= i < j < |ps| && ps[i].answer != "" && ps[j].answer != "" ==>
      StartsWith(ps[j].answer, ps[i].answer)
  }

  /** The last non-empty answer, or "" when there is none. */
  function LastAnswer(ps: seq<Partial>): string {
    if ps == [] then ""
    else if ps[|ps| - 1].answer != "" then ps[|ps| - 1].answer
    else LastAnswer(ps[..|ps| - 1])
  }

  lemma {:induction false} LastAnswerFrom(ps: seq<Partial>)
    ensures LastAnswer(ps) == "" || exists i :: 0 <= i < |ps| && ps[i].answer == LastAnswer(ps)
  {
    if ps != [] && ps[|ps| - 1].answer == "" {
      var n := |ps| - 1;
      LastAnswerFrom(ps[..n]);
      if LastAnswer(ps[..n]) != "" {
        var i :| 0 <= i < n && ps[..n][i].answer == LastAnswer(ps[..n]);
        assert ps[i] == ps[..n][i];
      }
    }
  }

  /** Every delta is non-empty, and the deltas add up to as many characters as sent. */
  lemma {:induction false} DeltasNonEmpty(ps: seq<Partial>, relevant: seq<string>)
    ensures var r := Run(ps, relevant);
      |Flatten(r.deltas)| == r.previousLength == |r.fullAnswer| &&
      forall k :: 0 <= k < |r.deltas| ==> r.deltas[k] != ""
  {
    if ps != [] {
      var n := |ps| - 1;
      DeltasNonEmpty(ps[..n], relevant);
      var st := Run(ps[..n], relevant);
      var p := ps[n];
      if p.answer != "" && |p.answer| > st.previousLength {
        FlattenAppend(st.deltas, p.answer[st.previousLength..]);
      }
    }
  }

  /** When the partial answers only grow, the deltas concatenate to the final answer. */
  lemma {:induction false} DeltasRebuildAnswer(ps: seq<Partial>, relevant: seq<string>)
    requires Extending(ps)
    ensures var r := Run(ps, relevant);
      Flatten(r.deltas) == r.fullAnswer == LastAnswer(ps)
  {
    if ps != [] {
      var n := |ps| - 1;
      assert Extending(ps[..n]) by {
        forall i, j | 0 <= i < j < n && ps[..n][i].answer != "" && ps[..n][j].answer != ""
          ensures StartsWith(ps[..n][j].answer, ps[..n][i].answer)
        {
          assert ps[..n][i] == ps[i] && ps[..n][j] == ps[j];
        }
      }
      DeltasRebuildAnswer(ps[..n], relevant);
      DeltasNonEmpty(ps[..n], relevant);
      var st := Run(ps[..n], relevant);
      var p := ps[n];
      if p.answer != "" {
        LastAnswerFrom(ps[..n]);
        var prev := st.fullAnswer;
        assert StartsWith(p.answer, prev) by {
          if prev != "" {
            var i :| 0 <= i < n && ps[..n][i].answer == prev;
            assert ps[i].answer == prev;
          }
        }
        if |p.answer| > st.previousLength {
          FlattenAppend(st.deltas, p.answer[st.previousLength..]);
          assert prev + p.answer[|prev|..] == p.answer;
        } else {
          assert p.answer == prev;
        }
      }
    }
  }

  /** The relevant ids come from the last partial that carries both an answer and a
      non-empty id list; without one they keep their initial value. */
  lemma {:induction false} RelevantFromLast(ps: seq<Partial>, relevant: seq<string>)
    ensures var r := Run(ps, relevant);
      (exists i :: 0 <= i < |ps| && ps[i].answer != "" && ps[i].relevantDocumentIds != [] &&
         r.relevant == ps[i].relevantDocumentIds &&
         forall j :: i < j < |ps| ==> ps[j].answer == "" || ps[j].relevantDocumentIds == []) ||
      (r.relevant == relevant &&
         forall j :: 0 <= j < |ps| ==> ps[j].answer == "" || ps[j].relevantDocumentIds == [])
  {
    if ps != [] {
      var n := |ps| - 1;
      RelevantFromLast(ps[..n], relevant);
      var p := ps[n];
      if !(p.answer != "" && p.relevantDocumentIds != []) {
        var st := Run(ps[..n], relevant);
        assert Run(ps, relevant).relevant == st.relevant;
        if exists i :: 0 <= i < n && ps[..n][i].answer != "" && ps[..n][i].relevantDocumentIds != [] &&
             st.relevant == ps[..n][i].relevantDocumentIds &&
             forall j :: i < j < n ==> ps[..n][j].answer == "" || ps[..n][j].relevantDocumentIds == [] {
          var i :| 0 <= i < n && ps[..n][i].answer != "" && ps[..n][i].relevantDocumentIds != [] &&
             st.relevant == ps[..n][i].relevantDocumentIds &&
             forall j :: i < j < n ==> ps[..n][j].answer == "" || ps[..n][j].relevantDocumentIds == [];
          assert ps[i] == ps[..n][i];
          forall j | i < j < |ps|
            ensures ps[j].answer == "" || ps[j].relevantDocumentIds == []
          {
            if j < n { assert ps[j] == ps[..n][j]; }
          }
        } else {
          forall j | 0 <= j < |ps|
            ensures ps[j].answer == "" || ps[j].relevantDocumentIds == []
          {
            if j < n { assert ps[j] == ps[..n][j]; }
          }
        }
      }
    }
  }

  // ---------------------------------------------------------------- relevant documents

  predicate IdIn(ids: seq<string>, d: RagDocument) { d.documentId in ids }

  function HasIdIn(ids: seq<string>): RagDocument -> bool {
    d => IdIn(ids, d)
  }

  /** The documents sent after the answer: those the model named, or all of them when it
      named none. */
  function RelevantDocuments(mixed: seq<RagDocument>, relevantIds: seq<string>): seq<RagDocument> {
    if relevantIds != [] then Filter(mixed, HasIdIn(relevantIds)) else mixed
  }

  /** An empty id set keeps every document; otherwise exactly the named documents are
      kept, in their order. */
  lemma RelevantDocumentsSelect(mixed: seq<RagDocument>, relevantIds: seq<string>)
    ensures var r := RelevantDocuments(mixed, relevantIds);
      Subsequence(r, mixed) &&
      (relevantIds == [] ==> r == mixed) &&
      (relevantIds != [] ==> forall d :: d in r <==> d in mixed && d.documentId in relevantIds)
  {
    if relevantIds != [] {
      FilterSubsequence(mixed, HasIdIn(relevantIds));
      forall d
        ensures d in Filter(mixed, HasIdIn(relevantIds)) <==> d in mixed && d.documentId in relevantIds
      {
        FilterMember(mixed, HasIdIn(relevantIds), d);
      }
    } else {
      SubsequenceRefl(mixed);
    }
  }
}
