/**
 * The retrieval step, packages/messages/lambdas/retrieval/main.py: knowledge-base results
 * become documents whose id is the file name without its extension followed by the first
 * seven characters of the content hash.
 *
 * SHA-256 is the uninterpreted function `contentHash`; the knowledge-base query is the
 * function parameter `retrieve` (knowledge-base id and query to results).
 */
module Retrieval {
  import opened Wrappers
  import opened Text
  import opened SourcePriority

  /** One retrieval result: its metadata and its content text. */
  datatype KbResult = KbResult(docId: string, sourceUrl: string, sourceId: Option<string>,
                               text: string)

  /** `doc_id.rsplit(".", 1)[0]`: everything before the last ".", or all of it. */
  function TrimExtension(docId: string): (r: string)
    ensures r <= docId
    ensures '.' !in docId ==> r == docId
    ensures '.' in docId ==> |r| < |docId| && docId[|r|] == '.' && '.' !in docId[|r| + 1..]
  {
    if docId == [] then docId
    else if docId[|docId| - 1] == '.' then docId[..|docId| - 1]
    else
      var n := |docId| - 1;
      var p := docId[..n];
      assert docId == p + [docId[n]];
      if '.' in p then
        var r := TrimExtension(p);
        assert docId[|r| + 1..] == p[|r| + 1..] + [docId[n]];
        r
      else docId
  }

  /** The document id of a result. */
  function DocumentIdFor(result: KbResult, contentHash: string -> string): string {
    TrimExtension(result.docId) + Take(contentHash(result.text), 7)
  }

  /** The document a result becomes. */
  function ResultDocument(result: KbResult, contentHash: string -> string): RagDocument {
    RagDocument(DocumentIdFor(result, contentHash), result.docId, result.text,
                Some(result.sourceUrl), result.sourceId)
  }

  /** `process_retrieve_results`: the append loop. */
  method ProcessRetrieveResults(results: seq<KbResult>, contentHash: string -> string)
    returns (documents: seq<RagDocument>)
    ensures |documents| == |results|
    ensures forall i :: 0 <= i < |results| ==> documents[i] == ResultDocument(results[i], contentHash)
  {
    documents := [];
    for i := 0 to |results|
      invariant |documents| == i
      invariant forall j :: 0 <= j < i ==> documents[j] == ResultDocument(results[j], contentHash)
    {
      var result := results[i];
      var documentId := TrimExtension(result.docId) + Take(contentHash(result.text), 7);
      documents := documents + [RagDocument(documentId, result.docId, result.text,
                                            Some(result.sourceUrl), result.sourceId)];
    }
  }

  /** `retrieve_documents`: no knowledge base configured (None or "") gives no documents and
      no query; otherwise the query's results, converted. */
  method RetrieveDocuments(query: string, ragKbId: Option<string>,
                           retrieve: (string, string) -> seq<KbResult>,
                           contentHash: string -> string)
    returns (documents: seq<RagDocument>, queried: bool)
    ensures queried <==> ragKbId.Some? && ragKbId.value != ""
    ensures !queried ==> documents == []
    ensures queried ==>
      |documents| == |retrieve(ragKbId.value, query)| &&
      forall i :: 0 <= i < |documents| ==>
        documents[i] == ResultDocument(retrieve(ragKbId.value, query)[i], contentHash)
  {
    if ragKbId.None? || ragKbId.value == "" {
      return [], false;
    }
    var results := retrieve(ragKbId.value, query);
    documents := ProcessRetrieveResults(results, contentHash);
    queried := true;
  }

  // ---------------------------------------------------------------- properties

  /** The id is the trimmed name followed by at most seven hash characters; the title,
      source, source id and content are the result's own. */
  lemma ResultDocumentFields(result: KbResult, contentHash: string -> string)
    ensures var d := ResultDocument(result, contentHash);
      var stem := TrimExtension(result.docId);
      StartsWith(d.documentId, stem) &&
      |d.documentId| == |stem| + (if |contentHash(result.text)| < 7 then |contentHash(result.text)| else 7) &&
      d.documentId[|stem|..] <= contentHash(result.text) &&
      d.title == result.docId && d.content == result.text &&
      d.source == Some(result.sourceUrl) && d.sourceId == result.sourceId
  {
    var d := ResultDocument(result, contentHash);
    var stem := TrimExtension(result.docId);
    assert d.documentId == stem + Take(contentHash(result.text), 7);
    assert d.documentId[..|stem|] == stem;
    assert d.documentId[|stem|..] == Take(contentHash(result.text), 7);
  }
}
