/**
 * `reorder_and_filter_documents` of packages/messages/lambdas/resource_streaming/main.py:
 * the source-priority reordering of `SourcePriority`, then a top-k cut at
 * `maxDocumentsToClient` when that is positive.
 *
 * The retrieval configuration is loaded from DynamoDB by the source; here its two entries
 * are parameters, `maxDocumentsToClient` absent meaning 0 as `config.get(..., 0)` gives.
 */
module ResourceStreaming {
  import opened Wrappers
  import opened SourcePriority

  /** The configured bound, 0 (no bound) when the entry is absent. */
  function MaxDocuments(maxDocumentsToClient: Option<int>): int {
    maxDocumentsToClient.GetOr(0)
  }

  /** The documents sent to the client. */
  function ReorderedAndFiltered(documents: seq<RagDocument>, sourceIdPriority: seq<string>,
                                maxDocumentsToClient: Option<int>): seq<RagDocument>
  {
    var reordered := Reordered(documents, sourceIdPriority);
    var max := MaxDocuments(maxDocumentsToClient);
    if max > 0 && |reordered| > max then reordered[..max] else reordered
  }

  /** The reordering, then the slice. */
  method ReorderAndFilterDocuments(documents: seq<RagDocument>, sourceIdPriority: seq<string>,
                                   maxDocumentsToClient: Option<int>)
    returns (r: seq<RagDocument>)
    ensures r == ReorderedAndFiltered(documents, sourceIdPriority, maxDocumentsToClient)
  {
    var maxDocuments := MaxDocuments(maxDocumentsToClient);
    var reordered := ReorderDocuments(documents, sourceIdPriority);
    if maxDocuments > 0 && |reordered| > maxDocuments {
      var filtered := reordered[..maxDocuments];
      return filtered;
    }
    return reordered;
  }

  // ---------------------------------------------------------------- properties

  /** The result is the reordered list cut to `max` documents: all of it when `max` is not
      positive or not below the list length, exactly its first `max` documents otherwise.
      With no priority list the input order is kept. */
  lemma TopKPrefix(documents: seq<RagDocument>, sourceIdPriority: seq<string>,
                   maxDocumentsToClient: Option<int>)
    ensures var r := ReorderedAndFiltered(documents, sourceIdPriority, maxDocumentsToClient);
      var reordered := Reordered(documents, sourceIdPriority);
      var max := MaxDocuments(maxDocumentsToClient);
      |reordered| == |documents| &&
      r <= reordered &&
      (sourceIdPriority == [] ==> r <= documents) &&
      (max <= 0 || max >= |documents| ==> r == reordered) &&
      (0 < max < |documents| ==> |r| == max)
  {
    ReorderedPermutes(documents, sourceIdPriority);
    assert |multiset(Reordered(documents, sourceIdPriority))| == |multiset(documents)|;
  }

  /** Nothing is invented or repeated: the result is a sub-multiset of the input, of length
      min(n, max) when `max` is positive and n otherwise. */
  lemma SubMultiset(documents: seq<RagDocument>, sourceIdPriority: seq<string>,
                    maxDocumentsToClient: Option<int>)
    ensures var r := ReorderedAndFiltered(documents, sourceIdPriority, maxDocumentsToClient);
      var max := MaxDocuments(maxDocumentsToClient);
      multiset(r) <= multiset(documents) &&
      |r| == (if max > 0 && max < |documents| then max else |documents|)
  {
    var reordered := Reordered(documents, sourceIdPriority);
    TopKPrefix(documents, sourceIdPriority, maxDocumentsToClient);
    ReorderedPermutes(documents, sourceIdPriority);
    var r := ReorderedAndFiltered(documents, sourceIdPriority, maxDocumentsToClient);
    assert reordered == r + reordered[|r|..];
    assert multiset(reordered) == multiset(r) + multiset(reordered[|r|..]);
  }
}
