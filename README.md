# Verified model of the Wisconsin DOR assistant's document pipeline

This project is a Dafny model of the deterministic core of the Wisconsin Department of
Revenue question-answering assistant. It has two halves.

**The PDF chunking engine.** This is `pdf_chunking/pdfChunker.py`. Each page arrives as text, already
laid out. The structurer builds a line→page index and splits the text into title blocks
(`PdfStructurer`). One of three chunkers then turns the lines into chunks:

- `GenericChunker`: Roman-numeral and capital-letter headings;
- `StatuteChunker`: "Tax NN.NN" rules, followed by a merge of adjacent duplicate headings;
- `ManualChunker`: chapters and sections, a table-of-contents filter and the merge of small pairs.

Every chunk gets its page range from the index (`PdfPages`). A filter keeps or drops each chunk
(`CleanFilter`). The survivors become numbered records (`RecordAssembler`). `PdfPipeline`
picks the chunker from the document id. The markup helpers for
`<<…>>` segments, list items, `clean_line` and `s3://` URIs are in `PdfMarkup`.

**The smaller services around it.** These cover:

- source-priority reordering and top-k truncation of retrieved documents
  (`SourcePriority`, `ResourceStreaming`);
- the streaming lambda's FAQ conversion, 3-character fragmenter, cumulative-answer delta
  logic and relevant-document filter (`Streaming`);
- the `Q:`/`A:` FAQ parser (`Classifier`);
- knowledge-base results turned into documents (`Retrieval`);
- `<table>`/`<base64>` extraction (`TableTools`);
- Bedrock config validation, `to_camel` and the stream-event dispatcher (`Bedrock`);
- the three error→response hierarchies (`StepErrors`, `ChatApiErrors`, `WebSocketErrors`);
- the helpers of the scripts `bundle.py`, `ingest_documents.py` and `ingest_chunks.py`
  (`Bundle`, `IngestDocuments`, `IngestChunks`, `S3Listing`).

**How the model is written.**

- Each loop of the source that computes a result is a `method` with a `while`/`for` loop.
  Its `ensures` ties the result to a specification function, usually a left fold over the
  input. Lemmas prove the source's promises about that function. Two loops are not written
  this way. The wildcard loop of `should_ignore` (scripts/bundle.py:52-56) only tests
  whether some pattern matches, so it is the quantified predicate `Bundle.MatchesWildcard`.
  The per-document upload loops of `ingest_documents.py` (lines 73-113 and 161-201) do
  nothing but I/O around their body, so only that body is modelled, as
  `IngestDocuments.PlanUpload`.
- Pure code is written as functions.
- `ResponseGenerator` is a class whose `Generate` updates its `relevantDocumentIds` field.
- I/O, AWS clients and the sha256 hash are parameters. The hash is an uninterpreted
  `contentHash: string -> string`.

**Modelling assumptions.**

- Regular expressions are written by hand, one predicate per pattern.
- `\w` is `[A-Za-z0-9_]`. `\s`/`strip()`/`split()` whitespace is the ASCII part of
  Python's whitespace: " \t\n\r\x0b\x0c" and the separators \x1c-\x1f. Case folding is
  ASCII.

Shared helpers are in `Text` (strip, split, join, word runs, zero padding, basename,
subsequences) and `Wrappers` (`Option`, `Result`).

## Model

| member | source | states |
|---|---|---|
| PdfMarkup.CleanLineOk | pdf_chunking/pdfChunker.py:187-188 | `clean_line` yields a stripped line no longer than its input, and a line without "<" is just stripped |
| PdfMarkup.CleanLineFixed | pdf_chunking/pdfChunker.py:187-188 | a stripped line without tags is a fixed point of `clean_line` |
| PdfMarkup.TagLength | pdf_chunking/pdfChunker.py:188 | a `<[^>]+>` match at the start of a string is "<", at least one non-">" character, then ">" |
| PdfMarkup.MarkerLength | pdf_chunking/pdfChunker.py:66 | a `<<[^>]+>>` match is "<<", a non-empty run without ">", then ">>" |
| PdfMarkup.SubHeaderContentSplitter | pdf_chunking/pdfChunker.py:64-80 | the loop over marker-split segments returns exactly the specification `ContentLines` |
| PdfMarkup.ContentLinesPlain | pdf_chunking/pdfChunker.py:64-80 | text without markup is split at newlines into its stripped non-empty lines |
| PdfMarkup.StrippedNonEmpty | pdf_chunking/pdfChunker.py:76 | the kept parts are non-empty and stripped, and at most as many as the input parts |
| PdfMarkup.SplitListItems | pdf_chunking/pdfChunker.py:83-104 | the list-item loop returns exactly the specification `ListItems` |
| PdfMarkup.PlainListItems | pdf_chunking/pdfChunker.py:83-104 | text without list markers is split at newlines |
| PdfMarkup.ClosedListItem | pdf_chunking/pdfChunker.py:91-99 | an opened and closed list becomes one item whose inner text is stripped, between two empty items |
| PdfMarkup.UnclosedListLost | pdf_chunking/pdfChunker.py:91-104 | an opened list that is never closed is dropped from the output |
| PdfMarkup.ParseS3Uri | pdf_chunking/pdfChunker.py:486-489 | fails with "Invalid S3 URI" exactly when the URI does not start with "s3://" |
| PdfMarkup.ParseS3UriSplits | pdf_chunking/pdfChunker.py:491-498 | the bucket has no "/" and the URI is "s3://" + bucket + "/" + key, or "s3://" + bucket with key "" |
| PdfMarkup.ParseS3UriRoundTrip | pdf_chunking/pdfChunker.py:486-498 | parsing "s3://bucket/key" gives back (bucket, key) for a bucket without "/" |
| PdfStructurer.IndexDocument | pdf_chunking/pdfChunker.py:143-156 | the page loop yields the flattened stripped non-empty page lines and the line→page index built from them |
| PdfStructurer.ProcessDocument | pdf_chunking/pdfChunker.py:109-169 | the index and header split are those of the page lines (statute markup when the lowercased name contains "wi-admin" or "wi-statute"), and there are no flowcharts |
| PdfStructurer.IndexMatchesLines | pdf_chunking/pdfChunker.py:146-153 | the index has exactly one entry per structured line, with that line's text, in order |
| PdfStructurer.IndexPagesExist | pdf_chunking/pdfChunker.py:152-153 | every index entry carries the number of one of the pages |
| PdfStructurer.IndexInPageOrder | pdf_chunking/pdfChunker.py:146-153 | with page numbers in order the index's pages are non-decreasing (page-then-line order) |
| PdfStructurer.StructuredLinesStripped | pdf_chunking/pdfChunker.py:148 | every structured line is non-empty and stripped |
| PdfStructurer.HeaderSplitJoin | pdf_chunking/pdfChunker.py:158-161 | statutes get the whole text as one block; otherwise the blocks joined with "<titles>" give the text back |
| PdfPages.MatchedPagesMember | pdf_chunking/pdfChunker.py:196-199 | a page is collected iff some index entry on that page passes the line test |
| PdfPages.PagesForRange | pdf_chunking/pdfChunker.py:193-200 | (1, 1) when no entry matches a cleaned buffer line, else the least and greatest matching page |
| PdfPages.PagesFor | pdf_chunking/pdfChunker.py:193-200 | start page ≤ end page |
| PdfPages.GetPagesForChunk | pdf_chunking/pdfChunker.py:193-200 | the loop over the index returns `PagesFor` |
| GenericChunker.RomanHeadingIsMatch | pdf_chunking/pdfChunker.py:182 | the Roman-heading predicate holds iff the regex `^(?:[IVXLCDM]+)\s*[.\-–:]` matches at some split |
| GenericChunker.CapitalMarkIsMatch | pdf_chunking/pdfChunker.py:183 | the capital-mark predicate holds iff `^[A-Z]\s*[.\-–:]` matches |
| GenericChunker.MakeChunk | pdf_chunking/pdfChunker.py:202-218 | every emitted chunk has start page ≤ end page |
| GenericChunker.FlushChunk | pdf_chunking/pdfChunker.py:202-218 | `flush_chunk` appends the chunk of a non-empty buffer and nothing for an empty one |
| GenericChunker.StepLine | pdf_chunking/pdfChunker.py:226-254 | one loop iteration advances heading, subheading, buffer and chunks exactly as the fold `Run` does |
| GenericChunker.ChunkBlock | pdf_chunking/pdfChunker.py:224-254 | one title block advances the state as the fold over its cleaned lines |
| GenericChunker.ChunkDocument | pdf_chunking/pdfChunker.py:171-258 | `chunk_document` returns the chunks of the fold's final flushes |
| GenericChunker.ConservesLines | pdf_chunking/pdfChunker.py:224-257 | the chunk bodies, concatenated, are exactly the cleaned lines that are neither Roman nor multi-word capital headings, in input order |
| GenericChunker.RunConservesLines | pdf_chunking/pdfChunker.py:224-254 | after any prefix, flushed bodies plus the open buffer are exactly the body lines seen so far |
| GenericChunker.FinalGood | pdf_chunking/pdfChunker.py:202-257 | no flush has an empty body; a flush at a heading or at the end has ≤ 1200 `\w+` words, an overflow flush has more; headings are Roman headings or "", subheadings capital headings or "" |
| GenericChunker.RomanLetterOpensSection | pdf_chunking/pdfChunker.py:232-237 | "C.", "D.", "I.", "L.", "M.", "V.", "X." lines always open a new top-level section with an empty subheading and buffer, since the Roman test runs first |
| StatuteChunker.NumberedRuleIsMatch | pdf_chunking/pdfChunker.py:270-271 | the statute-id rule predicate holds iff `(\d+\.\d+[A-Za-z\-]*)` matches at the start |
| StatuteChunker.RuleChunkPages | pdf_chunking/pdfChunker.py:279-281 | a rule chunk's start/end are the least/greatest page of its lines |
| StatuteChunker.RawRulesGood | pdf_chunking/pdfChunker.py:277-307 | every emitted rule has a non-empty stripped heading that matches the rule pattern and a non-empty body |
| StatuteChunker.NoRuleNoChunk | pdf_chunking/pdfChunker.py:294-307 | without a rule line nothing is emitted |
| StatuteChunker.PreRuleLinesIgnored | pdf_chunking/pdfChunker.py:294-307 | lines before the first rule line produce no chunk and do not change the rest |
| StatuteChunker.FlushRuleChunk | pdf_chunking/pdfChunker.py:277-291 | a chunk is appended iff the heading is truthy and the buffer non-empty |
| StatuteChunker.RawChunkBody | pdf_chunking/pdfChunker.py:282 | the text after the heading line of a rule chunk is its stripped joined body |
| StatuteChunker.RawStepAt | pdf_chunking/pdfChunker.py:294-304 | one loop iteration advances heading, buffer and chunks exactly as the fold `RawRun` does |
| StatuteChunker.RawStatuteChunks | pdf_chunking/pdfChunker.py:275-307 | the rule loop returns the chunks of the fold's rules |
| StatuteChunker.HeadingRunsPartition | pdf_chunking/pdfChunker.py:310-341 | the reference grouping splits the chunks into maximal runs of equal heading that concatenate back to the input |
| StatuteChunker.MergedIsCombinedRuns | pdf_chunking/pdfChunker.py:310-341 | the merge loop's output is one combined chunk per heading run: first start page, last end page, all bodies in order |
| StatuteChunker.MergedHeadingsDistinct | pdf_chunking/pdfChunker.py:310-341 | after merging no two adjacent chunks share a heading |
| StatuteChunker.MergeDuplicates | pdf_chunking/pdfChunker.py:309-343 | the merge loop returns `Merged` |
| StatuteChunker.ChunkDocumentStatute | pdf_chunking/pdfChunker.py:260-343 | `chunk_document_statute` returns the merged rule chunks of the index under the pattern chosen by "statute" in the id |
| ManualChunker.PageRefIsMatch | pdf_chunking/pdfChunker.py:393 | the page-reference predicate holds iff `\b\d+-\d+\b` matches somewhere |
| ManualChunker.SingleLineNotToc | pdf_chunking/pdfChunker.py:390-392 | text without a keyword and without a line break is never a table of contents |
| ManualChunker.PageRefLinesAreToc | pdf_chunking/pdfChunker.py:393-395 | two or more lines that all carry a page reference are a table of contents |
| ManualChunker.CutChunksOk | pdf_chunking/pdfChunker.py:401-423 | a flushed buffer gives no chunk iff its text is empty or looks like a TOC, else one chunk with that text and start ≤ end |
| ManualChunker.RenderedOk | pdf_chunking/pdfChunker.py:410-423 | no emitted chunk is empty or flagged as a TOC; every one has a heading ("Untitled" when there is no chapter) |
| ManualChunker.FlushCut | pdf_chunking/pdfChunker.py:401-423 | `flush_chunk` appends the buffer's chunk, nothing for an empty buffer |
| ManualChunker.StepLine | pdf_chunking/pdfChunker.py:431-450 | one loop iteration advances chapter, section, buffer and chunks exactly as the fold `Run` does |
| ManualChunker.CollectChunks | pdf_chunking/pdfChunker.py:425-453 | the main loop returns the chunks of the fold's final cuts |
| ManualChunker.ConservesLines | pdf_chunking/pdfChunker.py:426-453 | the cut buffers, concatenated, are exactly the cleaned lines that are neither chapter nor section headings, in order |
| ManualChunker.CanMergeIsCombinedTest | pdf_chunking/pdfChunker.py:464-470 | a chunk merges with its successor iff it has < 80 words, both share the heading and the combined text has ≤ 500 words |
| ManualChunker.CombinedWordCount | pdf_chunking/pdfChunker.py:469-470 | the combined word count is the sum of both chunks' counts |
| ManualChunker.MergeNext | pdf_chunking/pdfChunker.py:458-482 | one iteration consumes one or two chunks and emits the head of the specification's merge |
| ManualChunker.MergeSmallChunks | pdf_chunking/pdfChunker.py:455-484 | the `while i` loop returns `MergeSmall` of the chunks |
| ManualChunker.MergeGroupsPartition | pdf_chunking/pdfChunker.py:456-482 | the merge groups concatenate back to the input: every chunk lands in exactly one output, in order |
| ManualChunker.MergeGroupsPairsMerge | pdf_chunking/pdfChunker.py:464-478 | a group of two is an immediate pair that passes the merge test |
| ManualChunker.MergeGroupsSinglesCannotMerge | pdf_chunking/pdfChunker.py:464-482 | a chunk left alone could not merge with the head of the next group |
| ManualChunker.MergeSmallIsGroups | pdf_chunking/pdfChunker.py:456-482 | output chunk k is the combination of group k, so a merged pair is never merged again |
| ManualChunker.MergedPairMeta | pdf_chunking/pdfChunker.py:471-477 | a merged pair keeps the first chunk's metadata except end_page, taken from the second |
| ManualChunker.ChunkDocumentWpam | pdf_chunking/pdfChunker.py:345-484 | `chunk_document_wpam` returns the merged chunks of the fold |
| CleanFilter.RomanDotIsMatch | pdf_chunking/pdfChunker.py:504 | the Roman-dot predicate holds iff `^(?:[IVXLCDM]+\.)` matches |
| CleanFilter.SkipIffNotText | pdf_chunking/pdfChunker.py:522-523 | an item is skipped iff it is not a dict carrying "text" |
| CleanFilter.EmptyChunkRemoved | pdf_chunking/pdfChunker.py:527-531 | a chunk is removed as "Empty", with its raw text, iff it has no non-empty cleaned line |
| CleanFilter.FewWordsRemoved | pdf_chunking/pdfChunker.py:538-540 | fewer than 15 words means removed as "index/title", even before the heading test |
| CleanFilter.HeadingKept | pdf_chunking/pdfChunker.py:543-545 | a chunk with ≥ 15 words whose first line is heading-style is kept |
| CleanFilter.TooShortExactly | pdf_chunking/pdfChunker.py:548-550 | "Too short" iff non-heading, 15..49 words and exactly one line ending in ".", "?" or "!" |
| CleanFilter.KeptTextShape | pdf_chunking/pdfChunker.py:532-552 | kept text is the cleaned lines joined by blank lines, with ≥ 15 words, and heading-led or ≥ 50 words or sentence count ≠ 1 |
| CleanFilter.ExtractCleanPlaintext | pdf_chunking/pdfChunker.py:500-553 | the loop returns the specification's kept and removed lists |
| CleanFilter.Partition | pdf_chunking/pdfChunker.py:521-552 | kept plus removed equals the number of text items |
| CleanFilter.KeptIndexed | pdf_chunking/pdfChunker.py:544-552 | each kept pair names the index of a kept item, and kept indices strictly increase |
| CleanFilter.KeptComplete | pdf_chunking/pdfChunker.py:544-552 | every item the filter keeps appears in the kept list with its index |
| CleanFilter.RemovedSound | pdf_chunking/pdfChunker.py:530-549 | every removed record comes from an item the filter drops |
| CleanFilter.RemovedComplete | pdf_chunking/pdfChunker.py:530-549 | every dropped item's record is in the removed list |
| RecordAssembler.AssembleRecords | pdf_chunking/pdfChunker.py:701-734 | the two append loops return `Records` of the kept chunks and flowcharts |
| RecordAssembler.AssembleTextRecords | pdf_chunking/pdfChunker.py:704-719 | the text loop gives one record per kept chunk, numbered from 0, with its start page |
| RecordAssembler.AssembleFlowchartRecords | pdf_chunking/pdfChunker.py:721-733 | the flowchart loop gives one record per flowchart, numbered after the text chunks |
| RecordAssembler.RecordsNumbered | pdf_chunking/pdfChunker.py:703-733 | one record per kept chunk and flowchart, chunk_index = position, total_chunks = kept + flowcharts, source and source_id set |
| RecordAssembler.RecordsContent | pdf_chunking/pdfChunker.py:706-734 | text records come first with id `{doc_id}_final_{i}` and source_url `{url}#page={start}` from the raw chunk; flowchart records follow with id `{doc_id}_flowchart_{i}`, keeping their own other metadata |
| RecordAssembler.TextIdInjective | pdf_chunking/pdfChunker.py:710 | distinct indices give distinct text ids |
| RecordAssembler.IdsOfKindsDiffer | pdf_chunking/pdfChunker.py:710-725 | a text id never equals a flowchart id |
| RecordAssembler.RecordIdsDistinct | pdf_chunking/pdfChunker.py:706-734 | all record ids are pairwise distinct |
| PdfPipeline.Items | pdf_chunking/pdfChunker.py:686 | the filter sees every raw chunk as a text item, in order |
| PdfPipeline.KeptInRange | pdf_chunking/pdfChunker.py:686-707 | every kept index names a raw chunk |
| PdfPipeline.ProcessPdfFromS3 | pdf_chunking/pdfChunker.py:626-748 | an unset media bucket fails with its message; otherwise the records of the chunker chosen by "wi"/"wpam" in the lowercased id, over pages structured under the name of the downloaded file |
| PdfPipeline.RunChunker | pdf_chunking/pdfChunker.py:659-665 | "wi" in the lowercased id selects the statute chunker, then "wpam" the manual chunker, else the generic one |
| PdfPipeline.LocalPdfName | pdf_chunking/aws_utils.py:46-60 | the downloaded file is named after the key's final component with its extension replaced by ".pdf" |
| PdfPipeline.StatuteMarkupUsesStatuteChunker | pdf_chunking/pdfChunker.py:115-116 | a file whose downloaded name selects the statute rendering ("wi-admin"/"wi-statute") is always cut by the statute chunker ("wi" in the id, line 642) |
| PdfPipeline.RecordsAreKeptText | pdf_chunking/pdfChunker.py:701-720 | every final record has id `{doc_id}_final_{i}`, total_chunks = record count, and ≥ 15 words |
| SourcePriority.PriorityMapLast | packages/messages/lambdas/resource_streaming/main.py:113 | the dict comprehension maps a listed source id to its last index in the priority list |
| SourcePriority.SortByKey | packages/messages/lambdas/resource_streaming/main.py:126 | the sort is a permutation |
| SourcePriority.SortedByKey | packages/messages/lambdas/resource_streaming/main.py:126 | the sort orders by key |
| SourcePriority.SortStable | packages/messages/lambdas/resource_streaming/main.py:126 | the sort is stable: elements of equal key keep their input order |
| SourcePriority.ReorderDocuments | packages/messages/lambdas/resource_streaming/main.py:107-131 | the partition-and-sort loop returns `Reordered` |
| SourcePriority.ReorderedPermutes | packages/messages/lambdas/resource_streaming/main.py:107-131 | the reordering is a permutation, and the identity for an empty priority list |
| SourcePriority.ReorderedFront | packages/messages/lambdas/resource_streaming/main.py:116-129 | documents with a truthy listed source_id come first, sorted by priority; the others follow in input order |
| SourcePriority.ReorderedFrontSorted | packages/messages/lambdas/resource_streaming/main.py:126 | the front is sorted by priority index and stable among equal indices |
| SourcePriority.KeyIsLastIndex | packages/messages/lambdas/resource_streaming/main.py:113-126 | a prioritised document sorts under the last index of its source id |
| ResourceStreaming.ReorderAndFilterDocuments | packages/messages/lambdas/resource_streaming/main.py:89-139 | returns the reordered documents cut to the top k |
| ResourceStreaming.TopKPrefix | packages/messages/lambdas/resource_streaming/main.py:104-139 | the result is a prefix of the reordering (of the input when there is no priority); all of it when max ≤ 0 or ≥ length, else exactly max documents |
| ResourceStreaming.SubMultiset | packages/messages/lambdas/resource_streaming/main.py:113-137 | the result is a sub-multiset of the input, of length min(n, max) when max > 0 |
| Streaming.ConvertFaqsToDocuments | packages/messages/lambdas/streaming/main.py:132-158 | [] for None or no FAQs; else one document per FAQ in order, id = faq_id, title "FAQ: q", content "Q: q\nA: a", no source, source_id "faqs" |
| Streaming.MixAndFilterDocuments | packages/messages/lambdas/streaming/main.py:161-222 | FAQ documents then RAG documents, reordered by the priority list |
| Streaming.MixedPermutes | packages/messages/lambdas/streaming/main.py:181-222 | the mix is a permutation of FAQ ++ RAG documents; nothing dropped; unchanged without priority |
| Streaming.FragmentMessage | packages/messages/lambdas/streaming/main.py:225-234 | fragments of length 1..3, all but the last of length 3, concatenating to the message; none for "" |
| Streaming.ResponseGenerator.constructor | packages/messages/lambdas/streaming/main.py:279-280 | a new generator has no relevant document ids |
| Streaming.ResponseGenerator.Generate | packages/messages/lambdas/streaming/main.py:337-352 | deltas, full answer and the ids field are those of the fold `Run` over the partial answers |
| Streaming.DeltasNonEmpty | packages/messages/lambdas/streaming/main.py:341-348 | every yield is non-empty (the answer got strictly longer) and the yields' total length is the full answer's |
| Streaming.DeltasRebuildAnswer | packages/messages/lambdas/streaming/main.py:337-348 | for prefix-extending partial answers the concatenated yields equal the final answer |
| Streaming.RelevantFromLast | packages/messages/lambdas/streaming/main.py:341-352 | the ids come from the last partial with a non-empty answer and a non-empty id list, else stay as they were |
| Streaming.RelevantDocumentsSelect | packages/messages/lambdas/streaming/main.py:416-431 | an order-preserving subsequence; all documents for no ids, else exactly those whose id is listed |
| Classifier.FirstStarting | packages/messages/lambdas/classifier/main.py:94-106 | the index of the first line with the prefix, or None when no line has it |
| Classifier.FindFirstLine | packages/messages/lambdas/classifier/main.py:94-106 | the search loop returns `FirstStarting` |
| Classifier.ParseQaDocument | packages/messages/lambdas/classifier/main.py:84-129 | `parse_qa_document` returns `ParseQa` |
| Classifier.ParseQaFromLines | packages/messages/lambdas/classifier/main.py:94-129 | the two searches and the extraction on the split lines return `ParseQaLines` |
| Classifier.AfterPrefix | packages/messages/lambdas/classifier/main.py:118 | the question text (the line after its two-character prefix, trimmed) has no surrounding whitespace |
| Classifier.AnswerFrom | packages/messages/lambdas/classifier/main.py:121-123 | the answer text (the A line's remainder and all later lines, joined by "\n", trimmed) has no surrounding whitespace |
| Classifier.ParseQaRejects | packages/messages/lambdas/classifier/main.py:108-115 | None when no line starts with "Q:", none with "A:", or the first Q line is not before the first A line |
| Classifier.ParseQaFields | packages/messages/lambdas/classifier/main.py:117-127 | a parsed document has its first Q line before its first A line; q is `AfterPrefix` of that Q line, a is `AnswerFrom` that A line; both non-empty and trimmed |
| Classifier.ParseQaRoundTrip | packages/messages/lambdas/classifier/main.py:84-129 | parsing "Q: q\nA: a" plus trailing whitespace gives (q, a) for trimmed non-empty single-line q and a |
| Classifier.ProcessFaqResults | packages/messages/lambdas/classifier/main.py:132-149 | None when nothing parses, else the parsed FAQs |
| Classifier.FaqsAreParsedResults | packages/messages/lambdas/classifier/main.py:133-148 | one FAQ per parsable result, in order, id = first 7 characters of the hash, fields from the parse |
| Classifier.NoFaqsIffNoneParse | packages/messages/lambdas/classifier/main.py:138-149 | the result is None iff no result parses |
| Retrieval.TrimExtension | packages/messages/lambdas/retrieval/main.py:104 | `rsplit(".", 1)[0]`: the id itself without ".", else the part before its last "." |
| Retrieval.ResultDocumentFields | packages/messages/lambdas/retrieval/main.py:100-113 | document_id = trimmed doc_id + first 7 hash characters; title = doc_id, source = source_url, content = text, optional source_id |
| Retrieval.ProcessRetrieveResults | packages/messages/lambdas/retrieval/main.py:91-116 | one document per result, in result order |
| Retrieval.RetrieveDocuments | packages/messages/lambdas/retrieval/main.py:119-126 | no knowledge base id gives [] without a query; otherwise one document per retrieved result |
| TableTools.FindFrom | pdf_chunking/table_tools.py:45 | the leftmost occurrence at or after a position, or None when there is none |
| TableTools.FirstSpan | pdf_chunking/table_tools.py:45-48 | `re.search(open(.*?)close, DOTALL)`: the leftmost opening tag followed by a closing tag, closed at the first closing tag; None when no opening tag is ever followed by a closing tag |
| TableTools.RemoveSpans | pdf_chunking/table_tools.py:51-59 | without a span the text is returned unchanged |
| TableTools.RemoveSpansKeeps | pdf_chunking/table_tools.py:57-59 | removing spans keeps all other text in order (a subsequence): text before the first span, then the rest with later spans removed |
| TableTools.NoTableUnchanged | pdf_chunking/table_tools.py:43-61 | with no table span the passage comes back unchanged with base64 "" and context "" |
| TableTools.TableFields | pdf_chunking/table_tools.py:45-59 | the first table's body gives the first base64 body and the trimmed body with base64 blocks removed, or "" and the trimmed body; the passage loses every table span and keeps the rest in order |
| Bedrock.Capitalize | packages/messages/lambdas/streaming/bedrock_utils.py:82 | `str.capitalize`: first letter upper, the rest lower, same length |
| Bedrock.ToCamelParts | packages/messages/lambdas/streaming/bedrock_utils.py:79-82 | a name without "_" is unchanged; otherwise the first part, then each later part capitalised |
| Bedrock.ToCamelHasNoUnderscore | packages/messages/lambdas/streaming/bedrock_utils.py:81-82 | the result has no "_" |
| Bedrock.ToCamelFoldsCase | packages/messages/lambdas/streaming/bedrock_utils.py:81-82 | up to case, the result is the name with its underscores removed |
| Bedrock.CheckMaxTokens | packages/messages/lambdas/streaming/bedrock_utils.py:24-52 | maxTokens is accepted iff absent or in 1..4096 |
| Bedrock.CheckNonBlank | packages/messages/lambdas/streaming/bedrock_utils.py:67-107 | a field is accepted iff non-blank after trimming; a non-empty blank one gets the validator's message |
| Bedrock.ModelConfigAccepted | packages/messages/lambdas/streaming/bedrock_utils.py:59-107 | a config validates iff maxTokens is absent or in 1..4096 and modelId, id and prompt are non-blank; it is returned unchanged |
| Bedrock.FirstRaise | packages/messages/lambdas/streaming/bedrock_utils.py:164-218 | the index of the first event that raises, or the stream's length |
| Bedrock.CallBedrockConverse | packages/messages/lambdas/streaming/bedrock_utils.py:151-218 | a failing call or a missing stream raises GenericStreamingError before any yield; otherwise the delta texts of the events before the first raising one are yielded, then that event's error |
| Bedrock.RaisesExactly | packages/messages/lambdas/streaming/bedrock_utils.py:164-218 | an event raises iff it has none of the six informational keys; it raises ThrottlingError iff it has "throttlingException" and none of the four listed exceptions |
| Bedrock.DeltaTextsOnlyFromDeltas | packages/messages/lambdas/streaming/bedrock_utils.py:166-171 | at most one yield per event, and none without a contentBlockDelta event |
| StepErrors.Reported | packages/shared/lambda_layers/step_function_types/errors.py:138-139 | a MessagesError is reported as itself, anything else as UnexpectedError |
| StepErrors.ToResponse | packages/shared/lambda_layers/step_function_types/errors.py:27-110 | each subclass's response message; None for GenericStreamingError |
| StepErrors.ReportedMessages | packages/shared/lambda_layers/step_function_types/errors.py:33-139 | status is always 500; the response is missing iff the error is GenericStreamingError, whose `to_resonse` is misspelled; a foreign error gives the unexpected-error message |
| StepErrors.ErrorCodesDistinct | packages/shared/lambda_layers/step_function_types/errors.py:25 | error codes (class names) are equal iff the errors are |
| StepErrors.ReportError | packages/shared/lambda_layers/step_function_types/errors.py:114-149 | at most one send; a lookup iff no connection and a truthy session id; nothing without either; a supplied connection is used as is; after a lookup, a send only when the connection is found |
| ChatApiErrors.StatusCodes | packages/sessions/lambdas/chat_api/chat_api_errors.py:29-142 | 400 iff ValidationError, 404 iff SessionNotFoundError, 401 iff UnauthorizedError, 500 otherwise |
| ChatApiErrors.ValidationMessage | packages/sessions/lambdas/chat_api/chat_api_errors.py:34-40 | "Invalid request. Reason: {reason}" for a truthy reason, else "Invalid request." |
| ChatApiErrors.ExtraMerged | packages/sessions/lambdas/chat_api/chat_api_errors.py:41-42 | the error object has "message" and the extra keys, extra values win, even over "message" |
| ChatApiErrors.CreateErrorBody | packages/sessions/lambdas/chat_api/chat_api_errors.py:178-188 | returns the error's own response or the unexpected-error response |
| ChatApiErrors.CreateErrorBodyCases | packages/sessions/lambdas/chat_api/chat_api_errors.py:178-188 | a ChatAPIError gives its own response; anything else "An unexpected error occurred." plus extra |
| ChatApiErrors.ErrorCodesDistinct | packages/sessions/lambdas/chat_api/chat_api_errors.py:17 | error codes are equal iff the errors are of the same class |
| WebSocketErrors.Responses | packages/sessions/lambdas/websocket/websocket_errors.py:25-87 | SessionNotFound is 404 and adds "sessionId" to the message; ValidationError and UnexpectedError are 500 with the same response, whatever the reason |
| WebSocketErrors.CreateErrorBody | packages/sessions/lambdas/websocket/websocket_errors.py:89-100 | returns the error's own response or the unexpected-error response |
| WebSocketErrors.CreateErrorBodyCases | packages/sessions/lambdas/websocket/websocket_errors.py:89-100 | a WebSocketError gives its own response; anything else the server-error message only |
| Bundle.ShouldIgnore | scripts/bundle.py:43-58 | the ignore test looks only at the basename |
| Bundle.WildcardSuffixes | scripts/bundle.py:52-56 | a basename matches a wildcard pattern iff it ends in ".pyc", ".pyo" or ".egg-info" |
| Bundle.ShouldIgnoreExactly | scripts/bundle.py:43-58 | ignored iff the basename is a listed name or ends in ".pyc", ".pyo" or ".egg-info" |
| Bundle.FinalComponentOnly | scripts/bundle.py:45 | directory parts never cause an ignore |
| Bundle.NearMissesKept | scripts/bundle.py:58 | "pyc" and "a.pyc.bak" are not ignored |
| Bundle.NearMissKept | scripts/bundle.py:48-58 | a name neither listed nor ending in a wildcard suffix is kept |
| IngestDocuments.FirstOf | scripts/ingest_documents.py:85 | the first position of a character from a set, or the length |
| IngestDocuments.PathName | scripts/ingest_documents.py:85 | `Path(p).name`: no "/" and never "." |
| IngestDocuments.Suffix | scripts/ingest_documents.py:90 | `Path(name).suffix`: "" or a final "." part of at least two characters that is not the whole name |
| IngestDocuments.SuffixOfAppended | scripts/ingest_documents.py:90 | a non-empty stem plus an extension has that extension as suffix |
| IngestDocuments.FilenameFromUrl | scripts/ingest_documents.py:85-95 | filename = documentId + the suffix of the URL path's name, ".pdf" when there is none |
| IngestDocuments.PdfNameExtension | scripts/ingest_documents.py:85-92 | the fallback name `{document_id}.pdf` has extension ".pdf" whatever the id |
| IngestDocuments.ExtensionShape | scripts/ingest_documents.py:89-92 | the extension is "." followed by at least one character, without "." or "/" |
| IngestDocuments.ContentTypeOfName | scripts/ingest_documents.py:118-127 | the content type of id + extension is that of the lowercased extension |
| IngestDocuments.ContentTypeOfFilename | scripts/ingest_documents.py:95-99 | when the document id has a non-empty final component, the uploaded content type is that of the lowercased file extension (pdf/txt/html/json, else octet-stream) |
| IngestDocuments.ContentTypeOfUnnamed | scripts/ingest_documents.py:95-99 | when the document id is empty or ends in "/", the uploaded name is a leading-dot name such as ".pdf" with no suffix, so the content type is "application/octet-stream" |
| IngestDocuments.UploadKeys | scripts/ingest_documents.py:98-105 | doc key = prefix + id + "/" + filename; metadata key = doc key + ".metadata.json"; metadata wrapped under "metadataAttributes" |
| IngestDocuments.ClearBucket | scripts/ingest_documents.py:40-57 | consecutive batches of 1..1000 keys, all but the last full, covering every listed key once, in order |
| IngestChunks.ListAllPdfs | scripts/ingest_chunks.py:37-46 | the nested loop returns the listed keys that end in ".pdf", case-insensitively |
| IngestChunks.PdfKeysExactly | scripts/ingest_chunks.py:43-45 | a key is kept iff it is listed and its lowercase ends in ".pdf"; order is preserved |
| Text.SplitextRoot | scripts/ingest_chunks.py:79 | `os.path.splitext(name)[0]`: a prefix of the name; it is cut (at the last ".", keeping a non-dot character) exactly when some "." follows a non-dot character |
| Text.SplitextOfAppended | scripts/ingest_chunks.py:79 | a stem holding a non-dot character plus "." and dot-free text loses exactly that extension |
| IngestChunks.ChunkBaseName | scripts/ingest_chunks.py:79 | the base name contains no space |
| IngestChunks.ChunkNameShape | scripts/ingest_chunks.py:78-81 | the chunk name is the base name, "_chunk_", then at least three digits whose value is the index; no space |
| IngestChunks.ChunkNamesDistinct | scripts/ingest_chunks.py:80-81 | chunks of one document get distinct names |
| IngestChunks.FirstTruthy | scripts/ingest_chunks.py:55-56 | the first candidate that is present and non-empty, or the count when none is |
| IngestChunks.MetadataFallback | scripts/ingest_chunks.py:54-56 | source_url = first truthy of source_url, url, metadataAttributes.url, else "n/a"; source_id = metadataAttributes.sourceId if truthy, else "n/a" |
| IngestChunks.ProcessAndUploadPdf | scripts/ingest_chunks.py:104-148 | a failed extraction logs 0/0 "failed"; otherwise the uploaded count is the number of successful uploads and status is "success" iff it equals the extracted count, else "partial"; keys are the chunk name and metadata key of each chunk |
| IngestChunks.UploadChunks | scripts/ingest_chunks.py:132-138 | the upload loop counts exactly the chunks whose upload succeeds |
| IngestChunks.CountSucceededBounds | scripts/ingest_chunks.py:132-140 | uploaded ≤ extracted, with equality iff every upload succeeded |

## Left out

- Textract/Textractor extraction and its text linearisation. Page text is given as input
  (`Page.plainText`/`taggedText`). The statute/non-statute choice of linearisation is kept.
- S3 bucket creation, downloads, uploads, deletes, the debug JSONL logs and the `finally`
  cleanup of `process_pdf_from_s3`. The raw-text fallback extractors are I/O over library
  output.
- Flowchart extraction (`flowchart_tools.py`): floating-point geometry and a vision-model
  call, and disabled in the source. Flowchart chunks are an input list to the record
  assembler and are empty in `ProcessPdfFromS3`.
- `get_table_base64_from_pdf`: PDF rendering with floating-point crop boxes.
- The general regular-expression engine, Unicode `\w`, non-ASCII whitespace (such as
  \x85 and \xa0) and Unicode case folding. Each pattern is a hand-written predicate under the ASCII assumptions above.
- ManualChunker.IsProbablyToc: the ratio `page_refs / max(1, n) > 0.3` is compared as
  `10 * page_refs > 3 * n` in exact integers, not in floating point.
- sha256 in the classifier and retrieval: an uninterpreted `contentHash` parameter.
- Lambda handlers and their async WebSocket I/O. `send_json` failures are not distinguished
  from success: `ReportError` returns the single send it attempts. The AWS clients are left
  out too.
- Lambda configuration: `get_retrieval_config`, `numRAGResults` and `get_chat_history` /
  `log_chat_history`. The priority list and `maxDocumentsToClient` are parameters.
  `int(...)` of a missing value is modelled as 0.
- Retrieval.RetrieveDocuments: the knowledge-base call is a parameter `retrieve`; its
  paging and configuration are not modelled.
- Streaming.ResponseGenerator.Generate: the BAML stream is a sequence of partial responses;
  a missing or answerless partial is an empty answer. As in the code, the ids update only
  inside the non-empty-answer branch.
- Bedrock: the floating-point `temperature`/`topP` bounds and Pydantic's own
  `min_length`/type plumbing are left out. Only the integer and string validators are
  modelled. The `v <= 0` branch of `validate_max_tokens` is subsumed by the `ge=1` field
  bound.
- Bedrock.CallBedrockConverse: the response is `CallRaised` or an optional event stream
  (`None` when the response has no stream). Events are their key sets plus an optional delta
  text. Error details are not carried.
- Error responses: `details`, `log_message` and the `ErrorMessage` Pydantic wrapper are
  left out. JSON bodies are string-valued maps.
- IngestDocuments.UrlPath: `urlparse`'s sanitising and checks are not modelled: the
  `;params` split of the last path segment, the removal of leading C0-control and space
  characters, the deletion of tab, CR and LF anywhere in the URL, and the ValueError on an
  unbalanced "[" or "]" in the netloc (in the source that error skips the document, at
  scripts/ingest_documents.py:112 and 200).
- IngestChunks.GetMetadata: an unreadable or unparsable metadata.json is `None`. JSON
  values are strings or missing.
- IngestChunks.ProcessAndUploadPdf: each chunk's upload outcome is a parameter. The chunks
  are given by their metadata `doc_id`, and the timestamp and summary log file are left out.
- `upload_model_configs.py`, `scrape_FAQ.py`, `sync_source.py`, `sync_destination.py` and
  `ingest_FAQ.py` are not part of this model: TOML/CloudFormation, HTTP scraping, IAM and
  plain uploads. The FAQ upload format "Q: q\nA: a" is used as the classifier round-trip's
  input.
