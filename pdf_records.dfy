/**
 * The record assembler at the end of `process_pdf_from_s3` in pdf_chunking/pdfChunker.py:
 * the kept text chunks, then the flowchart chunks, become final records numbered
 * 0..total-1, each carrying the document's source fields and the total count.
 */
module RecordAssembler {
  import opened Text
  import opened PdfPages

  /** A final record: "chunk_id", "text" and "metadata". */
  datatype Record = Record(chunkId: string, text: string, metadata: map<string, MetaValue>)

  /** The per-document fields every record carries. */
  datatype Origin = Origin(docId: string, source: string, documentUrl: string, sourceId: string)

  function TextId(docId: string, i: nat): string { docId + "_final_" + NatToString(i) }

  function FlowchartId(docId: string, i: nat): string { docId + "_flowchart_" + NatToString(i) }

  /** The text record's `source_url`: the URL with a page anchor unless the page is 0,
      which Python treats as false. */
  function SourceUrl(documentUrl: string, startPage: int): string {
    if startPage != 0 then documentUrl + "#page=" + IntToString(startPage) else documentUrl
  }

  /** The metadata fields the assembler writes on every record. */
  function Common(o: Origin, sourceUrl: string, index: nat, total: nat): map<string, MetaValue> {
    map["source" := Str(o.source), "source_url" := Str(sourceUrl), "chunk_index" := Num(index),
        "total_chunks" := Num(total), "source_id" := Str(o.sourceId)]
  }

  function TextRecord(o: Origin, outIdx: nat, total: nat, text: string, startPage: int): Record {
    Record(TextId(o.docId, outIdx), text,
           map["doc_id" := Str(o.docId)] + Common(o, SourceUrl(o.documentUrl, startPage), outIdx, total))
  }

  /** A flowchart record: its own metadata, with the assembler's fields taking precedence
      (Python's `|` on dicts, like Dafny's `+` on maps, lets the right operand win). */
  function FlowchartRecord(o: Origin, idx: nat, total: nat, fc: Flowchart): Record {
    Record(FlowchartId(o.docId, idx), fc.text, fc.metadata + Common(o, o.documentUrl, idx, total))
  }

  /** Every kept pair names a raw chunk. */
  predicate InRange(kept: seq<(nat, string)>, raw: seq<Chunk>) {
    forall k :: 0 <= k < |kept| ==> kept[k].0 < |raw|
  }

  /** The records the two loops produce, in order. */
  function Records(kept: seq<(nat, string)>, raw: seq<Chunk>, flowcharts: seq<Flowchart>, o: Origin): seq<Record>
    requires InRange(kept, raw)
  {
    var total := |kept| + |flowcharts|;
    TextRecords(kept, raw, o, total) + FlowchartRecords(flowcharts, o, |kept|, total)
  }

  /** The text records, numbered from 0. */
  function TextRecords(kept: seq<(nat, string)>, raw: seq<Chunk>, o: Origin, total: nat): seq<Record>
    requires InRange(kept, raw)
  {
    seq(|kept|, i requires 0 <= i < |kept| => TextRecord(o, i, total, kept[i].1, raw[kept[i].0].meta.startPage))
  }

  /** The flowchart records, numbered from `first`. */
  function FlowchartRecords(flowcharts: seq<Flowchart>, o: Origin, first: nat, total: nat): seq<Record> {
    seq(|flowcharts|, j requires 0 <= j < |flowcharts| => FlowchartRecord(o, first + j, total, flowcharts[j]))
  }

  /** The assembly loops of `process_pdf_from_s3`: the text records, then the flowchart
      records after them. */
  method AssembleRecords(kept: seq<(nat, string)>, raw: seq<Chunk>, flowcharts: seq<Flowchart>, o: Origin)
    returns (allChunks: seq<Record>)
    requires InRange(kept, raw)
    ensures allChunks == Records(kept, raw, flowcharts, o)
  {
    var total := |kept| + |flowcharts|;
    var texts := AssembleTextRecords(kept, raw, o, total);
    var charts := AssembleFlowchartRecords(flowcharts, o, |kept|, total);
    allChunks := texts + charts;
  }

  /** The first loop: one record per kept text chunk. */
  method AssembleTextRecords(kept: seq<(nat, string)>, raw: seq<Chunk>, o: Origin, total: nat)
    returns (records: seq<Record>)
    requires InRange(kept, raw)
    ensures records == TextRecords(kept, raw, o, total)
  {
    records := [];
    var outIdx := 0;
    while outIdx < |kept|
      invariant outIdx <= |kept| && |records| == outIdx
      invariant forall i :: 0 <= i < outIdx ==>
        records[i] == TextRecord(o, i, total, kept[i].1, raw[kept[i].0].meta.startPage)
    {
      var startPage := raw[kept[outIdx].0].meta.startPage;
      records := records + [TextRecord(o, outIdx, total, kept[outIdx].1, startPage)];
      outIdx := outIdx + 1;
    }
  }

  /** The second loop: one record per flowchart, numbered after the text records. */
  method AssembleFlowchartRecords(flowcharts: seq<Flowchart>, o: Origin, first: nat, total: nat)
    returns (records: seq<Record>)
    ensures records == FlowchartRecords(flowcharts, o, first, total)
  {
    records := [];
    var j := 0;
    while j < |flowcharts|
      invariant j <= |flowcharts| && |records| == j
      invariant forall i :: 0 <= i < j ==> records[i] == FlowchartRecord(o, first + i, total, flowcharts[i])
    {
      records := records + [FlowchartRecord(o, first + j, total, flowcharts[j])];
      j := j + 1;
    }
  }

  // ---------------------------------------------------------------- properties

  /** Every record carries the total count and its own position as chunk_index, and the
      document's source fields. */
  lemma RecordsNumbered(kept: seq<(nat, string)>, raw: seq<Chunk>, flowcharts: seq<Flowchart>, o: Origin)
    requires InRange(kept, raw)
    ensures var rs := Records(kept, raw, flowcharts, o);
      |rs| == |kept| + |flowcharts| &&
      forall i :: 0 <= i < |rs| ==>
        var m := rs[i].metadata;
        "chunk_index" in m && m["chunk_index"] == Num(i) &&
        "total_chunks" in m && m["total_chunks"] == Num(|kept| + |flowcharts|) &&
        "source" in m && m["source"] == Str(o.source) && "source_id" in m && m["source_id"] == Str(o.sourceId)
  {
    var rs := Records(kept, raw, flowcharts, o);
    forall i | 0 <= i < |rs|
      ensures var m := rs[i].metadata;
        "chunk_index" in m && m["chunk_index"] == Num(i) &&
        "total_chunks" in m && m["total_chunks"] == Num(|kept| + |flowcharts|) &&
        "source" in m && m["source"] == Str(o.source) && "source_id" in m && m["source_id"] == Str(o.sourceId)
    {
      if i >= |kept| {
        assert rs[i] == FlowchartRecord(o, i, |kept| + |flowcharts|, flowcharts[i - |kept|]);
      }
    }
  }

  /** Text records come first, carrying the kept texts in order and a page anchor taken
      from the raw chunk each came from; then come the flowcharts, in order, with their own
      metadata kept where the assembler does not overwrite it. */
  lemma RecordsContent(kept: seq<(nat, string)>, raw: seq<Chunk>, flowcharts: seq<Flowchart>, o: Origin)
    requires InRange(kept, raw)
    ensures var rs := Records(kept, raw, flowcharts, o);
      (forall i :: 0 <= i < |kept| ==>
         rs[i].chunkId == TextId(o.docId, i) && rs[i].text == kept[i].1 &&
         rs[i].metadata["doc_id"] == Str(o.docId) &&
         rs[i].metadata["source_url"] == Str(SourceUrl(o.documentUrl, raw[kept[i].0].meta.startPage))) &&
      (forall j :: 0 <= j < |flowcharts| ==>
         rs[|kept| + j].chunkId == FlowchartId(o.docId, |kept| + j) && rs[|kept| + j].text == flowcharts[j].text &&
         rs[|kept| + j].metadata["source_url"] == Str(o.documentUrl) &&
         forall key :: key in flowcharts[j].metadata && key !in Common(o, o.documentUrl, 0, 0) ==>
           key in rs[|kept| + j].metadata && rs[|kept| + j].metadata[key] == flowcharts[j].metadata[key])
  {
  }

  lemma TextIdInjective(d: string, a: nat, b: nat)
    requires TextId(d, a) == TextId(d, b)
    ensures a == b
  {
    var p := |d| + 7;
    assert TextId(d, a)[p..] == NatToString(a);
    assert TextId(d, b)[p..] == NatToString(b);
    NatToStringInjective(a, b);
  }

  lemma FlowchartIdInjective(d: string, a: nat, b: nat)
    requires FlowchartId(d, a) == FlowchartId(d, b)
    ensures a == b
  {
    var p := |d| + 11;
    assert FlowchartId(d, a)[p..] == NatToString(a);
    assert FlowchartId(d, b)[p..] == NatToString(b);
    NatToStringInjective(a, b);
  }

  /** "_final_" and "_flowchart_" differ in their third character. */
  lemma IdsOfKindsDiffer(d: string, a: nat, b: nat)
    ensures TextId(d, a) != FlowchartId(d, b)
  {
    assert TextId(d, a)[|d| + 2] == 'i';
    assert FlowchartId(d, b)[|d| + 2] == 'l';
  }

  /** No two records share a chunk_id. */
  lemma RecordIdsDistinct(kept: seq<(nat, string)>, raw: seq<Chunk>, flowcharts: seq<Flowchart>, o: Origin)
    requires InRange(kept, raw)
    ensures var rs := Records(kept, raw, flowcharts, o);
      forall a, b :: 0 <= a < b < |rs| ==> rs[a].chunkId != rs[b].chunkId
  {
    var rs := Records(kept, raw, flowcharts, o);
    forall a, b | 0 <= a < b < |rs|
      ensures rs[a].chunkId != rs[b].chunkId
    {
      if b < |kept| {
        assert rs[a].chunkId == TextId(o.docId, a) && rs[b].chunkId == TextId(o.docId, b);
        if TextId(o.docId, a) == TextId(o.docId, b) { TextIdInjective(o.docId, a, b); }
      } else if a < |kept| {
        assert rs[a].chunkId == TextId(o.docId, a) && rs[b].chunkId == FlowchartId(o.docId, b);
        IdsOfKindsDiffer(o.docId, a, b);
      } else {
        assert rs[a].chunkId == FlowchartId(o.docId, a);
        assert rs[b].chunkId == FlowchartId(o.docId, b);
        if FlowchartId(o.docId, a) == FlowchartId(o.docId, b) { FlowchartIdInjective(o.docId, a, b); }
      }
    }
  }
}
