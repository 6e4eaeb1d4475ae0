/**
 * `extract_table_content` of pdf_chunking/table_tools.py: the first `<table>…</table>`
 * span of a passage gives the table context and, when it holds a `<base64>…</base64>`
 * block, the base64 image; every table span is then cut out of the passage.
 *
 * The non-greedy, newline-spanning patterns `<table>(.*?)</table>` and
 * `<base64>(.*?)</base64>` are hand-coded: a match starts at the first opening tag that
 * has a closing tag after it, and ends at the first closing tag after the opening one.
 */
module TableTools {
  import opened Wrappers
  import opened Text

  const TableOpen := "<table>"
  const TableClose := "</table>"
  const Base64Open := "<base64>"
  const Base64Close := "</base64>"

  /** One match: the opening tag at `start`, the body `bodyStart..bodyEnd`, the closing tag
      ending at `end`. */
  datatype Span = Span(start: nat, bodyStart: nat, bodyEnd: nat, end: nat)

  datatype TableExtract = TableExtract(passage: string, base64: string, context: string)

  /** The first index from `from` at which `t` occurs in `s`. */
  function FindFrom(s: string, t: string, from: nat): (r: Option<nat>)
    ensures r.Some? ==> from <= r.value && OccursAt(s, t, r.value) &&
                        forall k :: from <= k < r.value ==> !OccursAt(s, t, k)
    ensures r.None? ==> forall k :: from <= k ==> !OccursAt(s, t, k)
    decreases |s| - from
  {
    if from + |t| > |s| then None
    else if OccursAt(s, t, from) then Some(from)
    else FindFrom(s, t, from + 1)
  }

  /** `re.search(open + "(.*?)" + close, s[from..], re.DOTALL)`: the leftmost match, and of
      those starting there the shortest. */
  function FirstSpan(s: string, open: string, close: string, from: nat): (r: Option<Span>)
    ensures r.Some? ==>
      var sp := r.value;
      from <= sp.start && sp.bodyStart == sp.start + |open| && sp.bodyStart <= sp.bodyEnd &&
      sp.end == sp.bodyEnd + |close| && sp.end <= |s| &&
      OccursAt(s, open, sp.start) && OccursAt(s, close, sp.bodyEnd) &&
      (forall k :: from <= k < sp.start ==> !OccursAt(s, open, k)) &&
      (forall j :: sp.bodyStart <= j < sp.bodyEnd ==> !OccursAt(s, close, j))
    ensures r.None? ==>
      forall k, j :: from <= k && k + |open| <= j && OccursAt(s, open, k) ==> !OccursAt(s, close, j)
  {
    match FindFrom(s, open, from)
    case None => None
    case Some(start) =>
      match FindFrom(s, close, start + |open|)
      case None => None
      case Some(bodyEnd) => Some(Span(start, start + |open|, bodyEnd, bodyEnd + |close|))
  }

  /** `re.sub(open + ".*?" + close, "", s[from..], flags=re.DOTALL)`: every match, found
      left to right without overlap, cut out. */
  function RemoveSpans(s: string, open: string, close: string, from: nat): (r: string)
    requires from <= |s| && open != ""
    ensures FirstSpan(s, open, close, from).None? ==> r == s[from..]
    decreases |s| - from
  {
    match FirstSpan(s, open, close, from)
    case None => s[from..]
    case Some(sp) => s[from..sp.start] + RemoveSpans(s, open, close, sp.end)
  }

  /** `extract_table_content`. */
  function ExtractTableContent(passage: string): TableExtract {
    match FirstSpan(passage, TableOpen, TableClose, 0)
    case None => TableExtract(passage, "", "")
    case Some(t) =>
      var tableContent := passage[t.bodyStart..t.bodyEnd];
      var rest := RemoveSpans(passage, TableOpen, TableClose, 0);
      match FirstSpan(tableContent, Base64Open, Base64Close, 0)
      case None => TableExtract(rest, "", Strip(tableContent))
      case Some(b) =>
        TableExtract(rest, tableContent[b.bodyStart..b.bodyEnd],
                     Strip(RemoveSpans(tableContent, Base64Open, Base64Close, 0)))
  }

  // ---------------------------------------------------------------- properties

  /** Cutting matches out keeps the remaining text in order and adds nothing; when there
      is a match, the text before it is kept whole and at least the match is gone. */
  lemma {:induction false} RemoveSpansKeeps(s: string, open: string, close: string, from: nat)
    requires from <= |s| && open != ""
    ensures var r := RemoveSpans(s, open, close, from);
      Subsequence(r, s[from..]) &&
      match FirstSpan(s, open, close, from)
      case None => r == s[from..]
      case Some(sp) =>
        r == s[from..sp.start] + RemoveSpans(s, open, close, sp.end) &&
        |r| <= |s| - from - (sp.end - sp.start)
    decreases |s| - from
  {
    match FirstSpan(s, open, close, from)
    case None =>
      SubsequenceRefl(s[from..]);
    case Some(sp) =>
      RemoveSpansKeeps(s, open, close, sp.end);
      CutKeeps(s, from, sp.start, sp.end, RemoveSpans(s, open, close, sp.end));
  }

  /** Cutting `s[start..end]` out of `s[from..]` and keeping a subsequence of the rest
      gives a subsequence that is shorter by at least the cut. */
  lemma CutKeeps(s: string, from: nat, start: nat, end: nat, tail: string)
    requires from <= start <= end <= |s| && Subsequence(tail, s[end..])
    ensures Subsequence(s[from..start] + tail, s[from..])
    ensures |s[from..start] + tail| <= |s| - from - (end - start)
  {
    SubsequenceRefl(s[from..start]);
    SubsequencePrepend(tail, s[start..end], s[end..]);
    assert s[start..end] + s[end..] == s[start..];
    SubsequenceConcat(s[from..start], s[from..start], tail, s[start..]);
    assert s[from..start] + s[start..] == s[from..];
    SubsequenceLength(tail, s[end..]);
  }

  lemma {:induction false} SubsequenceLength<T>(a: seq<T>, b: seq<T>)
    requires Subsequence(a, b)
    ensures |a| <= |b|
    decreases |b|
  {
    if a != [] {
      var n, m := |a| - 1, |b| - 1;
      if a[n] == b[m] && Subsequence(a[..n], b[..m]) {
        SubsequenceLength(a[..n], b[..m]);
      } else {
        SubsequenceLength(a, b[..m]);
      }
    }
  }

  /** A passage with no table span comes back unchanged, with no base64 and no context. */
  lemma NoTableUnchanged(passage: string)
    requires forall k, j :: 0 <= k && k + |TableOpen| <= j && OccursAt(passage, TableOpen, k) ==>
               !OccursAt(passage, TableClose, j)
    ensures ExtractTableContent(passage) == TableExtract(passage, "", "")
  {
  }

  /** With a table span: the context comes from the first one; with a base64 block in it,
      the base64 is the first block's body and the context the trimmed table body without
      its blocks, otherwise the base64 is empty and the context the trimmed table body.
      The returned passage keeps the text before the first table, keeps the rest in order,
      and is shorter by at least the table. */
  lemma TableFields(passage: string)
    requires FirstSpan(passage, TableOpen, TableClose, 0).Some?
    ensures var t := FirstSpan(passage, TableOpen, TableClose, 0).value;
      var body := passage[t.bodyStart..t.bodyEnd];
      var r := ExtractTableContent(passage);
      IsStripped(r.context) &&
      Subsequence(r.passage, passage) &&
      StartsWith(r.passage, passage[..t.start]) &&
      |r.passage| <= |passage| - |TableOpen| - |TableClose| - |body| &&
      match FirstSpan(body, Base64Open, Base64Close, 0)
      case None => r.base64 == "" && r.context == Strip(body)
      case Some(b) =>
        r.base64 == body[b.bodyStart..b.bodyEnd] &&
        r.context == Strip(RemoveSpans(body, Base64Open, Base64Close, 0))
  {
    var t := FirstSpan(passage, TableOpen, TableClose, 0).value;
    var body := passage[t.bodyStart..t.bodyEnd];
    RemoveSpansKeeps(passage, TableOpen, TableClose, 0);
    assert passage[0..] == passage;
    var r := ExtractTableContent(passage);
    match FirstSpan(body, Base64Open, Base64Close, 0)
    case None =>
      StripOk(body);
    case Some(b) =>
      StripOk(RemoveSpans(body, Base64Open, Base64Close, 0));
  }
}
