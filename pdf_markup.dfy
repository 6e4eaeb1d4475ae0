/**
 * The string helpers of the PDF chunker (pdf_chunking/pdfChunker.py): removal of markup
 * tags (`clean_line`), the splitter of linearised layout text into content lines
 * (`sub_header_content_splitter`), the list-block splitter (`split_list_items_`) and the
 * S3 URI parser (`parse_s3_uri`).
 *
 * Each regular expression is written out by hand. The patterns used here are
 * deterministic: a greedy `[^>]+` stops at the first '>', and no shorter run can lead
 * to a match, so the first '>' decides every match.
 */
module PdfMarkup {
  import opened Wrappers
  import opened Text

  // ---------------------------------------------------------------- clean_line

  /** Length of a match of `<[^>]+>` at the start of `s`, or 0 when there is none. */
  function TagLength(s: string): (n: nat)
    ensures n == 0 || (3 <= n <= |s| && s[0] == '<' && s[n - 1] == '>' && '>' !in s[1..n - 1])
  {
    if s == "" || s[0] != '<' then 0
    else
      var k := FirstIndexOf(s[1..], '>');
      if 1 <= k < |s| - 1 then
        assert s[1..k + 1] == s[1..][..k];
        k + 2
      else 0
  }

  /** `re.sub(r"<[^>]+>", "", s)`: leftmost non-overlapping tags removed. */
  function StripTags(s: string): (r: string)
    ensures |r| <= |s|
    ensures '<' !in s ==> r == s
    decreases |s|
  {
    if s == "" then ""
    else
      var n := TagLength(s);
      if n > 0 then StripTags(s[n..]) else [s[0]] + StripTags(s[1..])
  }

  /** The chunkers' `clean_line`: tags removed, then surrounding whitespace. */
  function CleanLine(s: string): string
  {
    Strip(StripTags(s))
  }

  /** A cleaned line is stripped, no longer than the input, and a line without tags is
      only stripped. */
  lemma CleanLineOk(s: string)
    ensures IsStripped(CleanLine(s)) && |CleanLine(s)| <= |s|
    ensures '<' !in s ==> CleanLine(s) == Strip(s)
  {
  }

  /** A stripped line without tags is its own cleaned form. */
  lemma CleanLineFixed(s: string)
    requires '<' !in s && IsStripped(s)
    ensures CleanLine(s) == s
  {
    StripStripped(s);
  }

  // ---------------------------------------------------------------- sub_header_content_splitter

  /** Length of a match of `<<[^>]+>>` at the start of `s`, or 0 when there is none. */
  function MarkerLength(s: string): (n: nat)
    ensures n == 0 || (5 <= n <= |s| && s[..2] == "<<" && s[n - 2..n] == ">>" && '>' !in s[2..n - 2])
  {
    if |s| < 2 || s[0] != '<' || s[1] != '<' then 0
    else
      var k := FirstIndexOf(s[2..], '>');
      if 1 <= k && k + 3 < |s| && s[k + 3] == '>' then
        assert s[2..k + 2] == s[2..][..k];
        assert s[k + 2] == s[2..][k];
        k + 4
      else 0
  }

  /** The segments `re.split(r"<<[^>]+>>", s)` yields, `cur` being the segment begun so far. */
  function MarkerSegmentsFrom(s: string, cur: string): (r: seq<string>)
    ensures |r| >= 1
    decreases |s|
  {
    if s == "" then [cur]
    else
      var n := MarkerLength(s);
      if n > 0 then [cur] + MarkerSegmentsFrom(s[n..], "")
      else MarkerSegmentsFrom(s[1..], cur + [s[0]])
  }

  function MarkerSegments(s: string): (r: seq<string>)
    ensures |r| >= 1
  {
    MarkerSegmentsFrom(s, "")
  }

  lemma {:induction false} NoMarkerSegment(s: string, cur: string)
    requires '<' !in s
    ensures MarkerSegmentsFrom(s, cur) == [cur + s]
    decreases |s|
  {
    if s == "" {
      assert cur + s == cur;
    } else {
      assert MarkerLength(s) == 0;
      NoMarkerSegment(s[1..], cur + [s[0]]);
      assert cur + [s[0]] + s[1..] == cur + s;
    }
  }

  /** `[x.strip() for x in parts if x.strip()]`. */
  function StrippedNonEmpty(parts: seq<string>): (r: seq<string>)
    ensures |r| <= |parts|
    ensures forall k :: 0 <= k < |r| ==> r[k] != "" && IsStripped(r[k])
  {
    if parts == [] then []
    else
      var rest := StrippedNonEmpty(parts[1..]);
      if Strip(parts[0]) == "" then rest else [Strip(parts[0])] + rest
  }

  predicate HasLayoutTag(seg: string) {
    Contains(seg, "<header>") || Contains(seg, "<list>") || Contains(seg, "<table>")
  }

  /** What one segment contributes: nothing if blank, itself if it carries a header,
      list or table tag, and otherwise its stripped non-blank lines. */
  function SegmentLines(seg: string): (r: seq<string>)
    ensures forall k :: 0 <= k < |r| ==> !AllSpace(r[k])
  {
    if Strip(seg) == "" then []
    else if HasLayoutTag(seg) then [seg]
    else
      var r := StrippedNonEmpty(Split(seg, '\n'));
      assert forall k :: 0 <= k < |r| ==> !IsSpace(r[k][0]);
      r
  }

  /** Concatenation of the segments' contributions, in order. */
  function SegmentsLines(segs: seq<string>): (r: seq<string>)
    ensures forall k :: 0 <= k < |r| ==> !AllSpace(r[k])
  {
    if segs == [] then []
    else SegmentsLines(segs[..|segs| - 1]) + SegmentLines(segs[|segs| - 1])
  }

  /** The content lines `sub_header_content_splitter(s)` returns. */
  function ContentLines(s: string): seq<string>
  {
    SegmentsLines(MarkerSegments(s))
  }

  /** `sub_header_content_splitter`: split at `<<…>>` markers and collect each segment's lines. */
  method SubHeaderContentSplitter(s: string) returns (result: seq<string>)
    ensures result == ContentLines(s)
  {
    var segments := MarkerSegments(s);
    result := [];
    var i := 0;
    while i < |segments|
      invariant i <= |segments|
      invariant result == SegmentsLines(segments[..i])
    {
      var segment := segments[i];
      SegmentsLinesSnoc(segments, i);
      if Strip(segment) != "" {
        if !HasLayoutTag(segment) {
          result := result + StrippedNonEmpty(Split(segment, '\n'));
        } else {
          result := result + [segment];
        }
      } else {
        assert SegmentLines(segment) == [];
      }
      i := i + 1;
    }
    assert segments[..i] == segments;
  }

  lemma SegmentsLinesSnoc(segs: seq<string>, i: nat)
    requires i < |segs|
    ensures SegmentsLines(segs[..i + 1]) == SegmentsLines(segs[..i]) + SegmentLines(segs[i])
  {
    assert segs[..i + 1][..i] == segs[..i];
  }

  lemma NoOpenNoTag(s: string, t: string)
    requires '<' !in s && |t| > 0 && t[0] == '<'
    ensures !Contains(s, t)
  {
    forall i | 0 <= i <= |s|
      ensures !OccursAt(s, t, i)
    {
      if i < |s| {
        assert s[i] != '<';
      }
    }
  }

  lemma NoLayoutTag(s: string)
    requires '<' !in s
    ensures !HasLayoutTag(s)
  {
    NoOpenNoTag(s, "<header>");
    NoOpenNoTag(s, "<list>");
    NoOpenNoTag(s, "<table>");
  }

  lemma PlainSegmentLines(s: string)
    requires Strip(s) != "" && !HasLayoutTag(s)
    ensures SegmentLines(s) == StrippedNonEmpty(Split(s, '\n'))
  {
  }

  lemma SingleSegment(s: string)
    requires '<' !in s
    ensures ContentLines(s) == SegmentLines(s)
  {
    NoMarkerSegment(s, "");
    assert "" + s == s;
    var segs := MarkerSegments(s);
    assert segs == [s];
    assert segs[..0] == [];
    assert SegmentsLines(segs) == SegmentsLines(segs[..0]) + SegmentLines(segs[0]);
  }

  /** Text without markup comes back as its stripped non-blank lines. */
  lemma ContentLinesPlain(s: string)
    requires '<' !in s
    ensures ContentLines(s) == StrippedNonEmpty(Split(s, '\n'))
  {
    SingleSegment(s);
    StripOk(s);
    if Strip(s) == "" {
      StrippedAllBlank(Split(s, '\n'), s);
    } else {
      NoLayoutTag(s);
      PlainSegmentLines(s);
    }
  }

  /** Every line of an all-blank text is blank. */
  lemma {:induction false} StrippedAllBlank(parts: seq<string>, s: string)
    requires AllSpace(s) && Join(parts, "\n") == s
    ensures StrippedNonEmpty(parts) == []
  {
    if parts != [] {
      var rest := if |parts| == 1 then "" else Join(parts[1..], "\n");
      assert |parts| == 1 ==> s == parts[0];
      assert |parts| > 1 ==> s == parts[0] + "\n" + rest;
      assert forall k :: 0 <= k < |parts[0]| ==> s[k] == parts[0][k];
      assert AllSpace(parts[0]);
      if |parts| > 1 {
        assert forall k :: 0 <= k < |rest| ==> s[|parts[0]| + 1 + k] == rest[k];
        StrippedAllBlank(parts[1..], rest);
      }
    }
  }

  // ---------------------------------------------------------------- split_list_items_

  const ListOpen: string := "<<list>><list>"
  const ListClose: string := "</list><</list>>"

  /** `re.split("(<<list>><list>|</list><</list>>)", s)`: text pieces with the captured
      separators between them; `cur` is the piece begun so far. */
  function ListPartsFrom(s: string, cur: string): (r: seq<string>)
    ensures |r| >= 1
    decreases |s|
  {
    if s == "" then [cur]
    else if StartsWith(s, ListOpen) then [cur, ListOpen] + ListPartsFrom(s[|ListOpen|..], "")
    else if StartsWith(s, ListClose) then [cur, ListClose] + ListPartsFrom(s[|ListClose|..], "")
    else ListPartsFrom(s[1..], cur + [s[0]])
  }

  function ListParts(s: string): (r: seq<string>)
    ensures |r| >= 1
  {
    ListPartsFrom(s, "")
  }

  datatype ListState = ListState(insideList: bool, listItem: string, output: seq<string>)

  /** One iteration of the loop of `split_list_items_`. */
  function ListStep(st: ListState, p: string): ListState
  {
    if p == ListOpen then ListState(true, p, st.output)
    else if p == ListClose then ListState(false, "", st.output + [st.listItem + p])
    else if st.insideList then st.(listItem := st.listItem + Strip(p))
    else st.(output := st.output + Split(p, '\n'))
  }

  function ListRun(parts: seq<string>): ListState
  {
    if parts == [] then ListState(false, "", [])
    else ListStep(ListRun(parts[..|parts| - 1]), parts[|parts| - 1])
  }

  /** The items `split_list_items_(s)` returns. */
  function ListItems(s: string): seq<string>
  {
    ListRun(ListParts(s)).output
  }

  /** `split_list_items_`. */
  method SplitListItems(items: string) returns (output: seq<string>)
    ensures output == ListItems(items)
  {
    var parts := ListParts(items);
    output := [];
    var insideList := false;
    var listItem := "";
    var i := 0;
    while i < |parts|
      invariant i <= |parts|
      invariant ListRun(parts[..i]) == ListState(insideList, listItem, output)
    {
      var p := parts[i];
      if p == ListOpen {
        insideList := true;
        listItem := p;
      } else if p == ListClose {
        insideList := false;
        listItem := listItem + p;
        output := output + [listItem];
        listItem := "";
      } else if insideList {
        listItem := listItem + Strip(p);
      } else {
        output := output + Split(p, '\n');
      }
      assert parts[..i + 1][..i] == parts[..i];
      i := i + 1;
    }
    assert parts[..i] == parts;
  }

  lemma {:induction false} PlainListPrefix(x: string, t: string, cur: string)
    requires '<' !in x
    ensures ListPartsFrom(x + t, cur) == ListPartsFrom(t, cur + x)
    decreases |x|
  {
    if x == "" {
      assert x + t == t && cur + x == cur;
    } else {
      var s := x + t;
      assert s[0] == x[0];
      assert s[1..] == x[1..] + t;
      PlainListPrefix(x[1..], t, cur + [x[0]]);
      assert cur + [x[0]] + x[1..] == cur + x;
    }
  }

  /** Text without list markers is split on newlines. */
  lemma PlainListItems(s: string)
    requires '<' !in s
    ensures ListItems(s) == Split(s, '\n')
  {
    PlainListPrefix(s, "", "");
    assert s + "" == s && "" + s == s;
    assert ListParts(s) == [s];
    assert [s][..0] == [];
    NotListMarker(s);
    assert ListRun([s]) == ListStep(ListState(false, "", []), s);
  }

  lemma ListRunSnoc(parts: seq<string>, p: string)
    ensures ListRun(parts + [p]) == ListStep(ListRun(parts), p)
  {
    assert (parts + [p])[..|parts|] == parts;
  }

  lemma NotListMarker(x: string)
    requires '<' !in x
    ensures x != ListOpen && x != ListClose
  {
    if x != "" { assert x[0] != ListOpen[0]; }
  }

  /** A closed list block becomes one item holding its stripped text; the empty pieces
      re.split yields before and after it each give an empty line. */
  lemma ClosedListItem(x: string)
    requires '<' !in x
    ensures ListItems(ListOpen + x + ListClose) == ["", ListOpen + Strip(x) + ListClose, ""]
  {
    ClosedListParts(x);
    OpenListRun(x);
    var item := ListOpen + Strip(x) + ListClose;
    ListRunSnoc(["", ListOpen, x], ListClose);
    assert ["", ListOpen, x] + [ListClose] == ["", ListOpen, x, ListClose];
    assert ListRun(["", ListOpen, x, ListClose]) == ListState(false, "", ["", item]);
    NotListMarker("");
    assert Split("", '\n') == [""];
    ListRunSnoc(["", ListOpen, x, ListClose], "");
    assert ["", ListOpen, x, ListClose] + [""] == ["", ListOpen, x, ListClose, ""];
  }

  /** The loop state after the empty leading piece, the opening marker and the list text. */
  lemma OpenListRun(x: string)
    requires '<' !in x
    ensures ListRun(["", ListOpen, x]) == ListState(true, ListOpen + Strip(x), [""])
  {
    NotListMarker(x);
    NotListMarker("");
    assert Split("", '\n') == [""];
    ListRunSnoc([], "");
    assert [] + [""] == [""];
    assert ListRun([""]) == ListState(false, "", [""]);
    ListRunSnoc([""], ListOpen);
    assert ListRun(["", ListOpen]) == ListState(true, ListOpen, [""]);
    ListRunSnoc(["", ListOpen], x);
    assert ["", ListOpen] + [x] == ["", ListOpen, x];
  }

  lemma ClosedListParts(x: string)
    requires '<' !in x
    ensures ListParts(ListOpen + x + ListClose) == ["", ListOpen, x, ListClose, ""]
  {
    OpenedListParts(x, ListClose);
    ClosingPart(x);
  }

  /** After an opening marker, marker-free text is one piece up to what follows. */
  lemma OpenedListParts(x: string, t: string)
    requires '<' !in x
    ensures ListParts(ListOpen + x + t) == ["", ListOpen] + ListPartsFrom(t, x)
  {
    var s := ListOpen + x + t;
    assert StartsWith(s, ListOpen);
    assert s[|ListOpen|..] == x + t;
    PlainListPrefix(x, t, "");
    assert "" + x == x;
  }

  lemma ClosingPart(x: string)
    ensures ListPartsFrom(ListClose, x) == [x, ListClose, ""]
  {
    assert !StartsWith(ListClose, ListOpen) by {
      assert ListClose[1] != ListOpen[1];
    }
    assert StartsWith(ListClose, ListClose);
    assert ListClose[|ListClose|..] == "";
  }

  /** The text of a list block that is never closed is lost. */
  lemma UnclosedListLost(x: string)
    requires '<' !in x
    ensures ListItems(ListOpen + x) == [""]
  {
    OpenedListParts(x, "");
    assert ListOpen + x + "" == ListOpen + x;
    assert ListParts(ListOpen + x) == ["", ListOpen, x];
    OpenListRun(x);
  }

  // ---------------------------------------------------------------- parse_s3_uri

  /** `parse_s3_uri`: bucket and key of an "s3://bucket/key" URI; a URI without the
      scheme is the ValueError "Invalid S3 URI". */
  function ParseS3Uri(uri: string): (r: Result<(string, string), string>)
    ensures r.Failure? <==> !StartsWith(uri, "s3://")
    ensures r.Failure? ==> r.error == "Invalid S3 URI"
  {
    if !StartsWith(uri, "s3://") then Failure("Invalid S3 URI")
    else
      var path := uri[5..];
      var i := FirstIndexOf(path, '/');
      if i < |path| then Success((path[..i], path[i + 1..]))
      else Success((path, ""))
  }

  /** A parsed URI is the scheme, a bucket without '/', then "/" and the key, or the
      bucket alone with an empty key. */
  lemma ParseS3UriSplits(uri: string)
    ensures var r := ParseS3Uri(uri);
      r.Success? ==> ('/' !in r.value.0 &&
        (uri == "s3://" + r.value.0 + "/" + r.value.1 || (uri == "s3://" + r.value.0 && r.value.1 == "")))
  {
    if StartsWith(uri, "s3://") {
      var path := uri[5..];
      var i := FirstIndexOf(path, '/');
      assert uri[..5] + path == uri;
      if i < |path| {
        SplitAround(path, i);
      } else {
        assert path[..i] == path;
      }
    }
  }

  lemma ParseS3UriRoundTrip(bucket: string, key: string)
    requires '/' !in bucket
    ensures ParseS3Uri("s3://" + bucket + "/" + key) == Success((bucket, key))
  {
    var uri := "s3://" + bucket + "/" + key;
    assert uri[..5] == "s3://";
    var path := uri[5..];
    assert path == bucket + "/" + key;
    assert path[..|bucket|] == bucket && path[|bucket|] == '/';
    assert FirstIndexOf(path, '/') == |bucket|;
    assert path[|bucket| + 1..] == key;
  }

  // ---------------------------------------------------------------- the chunkers' line stream

  /** The non-empty cleaned lines of a block's content lines. */
  function CleanStream(raw: seq<string>): seq<string> {
    if raw == [] then []
    else
      var n := |raw| - 1;
      var line := CleanLine(raw[n]);
      CleanStream(raw[..n]) + (if line == "" then [] else [line])
  }

  lemma CleanStreamSnoc(raw: seq<string>, j: nat)
    requires j < |raw|
    ensures CleanStream(raw[..j + 1]) ==
      CleanStream(raw[..j]) + (if CleanLine(raw[j]) == "" then [] else [CleanLine(raw[j])])
  {
    assert raw[..j + 1][..j] == raw[..j];
  }

  /** The stream after `seen` grows by the cleaned line when it is non-empty. */
  lemma FedSnoc(seen: seq<string>, raw: seq<string>, j: nat)
    requires j < |raw|
    ensures CleanLine(raw[j]) != "" ==>
      seen + CleanStream(raw[..j + 1]) == (seen + CleanStream(raw[..j])) + [CleanLine(raw[j])]
    ensures CleanLine(raw[j]) == "" ==> seen + CleanStream(raw[..j + 1]) == seen + CleanStream(raw[..j])
  {
    CleanStreamSnoc(raw, j);
  }

  /** All lines the pass sees: block after block, the cleaned content lines. */
  function BlocksLines(blocks: seq<string>): seq<string> {
    if blocks == [] then []
    else
      var n := |blocks| - 1;
      BlocksLines(blocks[..n]) + CleanStream(ContentLines(blocks[n]))
  }

  lemma BlocksLinesSnoc(blocks: seq<string>, i: nat)
    requires i < |blocks|
    ensures BlocksLines(blocks[..i + 1]) == BlocksLines(blocks[..i]) + CleanStream(ContentLines(blocks[i]))
  {
    assert blocks[..i + 1][..i] == blocks[..i];
  }
}
