/**
 * The pure parts of scripts/ingest_documents.py: the S3 keys and content type under which
 * a downloaded document and its metadata are uploaded, and the batching of
 * `clear_bucket`'s deletes.
 *
 * `urlparse(url).path` and `pathlib`'s `name`/`suffix` are written out for POSIX paths;
 * the `;params` split of `urlparse` is left out. Downloading and uploading are not
 * modelled.
 */
module IngestDocuments {
  import opened Wrappers
  import opened Text
  import opened S3Listing

  // ---------------------------------------------------------------- URLs and paths

  predicate IsSchemeChar(c: char) { IsAlpha(c) || IsDigit(c) || c == '+' || c == '-' || c == '.' }

  /** First index from `from` holding a character of `cs`, |s| when there is none. */
  function FirstOf(s: string, cs: set<char>, from: nat): (i: nat)
    requires from <= |s|
    ensures from <= i <= |s| && (i < |s| ==> s[i] in cs)
    ensures forall k :: from <= k < i ==> s[k] !in cs
    decreases |s| - from
  {
    if from == |s| || s[from] in cs then from else FirstOf(s, cs, from + 1)
  }

  /** The URL after its scheme, when it has one: letters first, then scheme characters,
      then ':'. */
  function AfterScheme(url: string): string {
    var i := FirstIndexOf(url, ':');
    if 0 < i < |url| && IsAlpha(url[0]) && forall k :: 0 <= k < i ==> IsSchemeChar(url[k])
    then url[i + 1..] else url
  }

  /** `urlparse(url).path`: after the scheme and the "//netloc" part, up to the query or
      fragment. */
  function UrlPath(url: string): string {
    var rest := AfterScheme(url);
    var start := if StartsWith(rest, "//") then FirstOf(rest, {'/', '?', '#'}, 2) else 0;
    rest[start..FirstOf(rest, {'?', '#'}, start)]
  }

  /** `PurePosixPath(p).name`: the last component that is neither empty nor ".". */
  function PathName(p: string): (r: string)
    ensures '/' !in r && r != "."
    decreases |p|
  {
    var b := Basename(p);
    if b != "" && b != "." then b
    else if |b| == |p| then ""
    else PathName(p[..|p| - |b| - 1])
  }

  /** `PurePosixPath(name).suffix` of a final component: from the last "." on, unless
      that dot is the first or the last character. */
  function Suffix(name: string): (r: string)
    ensures r == "" || (EndsWith(name, r) && |r| >= 2 && r[0] == '.' && '.' !in r[1..] &&
                        |r| < |name|)
  {
    match LastIndexOf(name, '.')
    case None => ""
    case Some(i) => if 0 < i < |name| - 1 then name[i..] else ""
  }

  // ---------------------------------------------------------------- file name and keys

  /** The file name taken from the URL path, `{documentId}.pdf` when it has none. */
  function OriginalFilename(documentId: string, url: string): string {
    var urlName := PathName(UrlPath(url));
    if urlName == "" then documentId + ".pdf" else urlName
  }

  /** The suffix of a file name, ".pdf" when it has none. */
  function ExtensionOf(filename: string): string {
    var extension := Suffix(PathName(filename));
    if extension == "" then ".pdf" else extension
  }

  function FileExtension(documentId: string, url: string): string {
    ExtensionOf(OriginalFilename(documentId, url))
  }

  function Filename(documentId: string, url: string): string {
    documentId + FileExtension(documentId, url)
  }

  const ContentTypes: map<string, string> := map[
    ".pdf" := "application/pdf",
    ".txt" := "text/plain",
    ".html" := "text/html",
    ".json" := "application/json"
  ]

  function ContentTypeFor(extension: string): string {
    if extension in ContentTypes then ContentTypes[extension] else "application/octet-stream"
  }

  /** `get_content_type`. */
  function GetContentType(filename: string): string {
    ContentTypeFor(Lower(Suffix(PathName(filename))))
  }

  /** Metadata as uploaded: `{"metadataAttributes": metadata}`. */
  datatype WrappedMetadata = WrappedMetadata(metadataAttributes: map<string, string>)

  /** The two uploads of one document. */
  datatype UploadPlan = UploadPlan(docKey: string, contentType: string, metadataKey: string,
                                   metadata: WrappedMetadata)

  /** The body of the upload loop, shared word for word by `sync_knowledge_base` and the
      plain upload of `main`. */
  function PlanUpload(prefix: string, documentId: string, url: string, metadata: map<string, string>): UploadPlan {
    var filename := Filename(documentId, url);
    var docKey := prefix + documentId + "/" + filename;
    UploadPlan(docKey, GetContentType(filename), prefix + documentId + "/" + filename + ".metadata.json",
               WrappedMetadata(metadata))
  }

  // ---------------------------------------------------------------- properties

  /** The suffix of a name made of a non-empty name and a suffix is that suffix. */
  lemma SuffixOfAppended(b: string, ext: string)
    requires b != "" && |ext| >= 2 && ext[0] == '.' && '.' !in ext[1..]
    ensures Suffix(b + ext) == ext
  {
    var s := b + ext;
    assert s[|b|] == '.';
    assert s[|b| + 1..] == ext[1..];
  }

  /** The file name is the document id followed by the extension of the URL's file name,
      or ".pdf" when that name has none. */
  lemma FilenameFromUrl(documentId: string, url: string)
    ensures var urlExtension := Suffix(PathName(UrlPath(url)));
      Filename(documentId, url) ==
        documentId + (if urlExtension == "" then ".pdf" else urlExtension)
  {
    var urlName := PathName(UrlPath(url));
    if urlName == "" {
      assert OriginalFilename(documentId, url) == documentId + ".pdf";
      PdfNameExtension(documentId);
    } else {
      assert OriginalFilename(documentId, url) == urlName;
      PathNameOfName(urlName);
    }
  }

  /** A name without "/" that is neither empty nor "." is its own final component. */
  lemma PathNameOfName(name: string)
    requires '/' !in name && name != "" && name != "."
    ensures PathName(name) == name
  {
    BasenameAppend("", name);
    assert "" + name == name;
  }

  /** `{documentId}.pdf` has the extension ".pdf", whatever the document id. */
  lemma PdfNameExtension(documentId: string)
    ensures ExtensionOf(documentId + ".pdf") == ".pdf"
  {
    PdfNamePath(documentId);
    PdfSuffix(Basename(documentId));
  }

  lemma PdfNamePath(documentId: string)
    ensures PathName(documentId + ".pdf") == Basename(documentId) + ".pdf"
  {
    var b := Basename(documentId);
    BasenameAppend(documentId, ".pdf");
    NoSlashAppend(b, ".pdf");
    PathNameOfName(b + ".pdf");
  }

  lemma PdfSuffix(b: string)
    ensures Suffix(b + ".pdf") == if b == "" then "" else ".pdf"
  {
    if b == "" {
      assert b + ".pdf" == ".pdf";
      DotPdfHasNoSuffix();
    } else {
      SuffixOfAppended(b, ".pdf");
    }
  }

  lemma NoSlashAppend(x: string, y: string)
    requires '/' !in x && '/' !in y
    ensures '/' !in x + y
  {
    forall i | 0 <= i < |x + y| ensures (x + y)[i] != '/' {
      if i < |x| { assert (x + y)[i] == x[i]; } else { assert (x + y)[i] == y[i - |x|]; }
    }
  }

  /** The dot of ".pdf" is its first character, so it has no suffix. */
  lemma DotPdfHasNoSuffix()
    ensures Suffix(".pdf") == ""
  {
    var s := ".pdf";
    assert s[1] != '.' && s[2] != '.' && s[3] != '.';
    assert s[1..] == "pdf";
    assert LastIndexOf(s, '.') == Some(0);
  }

  /** The extension starts with its only ".", has a character after it, and holds no "/". */
  lemma ExtensionShape(filename: string)
    ensures var ext := ExtensionOf(filename);
      |ext| >= 2 && ext[0] == '.' && '.' !in ext[1..] && '/' !in ext
  {
    var name := PathName(filename);
    var sx := Suffix(name);
    if sx != "" {
      assert sx == name[|name| - |sx|..];
    }
  }

  lemma PathNameOfAppended(documentId: string, ext: string)
    requires Basename(documentId) != "" && |ext| >= 2 && '/' !in ext
    ensures PathName(documentId + ext) == Basename(documentId) + ext
  {
    BasenameAppend(documentId, ext);
  }

  lemma ContentTypeOfName(documentId: string, ext: string)
    requires Basename(documentId) != ""
    requires |ext| >= 2 && ext[0] == '.' && '.' !in ext[1..] && '/' !in ext
    ensures GetContentType(documentId + ext) == ContentTypeFor(Lower(ext))
  {
    PathNameOfAppended(documentId, ext);
    SuffixOfAppended(Basename(documentId), ext);
  }

  /** The content type follows the extension, case-insensitively, when the document id
      has a non-empty final component. */
  lemma ContentTypeOfFilename(documentId: string, url: string)
    requires Basename(documentId) != ""
    ensures GetContentType(Filename(documentId, url)) == ContentTypeFor(Lower(FileExtension(documentId, url)))
  {
    ExtensionShape(OriginalFilename(documentId, url));
    ContentTypeOfName(documentId, FileExtension(documentId, url));
  }

  /** An id with no final component (empty, or ending in "/") makes the uploaded name a
      leading-dot name such as ".pdf", which has no suffix: the content type falls back to
      "application/octet-stream" whatever the extension. */
  lemma ContentTypeOfUnnamed(documentId: string, url: string)
    requires Basename(documentId) == ""
    ensures GetContentType(Filename(documentId, url)) == "application/octet-stream"
  {
    var ext := FileExtension(documentId, url);
    ExtensionShape(OriginalFilename(documentId, url));
    UnnamedPathName(documentId, ext);
    LeadingDotNoSuffix(ext);
    NoSuffixOctetStream(documentId + ext);
  }

  lemma UnnamedPathName(documentId: string, ext: string)
    requires Basename(documentId) == "" && |ext| >= 2 && '/' !in ext
    ensures PathName(documentId + ext) == ext
  {
    BasenameAppend(documentId, ext);
    assert "" + ext == ext;
    PathNameIsBasename(documentId + ext);
  }

  lemma PathNameIsBasename(p: string)
    requires Basename(p) != "" && Basename(p) != "."
    ensures PathName(p) == Basename(p)
  {
  }

  lemma NoSuffixOctetStream(filename: string)
    requires Suffix(PathName(filename)) == ""
    ensures GetContentType(filename) == "application/octet-stream"
  {
    assert Lower("") == "";
    assert "" !in ContentTypes;
  }

  /** A name whose only "." is its first character has no suffix. */
  lemma LeadingDotNoSuffix(name: string)
    requires |name| >= 2 && name[0] == '.' && '.' !in name[1..]
    ensures Suffix(name) == ""
  {
    assert LastIndexOf(name, '.') == Some(0);
  }

  /** The metadata key is the document key followed by ".metadata.json", and both lie
      under `prefix + documentId + "/"`. */
  lemma UploadKeys(prefix: string, documentId: string, url: string, metadata: map<string, string>)
    ensures var plan := PlanUpload(prefix, documentId, url, metadata);
      plan.metadataKey == plan.docKey + ".metadata.json" &&
      plan.docKey == prefix + documentId + "/" + Filename(documentId, url) &&
      plan.metadata.metadataAttributes == metadata
  {
  }

  // ---------------------------------------------------------------- clear_bucket

  /** `clear_bucket`: collect every listed key, then delete them in slices of 1000. */
  method ClearBucket(pages: seq<Option<seq<string>>>) returns (batches: seq<seq<string>>)
    ensures Flatten(batches) == ListedKeys(pages)
    ensures forall b :: 0 <= b < |batches| ==> 1 <= |batches[b]| <= 1000
    ensures forall b :: 0 <= b < |batches| - 1 ==> |batches[b]| == 1000
    ensures |batches| == (|ListedKeys(pages)| + 999) / 1000
  {
    var objectsToDelete := [];
    for p := 0 to |pages|
      invariant objectsToDelete == ListedKeys(pages[..p])
    {
      assert pages[..p + 1][..p] == pages[..p];
      if pages[p].Some? {
        objectsToDelete := objectsToDelete + pages[p].value;
      }
    }
    assert pages[..|pages|] == pages;
    batches := [];
    var i := 0;
    while i < |objectsToDelete|
      invariant i <= |objectsToDelete| && i % 1000 == 0
      invariant Flatten(batches) == objectsToDelete[..i]
      invariant |batches| == i / 1000
      invariant forall b :: 0 <= b < |batches| ==> |batches[b]| == 1000
    {
      var end := if i + 1000 < |objectsToDelete| then i + 1000 else |objectsToDelete|;
      var batch := objectsToDelete[i..end];
      FlattenAppend(batches, batch);
      assert objectsToDelete[..i] + batch == objectsToDelete[..end];
      if end < |objectsToDelete| {
        batches := batches + [batch];
        i := end;
      } else {
        batches := batches + [batch];
        assert |batches| == (|objectsToDelete| + 999) / 1000;
        assert Flatten(batches) == objectsToDelete;
        return;
      }
    }
    assert objectsToDelete[..i] == objectsToDelete;
  }
}
