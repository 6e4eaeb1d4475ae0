/**
 * String operations of Python's `str` that the modelled code relies on.
 *
 * Stated assumptions: whitespace (for `strip()`, `split()` and the regex class `\s`)
 * is the ASCII set " \t\n\r\x0b\x0c"; the regex class `\w` is [A-Za-z0-9_];
 * `lower()`/`upper()` fold ASCII letters only.
 */
module Text {
  import opened Wrappers

  predicate IsSpace(c: char) {
    c == ' ' || c == '\t' || c == '\n' || c == '\r' || c == '\U{0B}' || c == '\U{0C}' ||
    ('\U{1C}' <= c <= '\U{1F}')
  }

  predicate IsDigit(c: char) { '0' <= c <= '9' }
  predicate IsUpper(c: char) { 'A' <= c <= 'Z' }
  predicate IsLower(c: char) { 'a' <= c <= 'z' }
  predicate IsAlpha(c: char) { IsUpper(c) || IsLower(c) }

  /** The regex class `\w`. */
  predicate IsWordChar(c: char) { IsAlpha(c) || IsDigit(c) || c == '_' }

  predicate NotSpace(c: char) { !IsSpace(c) }

  /** A truthy string. */
  predicate NonEmpty(s: string) { s != "" }

  // ---------------------------------------------------------------- prefixes

  predicate StartsWith(s: string, p: string) { |p| <= |s| && s[..|p|] == p }
  predicate EndsWith(s: string, p: string) { |p| <= |s| && s[|s| - |p|..] == p }

  /** Python's `t in s` for strings. */
  predicate Contains(s: string, t: string) {
    exists i | 0 <= i <= |s| :: OccursAt(s, t, i)
  }

  predicate OccursAt(s: string, t: string, i: nat) {
    i + |t| <= |s| && s[i..i + |t|] == t
  }

  /** Python's `s[:n]` for n >= 0. */
  function Take(s: string, n: nat): (r: string)
    ensures |r| == if |s| < n then |s| else n
    ensures r == s[..|r|]
  {
    if |s| <= n then s else s[..n]
  }

  // ---------------------------------------------------------------- strip

  /** Number of whitespace characters at the start of `s`. */
  function LeadingSpaces(s: string): (n: nat)
    ensures n <= |s|
    ensures forall i :: 0 <= i < n ==> IsSpace(s[i])
    ensures n < |s| ==> !IsSpace(s[n])
  {
    if s != "" && IsSpace(s[0]) then 1 + LeadingSpaces(s[1..]) else 0
  }

  /** Number of whitespace characters at the end of `s`. */
  function TrailingSpaces(s: string): (n: nat)
    ensures n <= |s|
    ensures forall i :: |s| - n <= i < |s| ==> IsSpace(s[i])
    ensures n < |s| ==> !IsSpace(s[|s| - n - 1])
  {
    if s != "" && IsSpace(s[|s| - 1]) then 1 + TrailingSpaces(s[..|s| - 1]) else 0
  }

  predicate IsStripped(s: string) {
    s == "" || (!IsSpace(s[0]) && !IsSpace(s[|s| - 1]))
  }

  predicate AllSpace(s: string) {
    forall i :: 0 <= i < |s| ==> IsSpace(s[i])
  }

  /** Python's `s.strip()`: the infix of `s` left after removing whitespace at both ends. */
  function Strip(s: string): string
  {
    var a := LeadingSpaces(s);
    if a == |s| then "" else s[a..|s| - TrailingSpaces(s)]
  }

  /** `strip` leaves a stripped infix, empty exactly when the text is all whitespace. */
  lemma StripOk(s: string)
    ensures IsStripped(Strip(s)) && |Strip(s)| <= |s|
    ensures Strip(s) == "" <==> AllSpace(s)
    ensures Strip(s) != "" ==> Strip(s) == s[LeadingSpaces(s)..|s| - TrailingSpaces(s)]
  {
    var a := LeadingSpaces(s);
    if a == |s| {
      assert AllSpace(s);
    } else {
      var b := |s| - TrailingSpaces(s);
      assert !IsSpace(s[a]);
      assert a < b;
      assert !AllSpace(s);
      var r := s[a..b];
      assert r[0] == s[a] && r[|r| - 1] == s[b - 1];
    }
  }

  lemma StripStripped(s: string)
    requires IsStripped(s)
    ensures Strip(s) == s
  {
    if s != "" {
      assert LeadingSpaces(s) == 0;
      assert TrailingSpaces(s) == 0;
    }
  }

  /** Stripping whitespace followed by a stripped string, followed by whitespace. */
  lemma StripPadded(w: string, s: string, v: string)
    requires AllSpace(w) && AllSpace(v) && IsStripped(s)
    ensures Strip(w + s + v) == s
  {
    var x := w + s + v;
    if s == "" {
      assert AllSpace(x);
    } else {
      assert x[|w|] == s[0] && x[|w| + |s| - 1] == s[|s| - 1];
      assert LeadingSpaces(x) == |w|;
      assert TrailingSpaces(x) == |v|;
      assert x[|w|..|x| - |v|] == s;
    }
  }

  lemma StripLeadingSpace(w: string, s: string)
    requires AllSpace(w) && IsStripped(s)
    ensures Strip(w + s) == s
  {
    StripPadded(w, s, "");
    assert w + s + "" == w + s;
  }

  lemma StripTrailingSpace(s: string, w: string)
    requires AllSpace(w) && IsStripped(s)
    ensures Strip(s + w) == s
  {
    StripPadded("", s, w);
    assert "" + s + w == s + w;
  }

  // ---------------------------------------------------------------- case

  function LowerChar(c: char): char {
    if IsUpper(c) then (c as int + 32) as char else c
  }

  function UpperChar(c: char): char {
    if IsLower(c) then (c as int - 32) as char else c
  }

  /** Python's `s.lower()` on ASCII letters. */
  function Lower(s: string): (r: string)
    ensures |r| == |s| && forall i :: 0 <= i < |s| ==> r[i] == LowerChar(s[i])
  {
    seq(|s|, i requires 0 <= i < |s| => LowerChar(s[i]))
  }

  // ---------------------------------------------------------------- split / join

  /** Index of the first occurrence of `c` in `s`, or |s| when there is none. */
  function FirstIndexOf(s: string, c: char): (i: nat)
    ensures i <= |s| && c !in s[..i]
    ensures i < |s| ==> s[i] == c
    ensures i == |s| <==> c !in s
  {
    if s == "" then 0
    else if s[0] == c then 0
    else
      var j := FirstIndexOf(s[1..], c);
      assert s[1..][..j] == s[1..j + 1];
      assert s[..j + 1] == [s[0]] + s[1..j + 1];
      1 + j
  }

  /** Python's `sep.join(parts)`. */
  function Join(parts: seq<string>, sep: string): string
  {
    if parts == [] then ""
    else if |parts| == 1 then parts[0]
    else parts[0] + sep + Join(parts[1..], sep)
  }

  /** Python's `s.split(sep)` for a one-character separator. */
  function Split(s: string, sep: char): (r: seq<string>)
    ensures |r| >= 1
    ensures forall k :: 0 <= k < |r| ==> sep !in r[k]
    ensures Join(r, [sep]) == s
    decreases |s|
  {
    var i := FirstIndexOf(s, sep);
    if i == |s| then [s]
    else
      var rest := Split(s[i + 1..], sep);
      assert s == s[..i] + [sep] + s[i + 1..];
      [s[..i]] + rest
  }

  /** Splitting a join of separator-free parts gives the parts back. */
  lemma {:induction false} SplitJoin(parts: seq<string>, sep: char)
    requires |parts| >= 1
    requires forall k :: 0 <= k < |parts| ==> sep !in parts[k]
    ensures Split(Join(parts, [sep]), sep) == parts
  {
    var s := Join(parts, [sep]);
    if |parts| == 1 {
      assert FirstIndexOf(s, sep) == |s|;
    } else {
      var rest := Join(parts[1..], [sep]);
      assert s == parts[0] + [sep] + rest;
      var i := |parts[0]|;
      assert s[..i] == parts[0];
      assert s[i] == sep;
      assert FirstIndexOf(s, sep) == i;
      assert s[i + 1..] == rest;
      SplitJoin(parts[1..], sep);
    }
  }

  /** Python's `s.split(sep)` for a non-empty separator string, `cur` being the piece
      begun so far. */
  function SplitOnFrom(s: string, sep: string, cur: string): (r: seq<string>)
    requires sep != ""
    ensures |r| >= 1
    decreases |s|
  {
    if s == "" then [cur]
    else if StartsWith(s, sep) then [cur] + SplitOnFrom(s[|sep|..], sep, "")
    else SplitOnFrom(s[1..], sep, cur + [s[0]])
  }

  function SplitOn(s: string, sep: string): (r: seq<string>)
    requires sep != ""
    ensures |r| >= 1
  {
    SplitOnFrom(s, sep, "")
  }

  /** Joining the pieces with the separator gives the text back. */
  lemma {:induction false} SplitOnFromJoin(s: string, sep: string, cur: string)
    requires sep != ""
    ensures Join(SplitOnFrom(s, sep, cur), sep) == cur + s
    decreases |s|
  {
    if s == "" {
      assert cur + s == cur;
    } else if StartsWith(s, sep) {
      var rest := SplitOnFrom(s[|sep|..], sep, "");
      SplitOnFromJoin(s[|sep|..], sep, "");
      assert "" + s[|sep|..] == s[|sep|..];
      assert ([cur] + rest)[1..] == rest;
      PrefixSplit(s, sep);
    } else {
      SplitOnFromJoin(s[1..], sep, cur + [s[0]]);
      assert cur + [s[0]] + s[1..] == cur + s;
    }
  }

  lemma SplitOnJoin(s: string, sep: string)
    requires sep != ""
    ensures Join(SplitOn(s, sep), sep) == s
  {
    SplitOnFromJoin(s, sep, "");
    assert "" + s == s;
  }

  /** Python's `s.split("\n", 1)[1]`: what follows the first newline ("" if none). */
  function AfterFirstNewline(s: string): (r: string)
    ensures '\n' in s ==> exists i :: 0 <= i < |s| && s[i] == '\n' && r == s[i + 1..]
  {
    var i := FirstIndexOf(s, '\n');
    if i < |s| then s[i + 1..] else ""
  }

  lemma AfterHeadingLine(h: string, body: string)
    requires '\n' !in h
    ensures AfterFirstNewline(h + "\n" + body) == body
  {
    var s := h + "\n" + body;
    var i := FirstIndexOf(s, '\n');
    assert s[..|h|] == h && s[|h|] == '\n';
    assert s[|h| + 1..] == body;
  }

  /** Python's `str.splitlines()` boundary characters. */
  predicate IsLineBreak(c: char) {
    c == '\n' || c == '\r' || c == '\U{0B}' || c == '\U{0C}' || c == '\U{1C}' || c == '\U{1D}'
    || c == '\U{1E}' || c == '\U{85}' || c == '\U{2028}' || c == '\U{2029}'
  }

  function FirstLineBreak(s: string): (i: nat)
    ensures i <= |s|
    ensures forall k :: 0 <= k < i ==> !IsLineBreak(s[k])
    ensures i < |s| ==> IsLineBreak(s[i])
  {
    if s == "" || IsLineBreak(s[0]) then 0 else 1 + FirstLineBreak(s[1..])
  }

  /** Python's `s.splitlines()`: no trailing empty line; "\r\n" is one boundary. */
  function SplitLines(s: string): (r: seq<string>)
    ensures s == "" <==> r == []
    ensures forall k :: 0 <= k < |r| ==> forall j :: 0 <= j < |r[k]| ==> !IsLineBreak(r[k][j])
    decreases |s|
  {
    if s == "" then []
    else
      var i := FirstLineBreak(s);
      if i == |s| then [s]
      else
        var next := if s[i] == '\r' && i + 1 < |s| && s[i + 1] == '\n' then i + 2 else i + 1;
        [s[..i]] + SplitLines(s[next..])
  }

  // ---------------------------------------------------------------- counting runs

  /** Number of maximal runs of characters satisfying `inRun`. */
  function RunCount(s: string, inRun: char -> bool): nat
  {
    if s == "" then 0
    else
      var n := |s| - 1;
      RunCount(s[..n], inRun) + (if inRun(s[n]) && (n == 0 || !inRun(s[n - 1])) then 1 else 0)
  }

  /** Python's `len(re.findall(r"\w+", s))`. */
  function WordRuns(s: string): nat { RunCount(s, IsWordChar) }

  /** Python's `len(s.split())`. */
  function SplitWordCount(s: string): nat { RunCount(s, NotSpace) }

  lemma {:induction false} RunCountNone(s: string, inRun: char -> bool)
    requires forall i :: 0 <= i < |s| ==> !inRun(s[i])
    ensures RunCount(s, inRun) == 0
  {
    if s != "" { RunCountNone(s[..|s| - 1], inRun); }
  }

  /** A run count is additive over a concatenation whose seam is not inside a run. */
  lemma {:induction false} RunCountConcat(a: string, b: string, inRun: char -> bool)
    requires a == "" || b == "" || !inRun(a[|a| - 1]) || !inRun(b[0])
    ensures RunCount(a + b, inRun) == RunCount(a, inRun) + RunCount(b, inRun)
  {
    if b == "" {
      assert a + b == a;
    } else {
      var n := |b| - 1;
      assert (a + b)[..|a + b| - 1] == a + b[..n];
      if n == 0 {
        assert a + b[..n] == a;
        assert b[..n] == "";
      } else {
        RunCountConcat(a, b[..n], inRun);
      }
    }
  }

  /** `\w+` runs are unaffected by whitespace at either end: `strip` keeps the word count. */
  lemma StripWordRuns(s: string)
    ensures WordRuns(Strip(s)) == WordRuns(s)
  {
    if Strip(s) == "" {
      SpacesHaveNoWords(s);
    } else {
      var a := LeadingSpaces(s);
      var b := |s| - TrailingSpaces(s);
      StripSplit(s);
      StripPads(s);
      SpacesAreNotWords(s[..a]);
      SpacesAreNotWords(s[b..]);
      RunCountPadded(s[..a], Strip(s), s[b..], IsWordChar);
    }
  }

  /** A non-empty `strip` result sits between two pieces of its input ... */
  lemma StripSplit(s: string)
    requires Strip(s) != ""
    ensures var a, b := LeadingSpaces(s), |s| - TrailingSpaces(s);
      a <= b && s == s[..a] + Strip(s) + s[b..]
  {
    var a, b := LeadingSpaces(s), |s| - TrailingSpaces(s);
    assert a < |s| && !IsSpace(s[a]);
    SliceJoin(s, a, b);
  }

  /** ... which are all whitespace. */
  lemma StripPads(s: string)
    ensures AllSpace(s[..LeadingSpaces(s)]) && AllSpace(s[|s| - TrailingSpaces(s)..])
  {
  }

  /** A non-empty sequence is its front followed by its last element, also behind `a`. */
  lemma SplitLast<T>(a: seq<T>, b: seq<T>)
    requires b != []
    ensures b == b[..|b| - 1] + [b[|b| - 1]]
    ensures a + b == (a + b[..|b| - 1]) + [b[|b| - 1]]
  {
    assert b == b[..|b| - 1] + [b[|b| - 1]];
  }

  lemma PrefixSplit<T>(s: seq<T>, p: seq<T>)
    requires |p| <= |s| && s[..|p|] == p
    ensures s == p + s[|p|..]
  {
  }

  lemma SplitAround<T>(s: seq<T>, i: nat)
    requires i < |s|
    ensures s == s[..i] + [s[i]] + s[i + 1..]
  {
    assert s[..i] + [s[i]] == s[..i + 1];
  }

  lemma SliceJoin<T>(s: seq<T>, a: nat, b: nat)
    requires a <= b <= |s|
    ensures s[..a] + s[a..b] + s[b..] == s
  {
    assert s[..a] + s[a..b] == s[..b];
  }

  lemma SpacesAreNotWords(t: string)
    requires AllSpace(t)
    ensures forall i :: 0 <= i < |t| ==> !IsWordChar(t[i])
  {
    forall i | 0 <= i < |t| ensures !IsWordChar(t[i]) {
      assert IsSpace(t[i]);
    }
  }

  lemma SpacesHaveNoWords(t: string)
    requires AllSpace(t)
    ensures WordRuns(t) == 0
  {
    SpacesAreNotWords(t);
    RunCountNone(t, IsWordChar);
  }

  /** Padding free of run characters on both sides leaves a run count unchanged. */
  lemma RunCountPadded(pre: string, r: string, post: string, inRun: char -> bool)
    requires forall i :: 0 <= i < |pre| ==> !inRun(pre[i])
    requires forall i :: 0 <= i < |post| ==> !inRun(post[i])
    ensures RunCount(pre + r + post, inRun) == RunCount(r, inRun)
  {
    RunCountNone(pre, inRun);
    RunCountNone(post, inRun);
    RunCountConcat(pre, r, inRun);
    RunCountConcat(pre + r, post, inRun);
  }

  /** Joining two texts with a separator free of run characters adds their run counts. */
  lemma SeparatedRuns(a: string, sep: string, b: string, inRun: char -> bool)
    requires forall i :: 0 <= i < |sep| ==> !inRun(sep[i])
    requires sep != ""
    ensures RunCount(a + sep + b, inRun) == RunCount(a, inRun) + RunCount(b, inRun)
  {
    RunCountNone(sep, inRun);
    RunCountConcat(a, sep, inRun);
    assert (a + sep)[|a + sep| - 1] == sep[|sep| - 1];
    RunCountConcat(a + sep, b, inRun);
  }

  /** Python's `sum(len(l.split()) for l in lines)`. */
  function LinesSplitWords(lines: seq<string>): nat
  {
    if lines == [] then 0 else SplitWordCount(lines[0]) + LinesSplitWords(lines[1..])
  }

  /** Joining lines with whitespace keeps their whitespace-separated words apart:
      `len(sep.join(lines).split())` is the sum of the lines' word counts. */
  lemma {:induction false} JoinSplitWords(lines: seq<string>, sep: string)
    requires sep != "" && AllSpace(sep)
    ensures SplitWordCount(Join(lines, sep)) == LinesSplitWords(lines)
    decreases |lines|
  {
    if |lines| == 1 {
      assert lines[1..] == [];
    } else if |lines| > 1 {
      JoinSplitWords(lines[1..], sep);
      SeparatedRuns(lines[0], sep, Join(lines[1..], sep), NotSpace);
    }
  }

  /** Sum of `len(re.findall(r"\w+", l))` over lines. */
  function LinesWordRuns(lines: seq<string>): nat
  {
    if lines == [] then 0 else LinesWordRuns(lines[..|lines| - 1]) + WordRuns(lines[|lines| - 1])
  }

  // ---------------------------------------------------------------- numbers

  function DigitChar(d: nat): char
    requires d < 10
  {
    ('0' as int + d) as char
  }

  /** Python's `str(n)` for a natural number. */
  function NatToString(n: nat): (r: string)
    ensures |r| >= 1
    ensures forall i :: 0 <= i < |r| ==> IsDigit(r[i])
    ensures n >= 10 ==> |r| >= 2
  {
    if n < 10 then [DigitChar(n)] else NatToString(n / 10) + [DigitChar(n % 10)]
  }

  /** Distinct numbers have distinct decimal spellings. */
  lemma {:induction false} NatToStringInjective(a: nat, b: nat)
    requires NatToString(a) == NatToString(b)
    ensures a == b
  {
    var sa, sb := NatToString(a), NatToString(b);
    if a < 10 && b < 10 {
      assert sa[0] == DigitChar(a) && sb[0] == DigitChar(b);
    } else if a >= 10 && b >= 10 {
      assert sa[|sa| - 1] == DigitChar(a % 10);
      assert sb[|sb| - 1] == DigitChar(b % 10);
      assert sa[..|sa| - 1] == NatToString(a / 10);
      assert sb[..|sb| - 1] == NatToString(b / 10);
      NatToStringInjective(a / 10, b / 10);
    }
  }

  /** Python's `str(i)` for an integer. */
  function IntToString(i: int): (r: string)
    ensures i >= 0 ==> r == NatToString(i)
    ensures i < 0 ==> r == "-" + NatToString(-i)
  {
    if i < 0 then "-" + NatToString(-i) else NatToString(i)
  }

  /** Python's f"{n:0{width}d}" for a natural number. */
  function ZeroPad(n: nat, width: nat): (r: string)
    ensures |r| >= width && |r| >= |NatToString(n)|
    ensures EndsWith(r, NatToString(n))
    ensures forall i :: 0 <= i < |r| - |NatToString(n)| ==> r[i] == '0'
  {
    var digits := NatToString(n);
    if |digits| >= width then digits
    else seq(width - |digits|, _ => '0') + digits
  }

  /** The number a string of decimal digits spells, leading zeros allowed (Python's `int`). */
  function DigitsValue(s: string): nat
    requires forall i :: 0 <= i < |s| ==> IsDigit(s[i])
  {
    if s == [] then 0
    else
      var d := s[|s| - 1];
      assert IsDigit(d);
      DigitsValue(s[..|s| - 1]) * 10 + (d as int - '0' as int)
  }

  lemma {:induction false} NatToStringValue(n: nat)
    ensures DigitsValue(NatToString(n)) == n
  {
    if n >= 10 {
      NatToStringValue(n / 10);
      var s := NatToString(n);
      assert s[..|s| - 1] == NatToString(n / 10);
    }
  }

  lemma {:induction false} LeadingZerosValue(z: string, s: string)
    requires forall i :: 0 <= i < |z| ==> z[i] == '0'
    requires forall i :: 0 <= i < |s| ==> IsDigit(s[i])
    ensures DigitsValue(z + s) == DigitsValue(s)
    decreases |s|, |z|
  {
    if s == [] {
      assert z + s == z;
      if z != [] {
        LeadingZerosValue(z[..|z| - 1], []);
        assert z[..|z| - 1] + [] == z[..|z| - 1];
      }
    } else {
      var n := |s| - 1;
      assert (z + s)[..|z + s| - 1] == z + s[..n];
      LeadingZerosValue(z, s[..n]);
    }
  }

  /** Zero padding keeps the value: `int(f"{n:0{width}d}") == n`. */
  lemma ZeroPadValue(n: nat, width: nat)
    ensures var r := ZeroPad(n, width);
      (forall i :: 0 <= i < |r| ==> IsDigit(r[i])) && DigitsValue(r) == n
  {
    var digits := NatToString(n);
    NatToStringValue(n);
    if |digits| < width {
      LeadingZerosValue(seq(width - |digits|, _ => '0'), digits);
    }
  }

  /** Python's `s.replace(a, b)` for single characters. */
  function ReplaceChar(s: string, a: char, b: char): (r: string)
    ensures |r| == |s|
    ensures forall i :: 0 <= i < |s| ==> r[i] == if s[i] == a then b else s[i]
  {
    seq(|s|, i requires 0 <= i < |s| => if s[i] == a then b else s[i])
  }

  // ---------------------------------------------------------------- sequences

  lemma TakeSnoc<T>(xs: seq<T>, i: nat)
    requires i < |xs|
    ensures xs[..i + 1] == xs[..i] + [xs[i]]
  {
  }

  function Flatten<T>(xs: seq<seq<T>>): seq<T>
  {
    if xs == [] then [] else Flatten(xs[..|xs| - 1]) + xs[|xs| - 1]
  }

  lemma FlattenAppend<T>(xs: seq<seq<T>>, x: seq<T>)
    ensures Flatten(xs + [x]) == Flatten(xs) + x
  {
    assert (xs + [x])[..|xs|] == xs;
  }

  /** A property of every element of every part holds of every element of the whole. */
  lemma {:induction false} FlattenEach<T>(xs: seq<seq<T>>, p: T -> bool)
    requires forall i, j :: 0 <= i < |xs| && 0 <= j < |xs[i]| ==> p(xs[i][j])
    ensures forall k :: 0 <= k < |Flatten(xs)| ==> p(Flatten(xs)[k])
  {
    if xs != [] {
      var n := |xs| - 1;
      FlattenEach(xs[..n], p);
      var f := Flatten(xs[..n]);
      forall k | 0 <= k < |Flatten(xs)|
        ensures p(Flatten(xs)[k])
      {
        if k >= |f| {
          assert Flatten(xs)[k] == xs[n][k - |f|];
        } else {
          assert Flatten(xs)[k] == f[k];
        }
      }
    }
  }

  lemma {:induction false} FlattenConcat<T>(xs: seq<seq<T>>, ys: seq<seq<T>>)
    ensures Flatten(xs + ys) == Flatten(xs) + Flatten(ys)
  {
    if ys == [] {
      assert xs + ys == xs;
    } else {
      var n := |ys| - 1;
      assert xs + ys == (xs + ys[..n]) + [ys[n]];
      FlattenAppend(xs + ys[..n], ys[n]);
      FlattenConcat(xs, ys[..n]);
      FlattenAppend(ys[..n], ys[n]);
      assert ys == ys[..n] + [ys[n]];
    }
  }

  /** The elements of `xs` that satisfy `p`, in order (a list comprehension with an `if`). */
  function Filter<T>(xs: seq<T>, p: T -> bool): (r: seq<T>)
    ensures |r| <= |xs|
    ensures forall k :: 0 <= k < |r| ==> p(r[k])
  {
    if xs == [] then []
    else
      var n := |xs| - 1;
      Filter(xs[..n], p) + (if p(xs[n]) then [xs[n]] else [])
  }

  lemma FilterSnoc<T>(xs: seq<T>, x: T, p: T -> bool)
    ensures Filter(xs + [x], p) == Filter(xs, p) + (if p(x) then [x] else [])
  {
    assert (xs + [x])[..|xs|] == xs;
  }

  lemma FilterMember<T>(xs: seq<T>, p: T -> bool, x: T)
    ensures x in Filter(xs, p) <==> x in xs && p(x)
    decreases |xs|
  {
    if xs != [] {
      var n := |xs| - 1;
      FilterMember(xs[..n], p, x);
      assert xs == xs[..n] + [xs[n]];
    }
  }

  // ---------------------------------------------------------------- subsequences

  /** `a` is `b` with some elements left out, the rest in order. */
  predicate Subsequence<T(==)>(a: seq<T>, b: seq<T>)
    decreases |b|
  {
    if a == [] then true
    else if b == [] then false
    else (a[|a| - 1] == b[|b| - 1] && Subsequence(a[..|a| - 1], b[..|b| - 1])) ||
         Subsequence(a, b[..|b| - 1])
  }

  lemma {:induction false} FilterSubsequence<T>(xs: seq<T>, p: T -> bool)
    ensures Subsequence(Filter(xs, p), xs)
  {
    if xs != [] {
      var n := |xs| - 1;
      FilterSubsequence(xs[..n], p);
      var f := Filter(xs[..n], p);
      if p(xs[n]) {
        assert Filter(xs, p) == f + [xs[n]];
        assert Filter(xs, p)[..|Filter(xs, p)| - 1] == f;
      } else {
        assert Filter(xs, p) == f;
      }
    }
  }

  lemma {:induction false} SubsequenceRefl<T>(xs: seq<T>)
    ensures Subsequence(xs, xs)
  {
    if xs != [] {
      SubsequenceRefl(xs[..|xs| - 1]);
    }
  }

  /** Text added in front of `b` keeps `a` a subsequence. */
  lemma {:induction false} SubsequencePrepend<T>(a: seq<T>, x: seq<T>, b: seq<T>)
    requires Subsequence(a, b)
    ensures Subsequence(a, x + b)
    decreases |b|
  {
    if a != [] && b != [] {
      var n, m := |a| - 1, |b| - 1;
      assert (x + b)[..|x + b| - 1] == x + b[..m];
      if a[n] == b[m] && Subsequence(a[..n], b[..m]) {
        SubsequencePrepend(a[..n], x, b[..m]);
      } else {
        SubsequencePrepend(a, x, b[..m]);
      }
    }
  }

  /** Subsequences of two parts make a subsequence of the whole. */
  lemma {:induction false} SubsequenceConcat<T>(a: seq<T>, b: seq<T>, c: seq<T>, d: seq<T>)
    requires Subsequence(a, b) && Subsequence(c, d)
    ensures Subsequence(a + c, b + d)
    decreases |d|
  {
    if c == [] {
      assert a + c == a;
      SubsequenceAppend(a, b, d);
    } else {
      var n, m := |c| - 1, |d| - 1;
      assert (a + c)[..|a + c| - 1] == a + c[..n];
      assert (b + d)[..|b + d| - 1] == b + d[..m];
      if c[n] == d[m] && Subsequence(c[..n], d[..m]) {
        SubsequenceConcat(a, b, c[..n], d[..m]);
      } else {
        SubsequenceConcat(a, b, c, d[..m]);
      }
    }
  }

  /** Text added behind `b` keeps `a` a subsequence. */
  lemma {:induction false} SubsequenceAppend<T>(a: seq<T>, b: seq<T>, y: seq<T>)
    requires Subsequence(a, b)
    ensures Subsequence(a, b + y)
    decreases |y|
  {
    if y == [] {
      assert b + y == b;
    } else if a != [] {
      var m := |y| - 1;
      assert (b + y)[..|b + y| - 1] == b + y[..m];
      SubsequenceAppend(a, b, y[..m]);
    }
  }

  // ---------------------------------------------------------------- paths and spans

  /** Number of characters after the last '/' of `p` (all of `p` when it has none). */
  function NameLength(p: string): (k: nat)
    ensures k <= |p|
    ensures forall i :: |p| - k <= i < |p| ==> p[i] != '/'
    ensures k < |p| ==> p[|p| - k - 1] == '/'
  {
    if p != "" && p[|p| - 1] != '/' then 1 + NameLength(p[..|p| - 1]) else 0
  }

  /** Python's `os.path.basename` on POSIX paths: what follows the last '/'. */
  function Basename(p: string): (r: string)
    ensures '/' !in r && EndsWith(p, r)
    ensures r != p ==> p[|p| - |r| - 1] == '/'
  {
    var k := NameLength(p);
    var r := p[|p| - k..];
    assert forall i :: 0 <= i < |r| ==> r[i] == p[|p| - k + i];
    r
  }

  /** Appending text without '/' extends the final component. */
  lemma BasenameAppend(x: string, y: string)
    requires '/' !in y
    ensures Basename(x + y) == Basename(x) + y
  {
    NameLengthAppend(x, y);
    var k := NameLength(x);
    assert (x + y)[|x + y| - (k + |y|)..] == x[|x| - k..] + y;
  }

  lemma {:induction false} NameLengthAppend(x: string, y: string)
    requires '/' !in y
    ensures NameLength(x + y) == NameLength(x) + |y|
    decreases |y|
  {
    if y == [] {
      assert x + y == x;
    } else {
      var n := |y| - 1;
      NameLengthAppend(x, y[..n]);
      assert (x + y)[..|x + y| - 1] == x + y[..n];
      assert (x + y)[|x + y| - 1] == y[n];
    }
  }

  /** Index of the last occurrence of `c` in `s` (Python's `s.rfind(c)`, None for -1). */
  function LastIndexOf(s: string, c: char): (r: Option<nat>)
    ensures r.None? <==> c !in s
    ensures r.Some? ==> r.value < |s| && s[r.value] == c && c !in s[r.value + 1..]
  {
    if s == [] then None
    else if s[|s| - 1] == c then Some(|s| - 1)
    else
      var r := LastIndexOf(s[..|s| - 1], c);
      assert s == s[..|s| - 1] + [s[|s| - 1]];
      if r.Some? then
        assert s[r.value + 1..] == s[..|s| - 1][r.value + 1..] + [s[|s| - 1]];
        r
      else r
  }

  /** End of the run of characters satisfying `p` that starts at index `i`. */
  function SpanFrom(s: string, i: nat, p: char -> bool): (j: nat)
    requires i <= |s|
    ensures i <= j <= |s|
    ensures forall k :: i <= k < j ==> p(s[k])
    ensures j < |s| ==> !p(s[j])
    decreases |s| - i
  {
    if i < |s| && p(s[i]) then SpanFrom(s, i + 1, p) else i
  }

  /** The run ends at the first index from `i` whose character fails `p`. */
  lemma SpanFromAt(s: string, i: nat, p: char -> bool, j: nat)
    requires i <= j <= |s|
    requires forall k :: i <= k < j ==> p(s[k])
    requires j < |s| ==> !p(s[j])
    ensures SpanFrom(s, i, p) == j
    decreases j - i
  {
    if i < j {
      SpanFromAt(s, i + 1, p, j);
    }
  }

  predicate IsDot(c: char) { c == '.' }

  /** Python's `os.path.splitext(name)[0]` for a name without "/": the name up to its last
      ".", unless only dots precede that dot (a leading-dot name has no extension). */
  function SplitextRoot(name: string): (root: string)
    ensures root <= name
    ensures root != name ==>
      name[|root|] == '.' && '.' !in name[|root| + 1..] && exists j :: 0 <= j < |root| && name[j] != '.'
    ensures (exists j, d :: 0 <= j < d < |name| && name[j] != '.' && name[d] == '.') ==> root != name
  {
    match LastIndexOf(name, '.')
    case None => name
    case Some(d) =>
      var firstNonDot := SpanFrom(name, 0, IsDot);
      if firstNonDot < d then
        assert name[firstNonDot] != '.';
        name[..d]
      else
        assert forall j :: 0 <= j < d ==> name[j] == '.';
        name
  }

  /** A stem holding a non-dot character, followed by "." and dot-free text, loses exactly
      that extension. */
  lemma SplitextOfAppended(stem: string, ext: string)
    requires exists j :: 0 <= j < |stem| && stem[j] != '.'
    requires ext != "" && ext[0] == '.' && '.' !in ext[1..]
    ensures SplitextRoot(stem + ext) == stem
  {
    var name := stem + ext;
    var j :| 0 <= j < |stem| && stem[j] != '.';
    assert name[j] != '.' && name[|stem|] == '.';
    var root := SplitextRoot(name);
    assert name[|stem| + 1..] == ext[1..];
    if |root| != |stem| {
      assert false;
    }
    assert root == name[..|stem|];
  }
}

/** Smallest and largest elements of sequences and sets. */
module Extremes {

  lemma NonEmptyHasElement(s: set<int>)
    requires s != {}
    ensures exists x :: x in s
  {
    if forall x :: x !in s {
      assert false;
    }
  }
  function SeqMin(xs: seq<int>): (m: int)
    requires xs != []
    ensures m in xs && forall x :: x in xs ==> m <= x
  {
    if |xs| == 1 then xs[0]
    else
      var n := |xs| - 1;
      var m := SeqMin(xs[..n]);
      assert xs == xs[..n] + [xs[n]];
      if xs[n] < m then xs[n] else m
  }

  function SeqMax(xs: seq<int>): (m: int)
    requires xs != []
    ensures m in xs && forall x :: x in xs ==> x <= m
  {
    if |xs| == 1 then xs[0]
    else
      var n := |xs| - 1;
      var m := SeqMax(xs[..n]);
      assert xs == xs[..n] + [xs[n]];
      if xs[n] > m then xs[n] else m
  }

  /** Python's `min(pages), max(pages)` over a non-empty set. */
  method SetMinMax(pages: set<int>) returns (lo: int, hi: int)
    requires pages != {}
    ensures lo in pages && hi in pages
    ensures forall p :: p in pages ==> lo <= p <= hi
  {
    NonEmptyHasElement(pages);
    var x :| x in pages;
    lo, hi := x, x;
    var rest := pages - {x};
    while rest != {}
      invariant rest <= pages
      invariant lo in pages && hi in pages
      invariant forall p :: p in pages && p !in rest ==> lo <= p <= hi
      decreases |rest|
    {
      NonEmptyHasElement(rest);
      var y :| y in rest;
      if y < lo { lo := y; }
      if y > hi { hi := y; }
      rest := rest - {y};
    }
  }

  /** A set and a sequence with the same elements have the same extremes. */
  lemma SameExtremes(pages: set<int>, ps: seq<int>, lo: int, hi: int)
    requires forall p :: p in pages ==> p in ps
    requires forall p :: p in ps ==> p in pages
    requires pages == {} ==> lo == 1 && hi == 1
    requires pages != {} ==> lo in pages && hi in pages && forall p :: p in pages ==> lo <= p <= hi
    ensures ps == [] ==> (lo, hi) == (1, 1)
    ensures ps != [] ==> lo == SeqMin(ps) && hi == SeqMax(ps)
  {
    if ps != [] {
      var lo', hi' := SeqMin(ps), SeqMax(ps);
      assert lo' in pages && hi' in pages;
    } else if pages != {} {
      assert false;
    }
  }
}
