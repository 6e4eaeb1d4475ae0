/**
 * `should_ignore` of scripts/bundle.py: whether the bundler skips a path, judged by its
 * final component against the list of ignore patterns, where a pattern "*.ext" matches
 * any name ending in ".ext".
 */
module Bundle {
  import opened Text

  const IgnorePatterns: seq<string> := [
    "__pycache__", "*.pyc", "*.pyo", ".pytest_cache", ".mypy_cache", ".DS_Store",
    ".git", ".gitignore", "*.egg-info", ".coverage", "node_modules"
  ]

  /** One test of the wildcard loop: a pattern with "*" that starts with "*." matches a
      name ending in the pattern minus its "*". */
  predicate WildcardMatch(name: string, pattern: string) {
    '*' in pattern && StartsWith(pattern, "*.") && EndsWith(name, pattern[1..])
  }

  /** The wildcard loop returns True at the first pattern that matches, so it returns True
      exactly when some pattern does. */
  predicate MatchesWildcard(name: string, patterns: seq<string>) {
    exists i :: 0 <= i < |patterns| && WildcardMatch(name, patterns[i])
  }

  function ShouldIgnore(path: string): bool {
    var name := Basename(path);
    name in IgnorePatterns || MatchesWildcard(name, IgnorePatterns)
  }

  // ---------------------------------------------------------------- properties

  /** The wildcard patterns are "*.pyc", "*.pyo" and "*.egg-info". */
  lemma WildcardSuffixes(name: string)
    ensures MatchesWildcard(name, IgnorePatterns) <==>
      EndsWith(name, ".pyc") || EndsWith(name, ".pyo") || EndsWith(name, ".egg-info")
  {
    var ps := IgnorePatterns;
    assert ps[1][1..] == ".pyc" && ps[2][1..] == ".pyo" && ps[8][1..] == ".egg-info";
    assert WildcardMatch(name, ps[1]) <==> EndsWith(name, ".pyc");
    assert WildcardMatch(name, ps[2]) <==> EndsWith(name, ".pyo");
    assert WildcardMatch(name, ps[8]) <==> EndsWith(name, ".egg-info");
    forall i | 0 <= i < |ps| && i != 1 && i != 2 && i != 8
      ensures !WildcardMatch(name, ps[i])
    {
      assert '*' !in ps[i];
    }
  }

  /** A path is ignored exactly when its final component is one of the listed names or
      ends with ".pyc", ".pyo" or ".egg-info". */
  lemma ShouldIgnoreExactly(path: string)
    ensures var name := Basename(path);
      ShouldIgnore(path) <==>
        name in IgnorePatterns ||
        EndsWith(name, ".pyc") || EndsWith(name, ".pyo") || EndsWith(name, ".egg-info")
  {
    WildcardSuffixes(Basename(path));
  }

  /** Only the final component counts: a directory part never causes an ignore. */
  lemma {:induction false} FinalComponentOnly(dir: string, name: string)
    requires '/' !in name
    ensures ShouldIgnore(dir + "/" + name) == ShouldIgnore(name)
  {
    BasenameOf(dir + "/", name);
    BasenameOf("", name);
    assert "" + name == name;
  }

  /** The final component of `dir + name` is `name` when `dir` ends with "/" or is empty. */
  lemma BasenameOf(dir: string, name: string)
    requires '/' !in name && (dir == "" || dir[|dir| - 1] == '/')
    ensures Basename(dir + name) == name
  {
    BasenameAppend(dir, name);
  }

  /** Near misses are kept: "pyc" has no dot, and "a.pyc.bak" does not end in ".pyc". */
  lemma NearMissesKept()
    ensures !ShouldIgnore("pyc") && !ShouldIgnore("a.pyc.bak")
  {
    PycKept();
    PycBakKept();
  }

  lemma PycKept()
    ensures !ShouldIgnore("pyc")
  {
    NotListed("pyc");
    NearMissKept("pyc");
  }

  lemma PycBakKept()
    ensures !ShouldIgnore("a.pyc.bak")
  {
    var bak := "a.pyc.bak";
    NotListed(bak);
    assert bak[5..] == ".bak" && bak[6] == 'b';
    assert bak[5..] != ".pyc" && bak[5..] != ".pyo";
    assert bak[0] == 'a';
    assert bak[0..] != ".egg-info";
    NearMissKept(bak);
  }

  /** Every listed name starts with "_", "*", "." or "n". */
  lemma NotListed(name: string)
    requires name != "" && IsLower(name[0]) && name[0] != 'n'
    ensures name !in IgnorePatterns
  {
    var ps := IgnorePatterns;
    forall i | 0 <= i < |ps|
      ensures ps[i] != name
    {
      assert ps[i][0] == '_' || ps[i][0] == '*' || ps[i][0] == '.' || ps[i][0] == 'n';
    }
  }

  lemma NearMissKept(name: string)
    requires '/' !in name && name !in IgnorePatterns
    requires !EndsWith(name, ".pyc") && !EndsWith(name, ".pyo") && !EndsWith(name, ".egg-info")
    ensures !ShouldIgnore(name)
  {
    BasenameOf("", name);
    assert "" + name == name;
    WildcardSuffixes(name);
  }
}
