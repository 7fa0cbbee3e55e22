/** The ignore-rule engine of `ProjectScanner`: `_load_gitignore` builds the
    pattern list once, `_is_ignored` answers for one path below the scan root.
    A path is given by its components below the root (`[]` is the root itself),
    as `os.path.relpath` would spell them joined by `/`. */
module IgnoreRules {
  import opened Seqs
  import opened Text
  import opened Glob

  const CompiledPattern: string := "*.pyc"
  const OptimizedPattern: string := "*.pyo"

  /** The built-in patterns, in the order the scanner lists them. */
  const DefaultPatterns: seq<string> :=
    [".git", ".idea", ".vscode", "__pycache__", CompiledPattern, OptimizedPattern, ".DS_Store", "venv", "env", ".env"]

  /** What reading `<root>/.gitignore` yields: no such file, or the lines read
      (terminators included) up to the end of the file or up to a read error,
      which `readFailed` reports. Lines read before an error stay loaded. */
  datatype IgnoreFile = Absent | Present(lines: seq<string>, readFailed: bool)

  /** The pattern one `.gitignore` line contributes, if any: a stripped line
      that is neither blank nor a `#` comment, with its trailing `/`s removed. */
  function PatternOf(line: string): (r: Option<string>)
    ensures r.Some? <==> Strip(line) != [] && Strip(line)[0] != '#'
    ensures r.Some? ==> StartsWith(Strip(line), r.value)
    ensures r.Some? ==> forall i :: |r.value| <= i < |Strip(line)| ==> Strip(line)[i] == '/'
    ensures r.Some? ==> r.value == [] || r.value[|r.value| - 1] != '/'
  {
    var t := Strip(line);
    if t != [] && t[0] != '#' then Some(RStripChar(t, '/')) else None
  }

  /** The list `_load_gitignore` returns: the built-ins, then one pattern per
      contributing line, in file order. */
  function LoadedPatterns(f: IgnoreFile): seq<string> {
    DefaultPatterns + if f.Present? then FilterMap(PatternOf, f.lines) else []
  }

  /** `_load_gitignore`: starts from the built-ins and appends the lines'
      patterns; a read error ends the reading with a warning and keeps what was
      appended. */
  method LoadGitignore(f: IgnoreFile) returns (patterns: seq<string>, warned: bool)
    ensures patterns == LoadedPatterns(f)
    ensures warned <==> f.Present? && f.readFailed
  {
    patterns := DefaultPatterns;
    warned := false;
    if f.Present? {
      patterns := AppendLinePatterns(patterns, f.lines);
      warned := f.readFailed;
    }
  }

  /** The `for line in f` loop of `_load_gitignore`: strip the line, skip it
      when blank or a comment, else append it without its trailing `/`s. */
  method AppendLinePatterns(start: seq<string>, lines: seq<string>) returns (patterns: seq<string>)
    ensures patterns == start + FilterMap(PatternOf, lines)
  {
    patterns := start;
    var i := 0;
    while i < |lines|
      invariant 0 <= i <= |lines|
      invariant patterns == start + FilterMap(PatternOf, lines[..i])
    {
      ghost var done := FilterMap(PatternOf, lines[..i]);
      var line := Strip(lines[i]);
      if line != [] && line[0] != '#' {
        patterns := patterns + [RStripChar(line, '/')];
      }
      ghost var added := FilterMap(PatternOf, [lines[i]]);
      FilterMapSingle(PatternOf, lines[i]);
      assert patterns == (start + done) + added;
      TakeOneMore(lines, i);
      FilterMapAppend(PatternOf, lines[..i], [lines[i]]);
      AppendAssociative(start, done, added);
      i := i + 1;
    }
    assert lines[..i] == lines;
  }

  /** One pattern against one path: the base name, the root-relative path,
      and for a directory the base name against the pattern without trailing
      `/`. That third test repeats the first unless the pattern ends in `/`,
      and for an entry directly below the root the second repeats the first. */
  function PatternHits(pattern: string, rel: seq<string>, isDir: bool): (r: bool)
    requires rel != []
    ensures pattern == [] || pattern[|pattern| - 1] != '/' ==>
              (r <==> GlobMatch(pattern, rel[|rel| - 1]) || GlobMatch(pattern, JoinPath(rel)))
    ensures |rel| == 1 ==>
              (r <==> GlobMatch(pattern, rel[0]) || (isDir && GlobMatch(RStripChar(pattern, '/'), rel[0])))
  {
    assert pattern == [] || pattern[|pattern| - 1] != '/' ==> RStripChar(pattern, '/') == pattern;
    || GlobMatch(pattern, rel[|rel| - 1])
    || GlobMatch(pattern, JoinPath(rel))
    || (isDir && GlobMatch(RStripChar(pattern, '/'), rel[|rel| - 1]))
  }

  /** The pattern loop of `_is_ignored`, returning at the first hit. */
  function AnyPatternHits(patterns: seq<string>, rel: seq<string>, isDir: bool): (r: bool)
    requires rel != []
    ensures r <==> exists i :: 0 <= i < |patterns| && PatternHits(patterns[i], rel, isDir)
  {
    if patterns == [] then false
    else if PatternHits(patterns[0], rel, isDir) then true
    else
      assert forall i :: 1 <= i < |patterns| ==> patterns[i] == patterns[1..][i - 1];
      AnyPatternHits(patterns[1..], rel, isDir)
  }

  /** `_is_ignored(path, is_dir)`: never for the scan root, otherwise exactly
      when some pattern hits the path. */
  function IsIgnored(patterns: seq<string>, rel: seq<string>, isDir: bool): (r: bool)
    ensures rel == [] ==> !r
    ensures rel != [] ==> (r <==> exists i :: 0 <= i < |patterns| && PatternHits(patterns[i], rel, isDir))
  {
    rel != [] && AnyPatternHits(patterns, rel, isDir)
  }

  /** The loaded list is the built-ins followed by exactly the patterns of the
      contributing lines. */
  lemma LoadedPatternsMembership(f: IgnoreFile, p: string)
    ensures p in LoadedPatterns(f) <==>
              p in DefaultPatterns || (f.Present? && exists i :: 0 <= i < |f.lines| && PatternOf(f.lines[i]) == Some(p))
  {
    if f.Present? {
      FilterMapMembership(PatternOf, f.lines, p);
    }
  }

  /** No loaded pattern ends in `/`. */
  lemma LoadedPatternsHaveNoTrailingSlash(f: IgnoreFile, p: string)
    requires p in LoadedPatterns(f)
    ensures p == [] || p[|p| - 1] != '/'
  {
    LoadedPatternsMembership(f, p);
    if p in DefaultPatterns {
      DefaultPatternsHaveNoTrailingSlash(p);
    } else {
      var i :| 0 <= i < |f.lines| && PatternOf(f.lines[i]) == Some(p);
    }
  }

  lemma DefaultPatternsHaveNoTrailingSlash(p: string)
    requires p in DefaultPatterns
    ensures p != [] && p[|p| - 1] != '/'
  {
    var i :| 0 <= i < |DefaultPatterns| && DefaultPatterns[i] == p;
    assert CompiledPattern[4] != '/' && OptimizedPattern[4] != '/';
  }

  /** A line and the same line followed by any number of `/` load the same
      pattern, so `build/` and `build` are one rule. */
  lemma TrailingSlashesDoNotMatter(t: string, k: nat)
    requires t != [] && !IsSpace(t[0]) && !IsSpace(t[|t| - 1]) && t[0] != '#'
    ensures PatternOf(t + Repeat('/', k)) == PatternOf(t) == Some(RStripChar(t, '/'))
  {
    var u := t + Repeat('/', k);
    assert u[0] == t[0] && u[|u| - 1] == (if k == 0 then t[|t| - 1] else '/');
    StripKeepsTrimmed(u);
    StripKeepsTrimmed(t);
    RStripIgnoresAppended(t, k);
  }

  /** `strip()` leaves a string alone whose ends are not whitespace. */
  lemma StripKeepsTrimmed(s: string)
    requires s != [] && !IsSpace(s[0]) && !IsSpace(s[|s| - 1])
    ensures Strip(s) == s
  {
  }

  lemma {:induction false} RStripIgnoresAppended(t: string, k: nat)
    ensures RStripChar(t + Repeat('/', k), '/') == RStripChar(t, '/')
  {
    if k == 0 {
      assert t + Repeat('/', k) == t;
    } else {
      var u := t + Repeat('/', k);
      assert u[..|u| - 1] == t + Repeat('/', k - 1);
      RStripIgnoresAppended(t, k - 1);
    }
  }

  /** For the loaded list the directory flag never changes the answer: its
      third test repeats the first, as no loaded pattern ends in `/`. */
  lemma DirFlagIrrelevantForLoaded(f: IgnoreFile, rel: seq<string>)
    ensures IsIgnored(LoadedPatterns(f), rel, true) == IsIgnored(LoadedPatterns(f), rel, false)
  {
    var ps := LoadedPatterns(f);
    if rel != [] {
      forall i | 0 <= i < |ps|
        ensures PatternHits(ps[i], rel, true) == PatternHits(ps[i], rel, false)
      {
        var p := ps[i];
        LoadedPatternsHaveNoTrailingSlash(f, p);
        assert RStripChar(p, '/') == p;
      }
    }
  }

  /** A wildcard-free pattern ignores a file or directory of that name at
      any depth. */
  lemma PlainPatternIgnoresNameAtAnyDepth(patterns: seq<string>, rel: seq<string>, isDir: bool)
    requires rel != [] && rel[|rel| - 1] in patterns && Plain(rel[|rel| - 1])
    ensures IsIgnored(patterns, rel, isDir)
  {
    var name := rel[|rel| - 1];
    var i :| 0 <= i < |patterns| && patterns[i] == name;
    PlainMatchesItself(name, name);
    assert PatternHits(patterns[i], rel, isDir);
  }

  /** Every built-in name without wildcards (`__pycache__`, `venv`, ...)
      ignores a file or directory of that name at any depth. */
  lemma BuiltinNameIgnoredAtAnyDepth(f: IgnoreFile, rel: seq<string>, isDir: bool)
    requires rel != [] && rel[|rel| - 1] in DefaultPatterns && Plain(rel[|rel| - 1])
    ensures IsIgnored(LoadedPatterns(f), rel, isDir)
  {
    PlainPatternIgnoresNameAtAnyDepth(LoadedPatterns(f), rel, isDir);
  }

  /** A pattern made of `*` and plain text ignores, at any depth, every file
      or directory whose name ends in that text. */
  lemma StarSuffixIgnoresAtAnyDepth(patterns: seq<string>, t: string, rel: seq<string>, isDir: bool)
    requires "*" + t in patterns && Plain(t)
    requires rel != [] && EndsWith(rel[|rel| - 1], t)
    ensures IsIgnored(patterns, rel, isDir)
  {
    var i :| 0 <= i < |patterns| && patterns[i] == "*" + t;
    StarThenPlain(t, rel[|rel| - 1]);
    assert PatternHits(patterns[i], rel, isDir);
  }

  /** `*.pyc` and `*.pyo` ignore compiled files at any depth. */
  lemma CompiledFileIgnoredAtAnyDepth(f: IgnoreFile, rel: seq<string>, isDir: bool)
    requires rel != []
    requires EndsWith(rel[|rel| - 1], ".pyc") || EndsWith(rel[|rel| - 1], ".pyo")
    ensures IsIgnored(LoadedPatterns(f), rel, isDir)
  {
    CompiledPatternsLoaded(f);
    CompiledFileIgnored(LoadedPatterns(f), rel, isDir);
  }

  lemma CompiledPatternsLoaded(f: IgnoreFile)
    ensures CompiledPattern in LoadedPatterns(f) && OptimizedPattern in LoadedPatterns(f)
  {
    assert DefaultPatterns[4] == CompiledPattern && DefaultPatterns[5] == OptimizedPattern;
    LoadedPatternsMembership(f, CompiledPattern);
    LoadedPatternsMembership(f, OptimizedPattern);
  }

  lemma CompiledFileIgnored(patterns: seq<string>, rel: seq<string>, isDir: bool)
    requires CompiledPattern in patterns && OptimizedPattern in patterns
    requires rel != []
    requires EndsWith(rel[|rel| - 1], ".pyc") || EndsWith(rel[|rel| - 1], ".pyo")
    ensures IsIgnored(patterns, rel, isDir)
  {
    if EndsWith(rel[|rel| - 1], ".pyc") {
      assert CompiledPattern == "*" + ".pyc";
      StarSuffixIgnoresAtAnyDepth(patterns, ".pyc", rel, isDir);
    } else {
      assert OptimizedPattern == "*" + ".pyo";
      StarSuffixIgnoresAtAnyDepth(patterns, ".pyo", rel, isDir);
    }
  }

  /** A wildcard-free pattern holding a `/` can only match the whole
      root-relative path: it ignores exactly the path spelled like it. */
  lemma SlashPatternMatchesOnlyItsPath(p: string, rel: seq<string>, isDir: bool)
    requires Plain(p) && '/' in p && p[|p| - 1] != '/'
    requires rel != [] && '/' !in rel[|rel| - 1]
    ensures IsIgnored([p], rel, isDir) <==> JoinPath(rel) == p
  {
    var name := rel[|rel| - 1];
    PlainMatchesItself(p, name);
    PlainMatchesItself(p, JoinPath(rel));
    assert RStripChar(p, '/') == p;
    assert name != p;
    assert PatternHits(p, rel, isDir) <==> JoinPath(rel) == p;
  }

  /** A pattern `a/b` (such as `src/tmp`) ignores the entry `b` directly
      inside the top-level directory `a`, and a `b` inside any other top-level
      directory is not ignored by it. */
  lemma DirNamePatternMatchesOnlyThatDir(a: string, b: string, c: string, isDir: bool)
    requires Plain(a) && Plain(b) && b != [] && '/' !in b && b[|b| - 1] != '/'
    ensures IsIgnored([a + "/" + b], [a, b], isDir)
    ensures c != a ==> !IsIgnored([a + "/" + b], [c, b], isDir)
  {
    var p := a + "/" + b;
    assert p[|a|] == '/' && p[|p| - 1] == b[|b| - 1];
    assert Plain(p) by {
      forall i | 0 <= i < |p| ensures p[i] != '*' && p[i] != '?' && p[i] != '[' {
        if i < |a| { assert p[i] == a[i]; } else if i > |a| { assert p[i] == b[i - |a| - 1]; }
      }
    }
    assert [a, b][1..] == [b] && [c, b][1..] == [b];
    assert JoinPath([a, b]) == p;
    SlashPatternMatchesOnlyItsPath(p, [a, b], isDir);
    SlashPatternMatchesOnlyItsPath(p, [c, b], isDir);
    if c != a {
      var q := c + "/" + b;
      assert JoinPath([c, b]) == q;
      assert q[..|c|] == c && p[..|a|] == a;
      assert |q| == |p| ==> q[..|c|] != p[..|c|];
    }
  }

  /** A star runs across `/`: the pattern "src/" + "*" ignores everything at any depth below `src`. */
  lemma StarSpansSeparators(rel: seq<string>, isDir: bool)
    requires |rel| >= 2 && rel[0] == "src"
    ensures IsIgnored(["src/*"], rel, isDir)
  {
    var path := JoinPath(rel);
    assert path == "src" + "/" + JoinPath(rel[1..]);
    assert "src/*" == "src/" + "*";
    assert StartsWith(path, "src/") by {
      assert path[..4] == "src/";
    }
    PlainThenStar("src/", path);
    assert PatternHits("src/*", rel, isDir);
  }
}
