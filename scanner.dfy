/** `ProjectScanner`: walks a project top-down, prunes ignored directories
    before descending into them, and writes an indented tree of directories,
    Python files and their definitions to the output file. The directory
    listing `os.walk` reads from disk is an input tree; the output file is the
    sequence of lines written to it. */
module Scanner {
  import opened Seqs
  import opened Text
  import opened Glob
  import opened IgnoreRules
  import opened Definitions

  datatype FileEntry = FileEntry(name: string, source: SourceFile)

  /** A directory as `os.walk` lists it: its name, then its subdirectories and
      its files, each in listing order. */
  datatype Dir = Dir(name: string, subdirs: seq<Dir>, files: seq<FileEntry>)

  /** One line of the tree, identified by the root-relative path it is about:
      a directory, a Python file, or one definition of a Python file. */
  datatype Line =
    | DirLine(path: seq<string>)
    | FileLine(path: seq<string>)
    | DefLine(path: seq<string>, entry: string)

  function BaseName(path: seq<string>): string {
    if path == [] then "" else path[|path| - 1]
  }

  /** The text of a line. A directory at level `n` (its depth below the root)
      is indented by `4 * n` spaces, a file in it by `4 * (n + 1)` and the
      file's definitions by `4 * (n + 2)`. */
  function Render(l: Line): string {
    match l
    case DirLine(p) => Repeat(' ', 4 * |p|) + "📂 " + BaseName(p) + "/"
    case FileLine(p) => Repeat(' ', 4 * |p|) + "📄 " + BaseName(p)
    case DefLine(p, entry) => Repeat(' ', 4 * (|p| + 1)) + "└── " + entry
  }

  /** The two lines written before the tree. */
  function Header(rootName: string): seq<string> {
    ["Project Tree for: " + rootName, Repeat('=', 40)]
  }

  /** Whether a subdirectory of the directory at `rel` survives pruning. */
  function KeepDir(patterns: seq<string>, rel: seq<string>): Dir -> bool {
    (x: Dir) => !IsIgnored(patterns, rel + [x.name], true)
  }

  /** The subdirectories `os.walk` still descends into after `dirs[:]` is
      reassigned, in listing order. */
  function KeptDirs(patterns: seq<string>, rel: seq<string>, dirs: seq<Dir>): seq<Dir> {
    Filter(KeepDir(patterns, rel), dirs)
  }

  function ToDefLine(path: seq<string>): string -> Line {
    (entry: string) => DefLine(path, entry)
  }

  /** The lines one file of the directory at `rel` contributes: none when it
      is ignored or not a `.py` file, otherwise its own line followed by one
      line per definition. */
  function FileLines(patterns: seq<string>, rel: seq<string>, file: FileEntry): seq<Line> {
    var path := rel + [file.name];
    if IsIgnored(patterns, path, false) || !EndsWith(file.name, ".py") then []
    else [FileLine(path)] + Map(ToDefLine(path), ExtractDefinitions(file.source))
  }

  function FilesLines(patterns: seq<string>, rel: seq<string>, files: seq<FileEntry>): seq<Line> {
    if files == [] then []
    else FilesLines(patterns, rel, files[..|files| - 1]) + FileLines(patterns, rel, files[|files| - 1])
  }

  /** The lines of the directory `d` at `rel` and everything below it, in the
      order the walk writes them: the directory itself (not for the root), its
      files, then each surviving subdirectory's tree. */
  ghost function TreeLines(patterns: seq<string>, rel: seq<string>, d: Dir): seq<Line>
    decreases d, 1
  {
    (if rel == [] then [] else [DirLine(rel)])
    + FilesLines(patterns, rel, d.files)
    + ForestLines(patterns, rel, KeptDirs(patterns, rel, d.subdirs), d)
  }

  ghost function ForestLines(patterns: seq<string>, rel: seq<string>, dirs: seq<Dir>, parent: Dir): seq<Line>
    requires forall x :: x in dirs ==> x in parent.subdirs
    decreases parent, 0, |dirs|
  {
    if dirs == [] then []
    else
      var last := dirs[|dirs| - 1];
      assert last in parent.subdirs;
      ForestLines(patterns, rel, dirs[..|dirs| - 1], parent) + TreeLines(patterns, rel + [last.name], last)
  }

  /** The output file: not yet opened, open for writing, or closed when the
      `with` block of `scan` ends (the attribute keeps the closed file). */
  datatype Handle = NoHandle | Open | Closed

  /** The output file name a scanner writes to unless it is given another. */
  const DefaultOutputFile: string := "project_structure.txt"

  class ProjectScanner {
    const rootName: string
    const outputFile: string
    const ignorePatterns: seq<string>
    /** Whether loading the ignore rules printed the read-failure warning. */
    const gitignoreWarned: bool
    var fileHandle: Handle
    /** The lines written to the output file, each followed by a newline there. */
    var written: seq<string>

    constructor (rootName: string, gitignore: IgnoreFile, outputFile: string := DefaultOutputFile)
      ensures this.rootName == rootName && this.outputFile == outputFile
      ensures ignorePatterns == LoadedPatterns(gitignore)
      ensures gitignoreWarned <==> gitignore.Present? && gitignore.readFailed
      ensures fileHandle == NoHandle && written == []
    {
      var patterns, warned := LoadGitignore(gitignore);
      this.rootName := rootName;
      this.outputFile := outputFile;
      ignorePatterns := patterns;
      gitignoreWarned := warned;
      fileHandle := NoHandle;
      written := [];
    }

    /** `log`: the console copy is not modelled; the message goes to the file
        only while it is open, and writing to the closed file raises. */
    method Log(message: string) returns (raised: bool)
      modifies this`written
      ensures raised <==> fileHandle == Closed
      ensures written == if fileHandle == Open then old(written) + [message] else old(written)
    {
      raised := fileHandle == Closed;
      if fileHandle == Open {
        written := written + [message];
      }
    }

    /** `scan`: the output file is truncated, the header written, and then
        the tree below `root`. */
    method Scan(root: Dir)
      modifies this
      ensures fileHandle == Closed
      ensures written == Header(rootName) + Map(Render, TreeLines(ignorePatterns, [], root))
    {
      written := [];
      fileHandle := Open;
      var raised := Log("Project Tree for: " + rootName);
      raised := Log(Repeat('=', 40));
      assert written == Header(rootName);
      ScanDir([], root);
      fileHandle := Closed;
    }

    /** `dirs[:] = [...]`: the subdirectories that are not ignored, in order. */
    method PruneDirs(rel: seq<string>, dirs: seq<Dir>) returns (kept: seq<Dir>)
      ensures kept == KeptDirs(ignorePatterns, rel, dirs)
    {
      kept := [];
      var i := 0;
      while i < |dirs|
        invariant 0 <= i <= |dirs|
        invariant kept == Filter(KeepDir(ignorePatterns, rel), dirs[..i])
      {
        if !IsIgnored(ignorePatterns, rel + [dirs[i].name], true) {
          kept := kept + [dirs[i]];
        }
        FilterSingle(KeepDir(ignorePatterns, rel), dirs[i]);
        TakeOneMore(dirs, i);
        FilterAppend(KeepDir(ignorePatterns, rel), dirs[..i], [dirs[i]]);
        i := i + 1;
      }
      TakeAll(dirs);
    }

    /** One step of the walk at `rel`, then the walk below each surviving
        subdirectory. The level is the depth of `rel`. */
    method ScanDir(rel: seq<string>, d: Dir)
      requires fileHandle == Open
      requires rel == [] || rel[|rel| - 1] == d.name
      modifies this`written
      ensures written == old(written) + Map(Render, TreeLines(ignorePatterns, rel, d))
      decreases d, 1
    {
      var kept := PruneDirs(rel, d.subdirs);
      var level := |rel|;
      ghost var dirLines: seq<Line> := if rel == [] then [] else [DirLine(rel)];
      if rel != [] {
        var indent := Repeat(' ', 4 * level);
        var folderName := d.name;
        var raised := Log(indent + "📂 " + folderName + "/");
        RenderDirLine(rel, folderName);
      }
      ghost var afterDir := written;
      assert afterDir == old(written) + Map(Render, dirLines);
      LogFiles(rel, level, d.files);
      Descend(rel, d, kept);
      TreeLinesSplit(ignorePatterns, rel, d, dirLines, old(written));
    }

    /** The walk below each kept subdirectory, in order. */
    method Descend(rel: seq<string>, d: Dir, kept: seq<Dir>)
      requires fileHandle == Open
      requires forall x :: x in kept ==> x in d.subdirs
      modifies this`written
      ensures written == old(written) + Map(Render, ForestLines(ignorePatterns, rel, kept, d))
      decreases d, 0
    {
      var k := 0;
      while k < |kept|
        invariant 0 <= k <= |kept|
        invariant written == old(written) + Map(Render, ForestLines(ignorePatterns, rel, kept[..k], d))
      {
        var child := kept[k];
        assert child in d.subdirs;
        ScanDir(rel + [child.name], child);
        ForestLinesStep(ignorePatterns, rel, kept, k, d, old(written));
        k := k + 1;
      }
      TakeAll(kept);
    }

    /** The files loop of one walk step. */
    method LogFiles(rel: seq<string>, level: nat, files: seq<FileEntry>)
      requires fileHandle == Open && level == |rel|
      modifies this`written
      ensures written == old(written) + Map(Render, FilesLines(ignorePatterns, rel, files))
    {
      var i := 0;
      while i < |files|
        invariant 0 <= i <= |files|
        invariant written == old(written) + Map(Render, FilesLines(ignorePatterns, rel, files[..i]))
      {
        LogFile(rel, level, files[i]);
        FilesLinesStep(ignorePatterns, rel, files, i, old(written));
        i := i + 1;
      }
      TakeAll(files);
    }

    /** One file: skipped when ignored or not a `.py` file; otherwise its line
        and one line per definition. */
    method LogFile(rel: seq<string>, level: nat, file: FileEntry)
      requires fileHandle == Open && level == |rel|
      modifies this`written
      ensures written == old(written) + Map(Render, FileLines(ignorePatterns, rel, file))
    {
      var fullPath := rel + [file.name];
      if IsIgnored(ignorePatterns, fullPath, false) {
        return;
      }
      if EndsWith(file.name, ".py") {
        var subindent := Repeat(' ', 4 * (level + 1));
        var raised := Log(subindent + "📄 " + file.name);
        var defs := GetDefinitions(file.source);
        LogDefinitions(fullPath, level, defs);
        FileLinesRendered(ignorePatterns, rel, file, old(written));
      }
    }

    /** The definitions loop of one file. */
    method LogDefinitions(path: seq<string>, level: nat, defs: seq<string>)
      requires fileHandle == Open && |path| == level + 1
      modifies this`written
      ensures written == old(written) + Map(Render, Map(ToDefLine(path), defs))
    {
      var funcIndent := Repeat(' ', 4 * (level + 2));
      var j := 0;
      while j < |defs|
        invariant 0 <= j <= |defs|
        invariant written == old(written) + Map(Render, Map(ToDefLine(path), defs[..j]))
      {
        var raised := Log(funcIndent + "└── " + defs[j]);
        DefLinesStep(path, defs, j, old(written));
        j := j + 1;
      }
      TakeAll(defs);
    }
  }

  lemma FilesLinesStep(patterns: seq<string>, rel: seq<string>, files: seq<FileEntry>, i: nat, w: seq<string>)
    requires i < |files|
    ensures w + Map(Render, FilesLines(patterns, rel, files[..i + 1]))
            == (w + Map(Render, FilesLines(patterns, rel, files[..i]))) + Map(Render, FileLines(patterns, rel, files[i]))
  {
    assert files[..i + 1][..i] == files[..i];
    MapAppendAfter(Render, w, FilesLines(patterns, rel, files[..i]), FileLines(patterns, rel, files[i]));
  }

  lemma ForestLinesStep(patterns: seq<string>, rel: seq<string>, dirs: seq<Dir>, k: nat, parent: Dir, w: seq<string>)
    requires k < |dirs| && forall x :: x in dirs ==> x in parent.subdirs
    ensures w + Map(Render, ForestLines(patterns, rel, dirs[..k + 1], parent))
            == (w + Map(Render, ForestLines(patterns, rel, dirs[..k], parent)))
               + Map(Render, TreeLines(patterns, rel + [dirs[k].name], dirs[k]))
  {
    assert dirs[..k + 1][..k] == dirs[..k];
    MapAppendAfter(Render, w, ForestLines(patterns, rel, dirs[..k], parent), TreeLines(patterns, rel + [dirs[k].name], dirs[k]));
  }

  lemma DefLinesStep(path: seq<string>, defs: seq<string>, j: nat, w: seq<string>)
    requires j < |defs|
    ensures w + Map(Render, Map(ToDefLine(path), defs[..j + 1]))
            == (w + Map(Render, Map(ToDefLine(path), defs[..j]))) + [Repeat(' ', 4 * (|path| + 1)) + "└── " + defs[j]]
  {
    MapTakeOneMore(ToDefLine(path), defs, j);
    MapAppendOneAfter(Render, w, Map(ToDefLine(path), defs[..j]), DefLine(path, defs[j]));
  }

  lemma FileLinesRendered(patterns: seq<string>, rel: seq<string>, file: FileEntry, w: seq<string>)
    requires !IsIgnored(patterns, rel + [file.name], false) && EndsWith(file.name, ".py")
    ensures w + Map(Render, FileLines(patterns, rel, file))
            == (w + [Repeat(' ', 4 * (|rel| + 1)) + "📄 " + file.name])
               + Map(Render, Map(ToDefLine(rel + [file.name]), ExtractDefinitions(file.source)))
  {
    var path := rel + [file.name];
    var defLines := Map(ToDefLine(path), ExtractDefinitions(file.source));
    assert FileLines(patterns, rel, file) == [FileLine(path)] + defLines;
    RenderFileLine(rel, file.name);
    MapConsAfter(Render, w, FileLine(path), defLines);
  }

  lemma RenderDirLine(rel: seq<string>, name: string)
    requires rel != [] && rel[|rel| - 1] == name
    ensures Map(Render, [DirLine(rel)]) == [Repeat(' ', 4 * |rel|) + "📂 " + name + "/"]
  {
    MapSingle(Render, DirLine(rel));
  }

  lemma RenderFileLine(rel: seq<string>, name: string)
    ensures Render(FileLine(rel + [name])) == Repeat(' ', 4 * (|rel| + 1)) + "📄 " + name
  {
  }

  lemma TreeLinesSplit(patterns: seq<string>, rel: seq<string>, d: Dir, dirLines: seq<Line>, w: seq<string>)
    requires dirLines == if rel == [] then [] else [DirLine(rel)]
    ensures w + Map(Render, TreeLines(patterns, rel, d))
            == ((w + Map(Render, dirLines)) + Map(Render, FilesLines(patterns, rel, d.files)))
               + Map(Render, ForestLines(patterns, rel, KeptDirs(patterns, rel, d.subdirs), d))
  {
    MapAppend3After(Render, w, dirLines, FilesLines(patterns, rel, d.files),
                    ForestLines(patterns, rel, KeptDirs(patterns, rel, d.subdirs), d));
  }

  /** Pruning keeps a subdirectory exactly when it is listed and not ignored
      as a directory. */
  lemma KeptDirsExactly(patterns: seq<string>, rel: seq<string>, dirs: seq<Dir>, x: Dir)
    ensures x in KeptDirs(patterns, rel, dirs) <==> x in dirs && !IsIgnored(patterns, rel + [x.name], true)
  {
    FilterMembership(KeepDir(patterns, rel), dirs, x);
  }

  /** A file gets its own line exactly when it is not ignored and its name
      ends in `.py`; it then gets one more line per definition, so a blank,
      unreadable or unparsable Python file is listed with no definitions. */
  lemma FileListedExactly(patterns: seq<string>, rel: seq<string>, file: FileEntry)
    ensures FileLine(rel + [file.name]) in FileLines(patterns, rel, file) <==>
              !IsIgnored(patterns, rel + [file.name], false) && EndsWith(file.name, ".py")
    ensures |FileLines(patterns, rel, file)| ==
              if FileLine(rel + [file.name]) in FileLines(patterns, rel, file)
              then 1 + |ExtractDefinitions(file.source)| else 0
  {
  }

  /** How far the directories on a line's path reach: a directory line names
      a directory, the other lines a file inside one. */
  function DirDepth(l: Line): int {
    if l.DirLine? then |l.path| else |l.path| - 1
  }

  /** What the walk below `rel` guarantees of every line it writes: the line's
      path lies under `rel`, no directory between `rel` and the line is
      ignored, and a file or definition line belongs to a `.py` file that is
      not ignored. */
  ghost predicate ListedBelow(patterns: seq<string>, rel: seq<string>, l: Line) {
    && rel <= l.path
    && (forall k :: |rel| < k <= DirDepth(l) ==> !IsIgnored(patterns, l.path[..k], true))
    && (!l.DirLine? ==> |rel| < |l.path| && !IsIgnored(patterns, l.path, false) && EndsWith(l.path[|l.path| - 1], ".py"))
  }

  lemma FileLinesListed(patterns: seq<string>, rel: seq<string>, file: FileEntry, l: Line)
    requires l in FileLines(patterns, rel, file)
    ensures ListedBelow(patterns, rel, l)
  {
    var path := rel + [file.name];
    assert !IsIgnored(patterns, path, false) && EndsWith(file.name, ".py");
    DefLinesOfPath(path, ExtractDefinitions(file.source));
    LineOfFileListed(patterns, rel, file.name, l);
  }

  lemma DefLinesOfPath(path: seq<string>, defs: seq<string>)
    ensures forall l :: l in Map(ToDefLine(path), defs) ==> l.DefLine? && l.path == path
  {
  }

  lemma LineOfFileListed(patterns: seq<string>, rel: seq<string>, name: string, l: Line)
    requires !l.DirLine? && l.path == rel + [name]
    requires !IsIgnored(patterns, l.path, false) && EndsWith(name, ".py")
    ensures ListedBelow(patterns, rel, l)
  {
    assert DirDepth(l) == |rel|;
    assert l.path[..|rel|] == rel;
  }

  lemma {:induction false} FilesLinesListed(patterns: seq<string>, rel: seq<string>, files: seq<FileEntry>, l: Line)
    requires l in FilesLines(patterns, rel, files)
    ensures ListedBelow(patterns, rel, l)
  {
    var n := |files| - 1;
    if l in FilesLines(patterns, rel, files[..n]) {
      FilesLinesListed(patterns, rel, files[..n], l);
    } else {
      FileLinesListed(patterns, rel, files[n], l);
    }
  }

  /** A line listed below a kept subdirectory is listed below its parent. */
  lemma ListedBelowParent(patterns: seq<string>, rel: seq<string>, name: string, l: Line)
    requires ListedBelow(patterns, rel + [name], l)
    requires !IsIgnored(patterns, rel + [name], true)
    ensures ListedBelow(patterns, rel, l)
  {
    var child := rel + [name];
    assert l.path[..|child|] == child;
    assert l.path[..|rel|] == rel;
    forall k | |rel| < k <= DirDepth(l)
      ensures !IsIgnored(patterns, l.path[..k], true)
    {
      if k == |child| {
        assert l.path[..k] == child;
      }
    }
  }

  lemma {:induction false} TreeLinesListed(patterns: seq<string>, rel: seq<string>, d: Dir, l: Line)
    requires l in TreeLines(patterns, rel, d)
    ensures ListedBelow(patterns, rel, l)
    decreases d, 1
  {
    var kept := KeptDirs(patterns, rel, d.subdirs);
    if l in FilesLines(patterns, rel, d.files) {
      FilesLinesListed(patterns, rel, d.files, l);
    } else if l in ForestLines(patterns, rel, kept, d) {
      ForestLinesListed(patterns, rel, kept, d, l);
    }
  }

  lemma {:induction false} ForestLinesListed(patterns: seq<string>, rel: seq<string>, dirs: seq<Dir>, parent: Dir, l: Line)
    requires forall x :: x in dirs ==> x in parent.subdirs && KeepDir(patterns, rel)(x)
    requires l in ForestLines(patterns, rel, dirs, parent)
    ensures ListedBelow(patterns, rel, l)
    decreases parent, 0, |dirs|
  {
    var n := |dirs| - 1;
    var last := dirs[n];
    if l in ForestLines(patterns, rel, dirs[..n], parent) {
      ForestLinesListed(patterns, rel, dirs[..n], parent, l);
    } else {
      assert last in dirs;
      TreeLinesListed(patterns, rel + [last.name], last, l);
      ListedBelowParent(patterns, rel, last.name, l);
    }
  }

  /** No line of a scan passes through, or names, an entry called like one
      of the wildcard-free built-in patterns (`.git`, `venv`, `__pycache__`,
      ...), whatever the `.gitignore` holds. */
  lemma BuiltinNamesNeverListed(gitignore: IgnoreFile, root: Dir, l: Line, k: nat)
    requires l in TreeLines(LoadedPatterns(gitignore), [], root)
    requires k < |l.path|
    ensures !(l.path[k] in DefaultPatterns && Plain(l.path[k]))
  {
    var patterns := LoadedPatterns(gitignore);
    TreeLinesListed(patterns, [], root, l);
    var prefix := l.path[..k + 1];
    assert prefix[|prefix| - 1] == l.path[k];
    if k < DirDepth(l) {
      assert !IsIgnored(patterns, prefix, true);
      NotIgnoredIsNotBuiltin(gitignore, prefix, true);
    } else {
      assert prefix == l.path;
      NotIgnoredIsNotBuiltin(gitignore, prefix, false);
    }
  }

  lemma NotIgnoredIsNotBuiltin(gitignore: IgnoreFile, rel: seq<string>, isDir: bool)
    requires rel != [] && !IsIgnored(LoadedPatterns(gitignore), rel, isDir)
    ensures !(rel[|rel| - 1] in DefaultPatterns && Plain(rel[|rel| - 1]))
  {
    if rel[|rel| - 1] in DefaultPatterns && Plain(rel[|rel| - 1]) {
      BuiltinNameIgnoredAtAnyDepth(gitignore, rel, isDir);
    }
  }

  /** Four spaces per level: a directory at depth `n` below the root is
      indented by `4 * n` spaces, a file in it by `4 * (n + 1)` and each of
      that file's definitions by `4 * (n + 2)`. */
  lemma IndentFollowsLevel(dir: seq<string>, name: string, entry: string)
    ensures dir != [] ==> LeadingSpaces(Render(DirLine(dir))) == 4 * |dir|
    ensures LeadingSpaces(Render(FileLine(dir + [name]))) == 4 * (|dir| + 1)
    ensures LeadingSpaces(Render(DefLine(dir + [name], entry))) == 4 * (|dir| + 2)
  {
    var folder := "📂 " + BaseName(dir) + "/";
    assert Render(DirLine(dir)) == Repeat(' ', 4 * |dir|) + folder;
    LeadingSpacesOfIndent(4 * |dir|, folder);
    var file := "📄 " + name;
    assert Render(FileLine(dir + [name])) == Repeat(' ', 4 * (|dir| + 1)) + file;
    LeadingSpacesOfIndent(4 * (|dir| + 1), file);
    var def := "└── " + entry;
    assert Render(DefLine(dir + [name], entry)) == Repeat(' ', 4 * (|dir| + 2)) + def;
    LeadingSpacesOfIndent(4 * (|dir| + 2), def);
  }

  /** The level as `scan` computes it from absolute paths: every occurrence
      of the root path is deleted from the walked directory's path, and the
      separators left are counted. */
  function LevelAsWritten(rootPath: string, walked: string): nat {
    CountChar(RemoveAll(walked, rootPath), '/')
  }

  /** Below the root `/app`, the directory `/app/apps` is one level down, but
      gets level 0: the deletion also removes the `/app` at the front of
      `/apps`, leaving no separator to count. The tree above indents by the
      depth of the directory instead. */
  lemma LevelAsWrittenMiscounts()
    ensures LevelAsWritten("/app", "/app/apps") == 0 != |["apps"]|
  {
    assert StartsWith("/app/apps", "/app");
    assert "/app/apps"[4..] == "/apps";
    assert StartsWith("/apps", "/app");
    assert "/apps"[4..] == "s";
    assert RemoveAll("s", "/app") == "s";
  }
}
