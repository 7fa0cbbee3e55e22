# Project scanner: ignore rules, definition labels and the tree walk

`scan_project.py` defines `ProjectScanner`. It walks a Python project top-down and writes an indented tree to an output file. The tree lists:

- every directory that is not ignored;
- every Python file in those directories that is not ignored;
- under each such file, the functions and classes it defines.

The ignore rules are ten built-in patterns followed by the patterns of the project's `.gitignore`. Each path is matched against the rules with `fnmatch` in three ways:

- its base name;
- its path relative to the root;
- for a directory, its base name against the pattern stripped of trailing `/`.

Ignored directories are pruned before the walk descends into them.

The Dafny model has six modules.

- `Seqs`: the order-preserving list comprehensions the scanner builds, as `Filter`, `Map` and `FilterMap`, with their algebra.
- `Text`: the Python string operations involved, on `seq<char>`: `isspace`, `strip`, `rstrip('/')`, `"/".join`, `' ' * n`, `count` and `replace(..., '')`.
- `Glob`: `fnmatch.fnmatch` on POSIX. A pattern is translated to tokens (literal, `?`, `*`, `[...]` and `[!...]` with ranges) and the whole name must match them.
- `IgnoreRules`: `_load_gitignore` and `_is_ignored`.
- `Definitions`: `_get_definitions`. The parser is an input: a file is unreadable, or its decoded text together with the outcome of `ast.parse`. A successful parse is given as the node sequence `ast.walk` visits.
- `Scanner`: the class `ProjectScanner`, with its fields, `log` and `scan`.
  - The directory listing is an input tree `Dir`. `os.walk` becomes a recursion over it that descends only into the subdirectories kept by the `dirs[:]` filter.
  - The output file is the field `written`, which holds the lines written so far.
  - `Scan` is proved to write the header and then `Map(Render, TreeLines(...))`. `TreeLines` is a specification function of the walk. The lemmas state what every listed line satisfies.

## Model

| member | source | states |
|---|---|---|
| IgnoreRules.PatternOf | scan_project.py:26-29 | a line yields a pattern iff its stripped text is non-blank and does not start with `#`; the pattern is the stripped text with only `/` removed from its end, and it does not end in `/` |
| IgnoreRules.LoadGitignore | scan_project.py:12-32 | the result is the ten built-ins followed by the pattern of every contributing line in file order (`LoadedPatterns`); the warning is printed iff the file exists and reading it failed |
| IgnoreRules.AppendLinePatterns | scan_project.py:25-29 | the line loop appends exactly `FilterMap(PatternOf, lines)` to the list it starts from |
| IgnoreRules.LoadedPatternsMembership | scan_project.py:16-29 | a pattern is loaded iff it is a built-in or some `.gitignore` line yields it |
| IgnoreRules.LoadedPatternsHaveNoTrailingSlash | scan_project.py:16-29 | no loaded pattern ends in `/` |
| IgnoreRules.TrailingSlashesDoNotMatter | scan_project.py:26-29 | a trimmed, non-comment line loads the same pattern with any number of `/` appended (`build/` and `build` are one rule) |
| IgnoreRules.PatternHits | scan_project.py:46-53 | the three tests of one pattern: base name, relative path, and for a directory base name against the pattern without trailing `/`; for a pattern not ending in `/` the directory test adds nothing, and for an entry directly below the root the relative-path test adds nothing |
| IgnoreRules.AnyPatternHits | scan_project.py:44-54 | the pattern loop returns true iff some pattern hits the path by one of its three tests |
| IgnoreRules.IsIgnored | scan_project.py:34-54 | the root itself is never ignored; any other path is ignored iff some pattern matches its base name or its relative path, or, for a directory, its base name against the pattern with trailing `/` removed (so an empty list ignores nothing) |
| IgnoreRules.DirFlagIrrelevantForLoaded | scan_project.py:46-53 | for any loaded list the directory flag never changes the answer |
| IgnoreRules.PlainPatternIgnoresNameAtAnyDepth | scan_project.py:44-47 | a wildcard-free pattern ignores every entry of that name, at any depth |
| IgnoreRules.BuiltinNameIgnoredAtAnyDepth | scan_project.py:44-47 | every wildcard-free built-in (`.git`, `__pycache__`, `venv`, ...) ignores an entry of that name at any depth, whatever the `.gitignore` says |
| IgnoreRules.StarSuffixIgnoresAtAnyDepth | scan_project.py:44-47 | a pattern `*` + plain text ignores every entry whose name ends in that text, at any depth |
| IgnoreRules.CompiledFileIgnoredAtAnyDepth | scan_project.py:44-47 | every `.pyc` or `.pyo` entry is ignored at any depth by the loaded list |
| IgnoreRules.SlashPatternMatchesOnlyItsPath | scan_project.py:44-50 | a wildcard-free pattern holding `/` ignores a path iff the path's relative spelling equals the pattern |
| IgnoreRules.DirNamePatternMatchesOnlyThatDir | scan_project.py:48-50 | `a/b` (such as `src/tmp`) ignores `b` inside `a` and does not ignore `b` inside any other top-level directory |
| IgnoreRules.StarSpansSeparators | scan_project.py:48-50 | `src/*` ignores every path at any depth below `src`, as `*` matches `/` |
| Glob.PlainMatchesItself | scan_project.py:46 | a pattern without `*`, `?` or `[` matches exactly the name equal to it |
| Glob.StarThenPlain | scan_project.py:46 | `*` + plain text matches exactly the names ending in that text |
| Glob.PlainThenStar | scan_project.py:49 | plain text + `*` matches exactly the strings starting with that text, `/` or not |
| Glob.GlobMatch | scan_project.py:46-52 | `fnmatch.fnmatch` as the translated tokens matching the whole name; a pattern without `*` matches exactly the names with one character per token, each accepted by its token (a literal its own character, `?` any, a class its members or, negated, its non-members); the lemmas below characterise the other shapes |
| Glob.QuestionMatchesOneChar | scan_project.py:46 | `?` matches exactly the one-character names |
| Glob.UnclosedBracketIsLiteral | scan_project.py:46 | a `[` is a literal `[` whenever no `]` follows it past the optional `!` and a leading `]` that belongs to the body |
| Glob.EmptyBracketsAreLiteral | scan_project.py:46 | `[]` and `[!]` open no class: each matches only its own spelling |
| Glob.RangeClass | scan_project.py:46 | `[a-z]` matches exactly the one-character names in `a`..`z` |
| Glob.NegatedRangeClass | scan_project.py:46 | `[!a-z]` matches exactly the one-character names outside `a`..`z` |
| Glob.ReversedRangeClass | scan_project.py:46 | the reversed range `[z-a]` matches nothing, and `[!z-a]` matches every one-character name |
| Glob.ReversedRangeThenBang | scan_project.py:46 | `[z-a!]` matches every one-character name: deleting the reversed range leaves only `!` |
| Glob.ReversedRangeThenNegation | scan_project.py:46 | `[z-a!x]` matches exactly the one-character names other than `x`: the `!` left in front negates the class |
| Glob.ReversedRangeThenNegatedHyphen | scan_project.py:46 | `[z-a!-x]` matches exactly the one-character names other than `-` and `x`: the range `!-x` left in front becomes the negation mark and two plain members |
| Definitions.LabelOf | scan_project.py:69-74 | a node yields an entry iff it is a definition; the entry ends with the name; it starts with `🔒 def ` iff the node is a function whose name starts with `_`, with `⚡ def ` iff it is a function whose name does not, and with `📦 class ` iff it is a class; its length is the name's plus that of the mark (`📦 class ` or `🔒 def `/`⚡ def `), so nothing else lies between mark and name |
| Definitions.GetDefinitions | scan_project.py:56-78 | an unreadable, blank or unparsable file gives `[]`; otherwise the result is the labels of the walked definitions in walk order (`ExtractDefinitions`) |
| Definitions.CollectDefinitions | scan_project.py:68-74 | the walk loop appends exactly `FilterMap(LabelOf, walk)` |
| Definitions.AppendLabel | scan_project.py:69-74 | one iteration of that loop appends exactly the node's label, if it has one |
| Definitions.NoDefinitionsExactly | scan_project.py:60-78 | the result is empty iff the file is unreadable, whitespace-only, fails to parse, or has no definition node |
| Definitions.DefinitionsComeFromNodes | scan_project.py:68-74 | for a parsed non-blank file, an entry is returned iff it is the label of some walked definition node |
| Definitions.OneEntryPerDefinition | scan_project.py:68-74 | there are exactly as many entries as definition nodes |
| Definitions.LabelExamples | scan_project.py:71-74 | `Runner`, `run` and `_helper` are labelled `📦 class Runner`, `⚡ def run` and `🔒 def _helper` |
| Definitions.ClassAndFunctionsExample | scan_project.py:68-74 | a walk with two non-definition nodes and three definitions yields the three labelled entries in walk order |
| Scanner.ProjectScanner.constructor | scan_project.py:6-10 | the scanner keeps the root name and output name (by default `Scanner.DefaultOutputFile`, `project_structure.txt`), holds the loaded ignore list, and has no file handle and nothing written |
| Scanner.ProjectScanner.Log | scan_project.py:80-86 | a message is appended to the file iff the file is open; writing after the `with` block closed it raises; nothing else changes |
| Scanner.ProjectScanner.Scan | scan_project.py:88-126 | the file ends closed, holding the header (`Project Tree for: <root>` and 40 `=`) followed by the rendered tree lines of the walk |
| Scanner.ProjectScanner.PruneDirs | scan_project.py:100 | the kept subdirectories are the order-preserving filter of those not ignored as directories |
| Scanner.KeptDirsExactly | scan_project.py:100 | a subdirectory is kept iff it is listed and not ignored as a directory |
| Scanner.ProjectScanner.ScanDir | scan_project.py:97-111 | one walk step writes the directory's own line (not for the root), its files' lines, then each kept subdirectory's tree, as `TreeLines` |
| Scanner.ProjectScanner.Descend | scan_project.py:97-100 | the walk continues into the kept subdirectories in order, writing each one's tree |
| Scanner.ProjectScanner.LogFiles | scan_project.py:114-124 | the file loop writes the lines of each file in listing order |
| Scanner.ProjectScanner.LogFile | scan_project.py:114-124 | an ignored or non-`.py` file writes nothing; a kept one writes its line and then one line per definition |
| Scanner.ProjectScanner.LogDefinitions | scan_project.py:122-124 | each definition is written, in order, indented by `4 * (level + 2)` spaces and prefixed `└── ` |
| Scanner.FileListedExactly | scan_project.py:114-121 | a file is listed iff it is not ignored and its name ends in `.py`, and then it has exactly one line per definition (none for a blank, unreadable or unparsable file) |
| Scanner.TreeLinesListed | scan_project.py:97-124 | every line written below a directory lies under it, no directory on the way is ignored, and every file or definition line belongs to a non-ignored `.py` file |
| Scanner.BuiltinNamesNeverListed | scan_project.py:97-117 | no path component of any written line is a wildcard-free built-in name, whatever the `.gitignore` holds |
| Scanner.IndentFollowsLevel | scan_project.py:103-124 | a directory at depth `n` is indented by `4 * n` spaces, a file in it by `4 * (n + 1)`, and its definitions by `4 * (n + 2)` |
| Scanner.LevelAsWrittenMiscounts | scan_project.py:103 | the level computed with `replace` is 0 for `/app/apps` below root `/app`, which is one level down |

## Left out

- File input and output: opening and reading `.gitignore` and the source files, the `os.path.exists` test and `errors="ignore"` decoding. A `.gitignore` is given as absent or as the lines read before the end of the file or a read error. A source file is given as unreadable or as its decoded text.
- Console output: the warning printed when `.gitignore` cannot be read (only a flag records that it was printed), the console copy made by `log`, and the progress messages of `scan`.
- `ast.parse` and `ast.walk`, which are Python's own parser. The outcome of the parse and the sequence of walked nodes are inputs.
- `os.walk` itself. The directory tree is an input, listed in the order the walk would return it. Symbolic links, directories that cannot be listed, and changes made during the walk are not modelled.
- `os.path.abspath`, `relpath`, `basename` and `normcase`. Paths are component sequences below an already absolute root on POSIX, so `normcase` changes nothing.
- The `input()` prompt and the `__main__` block.
- Scanner.ProjectScanner.Scan: entry names are sequences of Unicode scalar values. On POSIX, `os.walk` returns a name with undecodable bytes holding lone surrogates. Writing such a name to the UTF-8 output file raises `UnicodeEncodeError` and ends `scan` with the file only partly written. That failure is not modelled.
- Scanner.ProjectScanner.Scan: assumes the output file opens; when `open` fails the source raises out of `scan` before writing anything, which the model does not capture.
- Glob: `[...]` classes follow the rules that CPython 3.12's `fnmatch.translate` source defines:
  - a leading `]` belongs to the body;
  - `x-y` is a range and a reversed range holds nothing;
  - a leading `!` negates, and so does a `!` left in front once the reversed ranges are deleted (`Glob.Settle`).

  The regular expression the translator builds is not itself modelled. That the token list accepts the same names is argued from the translator's code, not proved against it.
- Scanner.ProjectScanner.ScanDir: uses the depth of the directory as its level, not the `replace`-based count; see Findings.

## Findings

| source | as written | input that shows it | evidently intended | confidence | as-written member | corrected member |
|---|---|---|---|---|---|---|
| scan_project.py:103 | the level is `root.replace(self.root_path, '').count(os.sep)`, which deletes every occurrence of the root path, not just the leading one | root `/app` with a subdirectory `apps`: `/app/apps` becomes `s`, giving level 0 instead of 1, so `apps/` and its files are indented one step too little | the level is the directory's depth below the root | not executed | Scanner.LevelAsWrittenMiscounts | Scanner.IndentFollowsLevel |
