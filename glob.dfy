/** Python's `fnmatch.fnmatch(name, pattern)` on POSIX, where `normcase` is
    the identity: the pattern is translated to a token list (as
    `fnmatch.translate` turns it into a regular expression) and the whole name
    must match the tokens. `*` matches any run of characters, `/` included;
    `?` matches one character; `[...]` and `[!...]` are character classes with
    `a-z` ranges; a `[` without a closing `]` and every other character stand
    for themselves. */
module Glob {
  import opened Text

  datatype ClassItem = Single(c: char) | Span(lo: char, hi: char)

  datatype Token =
    | Literal(c: char)
    | AnyChar                                       // ?
    | AnyRun                                        // *
    | CharClass(negated: bool, items: seq<ClassItem>)  // [...] or [!...]

  /** The members of a class body, read left to right: `x-y` is a range when a
      third character follows the hyphen, any other character is itself (so a
      leading or trailing `-` is literal). A range whose ends are reversed holds
      nothing, as the translator drops such ranges. */
  function ClassItems(body: string): seq<ClassItem> {
    if body == [] then []
    else if |body| >= 3 && body[1] == '-' then [Span(body[0], body[2])] + ClassItems(body[3..])
    else [Single(body[0])] + ClassItems(body[1..])
  }

  predicate Reversed(item: ClassItem) {
    item.Span? && item.lo > item.hi
  }

  /** The token for the text between `[` and its closing `]`. A leading `!`
      negates the class. Otherwise the translator first deletes the reversed
      ranges and then reads the body again, so a `!` left in front by the
      deleted ranges negates it too. */
  function ClassToken(body: string): (t: Token)
    ensures t.CharClass?
  {
    if body != [] && body[0] == '!' then CharClass(true, ClassItems(body[1..]))
    else Settle(ClassItems(body))
  }

  /** The class a body that does not open with `!` denotes, once its leading
      reversed ranges are gone: a `!` then in front is the negation mark, and
      a range `!-x` in front leaves `-` and `x` as plain members. Reversed
      ranges hold nothing, so they stay in the item list. */
  function Settle(items: seq<ClassItem>): (t: Token)
    ensures t.CharClass?
  {
    if items == [] then CharClass(false, [])
    else if Reversed(items[0]) then
      var rest := Settle(items[1..]);
      CharClass(rest.negated, [items[0]] + rest.items)
    else if items[0] == Single('!') then CharClass(true, items[1..])
    else if items[0].Span? && items[0].lo == '!' then CharClass(true, [Single('-'), Single(items[0].hi)] + items[1..])
    else CharClass(false, items)
  }

  predicate ItemHolds(item: ClassItem, c: char) {
    match item
    case Single(x) => c == x
    case Span(lo, hi) => lo <= c <= hi
  }

  predicate InClass(items: seq<ClassItem>, c: char) {
    exists i :: 0 <= i < |items| && ItemHolds(items[i], c)
  }

  /** The first `]` at or after `from`, or `|p|` when there is none. */
  function FindClose(p: string, from: nat): (k: nat)
    requires from <= |p|
    ensures from <= k <= |p|
    ensures k < |p| ==> p[k] == ']'
    ensures forall i :: from <= i < k ==> p[i] != ']'
    decreases |p| - from
  {
    if from == |p| || p[from] == ']' then from else FindClose(p, from + 1)
  }

  /** Where the class opened by the `[` at `p[0]` closes: after an optional
      `!` (which negates the class) a `]` belongs to the body, and the class
      ends at the next `]`; `|p|` when there is none. */
  function ClassClose(p: string): (k: nat)
    requires p != [] && p[0] == '['
    ensures BodyStart(p) <= k <= |p|
    ensures k < |p| ==> p[k] == ']'
  {
    var start := BodyStart(p);
    FindClose(p, if start < |p| && p[start] == ']' then start + 1 else start)
  }

  function BodyStart(p: string): nat
    requires p != [] && p[0] == '['
  {
    if |p| > 1 && p[1] == '!' then 2 else 1
  }

  /** `fnmatch.translate`, token by token; a `[` that no `]` closes is a literal. */
  function Tokenize(p: string): seq<Token>
    decreases |p|
  {
    if p == [] then []
    else if p[0] == '*' then [AnyRun] + Tokenize(p[1..])
    else if p[0] == '?' then [AnyChar] + Tokenize(p[1..])
    else if p[0] == '[' then
      var close := ClassClose(p);
      if close == |p| then [Literal('[')] + Tokenize(p[1..])
      else [ClassToken(p[1..close])] + Tokenize(p[close + 1..])
    else [Literal(p[0])] + Tokenize(p[1..])
  }

  /** The characters a one-character token accepts. */
  predicate Accepts(t: Token, c: char)
    requires !t.AnyRun?
  {
    match t
    case Literal(x) => c == x
    case AnyChar => true
    case CharClass(negated, items) => InClass(items, c) != negated
  }

  /** Whether the whole of `s` matches the token list. */
  predicate Matches(toks: seq<Token>, s: string)
    decreases |toks| + |s|
  {
    if toks == [] then s == []
    else if toks[0].AnyRun? then Matches(toks[1..], s) || (s != [] && Matches(toks, s[1..]))
    else s != [] && Accepts(toks[0], s[0]) && Matches(toks[1..], s[1..])
  }

  /** `fnmatch.fnmatch(name, pattern)`. A pattern without `*` matches only
      names with one character per token, each accepted by its token. */
  function GlobMatch(pattern: string, name: string): (r: bool)
    ensures NoRun(Tokenize(pattern)) ==>
              (r <==> |name| == |Tokenize(pattern)| &&
                      forall i :: 0 <= i < |name| ==> Accepts(Tokenize(pattern)[i], name[i]))
  {
    var toks := Tokenize(pattern);
    if NoRun(toks) then
      MatchesWithoutRun(toks, name);
      Matches(toks, name)
    else
      Matches(toks, name)
  }

  /** A pattern with no `*`, `?` or `[`. */
  predicate Plain(t: string) {
    forall i :: 0 <= i < |t| ==> t[i] != '*' && t[i] != '?' && t[i] != '['
  }

  function Literals(t: string): (r: seq<Token>)
    ensures |r| == |t|
  {
    if t == [] then [] else [Literal(t[0])] + Literals(t[1..])
  }

  predicate NoRun(toks: seq<Token>) {
    forall i :: 0 <= i < |toks| ==> !toks[i].AnyRun?
  }

  lemma {:induction false} TokenizePlain(t: string)
    requires Plain(t)
    ensures Tokenize(t) == Literals(t)
  {
    if t != [] {
      TokenizePlain(t[1..]);
    }
  }

  lemma {:induction false} TokenizePlainThenStar(t: string)
    requires Plain(t)
    ensures Tokenize(t + "*") == Literals(t) + [AnyRun]
  {
    if t == [] {
      assert t + "*" == "*";
    } else {
      assert (t + "*")[1..] == t[1..] + "*";
      TokenizePlainThenStar(t[1..]);
    }
  }

  lemma {:induction false} MatchesLiterals(t: string, s: string)
    ensures Matches(Literals(t), s) <==> s == t
  {
    if t != [] && s != [] {
      MatchesLiterals(t[1..], s[1..]);
      if s[0] == t[0] && s[1..] == t[1..] {
        assert s == [s[0]] + s[1..] && t == [t[0]] + t[1..];
      }
    }
  }

  lemma {:induction false} RunMatchesAll(s: string)
    ensures Matches([AnyRun], s)
  {
    if s != [] {
      RunMatchesAll(s[1..]);
    }
  }

  lemma {:induction false} MatchesLiteralsThenRun(t: string, s: string)
    ensures Matches(Literals(t) + [AnyRun], s) <==> StartsWith(s, t)
  {
    if t == [] {
      assert Literals(t) + [AnyRun] == [AnyRun];
      RunMatchesAll(s);
    } else {
      assert (Literals(t) + [AnyRun])[1..] == Literals(t[1..]) + [AnyRun];
      if s != [] {
        MatchesLiteralsThenRun(t[1..], s[1..]);
        if StartsWith(s, t) {
          assert s[1..][..|t| - 1] == t[1..];
        }
        if s[0] == t[0] && StartsWith(s[1..], t[1..]) {
          assert s[..|t|] == [s[0]] + s[1..][..|t| - 1];
          assert t == [t[0]] + t[1..];
        }
      }
    }
  }

  lemma {:induction false} MatchesRunThenLiterals(t: string, s: string)
    ensures Matches([AnyRun] + Literals(t), s) <==> EndsWith(s, t)
  {
    assert ([AnyRun] + Literals(t))[1..] == Literals(t);
    MatchesLiterals(t, s);
    if s != [] {
      MatchesRunThenLiterals(t, s[1..]);
      assert |s| - |t| >= 1 ==> s[|s| - |t|..] == s[1..][|s[1..]| - |t|..];
    }
  }

  /** A pattern without wildcards matches exactly the name spelled like it. */
  lemma PlainMatchesItself(t: string, s: string)
    requires Plain(t)
    ensures GlobMatch(t, s) <==> s == t
  {
    TokenizePlain(t);
    MatchesLiterals(t, s);
  }

  /** `*` followed by plain text (`*.pyc`) matches exactly the names ending in it. */
  lemma StarThenPlain(t: string, s: string)
    requires Plain(t)
    ensures GlobMatch("*" + t, s) <==> EndsWith(s, t)
  {
    assert ("*" + t)[0] == '*' && ("*" + t)[1..] == t;
    TokenizePlain(t);
    MatchesRunThenLiterals(t, s);
  }

  /** Plain text followed by a star (`src/` then `*`) matches exactly the names that start
      with it, however many `/` follow. */
  lemma PlainThenStar(t: string, s: string)
    requires Plain(t)
    ensures GlobMatch(t + "*", s) <==> StartsWith(s, t)
  {
    TokenizePlainThenStar(t);
    MatchesLiteralsThenRun(t, s);
  }

  /** Without `*`, a token list matches exactly the strings of its length
      whose characters are accepted position by position. */
  lemma {:induction false} MatchesWithoutRun(toks: seq<Token>, s: string)
    requires NoRun(toks)
    ensures Matches(toks, s) <==>
              |s| == |toks| && forall i :: 0 <= i < |s| ==> Accepts(toks[i], s[i])
  {
    if toks != [] && s != [] {
      MatchesWithoutRun(toks[1..], s[1..]);
      if |s| == |toks| && forall i :: 0 <= i < |s| ==> Accepts(toks[i], s[i]) {
        forall i | 0 <= i < |s[1..]| ensures Accepts(toks[1..][i], s[1..][i]) {
          assert Accepts(toks[i + 1], s[i + 1]);
        }
      }
      if Matches(toks, s) {
        forall i | 0 <= i < |s| ensures Accepts(toks[i], s[i]) {
          if i > 0 { assert toks[1..][i - 1] == toks[i] && s[1..][i - 1] == s[i]; }
        }
      }
    }
  }

  /** Where a `]` closing a class opened just before `t` is looked for: past
      an optional `!` and past a `]` right after it, which is part of the body. */
  function CloseSearchStart(t: string): (k: nat)
    ensures k <= |t|
    ensures forall i :: 0 <= i < k ==> t[i] == '!' || t[i] == ']'
  {
    var b := if t != [] && t[0] == '!' then 1 else 0;
    if b < |t| && t[b] == ']' then b + 1 else b
  }

  /** A `[` that no `]` can close is an ordinary character: none follows past
      the optional `!` and a leading `]`, so `[`, `[]` and `[!]` are literal. */
  lemma UnclosedBracketIsLiteral(t: string)
    requires forall i :: CloseSearchStart(t) <= i < |t| ==> t[i] != ']'
    ensures Tokenize("[" + t) == [Literal('[')] + Tokenize(t)
  {
    var p := "[" + t;
    assert p[1..] == t;
    var from := CloseSearchStart(t) + 1;
    forall i | from <= i < |p|
      ensures p[i] != ']'
    {
      assert p[i] == t[i - 1];
    }
    assert BodyStart(p) == if t != [] && t[0] == '!' then 2 else 1;
    assert ClassClose(p) == |p|;
  }

  /** `[]` and `[!]` open no class: each matches only its own spelling. */
  lemma EmptyBracketsAreLiteral(s: string)
    ensures GlobMatch("[]", s) <==> s == "[]"
    ensures GlobMatch("[!]", s) <==> s == "[!]"
  {
    UnclosedBracketIsLiteral("]");
    assert "[" + "]" == "[]";
    TokenizePlain("]");
    assert Literals("[]") == [Literal('[')] + Literals("]") by { assert "[]"[1..] == "]"; }
    MatchesLiterals("[]", s);
    UnclosedBracketIsLiteral("!]");
    assert "[" + "!]" == "[!]";
    TokenizePlain("!]");
    assert Literals("[!]") == [Literal('[')] + Literals("!]") by { assert "[!]"[1..] == "!]"; }
    MatchesLiterals("[!]", s);
  }

  /** `?` matches exactly one character, whatever it is. */
  lemma QuestionMatchesOneChar(s: string)
    ensures GlobMatch("?", s) <==> |s| == 1
  {
    assert Tokenize("?") == [AnyChar];
    MatchesWithoutRun([AnyChar], s);
  }

  /** `[a-z]` matches exactly one lower-case ASCII letter. */
  lemma RangeClass(s: string)
    ensures GlobMatch("[a-z]", s) <==> |s| == 1 && 'a' <= s[0] <= 'z'
  {
    LowerCaseItems();
    var pos := "[a-z]";
    assert ClassClose(pos) == 4 by { assert FindClose(pos, 1) == 4; }
    assert pos[1..4] == "a-z";
    assert Tokenize(pos) == [CharClass(false, [Span('a', 'z')])];
    MatchesWithoutRun([CharClass(false, [Span('a', 'z')])], s);
  }

  /** `[!a-z]` matches exactly one character that is not a lower-case ASCII
      letter. */
  lemma NegatedRangeClass(s: string)
    ensures GlobMatch("[!a-z]", s) <==> |s| == 1 && !('a' <= s[0] <= 'z')
  {
    LowerCaseItems();
    var neg := "[!a-z]";
    assert ClassClose(neg) == 5 by { assert FindClose(neg, 2) == 5; }
    assert neg[2..5] == "a-z";
    assert Tokenize(neg) == [CharClass(true, [Span('a', 'z')])];
    MatchesWithoutRun([CharClass(true, [Span('a', 'z')])], s);
  }

  lemma LowerCaseItems()
    ensures ClassItems("a-z") == [Span('a', 'z')]
    ensures forall c :: InClass([Span('a', 'z')], c) <==> 'a' <= c <= 'z'
  {
    var items := [Span('a', 'z')];
    forall c ensures InClass(items, c) <==> 'a' <= c <= 'z' {
      assert ItemHolds(items[0], c) <==> 'a' <= c <= 'z';
    }
  }

  /** A reversed range is empty: `[z-a]` matches nothing and `[!z-a]` any one
      character. */
  lemma ReversedRangeClass(s: string)
    ensures !GlobMatch("[z-a]", s)
    ensures GlobMatch("[!z-a]", s) <==> |s| == 1
  {
    var items := [Span('z', 'a')];
    assert forall c :: !InClass(items, c);
    assert ClassItems("z-a") == items;
    var pos := "[z-a]";
    assert ClassClose(pos) == 4 by { assert FindClose(pos, 1) == 4; }
    assert pos[1..4] == "z-a";
    assert Tokenize(pos) == [CharClass(false, items)];
    MatchesWithoutRun([CharClass(false, items)], s);
    var neg := "[!z-a]";
    assert ClassClose(neg) == 5 by { assert FindClose(neg, 2) == 5; }
    assert neg[2..5] == "z-a";
    assert Tokenize(neg) == [CharClass(true, items)];
    MatchesWithoutRun([CharClass(true, items)], s);
  }

  /** `[z-a!]`: once the reversed range is deleted only `!` is left, which
      the translator turns into a class matching any one character. */
  lemma ReversedRangeThenBang(s: string)
    ensures GlobMatch("[z-a!]", s) <==> |s| == 1
  {
    var p := "[z-a!]";
    assert ClassClose(p) == 5 by { assert FindClose(p, 1) == 5; }
    assert p[1..5] == "z-a!";
    var items := [Span('z', 'a')];
    assert ClassItems("z-a!") == items + [Single('!')] by { assert "z-a!"[3..] == "!"; }
    assert Settle(items + [Single('!')]) == CharClass(true, items);
    assert Tokenize(p) == [CharClass(true, items)];
    assert forall c :: !InClass(items, c);
    MatchesWithoutRun([CharClass(true, items)], s);
  }

  /** `[z-a!x]`: the `!` left in front by the deleted range negates the
      class, so every one character but `x` matches. */
  lemma ReversedRangeThenNegation(s: string)
    ensures GlobMatch("[z-a!x]", s) <==> |s| == 1 && s[0] != 'x'
  {
    var p := "[z-a!x]";
    assert ClassClose(p) == 6 by { assert FindClose(p, 1) == 6; }
    assert p[1..6] == "z-a!x";
    var items := [Span('z', 'a'), Single('x')];
    assert ClassItems("z-a!x") == [Span('z', 'a'), Single('!'), Single('x')] by {
      assert "z-a!x"[3..] == "!x";
      assert "!x"[1..] == "x";
    }
    assert Settle([Span('z', 'a'), Single('!'), Single('x')]) == CharClass(true, items);
    assert Tokenize(p) == [CharClass(true, items)];
    forall c ensures InClass(items, c) <==> c == 'x' {
      assert ItemHolds(items[1], c) <==> c == 'x';
    }
    MatchesWithoutRun([CharClass(true, items)], s);
  }

  /** `[z-a!-x]`: the range `!-x` left in front becomes the negation mark
      followed by the plain members `-` and `x`. */
  lemma ReversedRangeThenNegatedHyphen(s: string)
    ensures GlobMatch("[z-a!-x]", s) <==> |s| == 1 && s[0] != '-' && s[0] != 'x'
  {
    var p := "[z-a!-x]";
    assert ClassClose(p) == 7 by { assert FindClose(p, 1) == 7; }
    assert p[1..7] == "z-a!-x";
    var items := [Span('z', 'a'), Single('-'), Single('x')];
    assert ClassItems("z-a!-x") == [Span('z', 'a'), Span('!', 'x')] by {
      assert "z-a!-x"[3..] == "!-x";
    }
    assert Settle([Span('z', 'a'), Span('!', 'x')]) == CharClass(true, items);
    assert Tokenize(p) == [CharClass(true, items)];
    forall c ensures InClass(items, c) <==> c == '-' || c == 'x' {
      assert ItemHolds(items[1], c) <==> c == '-';
      assert ItemHolds(items[2], c) <==> c == 'x';
    }
    MatchesWithoutRun([CharClass(true, items)], s);
  }
}
