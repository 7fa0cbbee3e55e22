/** Order-preserving list comprehensions, the shape every list the scanner
    builds takes: `[f(x) for x in xs if p(x)]`. */
module Seqs {

  datatype Option<+T> = None | Some(value: T)

  /** `[x for x in s if p(x)]` */
  function Filter<T>(p: T -> bool, s: seq<T>): (r: seq<T>)
    ensures |r| <= |s|
    ensures forall x :: x in r ==> x in s && p(x)
  {
    if s == [] then [] else (if p(s[0]) then [s[0]] else []) + Filter(p, s[1..])
  }

  /** `[f(x) for x in s]` */
  function Map<T, U>(f: T -> U, s: seq<T>): (r: seq<U>)
    ensures |r| == |s|
    ensures forall i :: 0 <= i < |s| ==> r[i] == f(s[i])
  {
    if s == [] then [] else [f(s[0])] + Map(f, s[1..])
  }

  /** Keeps, in order, the value of every element that `f` maps to `Some`. */
  function FilterMap<T, U>(f: T -> Option<U>, s: seq<T>): (r: seq<U>)
    ensures |r| <= |s|
  {
    if s == [] then []
    else (match f(s[0]) case Some(v) => [v] case None => []) + FilterMap(f, s[1..])
  }

  lemma {:induction false} FilterAppend<T>(p: T -> bool, s: seq<T>, t: seq<T>)
    ensures Filter(p, s + t) == Filter(p, s) + Filter(p, t)
  {
    if s == [] {
      assert s + t == t;
    } else {
      assert (s + t)[1..] == s[1..] + t;
      FilterAppend(p, s[1..], t);
    }
  }

  /** An element is kept exactly when it occurs and satisfies the predicate. */
  lemma {:induction false} FilterMembership<T>(p: T -> bool, s: seq<T>, x: T)
    ensures x in Filter(p, s) <==> x in s && p(x)
  {
    if s != [] {
      FilterMembership(p, s[1..], x);
      assert s == [s[0]] + s[1..];
    }
  }

  /** The comprehension is a homomorphism of concatenation: the kept values
      of a prefix come first, in the same order. */
  lemma {:induction false} FilterMapAppend<T, U>(f: T -> Option<U>, s: seq<T>, t: seq<T>)
    ensures FilterMap(f, s + t) == FilterMap(f, s) + FilterMap(f, t)
  {
    if s == [] {
      assert s + t == t;
    } else {
      assert (s + t)[0] == s[0];
      assert (s + t)[1..] == s[1..] + t;
      FilterMapAppend(f, s[1..], t);
      var head := match f(s[0]) case Some(v) => [v] case None => [];
      assert FilterMap(f, s + t) == head + FilterMap(f, s[1..] + t);
      assert FilterMap(f, s) == head + FilterMap(f, s[1..]);
    }
  }

  lemma TakeOneMore<T>(s: seq<T>, i: nat)
    requires i < |s|
    ensures s[..i + 1] == s[..i] + [s[i]]
  {
  }

  lemma TakeAll<T>(s: seq<T>)
    ensures s[..|s|] == s
  {
  }

  lemma AppendAssociative<T>(a: seq<T>, b: seq<T>, c: seq<T>)
    ensures (a + b) + c == a + (b + c)
  {
  }

  lemma FilterMapSingle<T, U>(f: T -> Option<U>, x: T)
    ensures FilterMap(f, [x]) == if f(x).Some? then [f(x).value] else []
  {
    assert [x][1..] == [];
  }

  lemma FilterSingle<T>(p: T -> bool, x: T)
    ensures Filter(p, [x]) == if p(x) then [x] else []
  {
    assert [x][1..] == [];
  }

  lemma MapSingle<T, U>(f: T -> U, x: T)
    ensures Map(f, [x]) == [f(x)]
  {
  }

  /** Appending the image of one more element after an accumulated output. */
  lemma MapAppendOneAfter<T, U>(f: T -> U, w: seq<U>, s: seq<T>, x: T)
    ensures w + Map(f, s + [x]) == (w + Map(f, s)) + [f(x)]
  {
    MapAppend(f, s, [x]);
  }

  lemma MapAppendAfter<T, U>(f: T -> U, w: seq<U>, s: seq<T>, t: seq<T>)
    ensures w + Map(f, s + t) == (w + Map(f, s)) + Map(f, t)
  {
    MapAppend(f, s, t);
  }

  lemma MapConsAfter<T, U>(f: T -> U, w: seq<U>, x: T, s: seq<T>)
    ensures w + Map(f, [x] + s) == (w + [f(x)]) + Map(f, s)
  {
    MapAppend(f, [x], s);
  }

  lemma MapAppend3After<T, U>(f: T -> U, w: seq<U>, a: seq<T>, b: seq<T>, c: seq<T>)
    ensures w + Map(f, a + b + c) == ((w + Map(f, a)) + Map(f, b)) + Map(f, c)
  {
    MapAppend(f, a + b, c);
    MapAppend(f, a, b);
  }

  lemma MapTakeOneMore<T, U>(f: T -> U, s: seq<T>, j: nat)
    requires j < |s|
    ensures Map(f, s[..j + 1]) == Map(f, s[..j]) + [f(s[j])]
  {
    TakeOneMore(s, j);
    MapAppend(f, s[..j], [s[j]]);
  }

  /** Elements mapped to `None` leave no trace between the values of the others. */
  lemma FilterMapSkipsNone<T, U>(f: T -> Option<U>, o: T, a: T, b: T, c: T)
    requires f(o).None? && f(a).Some? && f(b).Some? && f(c).Some?
    ensures FilterMap(f, [o, a, b, o, c]) == [f(a).value, f(b).value, f(c).value]
  {
    FilterMapSingle(f, o);
    FilterMapSingle(f, a);
    FilterMapSingle(f, b);
    FilterMapSingle(f, c);
    assert [o, a, b, o, c] == [o] + [a] + [b] + [o] + [c];
    FilterMapAppend(f, [o] + [a] + [b] + [o], [c]);
    FilterMapAppend(f, [o] + [a] + [b], [o]);
    FilterMapAppend(f, [o] + [a], [b]);
    FilterMapAppend(f, [o], [a]);
  }

  /** A value is produced exactly when some element maps to it. */
  lemma {:induction false} FilterMapMembership<T, U>(f: T -> Option<U>, s: seq<T>, v: U)
    ensures v in FilterMap(f, s) <==> exists i :: 0 <= i < |s| && f(s[i]) == Some(v)
  {
    if s != [] {
      FilterMapMembership(f, s[1..], v);
      if exists i :: 0 <= i < |s| && f(s[i]) == Some(v) {
        var i :| 0 <= i < |s| && f(s[i]) == Some(v);
        if i > 0 { assert s[1..][i - 1] == s[i]; }
      }
      if exists i :: 0 <= i < |s[1..]| && f(s[1..][i]) == Some(v) {
        var i :| 0 <= i < |s[1..]| && f(s[1..][i]) == Some(v);
        assert s[i + 1] == s[1..][i];
      }
    }
  }

  /** Nothing is produced exactly when every element maps to `None`. */
  lemma {:induction false} FilterMapEmpty<T, U>(f: T -> Option<U>, s: seq<T>)
    ensures FilterMap(f, s) == [] <==> forall i :: 0 <= i < |s| ==> f(s[i]).None?
  {
    if s != [] {
      FilterMapEmpty(f, s[1..]);
      assert forall i :: 1 <= i < |s| ==> s[i] == s[1..][i - 1];
    }
  }

  lemma {:induction false} MapAppend<T, U>(f: T -> U, s: seq<T>, t: seq<T>)
    ensures Map(f, s + t) == Map(f, s) + Map(f, t)
  {
    assert |Map(f, s + t)| == |Map(f, s) + Map(f, t)|;
    forall i | 0 <= i < |s + t|
      ensures Map(f, s + t)[i] == (Map(f, s) + Map(f, t))[i]
    {
      if i < |s| { assert (s + t)[i] == s[i]; } else { assert (s + t)[i] == t[i - |s|]; }
    }
  }
}
