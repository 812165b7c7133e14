/** Sequence vocabulary shared by the models: filtering and suffixes. */
module Sequences {

  lemma ConcatAssoc<T>(a: seq<T>, b: seq<T>, c: seq<T>)
    ensures (a + b) + c == a + (b + c)
  {
  }

  function Filter<T(!new)>(s: seq<T>, p: T -> bool): (r: seq<T>)
    ensures |r| <= |s|
  {
    if s == [] then []
    else Filter(s[..|s| - 1], p) + (if p(s[|s| - 1]) then [s[|s| - 1]] else [])
  }

  lemma {:induction false} FilterMembers<T(!new)>(s: seq<T>, p: T -> bool)
    ensures forall x :: x in Filter(s, p) <==> x in s && p(x)
  {
    if s != [] {
      FilterMembers(s[..|s| - 1], p);
      assert s == s[..|s| - 1] + [s[|s| - 1]];
    }
  }

  lemma FilterPush<T(!new)>(s: seq<T>, x: T, p: T -> bool)
    ensures Filter(s + [x], p) == if p(x) then Filter(s, p) + [x] else Filter(s, p)
  {
    assert (s + [x])[..|s|] == s;
  }

  lemma {:induction false} FilterAppend<T(!new)>(a: seq<T>, b: seq<T>, p: T -> bool)
    ensures Filter(a + b, p) == Filter(a, p) + Filter(b, p)
  {
    if b == [] {
      assert a + b == a;
    } else {
      var init, x := b[..|b| - 1], b[|b| - 1];
      FilterAppend(a, init, p);
      assert b == init + [x];
      FilterPush(init, x, p);
      ConcatAssoc(a, init, [x]);
      FilterPush(a + init, x, p);
      if p(x) {
        ConcatAssoc(Filter(a, p), Filter(init, p), [x]);
      }
    }
  }

  lemma {:induction false} FilterAll<T(!new)>(s: seq<T>, p: T -> bool)
    requires forall x :: x in s ==> p(x)
    ensures Filter(s, p) == s
  {
    if s != [] {
      var init, last := s[..|s| - 1], s[|s| - 1];
      FilterAll(init, p);
      assert last in s && s == init + [last];
    }
  }

  lemma {:induction false} FilterNone<T(!new)>(s: seq<T>, p: T -> bool)
    requires forall x :: x in s ==> !p(x)
    ensures Filter(s, p) == []
  {
    if s != [] {
      FilterNone(s[..|s| - 1], p);
    }
  }

  ghost predicate Suffix<T>(a: seq<T>, b: seq<T>) {
    |a| <= |b| && b[|b| - |a|..] == a
  }

  lemma SuffixOfConcat<T>(a: seq<T>, b: seq<T>)
    ensures Suffix(b, a + b)
  {
  }

  lemma FilterSplit<T(!new)>(s: seq<T>, k: nat, p: T -> bool)
    requires k <= |s|
    ensures Filter(s, p) == Filter(s[..k], p) + Filter(s[k..], p)
  {
    assert s == s[..k] + s[k..];
    FilterAppend(s[..k], s[k..], p);
  }

  lemma FilterSuffix<T(!new)>(s: seq<T>, k: nat, p: T -> bool)
    requires k <= |s|
    ensures Suffix(Filter(s[k..], p), Filter(s, p))
  {
    FilterSplit(s, k, p);
    SuffixOfConcat(Filter(s[..k], p), Filter(s[k..], p));
  }
}
