/** Sequence helpers used across the project. */
module Sequences {

  function Last<T>(s: seq<T>): T
    requires s != []
  {
    s[|s| - 1]
  }

  function Init<T>(s: seq<T>): seq<T>
    requires s != []
  {
    s[..|s| - 1]
  }

  /** The elements of `s` that satisfy `p`, in order. */
  function Filter<T>(s: seq<T>, p: T -> bool): seq<T> {
    if s == [] then [] else Filter(Init(s), p) + if p(Last(s)) then [Last(s)] else []
  }

  function Not<T>(p: T -> bool): T -> bool { x => !p(x) }

  lemma {:induction false} FilterAppend<T>(s: seq<T>, t: seq<T>, p: T -> bool)
    ensures Filter(s + t, p) == Filter(s, p) + Filter(t, p)
  {
    if t == [] {
      assert s + t == s;
    } else {
      assert Init(s + t) == s + Init(t);
      FilterAppend(s, Init(t), p);
    }
  }

  lemma {:induction false} FilterMember<T>(s: seq<T>, p: T -> bool, x: T)
    ensures x in Filter(s, p) <==> x in s && p(x)
  {
    if s != [] {
      FilterMember(Init(s), p, x);
      assert s == Init(s) + [Last(s)];
    }
  }

  lemma {:induction false} FilterAll<T>(s: seq<T>, p: T -> bool)
    requires forall x :: x in s ==> p(x)
    ensures Filter(s, p) == s
  {
    if s != [] {
      FilterAll(Init(s), p);
    }
  }

  lemma {:induction false} FilterNone<T>(s: seq<T>, p: T -> bool)
    requires forall x :: x in s ==> !p(x)
    ensures Filter(s, p) == []
  {
    if s != [] {
      FilterNone(Init(s), p);
    }
  }

  lemma FilterStep<T>(s: seq<T>, p: T -> bool)
    requires s != []
    ensures Filter(s, p) == Filter(Init(s), p) + if p(Last(s)) then [Last(s)] else []
    ensures multiset(s) == multiset(Init(s)) + multiset{Last(s)}
  {
    assert s == Init(s) + [Last(s)];
  }

  /** Filtering by a test and by its negation splits the sequence. */
  lemma {:induction false} FilterSplits<T>(s: seq<T>, p: T -> bool)
    ensures multiset(Filter(s, p)) + multiset(Filter(s, Not(p))) == multiset(s)
  {
    if s != [] {
      FilterSplits(Init(s), p);
      FilterStep(s, p);
      FilterStep(s, Not(p));
      AddToEither(Filter(Init(s), p), Filter(Init(s), Not(p)), Last(s), p(Last(s)));
    }
  }

  lemma AddToEither<T>(a: seq<T>, b: seq<T>, x: T, toA: bool)
    ensures multiset(a + if toA then [x] else []) + multiset(b + if toA then [] else [x])
            == multiset(a) + multiset(b) + multiset{x}
  {
    assert a + [] == a && b + [] == b;
  }

  ghost predicate Unique<T(!new)>(s: seq<T>) {
    forall i, j :: 0 <= i < j < |s| ==> s[i] != s[j]
  }

  lemma {:induction false} FilterUnique<T(!new)>(s: seq<T>, p: T -> bool)
    requires Unique(s)
    ensures Unique(Filter(s, p))
  {
    if s != [] {
      FilterUnique(Init(s), p);
      FilterMember(Init(s), p, Last(s));
      assert Last(s) !in Init(s);
    }
  }

  /** The last `n` elements: what a bounded `deque` retains. */
  function Suffix<T>(s: seq<T>, n: nat): seq<T> {
    if |s| <= n then s else s[|s| - n..]
  }

  /** Appending to a bounded deque and dropping the oldest element keeps the last `n`. */
  lemma SuffixAppend<T>(s: seq<T>, x: T, n: nat)
    ensures var kept := Suffix(s, n) + [x];
      Suffix(s + [x], n) == if |kept| > n then kept[1..] else kept
  {
    if |s| >= n {
      assert (s + [x])[|s| + 1 - n..] == (s[|s| - n..] + [x])[1..];
    }
  }
}
