/** A stable sort by a total preorder, and what "the best n" of a set means. */
module Sorting {

  ghost predicate TotalPreorder<T(!new)>(le: (T, T) -> bool) {
    && (forall a, b :: le(a, b) || le(b, a))
    && (forall a, b, c :: le(a, b) && le(b, c) ==> le(a, c))
  }

  ghost predicate Sorted<T>(s: seq<T>, le: (T, T) -> bool) {
    forall i, j | 0 <= i < j < |s| :: le(s[i], s[j])
  }

  ghost predicate Distinct<T>(s: seq<T>) {
    forall i, j | 0 <= i < j < |s| :: s[i] != s[j]
  }

  /** Puts `x` before the first element that may follow it. */
  function Insert<T(!new)>(x: T, s: seq<T>, le: (T, T) -> bool): (r: seq<T>)
    requires TotalPreorder(le) && Sorted(s, le)
    ensures Sorted(r, le) && multiset(r) == multiset{x} + multiset(s)
  {
    if s == [] then [x]
    else if le(x, s[0]) then
      assert forall i | 0 <= i < |s| :: le(x, s[i]);
      [x] + s
    else
      var rest := Insert(x, s[1..], le);
      assert s == [s[0]] + s[1..];
      assert forall y | y in rest :: le(s[0], y) by {
        forall y | y in rest ensures le(s[0], y) {
          assert y in multiset(rest);
          assert y == x || y in s[1..];
        }
      }
      [s[0]] + rest
  }

  function Sort<T(!new)>(s: seq<T>, le: (T, T) -> bool): (r: seq<T>)
    requires TotalPreorder(le)
    ensures Sorted(r, le) && multiset(r) == multiset(s)
  {
    if s == [] then [] else
      assert s == [s[0]] + s[1..];
      Insert(s[0], Sort(s[1..], le), le)
  }

  lemma SameElements<T>(s: seq<T>, r: seq<T>)
    requires multiset(s) == multiset(r)
    ensures |s| == |r|
    ensures forall x :: x in s <==> x in r
    ensures Distinct(s) ==> Distinct(r)
  {
    assert |multiset(s)| == |multiset(r)|;
    forall x ensures x in s <==> x in r {
      assert x in s <==> x in multiset(s);
      assert x in r <==> x in multiset(r);
    }
    if Distinct(s) {
      forall i, j | 0 <= i < j < |r| ensures r[i] != r[j] {
        if r[i] == r[j] {
          assert r == r[..i] + [r[i]] + r[i+1..j] + [r[j]] + r[j+1..];
          assert multiset(r)[r[i]] >= 2;
          AtMostOnce(s, r[i]);
          assert false;
        }
      }
    }
  }

  lemma AtMostOnce<T>(s: seq<T>, x: T)
    requires Distinct(s)
    ensures multiset(s)[x] <= 1
  {
    if s != [] {
      assert s == [s[0]] + s[1..];
      AtMostOnce(s[1..], x);
      if s[0] == x {
        assert x !in s[1..];
        assert x !in multiset(s[1..]);
      }
    }
  }

  lemma DropFirst<T>(s: seq<T>, i: nat)
    requires Distinct(s) && i < |s|
    ensures forall x :: x in s[i + 1..] <==> x in s[i..] && x != s[i]
    ensures s[i] in s[i..]
  {
    assert s[i..] == [s[i]] + s[i + 1..];
  }

  lemma KeysAre<T, U>(m: map<T, U>, s: seq<T>)
    requires forall x :: x in m <==> x in s
    ensures m.Keys == Elements(s)
  {
  }

  function Elements<T>(s: seq<T>): set<T> {
    set x | x in s
  }

  lemma ElementsSize<T>(s: seq<T>)
    requires Distinct(s)
    ensures |Elements(s)| == |s|
  {
    if s != [] {
      ElementsSize(s[1..]);
      assert Elements(s) == {s[0]} + Elements(s[1..]);
    }
  }

  method AnyOf<T>(s: set<T>) returns (x: T)
    requires s != {}
    ensures x in s
  {
    x :| x in s;
  }

  function Min(a: int, b: int): int {
    if a < b then a else b
  }

  /** `kept` is `all` when that has at most `n` elements, and otherwise `n` elements of it, none of which is worse
      than an element left out. */
  ghost predicate BestOf<T>(kept: set<T>, all: set<T>, n: nat, worse: (T, T) -> bool) {
    && kept <= all
    && |kept| == Min(|all|, n)
    && forall x, y | x in all && x !in kept && y in kept :: worse(x, y)
  }

  /** When no two elements are worse than each other there is only one such choice. */
  lemma BestOfUnique<T>(kept: set<T>, other: set<T>, all: set<T>, n: nat, worse: (T, T) -> bool)
    requires BestOf(kept, all, n, worse) && BestOf(other, all, n, worse)
    requires forall x, y | x in all && y in all :: !(worse(x, y) && worse(y, x))
    ensures kept == other
  {
    if x :| x in kept && x !in other {
      if y :| y in other && y !in kept {
        assert false;
      }
      SubsetSize(other, kept, x);
      assert false;
    }
    if y :| y in other && y !in kept {
      SubsetSize(kept, other, y);
      assert false;
    }
  }

  /** An element that is worse than all others is kept only while there is room. */
  lemma BestGrows<T>(kept: set<T>, all: set<T>, n: nat, worse: (T, T) -> bool, x: T)
    requires BestOf(kept, all, n, worse) && x !in all && forall y | y in all :: worse(x, y)
    ensures BestOf(if |all| < n then kept + {x} else kept, all + {x}, n, worse)
  {
    if |all| < n {
      if y :| y in all && y !in kept {
        SubsetSize(kept, all, y);
        assert false;
      }
    }
  }

  lemma SubsetSize<T>(a: set<T>, b: set<T>, x: T)
    requires a <= b && x in b && x !in a
    ensures |a| < |b|
  {
    assert a <= b - {x};
    SubsetAtMost(a, b - {x});
  }

  lemma SubsetAtMost<T>(a: set<T>, b: set<T>)
    requires a <= b
    ensures |a| <= |b|
  {
    assert b == a + (b - a);
    assert |b| == |a| + |b - a|;
  }

  /** Cutting a sorted list of distinct elements leaves the best ones. */
  lemma SuffixIsBest<T>(s: seq<T>, drop: nat, worse: (T, T) -> bool)
    requires Distinct(s) && drop <= |s|
    requires forall i, j | 0 <= i < j < |s| :: worse(s[i], s[j])
    ensures BestOf(Elements(s[drop..]), Elements(s), |s| - drop, worse)
  {
    ElementsSize(s);
    ElementsSize(s[drop..]);
    assert forall k | drop <= k < |s| :: s[k] == s[drop..][k - drop];
    forall x, y | x in Elements(s) && x !in Elements(s[drop..]) && y in Elements(s[drop..]) ensures worse(x, y) {
      var i :| 0 <= i < |s| && s[i] == x;
      var j :| 0 <= j < |s[drop..]| && s[drop..][j] == y;
      assert s[drop + j] == y;
    }
  }
}
