/**
 * Filtering, mapping and flattening, all defined from the end of the sequence so that loops over prefixes unfold them.
 */
module Sequences {

  function Filter<T>(s: seq<T>, p: T -> bool): (r: seq<T>)
    ensures |r| <= |s|
  {
    if s == [] then []
    else
      var rest := Filter(s[..|s| - 1], p);
      if p(s[|s| - 1]) then rest + [s[|s| - 1]] else rest
  }

  function FlatMap<A, B>(s: seq<A>, f: A -> seq<B>): seq<B> {
    if s == [] then [] else FlatMap(s[..|s| - 1], f) + f(s[|s| - 1])
  }

  function Map<A, B>(s: seq<A>, f: A -> B): (r: seq<B>)
    ensures |r| == |s|
    ensures forall i :: 0 <= i < |s| ==> r[i] == f(s[i])
  {
    seq(|s|, i requires 0 <= i < |s| => f(s[i]))
  }

  function Last<T>(s: seq<T>): T
    requires s != []
  {
    s[|s| - 1]
  }

  predicate OccursAt<T(==)>(s: seq<T>, part: seq<T>, i: nat) {
    i + |part| <= |s| && s[i..i + |part|] == part
  }

  predicate Contains<T(==)>(s: seq<T>, part: seq<T>) {
    exists i :: 0 <= i <= |s| && OccursAt(s, part, i)
  }

  lemma {:induction false} FilterConcat<T>(a: seq<T>, b: seq<T>, p: T -> bool)
    ensures Filter(a + b, p) == Filter(a, p) + Filter(b, p)
  {
    if b == [] {
      assert a + b == a;
    } else {
      assert (a + b)[..|a + b| - 1] == a + b[..|b| - 1];
      FilterConcat(a, b[..|b| - 1], p);
    }
  }

  lemma {:induction false} FlatMapConcat<A, B>(a: seq<A>, b: seq<A>, f: A -> seq<B>)
    ensures FlatMap(a + b, f) == FlatMap(a, f) + FlatMap(b, f)
  {
    if b == [] {
      assert a + b == a;
    } else {
      assert (a + b)[..|a + b| - 1] == a + b[..|b| - 1];
      FlatMapConcat(a, b[..|b| - 1], f);
    }
  }

  lemma {:induction false} FlatMapCons<A, B>(s: seq<A>, f: A -> seq<B>)
    requires s != []
    ensures FlatMap(s, f) == f(s[0]) + FlatMap(s[1..], f)
  {
    assert s == [s[0]] + s[1..];
    FlatMapConcat([s[0]], s[1..], f);
    assert [s[0]][..0] == [];
  }

  lemma {:induction false} FlatMapCongruence<A, B>(s: seq<A>, f: A -> seq<B>, g: A -> seq<B>)
    requires forall x :: x in s ==> f(x) == g(x)
    ensures FlatMap(s, f) == FlatMap(s, g)
  {
    if s != [] {
      FlatMapCongruence(s[..|s| - 1], f, g);
    }
  }

  lemma {:induction false} FlatMapEmpty<A, B>(s: seq<A>, f: A -> seq<B>)
    requires forall x :: x in s ==> f(x) == []
    ensures FlatMap(s, f) == []
  {
    if s != [] {
      FlatMapEmpty(s[..|s| - 1], f);
    }
  }

  lemma {:induction false} FilterMembership<T>(s: seq<T>, p: T -> bool)
    ensures forall x :: x in Filter(s, p) <==> x in s && p(x)
  {
    if s != [] {
      FilterMembership(s[..|s| - 1], p);
      assert s == s[..|s| - 1] + [s[|s| - 1]];
    }
  }

  lemma {:induction false} FlatMapMembership<A, B>(s: seq<A>, f: A -> seq<B>)
    ensures forall y :: y in FlatMap(s, f) <==> exists x :: x in s && y in f(x)
  {
    if s != [] {
      FlatMapMembership(s[..|s| - 1], f);
      assert s == s[..|s| - 1] + [s[|s| - 1]];
      forall y
        ensures y in FlatMap(s, f) <==> exists x :: x in s && y in f(x)
      {
        if x :| x in s && y in f(x) {
          assert x in s[..|s| - 1] || x == s[|s| - 1];
        }
      }
    }
  }

  /** Two mapped pieces that together make up a third can be emitted apart, up to order. */
  lemma {:induction false} FlatMapSplit<A, B>(s: seq<A>, f: A -> seq<B>, g: A -> seq<B>, h: A -> seq<B>)
    requires forall x :: x in s ==> multiset(f(x)) == multiset(g(x)) + multiset(h(x))
    ensures multiset(FlatMap(s, f)) == multiset(FlatMap(s, g)) + multiset(FlatMap(s, h))
  {
    if s != [] {
      FlatMapSplit(s[..|s| - 1], f, g, h);
    }
  }

  /** Emitting from the elements that satisfy p and from those that do not gives the same items, up to order. */
  lemma {:induction false} FlatMapPartition<A, B>(s: seq<A>, p: A -> bool, q: A -> bool, f: A -> seq<B>)
    requires forall x :: x in s ==> p(x) != q(x)
    ensures multiset(FlatMap(s, f)) == multiset(FlatMap(Filter(s, p), f)) + multiset(FlatMap(Filter(s, q), f))
  {
    if s != [] {
      var init := s[..|s| - 1];
      FlatMapPartition(init, p, q, f);
      FlatMapConcat(Filter(init, p), [s[|s| - 1]], f);
      FlatMapConcat(Filter(init, q), [s[|s| - 1]], f);
      assert FlatMap([s[|s| - 1]], f) == f(s[|s| - 1]);
    }
  }

  lemma {:induction false} FlatMapFilter<A, B>(s: seq<A>, p: A -> bool, f: A -> seq<B>)
    requires forall x :: x in s && !p(x) ==> f(x) == []
    ensures FlatMap(Filter(s, p), f) == FlatMap(s, f)
  {
    if s != [] {
      var init := s[..|s| - 1];
      FlatMapFilter(init, p, f);
      FlatMapConcat(Filter(init, p), [s[|s| - 1]], f);
      assert FlatMap([s[|s| - 1]], f) == f(s[|s| - 1]);
    }
  }

  /** Mapping a mapped sequence is mapping the composition. */
  lemma {:induction false} FlatMapFlatMap<A, B, C>(s: seq<A>, f: A -> seq<B>, g: B -> seq<C>, h: A -> seq<C>)
    requires forall x :: x in s ==> FlatMap(f(x), g) == h(x)
    ensures FlatMap(FlatMap(s, f), g) == FlatMap(s, h)
  {
    if s != [] {
      FlatMapFlatMap(s[..|s| - 1], f, g, h);
      FlatMapConcat(FlatMap(s[..|s| - 1], f), f(s[|s| - 1]), g);
    }
  }

  lemma {:induction false} FlatMapRearranged<A, B>(s: seq<A>, f: A -> seq<B>, g: A -> seq<B>)
    requires forall x :: x in s ==> multiset(f(x)) == multiset(g(x))
    ensures multiset(FlatMap(s, f)) == multiset(FlatMap(s, g))
  {
    if s != [] {
      FlatMapRearranged(s[..|s| - 1], f, g);
    }
  }

  ghost predicate Distinct<T>(s: seq<T>) {
    forall i, j :: 0 <= i < j < |s| ==> s[i] != s[j]
  }

  /** What is emitted at the first element opens the whole; what is emitted at the last closes it. */
  lemma FlatMapBracket<A, B>(s: seq<A>, open: seq<B>, close: seq<B>, f: A -> seq<B>, g: A -> seq<B>)
    requires s != []
    requires |s| == 1 ==> f(s[0]) == open + g(s[0]) + close
    requires |s| > 1 ==> f(s[0]) == open + g(s[0]) && f(Last(s)) == g(Last(s)) + close
    requires forall i :: 0 < i < |s| - 1 ==> f(s[i]) == g(s[i])
    ensures FlatMap(s, f) == open + FlatMap(s, g) + close
  {
    if |s| == 1 {
      assert s == [s[0]];
      SingletonFlatMap(s[0], f);
      SingletonFlatMap(s[0], g);
    } else {
      var n := |s| - 1;
      OpenBracket(s, n, open, f, g);
      calc {
        FlatMap(s, f);
        FlatMap(s[..n], f) + f(Last(s));
        (open + FlatMap(s[..n], g)) + (g(Last(s)) + close);
        { Reassociate(open, FlatMap(s[..n], g), g(Last(s)), close); }
        open + (FlatMap(s[..n], g) + g(Last(s))) + close;
        open + FlatMap(s, g) + close;
      }
    }
  }

  lemma SingletonFlatMap<A, B>(x: A, f: A -> seq<B>)
    ensures FlatMap([x], f) == f(x)
  {
    assert [x][..0] == [];
  }

  lemma Reassociate<B>(a: seq<B>, b: seq<B>, c: seq<B>, d: seq<B>)
    ensures (a + b) + (c + d) == a + (b + c) + d
  {
  }

  lemma {:induction false} OpenBracket<A, B>(s: seq<A>, n: nat, open: seq<B>, f: A -> seq<B>, g: A -> seq<B>)
    requires 0 < n <= |s|
    requires f(s[0]) == open + g(s[0])
    requires forall i :: 0 < i < n ==> f(s[i]) == g(s[i])
    ensures FlatMap(s[..n], f) == open + FlatMap(s[..n], g)
  {
    assert s[..n][..n - 1] == s[..n - 1];
    if n == 1 {
      assert s[..1][..0] == [];
    } else {
      OpenBracket(s, n - 1, open, f, g);
    }
  }

  /** What is emitted at one element only is emitted once. */
  lemma {:induction false} FlatMapOnce<A, B>(s: seq<A>, at: A, item: seq<B>, f: A -> seq<B>)
    requires Distinct(s)
    requires forall x :: x in s ==> f(x) == if x == at then item else []
    ensures FlatMap(s, f) == if at in s then item else []
  {
    if s != [] {
      var init, last := s[..|s| - 1], Last(s);
      assert s == init + [last];
      assert last !in init;
      FlatMapOnce(init, at, item, f);
      assert FlatMap(s, f) == FlatMap(init, f) + f(last);
      if last == at {
        assert FlatMap(init, f) == [];
      } else {
        assert f(last) == [] && (at in s <==> at in init);
      }
    }
  }

  lemma {:induction false} FilterDistinct<T>(s: seq<T>, p: T -> bool)
    requires Distinct(s)
    ensures Distinct(Filter(s, p))
  {
    if s != [] {
      FilterDistinct(s[..|s| - 1], p);
      FilterMembership(s[..|s| - 1], p);
    }
  }
}
