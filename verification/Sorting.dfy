/** Stable sorting by a comparison, and the uniqueness of strictly ordered arrangements. */
module Sorting {
  import opened Sequences

  ghost predicate Ordered<T>(s: seq<T>, less: (T, T) -> bool) {
    forall i, j :: 0 <= i < j < |s| ==> less(s[i], s[j])
  }

  function Insert<T>(x: T, s: seq<T>, le: (T, T) -> bool): (r: seq<T>)
    ensures multiset(r) == multiset(s) + multiset{x}
    ensures |r| == |s| + 1
  {
    if s != [] && !le(s[|s| - 1], x) then
      assert s == s[..|s| - 1] + [s[|s| - 1]];
      Insert(x, s[..|s| - 1], le) + [s[|s| - 1]]
    else
      s + [x]
  }

  /** Array.prototype.sort: stable, by insertion from the left. */
  function Sort<T>(s: seq<T>, le: (T, T) -> bool): (r: seq<T>)
    ensures multiset(r) == multiset(s)
    ensures |r| == |s|
  {
    if s == [] then []
    else
      assert s == s[..|s| - 1] + [s[|s| - 1]];
      Insert(s[|s| - 1], Sort(s[..|s| - 1], le), le)
  }

  ghost predicate TotalOn<T>(s: seq<T>, le: (T, T) -> bool) {
    && (forall x, y :: x in s && y in s ==> le(x, y) || le(y, x))
    && (forall x, y, z :: x in s && y in s && z in s && le(x, y) && le(y, z) ==> le(x, z))
  }

  lemma {:induction false} InsertOrdered<T>(x: T, s: seq<T>, le: (T, T) -> bool)
    requires TotalOn(s + [x], le)
    requires Ordered(s, le)
    ensures Ordered(Insert(x, s, le), le)
  {
    if s != [] && !le(s[|s| - 1], x) {
      var init := s[..|s| - 1];
      var last := s[|s| - 1];
      assert forall y :: y in init + [x] ==> y in s + [x];
      InsertOrdered(x, init, le);
      var front := Insert(x, init, le);
      forall y | y in front
        ensures le(y, last)
      {
        assert y in multiset(front);
        assert y in init || y == x;
        assert last in s + [x] && x in s + [x];
      }
    } else if s != [] {
      forall y | y in s
        ensures le(y, x)
      {
        assert y in s + [x] && x in s + [x] && s[|s| - 1] in s + [x];
        var i :| 0 <= i < |s| && s[i] == y;
        assert i < |s| - 1 ==> le(y, s[|s| - 1]);
      }
    }
  }

  lemma SameMembers<T>(a: seq<T>, b: seq<T>)
    requires multiset(a) == multiset(b)
    ensures forall x :: x in a <==> x in b
  {
    forall x
      ensures x in a <==> x in b
    {
      assert x in a <==> x in multiset(a);
    }
  }

  lemma {:induction false} SortOrdered<T>(s: seq<T>, le: (T, T) -> bool)
    requires TotalOn(s, le)
    ensures Ordered(Sort(s, le), le)
  {
    if s != [] {
      var init := s[..|s| - 1];
      assert forall y :: y in init ==> y in s;
      SortOrdered(init, le);
      var sorted := Sort(init, le);
      SameMembers(sorted, init);
      forall y | y in sorted + [s[|s| - 1]]
        ensures y in s
      {
        if y in sorted {
          assert y in multiset(sorted);
          assert y in multiset(init);
        } else {
          assert y == s[|s| - 1];
        }
      }
      InsertOrdered(s[|s| - 1], sorted, le);
    }
  }

  /** A strict order arranges a set of elements in one way only. */
  lemma {:induction false} OrderedUnique<T>(a: seq<T>, b: seq<T>, less: (T, T) -> bool)
    requires Ordered(a, less) && Ordered(b, less)
    requires forall x :: x in a <==> x in b
    requires forall x, y :: x in a && y in a && less(x, y) ==> !less(y, x)
    ensures a == b
  {
    assert b == [] || b[0] in b;
    if a != [] {
      assert a[0] in b;
      var x, y := Last(a), Last(b);
      assert x in a && y in b;
      var i :| 0 <= i < |a| && a[i] == y;
      var j :| 0 <= j < |b| && b[j] == x;
      assert x == y;
      var a', b' := a[..|a| - 1], b[..|b| - 1];
      forall z
        ensures z in a' <==> z in b'
      {
        InitMember(a, z, less);
        InitMember(b, z, less);
      }
      assert forall z :: z in a' ==> z in a;
      OrderedUnique(a', b', less);
      assert a == a' + [x] && b == b' + [y];
    }
  }

  lemma MultiplicityTwo<T>(s: seq<T>, i: nat, j: nat)
    requires i < j < |s| && s[i] == s[j]
    ensures multiset(s)[s[i]] >= 2
  {
    assert s == s[..j] + [s[j]] + s[j + 1..];
    assert s[..j][i] == s[i];
    assert s[i] in multiset(s[..j]);
  }

  lemma MultiplicityOne<T>(s: seq<T>, i: nat)
    requires i < |s|
    requires forall a, b :: 0 <= a < b < |s| ==> s[a] != s[b]
    ensures multiset(s)[s[i]] == 1
  {
    assert s == s[..i] + [s[i]] + s[i + 1..];
    assert s[i] !in s[..i] && s[i] !in s[i + 1..];
    assert s[i] !in multiset(s[..i]) && s[i] !in multiset(s[i + 1..]);
  }

  lemma InitMember<T>(s: seq<T>, z: T, less: (T, T) -> bool)
    requires s != [] && Ordered(s, less)
    requires forall x, y :: x in s && y in s && less(x, y) ==> !less(y, x)
    ensures z in s[..|s| - 1] <==> z in s && z != Last(s)
  {
    assert s == s[..|s| - 1] + [Last(s)];
    if z in s[..|s| - 1] {
      var i :| 0 <= i < |s| - 1 && s[i] == z;
      assert less(s[i], s[|s| - 1]);
      assert s[i] in s && s[|s| - 1] in s;
    }
  }

  /** A sorted rearrangement of a strictly ordered sequence is that sequence. */
  lemma SortedPermutation<T>(a: seq<T>, b: seq<T>, less: (T, T) -> bool)
    requires multiset(a) == multiset(b)
    requires Ordered(b, less)
    requires forall x, y :: x in b && y in b && less(x, y) ==> !less(y, x)
    requires forall i, j :: 0 <= i < j < |a| ==> !less(a[j], a[i])
    ensures a == b
  {
    SameMembers(a, b);
    forall i, j | 0 <= i < j < |a|
      ensures less(a[i], a[j])
    {
      assert a[i] in b && a[j] in b;
      var k :| 0 <= k < |b| && b[k] == a[i];
      var l :| 0 <= l < |b| && b[l] == a[j];
      if k == l {
        MultiplicityTwo(a, i, j);
        forall m, n | 0 <= m < n < |b|
          ensures b[m] != b[n]
        {
          assert less(b[m], b[n]) && b[m] in b;
        }
        MultiplicityOne(b, k);
      }
    }
    OrderedUnique(a, b, less);
  }

  lemma SortOneMore<T>(s: seq<T>, le: (T, T) -> bool)
    requires s != []
    ensures Sort(s, le) == Insert(Last(s), Sort(s[..|s| - 1], le), le)
  {
  }

  lemma InsertAtEnd<T>(x: T, s: seq<T>, le: (T, T) -> bool)
    requires s == [] || le(Last(s), x)
    ensures Insert(x, s, le) == s + [x]
  {
  }

  /** Sorting what is sorted already changes nothing. */
  lemma {:induction false} SortIsIdle<T>(s: seq<T>, le: (T, T) -> bool)
    requires Ordered(s, le)
    ensures Sort(s, le) == s
  {
    if s != [] {
      hide Insert;
      var init, last := s[..|s| - 1], Last(s);
      SortIsIdle(init, le);
      assert init == [] || le(Last(init), last) by {
        assert init != [] ==> Last(init) == s[|s| - 2];
      }
      InsertAtEnd(last, init, le);
      SortOneMore(s, le);
      assert s == init + [last];
    }
  }
}
