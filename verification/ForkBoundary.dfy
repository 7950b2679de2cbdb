/**
 * The boundary of a derived conversation: a repaired parent may drop events of the fork base but not add or reorder
 * any.
 */
module ForkBoundary {
  import opened Outcomes
  import opened Text
  import opened Sequences

  datatype Source = Source(platform: Option<string>, instanceId: Option<string>, sessionId: Option<string>,
      eventId: Option<string>)

  /** The four fields of an identified source; written as a JSON array, which keeps them apart. */
  datatype Identity = Identity(platform: string, instanceId: string, sessionId: string, eventId: string)

  function SourceIdentity(source: Source): Option<Identity> {
    var platform, instance, session, event :=
      NonEmptyString(source.platform), NonEmptyString(source.instanceId), NonEmptyString(source.sessionId),
          NonEmptyString(source.eventId);
    if platform.Some? && instance.Some? && session.Some? && event.Some?
    then Some(Identity(platform.value, instance.value, session.value, event.value))
    else None
  }

  /** A source is identified if none of its fields is missing or blank, and two are one if all their fields agree. */
  lemma IdentityExactly(a: Source, b: Source)
    ensures SourceIdentity(a).Some?
            <==> && a.platform.Some? && NonBlank(a.platform.value) && a.instanceId.Some? && NonBlank(a.instanceId.value)
                 && a.sessionId.Some? && NonBlank(a.sessionId.value) && a.eventId.Some? && NonBlank(a.eventId.value)
    ensures SourceIdentity(a).Some? ==> (SourceIdentity(a) == SourceIdentity(b) <==> a == b)
  {
  }

  predicate Identified(events: seq<Source>) {
    forall i :: 0 <= i < |events| ==> SourceIdentity(events[i]).Some?
  }

  function Identities(events: seq<Source>): (r: seq<Identity>)
    requires Identified(events)
    ensures |r| == |events|
    ensures forall i :: 0 <= i < |r| ==> Some(r[i]) == SourceIdentity(events[i])
  {
    seq(|events|, i requires 0 <= i < |events| => SourceIdentity(events[i]).value)
  }

  /** One sequence arises from another by leaving elements out. */
  predicate Subsequence<T(==)>(part: seq<T>, whole: seq<T>) {
    if part == [] then true
    else if whole == [] then false
    else if Last(part) == Last(whole) && Subsequence(part[..|part| - 1], whole[..|whole| - 1]) then true
    else Subsequence(part, whole[..|whole| - 1])
  }

  /** A repaired parent is within the boundary of a base. */
  ghost predicate WithinBoundary(base: seq<Source>, repaired: seq<Source>) {
    && Identified(base) && Identified(repaired)
    && Distinct(Identities(base))
    && Subsequence(Identities(repaired), Identities(base))
  }

  // ----- subsequences

  lemma {:induction false} SubsequenceOfLonger<T>(part: seq<T>, whole: seq<T>, more: seq<T>)
    requires Subsequence(part, whole)
    ensures Subsequence(part, whole + more)
  {
    if more == [] {
      assert whole + more == whole;
    } else {
      assert (whole + more)[..|whole + more| - 1] == whole + more[..|more| - 1];
      SubsequenceOfLonger(part, whole, more[..|more| - 1]);
    }
  }

  lemma {:induction false} SubsequenceMembers<T>(part: seq<T>, whole: seq<T>)
    requires Subsequence(part, whole)
    ensures forall x :: x in part ==> x in whole
    decreases |whole|
  {
    if part != [] {
      assert part == part[..|part| - 1] + [Last(part)] && whole == whole[..|whole| - 1] + [Last(whole)];
      if Last(part) == Last(whole) && Subsequence(part[..|part| - 1], whole[..|whole| - 1]) {
        SubsequenceMembers(part[..|part| - 1], whole[..|whole| - 1]);
      } else {
        SubsequenceMembers(part, whole[..|whole| - 1]);
      }
    }
  }

  lemma {:induction false} SubsequenceDrop<T>(part: seq<T>, whole: seq<T>)
    requires part != [] && Subsequence(part, whole)
    ensures Subsequence(part[..|part| - 1], whole)
    decreases |whole|
  {
    var init := whole[..|whole| - 1];
    if Last(part) == Last(whole) && Subsequence(part[..|part| - 1], init) {
      SubsequenceOfLonger(part[..|part| - 1], init, [Last(whole)]);
    } else {
      SubsequenceDrop(part, init);
      SubsequenceOfLonger(part[..|part| - 1], init, [Last(whole)]);
    }
    assert init + [Last(whole)] == whole;
  }

  lemma {:induction false} SubsequenceTransitive<T>(a: seq<T>, b: seq<T>, c: seq<T>)
    requires Subsequence(a, b) && Subsequence(b, c)
    ensures Subsequence(a, c)
    decreases |b| + |c|
  {
    if a != [] {
      var b', c' := b[..|b| - 1], c[..|c| - 1];
      if Last(b) == Last(c) && Subsequence(b', c') {
        if Last(a) == Last(b) && Subsequence(a[..|a| - 1], b') {
          SubsequenceTransitive(a[..|a| - 1], b', c');
        } else {
          SubsequenceTransitive(a, b', c');
        }
      } else {
        SubsequenceTransitive(a, b, c');
      }
    }
  }

  lemma {:induction false} SubsequenceDistinct<T>(part: seq<T>, whole: seq<T>)
    requires Subsequence(part, whole) && Distinct(whole)
    ensures Distinct(part)
    decreases |whole|
  {
    if part != [] {
      var init := whole[..|whole| - 1];
      if Last(part) == Last(whole) && Subsequence(part[..|part| - 1], init) {
        SubsequenceDistinct(part[..|part| - 1], init);
        SubsequenceMembers(part[..|part| - 1], init);
        assert Last(whole) !in init;
        LastIsNew(part);
      } else {
        SubsequenceDistinct(part, init);
      }
    }
  }

  lemma LastIsNew<T>(s: seq<T>)
    requires s != [] && Distinct(s[..|s| - 1]) && Last(s) !in s[..|s| - 1]
    ensures Distinct(s)
  {
    forall i, j | 0 <= i < j < |s|
      ensures s[i] != s[j]
    {
      assert s[i] == s[..|s| - 1][i];
      assert s[i] in s[..|s| - 1];
    }
  }

  /** Among distinct elements, one more element continues a subsequence exactly when it lies behind its last one. */
  lemma Continues<T>(part: seq<T>, whole: seq<T>, x: T, at: nat, previous: nat)
    requires Distinct(whole) && at < |whole| && whole[at] == x
    requires if part == [] then previous == 0
             else 0 < previous <= |whole| && Last(part) == whole[previous - 1] && Subsequence(part, whole[..previous])
    ensures previous <= at ==> Subsequence(part + [x], whole[..at + 1])
    ensures at < previous ==> !Subsequence(part + [x], whole)
  {
    assert (part + [x])[..|part|] == part;
    if previous <= at {
      assert whole[..at + 1][..at] == whole[..at] == whole[..previous] + whole[previous..at];
      if part != [] {
        SubsequenceOfLonger(part, whole[..previous], whole[previous..at]);
      }
    } else if Subsequence(part + [x], whole) {
      NotBehind(part, whole, x, at, previous - 1);
    }
  }

  lemma {:induction false} NotBehind<T>(part: seq<T>, whole: seq<T>, x: T, at: nat, last: nat)
    requires Distinct(whole) && part != [] && at <= last < |whole| && whole[at] == x && whole[last] == Last(part)
    ensures !Subsequence(part + [x], whole)
    decreases |whole|
  {
    var init, all := whole[..|whole| - 1], part + [x];
    assert Last(part) in part && x in all && Last(part) in all && all[..|part|] == part;
    if Subsequence(part, init) {
      SubsequenceMembers(part, init);
    }
    if Subsequence(all, init) {
      SubsequenceMembers(all, init);
    }
    if last < |whole| - 1 {
      NotBehind(part, init, x, at, last);
    }
  }

  lemma {:induction false} PrefixSubsequence<T>(part: seq<T>, whole: seq<T>, n: nat)
    requires n <= |part| && Subsequence(part, whole)
    ensures Subsequence(part[..n], whole)
    decreases |part|
  {
    if n < |part| {
      SubsequenceDrop(part, whole);
      PrefixSubsequence(part[..|part| - 1], whole, n);
      assert part[..|part| - 1][..n] == part[..n];
    } else {
      assert part[..n] == part;
    }
  }

  // ----- the check of the source

  /** Positions of the base identities, refusing unidentified and repeated ones. */
  method IndexBase(base: seq<Source>) returns (r: Result<map<Identity, nat>>)
    ensures r.Ok? <==> Identified(base) && Distinct(Identities(base))
    ensures r.Ok? ==> forall id :: id in r.value <==> id in Identities(base)
    ensures r.Ok? ==> forall id :: id in r.value ==> r.value[id] < |base| && Identities(base)[r.value[id]] == id
  {
    var positions: map<Identity, nat> := map[];
    for i := 0 to |base|
      invariant Identified(base[..i])
      invariant forall k :: 0 <= k < i
                 ==> SourceIdentity(base[k]).value in positions && positions[SourceIdentity(base[k]).value] == k
      invariant forall id :: id in positions ==> positions[id] < i && SourceIdentity(base[positions[id]]) == Some(id)
    {
      var identity := SourceIdentity(base[i]);
      if identity.None? {
        return Err("unidentified source event");
      }
      if identity.value in positions {
        assert SourceIdentity(base[positions[identity.value]]) == identity;
        return Err("duplicate base source events");
      }
      positions := positions[identity.value := i];
    }
    forall id
      ensures id in positions <==> id in Identities(base)
    {
      if id in positions {
        assert Identities(base)[positions[id]] == id;
      }
    }
    return Ok(positions);
  }

  ghost predicate Retained(ids: seq<Identity>, repaired: seq<Identity>, n: nat, previous: nat)
    requires n <= |repaired|
  {
    && previous <= |ids| && Subsequence(repaired[..n], ids[..previous])
    && (if n == 0 then previous == 0 else previous > 0 && repaired[n - 1] == ids[previous - 1])
  }

  lemma RetainNext(ids: seq<Identity>, repaired: seq<Identity>, n: nat, previous: nat, at: nat)
    requires Distinct(ids) && n < |repaired| && Retained(ids, repaired, n, previous) && at < |ids|
            && ids[at] == repaired[n]
    ensures previous <= at ==> Retained(ids, repaired, n + 1, at + 1)
    ensures at < previous ==> !Subsequence(repaired, ids)
  {
    Continues(repaired[..n], ids, repaired[n], at, previous);
    assert repaired[..n + 1] == repaired[..n] + [repaired[n]];
    if at < previous && Subsequence(repaired, ids) {
      PrefixSubsequence(repaired, ids, n + 1);
    }
  }

  lemma RefusedRepeat(ids: seq<Identity>, repaired: seq<Identity>, j: nat, i: nat)
    requires Distinct(ids) && j < i < |repaired| && repaired[j] == repaired[i]
    ensures !Subsequence(repaired, ids)
  {
    if Subsequence(repaired, ids) {
      SubsequenceDistinct(repaired, ids);
    }
  }

  lemma RefusedStranger(ids: seq<Identity>, repaired: seq<Identity>, i: nat)
    requires i < |repaired| && repaired[i] !in ids
    ensures !Subsequence(repaired, ids)
  {
    assert repaired[i] in repaired;
    if Subsequence(repaired, ids) {
      SubsequenceMembers(repaired, ids);
    }
  }

  lemma OneMoreIdentity(events: seq<Source>, i: nat)
    requires i < |events| && Identified(events[..i]) && SourceIdentity(events[i]).Some?
    ensures Identified(events[..i + 1])
    ensures Identities(events[..i + 1]) == Identities(events[..i]) + [SourceIdentity(events[i]).value]
  {
    assert forall k :: 0 <= k < i ==> events[..i + 1][k] == events[..i][k];
  }

  /** A prefix that is refused refuses the whole. */
  lemma RefusedPrefix(base: seq<Source>, repaired: seq<Source>, n: nat)
    requires n <= |repaired| && Identified(base) && Identified(repaired[..n])
            && !Subsequence(Identities(repaired[..n]), Identities(base))
    ensures !WithinBoundary(base, repaired)
  {
    if Identified(repaired) && Subsequence(Identities(repaired), Identities(base)) {
      assert Identities(repaired[..n]) == Identities(repaired)[..n];
      PrefixSubsequence(Identities(repaired), Identities(base), n);
    }
  }

  lemma RetainedAll(ids: seq<Identity>, repaired: seq<Identity>, next: nat)
    requires Retained(ids, repaired, |repaired|, next)
    ensures Subsequence(repaired, ids)
  {
    assert repaired[..|repaired|] == repaired;
    SubsequenceOfLonger(repaired, ids[..next], ids[next..]);
    assert ids[..next] + ids[next..] == ids;
  }

  lemma RetainedLonger(ids: seq<Identity>, part: seq<Identity>, x: Identity, next: nat)
    requires Retained(ids, part, |part|, next)
    ensures Retained(ids, part + [x], |part|, next)
  {
    assert (part + [x])[..|part|] == part == part[..|part|];
  }

  /**
   * Accepts exactly when every source event is identified, the base repeats none, and what the repaired parent retains
   * is a subsequence of the base.
   */
  method AssertDerivedParentForkBoundary(base: seq<Source>, repairedParent: seq<Source>) returns (r: Result<()>)
    ensures r.Ok? <==> WithinBoundary(base, repairedParent)
  {
    hide Subsequence, Retained, Distinct, SourceIdentity;
    var basePositions :- IndexBase(base);
    ghost var ids := Identities(base);
    var retained: set<Identity> := {};
    var next := 0; // the position after the one retained last
    assert Retained(ids, [], 0, 0) by {
      NothingRetained(ids);
    }
    for i := 0 to |repairedParent|
      invariant Identified(repairedParent[..i])
      invariant next <= |base| && Retained(ids, Identities(repairedParent[..i]), i, next)
      invariant forall id :: id in retained <==> id in Identities(repairedParent[..i])
    {
      var identity := SourceIdentity(repairedParent[i]);
      if identity.None? {
        return Err("unidentified source event");
      }
      OneMoreIdentity(repairedParent, i);
      ghost var before, part := Identities(repairedParent[..i]), Identities(repairedParent[..i + 1]);
      if identity.value in retained {
        ghost var j :| 0 <= j < i && before[j] == identity.value;
        RefusedRepeat(ids, part, j, i);
        RefusedPrefix(base, repairedParent, i + 1);
        return Err("duplicate repaired source events");
      }
      retained := retained + {identity.value};
      if identity.value !in basePositions {
        RefusedStranger(ids, part, i);
        RefusedPrefix(base, repairedParent, i + 1);
        return Err("the base does not contain a repaired parent source event");
      }
      var position := basePositions[identity.value];
      RetainedLonger(ids, before, identity.value, next);
      RetainNext(ids, part, i, next, position);
      if position < next {
        RefusedPrefix(base, repairedParent, i + 1);
        return Err("parent source events are reordered");
      }
      next := position + 1;
    }
    assert repairedParent[..|repairedParent|] == repairedParent;
    RetainedAll(ids, Identities(repairedParent), next);
    return Ok(());
  }

  lemma NothingRetained(ids: seq<Identity>)
    ensures Retained(ids, [], 0, 0)
  {
  }

  /** Accepted repairs compose: a repair of a repaired parent stays within the boundary of the first base. */
  lemma RepairsCompose(base: seq<Source>, parent: seq<Source>, repaired: seq<Source>)
    requires WithinBoundary(base, parent) && WithinBoundary(parent, repaired)
    ensures WithinBoundary(base, repaired)
  {
    SubsequenceTransitive(Identities(repaired), Identities(parent), Identities(base));
  }

  /** An accepted repair repeats no source event and is a boundary of its own. */
  lemma RepairIsABase(base: seq<Source>, repaired: seq<Source>)
    requires WithinBoundary(base, repaired)
    ensures Distinct(Identities(repaired)) && WithinBoundary(repaired, repaired)
  {
    SubsequenceDistinct(Identities(repaired), Identities(base));
    SubsequenceItself(Identities(repaired));
  }

  lemma {:induction false} SubsequenceItself<T>(s: seq<T>)
    ensures Subsequence(s, s)
  {
    if s != [] {
      SubsequenceItself(s[..|s| - 1]);
    }
  }
}
