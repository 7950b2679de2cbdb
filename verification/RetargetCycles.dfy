/**
 * When the pass bound of retargeting suffices. A cycle of kept derivations settles exactly when one of its rows alone
 * is listed before the row of its parent; then each pass carries a project all the way round.
 */
module RetargetCycles {
  import opened Outcomes
  import opened Sequences
  import opened DerivationClosure

  // ----- cycles

  /** The position after the i-th, going round. */
  function After(cycle: seq<nat>, i: nat): nat
    requires i < |cycle|
  {
    if i + 1 < |cycle| then cycle[i + 1] else cycle[0]
  }

  /** Kept rows, each a child of the next, and the last a child of the first. */
  ghost predicate IsCycle(rows: seq<Derivation>, keep: set<string>, cycle: seq<nat>) {
    && cycle != [] && Distinct(cycle)
    && (forall i :: 0 <= i < |cycle| ==> cycle[i] < |rows| && rows[cycle[i]].child in keep)
    && (forall i :: 0 <= i < |cycle|
         ==> After(cycle, i) < |rows| && rows[cycle[i]].parent == rows[After(cycle, i)].child)
  }

  /** The row is listed before the row of its parent, so that a pass hands it what the parent had before. */
  predicate Late(cycle: seq<nat>, i: nat)
    requires i < |cycle|
  {
    cycle[i] < After(cycle, i)
  }

  predicate LateOnce(cycle: seq<nat>) {
    forall i, j :: 0 <= i < |cycle| && 0 <= j < |cycle| && Late(cycle, i) && Late(cycle, j) ==> i == j
  }

  /** The cycle read from the row after the i-th. */
  function Rotated(cycle: seq<nat>, i: nat): seq<nat>
    requires i < |cycle|
  {
    cycle[i + 1..] + cycle[..i + 1]
  }

  function Moved(cycle: seq<nat>, i: nat, j: nat): nat
    requires i < |cycle| && j < |cycle|
  {
    if j <= i then j + |cycle| - i - 1 else j - i - 1
  }

  lemma RotatedAt(cycle: seq<nat>, i: nat, j: nat)
    requires i < |cycle| && j < |cycle|
    ensures Moved(cycle, i, j) < |Rotated(cycle, i)| == |cycle|
    ensures Rotated(cycle, i)[Moved(cycle, i, j)] == cycle[j]
    ensures After(Rotated(cycle, i), Moved(cycle, i, j)) == After(cycle, j)
  {
  }

  lemma RotatedFrom(cycle: seq<nat>, i: nat, p: nat) returns (j: nat)
    requires i < |cycle| && p < |cycle|
    ensures j < |cycle| && Moved(cycle, i, j) == p
  {
    j := if p + i + 1 < |cycle| then p + i + 1 else p + i + 1 - |cycle|;
  }

  lemma RotatedIsCycle(rows: seq<Derivation>, keep: set<string>, cycle: seq<nat>, i: nat)
    requires IsCycle(rows, keep, cycle) && i < |cycle|
    ensures IsCycle(rows, keep, Rotated(cycle, i))
    ensures forall j :: 0 <= j < |cycle|
              ==> Moved(cycle, i, j) < |cycle| && (Late(cycle, j) <==> Late(Rotated(cycle, i), Moved(cycle, i, j)))
  {
    var turned := Rotated(cycle, i);
    forall p | 0 <= p < |turned|
      ensures turned[p] < |rows| && rows[turned[p]].child in keep && After(turned, p) < |rows|
              && rows[turned[p]].parent == rows[After(turned, p)].child
    {
      var j := RotatedFrom(cycle, i, p);
      RotatedAt(cycle, i, j);
    }
    forall j | 0 <= j < |cycle|
      ensures Moved(cycle, i, j) < |cycle| && (Late(cycle, j) <==> Late(turned, Moved(cycle, i, j)))
    {
      RotatedAt(cycle, i, j);
    }
  }

  /** Some row of a cycle is late: going up from row to row, positions in the list cannot decrease for ever. */
  lemma SomeLate(cycle: seq<nat>) returns (i: nat)
    requires |cycle| > 1 && Distinct(cycle)
    ensures i < |cycle| && Late(cycle, i)
  {
    i := 0;
    while i + 1 < |cycle| && !Late(cycle, i)
      invariant i < |cycle| && (i > 0 ==> cycle[i] < cycle[0])
      decreases |cycle| - i
    {
      i := i + 1;
    }
  }

  lemma CycleIsLong(rows: seq<Derivation>, keep: set<string>, cycle: seq<nat>)
    requires Keyed(rows) && IsCycle(rows, keep, cycle)
    ensures |cycle| > 1
  {
    assert rows[cycle[0]].parent == rows[After(cycle, 0)].child;
  }

  // ----- values that no longer change

  ghost predicate Fixed(members: map<string, Member>, keep: set<string>, rows: seq<Derivation>, id: string, n: nat,
      v: Option<string>) {
    forall m: nat, i: nat :: n <= m && i <= |rows| ==> ProjectOf(Stage(members, keep, rows, m, i), id) == v
  }

  lemma {:induction false} PassKeepsSome(members: map<string, Member>, keep: set<string>, rows: seq<Derivation>,
      id: string)
    requires ProjectOf(members, id).Some?
    ensures ProjectOf(RetargetPass(members, keep, rows), id).Some?
  {
    if rows != [] {
      PassKeepsSome(members, keep, rows[..|rows| - 1], id);
    }
  }

  lemma {:induction false} SomeStays(members: map<string, Member>, keep: set<string>, rows: seq<Derivation>, m: nat,
      i: nat, n: nat, id: string)
    requires m < n && i <= |rows| && ProjectOf(Stage(members, keep, rows, m, i), id).Some?
    ensures ProjectOf(Passes(members, keep, rows, n), id).Some?
  {
    if n == m + 1 {
      assert rows == rows[..i] + rows[i..];
      PassConcat(Passes(members, keep, rows, m), keep, rows[..i], rows[i..]);
      PassKeepsSome(Stage(members, keep, rows, m, i), keep, rows[i..], id);
    } else {
      SomeStays(members, keep, rows, m, i, n - 1, id);
      PassKeepsSome(Passes(members, keep, rows, n - 1), keep, rows, id);
    }
  }

  /** A session that no kept row changes. */
  lemma {:induction false} UnassignedStays(members: map<string, Member>, keep: set<string>, rows: seq<Derivation>,
      id: string)
    requires RowOf(rows, id).None? || id !in keep
    ensures ProjectOf(RetargetPass(members, keep, rows), id) == ProjectOf(members, id)
  {
    if rows != [] {
      var init := rows[..|rows| - 1];
      assert RowOf(rows, id).None? ==> RowOf(init, id).None?;
      UnassignedStays(members, keep, init, id);
    }
  }

  lemma {:induction false} RootFixed(members: map<string, Member>, keep: set<string>, rows: seq<Derivation>, id: string,
      m: nat, i: nat)
    requires (RowOf(rows, id).None? || id !in keep) && i <= |rows|
    ensures ProjectOf(Stage(members, keep, rows, m, i), id) == ProjectOf(members, id)
  {
    if m > 0 {
      RootFixed(members, keep, rows, id, m - 1, |rows|);
      StageStart(members, keep, rows, m - 1);
    }
    PrefixHasNoRow(rows, id, i);
    UnassignedStays(Passes(members, keep, rows, m), keep, rows[..i], id);
  }

  lemma PrefixHasNoRow(rows: seq<Derivation>, id: string, i: nat)
    requires i <= |rows|
    ensures RowOf(rows, id).None? ==> RowOf(rows[..i], id).None?
  {
  }

  /** A child is fixed one pass after its parent. */
  lemma ChildFixed(members: map<string, Member>, keep: set<string>, rows: seq<Derivation>, k: nat, n: nat,
      v: Option<string>) returns (w: Option<string>)
    requires Keyed(rows) && k < |rows| && rows[k].child in keep
    requires Fixed(members, keep, rows, rows[k].parent, n, v)
    ensures Fixed(members, keep, rows, rows[k].child, n + 1, w)
  {
    hide Stage, RetargetPass, Passes, Keyed;
    var child := rows[k].child;
    w := if v.Some? then v else ProjectOf(members, child);
    forall m: nat, i: nat | n + 1 <= m && i <= |rows|
      ensures ProjectOf(Stage(members, keep, rows, m, i), child) == w
    {
      if v.Some? {
        HeirSettles(members, keep, rows, m, i, k, v);
      } else {
        forall l | 0 <= l <= m
          ensures ProjectOf(Stage(members, keep, rows, l, k), rows[k].parent).None?
        {
          if l < n && ProjectOf(Stage(members, keep, rows, l, k), rows[k].parent).Some? {
            SomeStays(members, keep, rows, l, k, n, rows[k].parent);
            StageStart(members, keep, rows, n);
          }
        }
        IdleChildStays(members, keep, rows, m, i, k);
      }
    }
  }

  // ----- a cycle with one late row

  ghost predicate Uniform(members: map<string, Member>, rows: seq<Derivation>, cycle: seq<nat>, v: Option<string>) {
    forall p :: 0 <= p < |cycle| ==> cycle[p] < |rows| && ProjectOf(members, rows[cycle[p]].child) == v
  }

  /** A project shared all round stays. */
  lemma {:induction false} UniformStays(members: map<string, Member>, keep: set<string>, rows: seq<Derivation>,
      cycle: seq<nat>, n: nat, v: Option<string>, m: nat, i: nat)
    requires Keyed(rows) && IsCycle(rows, keep, cycle) && n <= m && i <= |rows|
    requires Uniform(Passes(members, keep, rows, n), rows, cycle, v)
    ensures Uniform(Stage(members, keep, rows, m, i), rows, cycle, v)
    decreases m, i
  {
    hide Stage, RetargetPass, Passes, Keyed;
    if m > n {
      UniformStays(members, keep, rows, cycle, n, v, m - 1, |rows|);
      StageStart(members, keep, rows, m - 1);
    }
    hide IsCycle;
    InRange(rows, keep, cycle);
    forall p | 0 <= p < |cycle|
      ensures ProjectOf(Stage(members, keep, rows, m, i), rows[cycle[p]].child) == v
    {
      var k := cycle[p];
      ChildStage(members, keep, rows, m, i, k);
      if k < i {
        UniformStays(members, keep, rows, cycle, n, v, m, k);
        UniformAfter(Stage(members, keep, rows, m, k), keep, rows, cycle, v, p);
      }
    }
  }

  lemma UniformAfter(members: map<string, Member>, keep: set<string>, rows: seq<Derivation>, cycle: seq<nat>,
      v: Option<string>, p: nat)
    requires IsCycle(rows, keep, cycle) && p < |cycle| && Uniform(members, rows, cycle, v)
    ensures ProjectOf(members, rows[cycle[p]].parent) == v
  {
    assert rows[cycle[p]].parent == rows[After(cycle, p)].child;
    assert p + 1 < |cycle| || After(cycle, p) == cycle[0];
  }

  /** Only the last row of the cycle is late, so a pass runs through the cycle from its last row to its first. */
  ghost predicate Straight(cycle: seq<nat>) {
    forall p, q :: 0 <= p < q < |cycle| && q == p + 1 ==> cycle[q] < cycle[p]
  }

  lemma CycleStep(rows: seq<Derivation>, keep: set<string>, cycle: seq<nat>, p: nat)
    requires IsCycle(rows, keep, cycle) && p < |cycle|
    ensures cycle[p] < |rows| && After(cycle, p) < |rows| && rows[cycle[p]].child in keep
    ensures rows[cycle[p]].parent == rows[After(cycle, p)].child
  {
  }

  /** A row listed after the row of its parent has the parent's project after each pass, unless that is none. */
  lemma RowFollows(members: map<string, Member>, keep: set<string>, rows: seq<Derivation>, m: nat, k: nat, up: nat)
    requires Keyed(rows) && up < k < |rows| && rows[k].parent == rows[up].child && rows[k].child in keep
    ensures var after := Passes(members, keep, rows, m + 1);
            var inherited := ProjectOf(after, rows[k].parent);
            ProjectOf(after, rows[k].child) == if inherited.Some? then inherited
                else ProjectOf(Passes(members, keep, rows, m), rows[k].child)
  {
    hide Stage, RetargetPass, Passes, Keyed;
    StageStart(members, keep, rows, m);
    ChildStage(members, keep, rows, m, |rows|, k);
    ChildStage(members, keep, rows, m, k, up);
    ChildStage(members, keep, rows, m, |rows|, up);
  }

  /** A row listed before the row of its parent gets what the parent had before the pass. */
  lemma RowLags(members: map<string, Member>, keep: set<string>, rows: seq<Derivation>, m: nat, k: nat, up: nat)
    requires Keyed(rows) && k < up < |rows| && rows[k].parent == rows[up].child && rows[k].child in keep
    ensures var inherited := ProjectOf(Passes(members, keep, rows, m), rows[k].parent);
            ProjectOf(Passes(members, keep, rows, m + 1), rows[k].child)
            == if inherited.Some? then inherited else ProjectOf(Passes(members, keep, rows, m), rows[k].child)
  {
    hide Stage, RetargetPass, Passes, Keyed;
    StageStart(members, keep, rows, m);
    ChildStage(members, keep, rows, m, |rows|, k);
    ChildStage(members, keep, rows, m, k, up);
  }

  lemma FollowsParent(members: map<string, Member>, keep: set<string>, rows: seq<Derivation>, cycle: seq<nat>, m: nat,
      p: nat)
    requires Keyed(rows) && IsCycle(rows, keep, cycle) && p < |cycle| && After(cycle, p) < cycle[p]
    ensures var after := Passes(members, keep, rows, m + 1);
            var inherited := ProjectOf(after, rows[cycle[p]].parent);
            ProjectOf(after, rows[cycle[p]].child) == if inherited.Some? then inherited
                else ProjectOf(Passes(members, keep, rows, m), rows[cycle[p]].child)
  {
    hide Passes, Keyed, IsCycle, ProjectOf;
    CycleStep(rows, keep, cycle, p);
    RowFollows(members, keep, rows, m, cycle[p], After(cycle, p));
  }

  lemma FollowsLate(members: map<string, Member>, keep: set<string>, rows: seq<Derivation>, cycle: seq<nat>, m: nat,
      p: nat)
    requires Keyed(rows) && IsCycle(rows, keep, cycle) && p < |cycle| && Late(cycle, p)
    ensures var inherited := ProjectOf(Passes(members, keep, rows, m), rows[cycle[p]].parent);
            ProjectOf(Passes(members, keep, rows, m + 1), rows[cycle[p]].child)
            == if inherited.Some? then inherited else ProjectOf(Passes(members, keep, rows, m), rows[cycle[p]].child)
  {
    hide Passes, Keyed, IsCycle, ProjectOf;
    CycleStep(rows, keep, cycle, p);
    RowLags(members, keep, rows, m, cycle[p], After(cycle, p));
  }

  /** A project that the last row has after a pass goes all the way round. */
  lemma {:induction false} CarriedRound(members: map<string, Member>, keep: set<string>, rows: seq<Derivation>,
      cycle: seq<nat>, m: nat, p: nat)
    requires Keyed(rows) && IsCycle(rows, keep, cycle) && Straight(cycle) && p < |cycle|
    requires ProjectOf(Passes(members, keep, rows, m + 1), rows[cycle[|cycle| - 1]].child).Some?
    ensures var after := Passes(members, keep, rows, m + 1);
            ProjectOf(after, rows[cycle[p]].child) == ProjectOf(after, rows[cycle[|cycle| - 1]].child)
    decreases |cycle| - p
  {
    hide Passes, Keyed;
    if p + 1 < |cycle| {
      CarriedRound(members, keep, rows, cycle, m, p + 1);
      FollowsParent(members, keep, rows, cycle, m, p);
    }
  }

  /** If the first row has no project after a pass, no row has. */
  lemma {:induction false} NothingCarried(members: map<string, Member>, keep: set<string>, rows: seq<Derivation>,
      cycle: seq<nat>, m: nat, p: nat)
    requires Keyed(rows) && IsCycle(rows, keep, cycle) && Straight(cycle) && p < |cycle|
    requires ProjectOf(Passes(members, keep, rows, m + 1), rows[cycle[0]].child).None?
    ensures ProjectOf(Passes(members, keep, rows, m + 1), rows[cycle[p]].child).None?
  {
    hide Passes, Keyed;
    if p > 0 {
      NothingCarried(members, keep, rows, cycle, m, p - 1);
      FollowsParent(members, keep, rows, cycle, m, p - 1);
    }
  }

  lemma NothingRound(members: map<string, Member>, keep: set<string>, rows: seq<Derivation>, cycle: seq<nat>)
    requires Keyed(rows) && IsCycle(rows, keep, cycle) && Straight(cycle)
    requires ProjectOf(Passes(members, keep, rows, 1), rows[cycle[0]].child).None?
    ensures Uniform(Passes(members, keep, rows, 2), rows, cycle, None)
  {
    hide Passes, Keyed, Straight;
    var one := Passes(members, keep, rows, 1);
    forall p | 0 <= p < |cycle|
      ensures ProjectOf(one, rows[cycle[p]].child) == None
    {
      NothingCarried(members, keep, rows, cycle, 0, p);
    }
    UniformStays(members, keep, rows, cycle, 1, None, 2, 0);
    StageStart(members, keep, rows, 2);
  }

  lemma OneRound(members: map<string, Member>, keep: set<string>, rows: seq<Derivation>, cycle: seq<nat>)
    requires Keyed(rows) && IsCycle(rows, keep, cycle) && Straight(cycle) && Late(cycle, |cycle| - 1)
    requires ProjectOf(Passes(members, keep, rows, 1), rows[cycle[0]].child).Some?
    ensures Uniform(Passes(members, keep, rows, 2), rows, cycle,
            ProjectOf(Passes(members, keep, rows, 2), rows[cycle[|cycle| - 1]].child))
  {
    hide Passes, Keyed, Straight;
    var last := |cycle| - 1;
    assert rows[cycle[last]].parent == rows[After(cycle, last)].child;
    FollowsLate(members, keep, rows, cycle, 1, last);
    forall p | 0 <= p < |cycle|
      ensures ProjectOf(Passes(members, keep, rows, 2), rows[cycle[p]].child)
              == ProjectOf(Passes(members, keep, rows, 2), rows[cycle[last]].child)
    {
      CarriedRound(members, keep, rows, cycle, 1, p);
    }
  }

  lemma StraightUniform(members: map<string, Member>, keep: set<string>, rows: seq<Derivation>, cycle: seq<nat>)
      returns (v: Option<string>)
    requires Keyed(rows) && IsCycle(rows, keep, cycle) && Straight(cycle)
    ensures Uniform(Passes(members, keep, rows, 2), rows, cycle, v)
  {
    hide Passes, Keyed, Straight, Uniform, After, ProjectOf;
    if ProjectOf(Passes(members, keep, rows, 1), rows[cycle[0]].child).None? {
      v := None;
      NothingRound(members, keep, rows, cycle);
    } else {
      CycleIsLong(rows, keep, cycle);
      StraightIsLate(cycle, |cycle| - 1);
      OneRound(members, keep, rows, cycle);
      v := ProjectOf(Passes(members, keep, rows, 2), rows[cycle[|cycle| - 1]].child);
    }
  }

  lemma {:induction false} StraightIsLate(cycle: seq<nat>, p: nat)
    requires Straight(cycle) && 0 < p < |cycle|
    ensures cycle[p] < cycle[0]
    ensures p == |cycle| - 1 ==> Late(cycle, p)
  {
    assert cycle[p] < cycle[p - 1];
    if p > 1 {
      StraightIsLate(cycle, p - 1);
    }
  }

  /** A cycle with one late row, read from the row after it, is straight. */
  lemma TurnedIsStraight(rows: seq<Derivation>, keep: set<string>, cycle: seq<nat>, i: nat)
    requires IsCycle(rows, keep, cycle) && LateOnce(cycle) && i < |cycle| && Late(cycle, i)
    ensures IsCycle(rows, keep, Rotated(cycle, i)) && Straight(Rotated(cycle, i))
  {
    hide IsCycle, Rotated;
    var turned := Rotated(cycle, i);
    RotatedIsCycle(rows, keep, cycle, i);
    RotatedAt(cycle, i, i);
    DistinctCycle(rows, keep, turned);
    forall p, q | 0 <= p < q < |turned| && q == p + 1
      ensures turned[q] < turned[p]
    {
      var j := RotatedFrom(cycle, i, p);
      RotatedAt(cycle, i, j);
      assert !Late(cycle, j);
      assert !Late(turned, p);
    }
  }

  lemma DistinctCycle(rows: seq<Derivation>, keep: set<string>, cycle: seq<nat>)
    requires IsCycle(rows, keep, cycle)
    ensures Distinct(cycle)
  {
  }

  lemma CycleFixed(members: map<string, Member>, keep: set<string>, rows: seq<Derivation>, cycle: seq<nat>, at: nat)
      returns (v: Option<string>)
    requires Keyed(rows) && IsCycle(rows, keep, cycle) && LateOnce(cycle) && at < |cycle|
    ensures cycle[at] < |rows| && Fixed(members, keep, rows, rows[cycle[at]].child, 2, v)
  {
    hide Passes, Keyed, Stage, IsCycle, Rotated, LateOnce, Straight, ProjectOf;
    CycleIsLong(rows, keep, cycle);
    InRange(rows, keep, cycle);
    DistinctCycle(rows, keep, cycle);
    var i := SomeLate(cycle);
    var turned := Rotated(cycle, i);
    TurnedIsStraight(rows, keep, cycle, i);
    v := StraightUniform(members, keep, rows, turned);
    RotatedAt(cycle, i, at);
    forall m: nat, s: nat | 2 <= m && s <= |rows|
      ensures ProjectOf(Stage(members, keep, rows, m, s), rows[cycle[at]].child) == v
    {
      UniformStays(members, keep, rows, turned, 2, v, m, s);
      assert turned[Moved(cycle, i, at)] == cycle[at];
    }
  }

  // ----- the way up from a row

  /** The kept row of a row's parent. */
  function Up(rows: seq<Derivation>, keep: set<string>, k: nat): (r: Option<nat>)
    requires k < |rows|
    ensures r.Some? ==> r.value < |rows| && rows[r.value].child == rows[k].parent && rows[r.value].child in keep
    ensures r.None? ==> RowOf(rows, rows[k].parent).None? || rows[k].parent !in keep
  {
    var r := RowOf(rows, rows[k].parent);
    if r.Some? && rows[k].parent in keep then r else None
  }

  ghost predicate IsPath(rows: seq<Derivation>, keep: set<string>, path: seq<nat>) {
    && path != [] && Distinct(path)
    && (forall i :: 0 <= i < |path| ==> path[i] < |rows| && rows[path[i]].child in keep)
    && (forall i, j :: 0 <= i < j < |path| && j == i + 1 ==> rows[path[i]].parent == rows[path[j]].child)
  }

  lemma PathIsShort(rows: seq<Derivation>, keep: set<string>, path: seq<nat>)
    requires IsPath(rows, keep, path)
    ensures |path| <= |rows|
  {
    DistinctSize(path);
    RangeSize(set i | 0 <= i < |path| :: path[i], |rows|);
  }

  lemma {:induction false} DistinctSize(s: seq<nat>)
    requires Distinct(s)
    ensures |set i | 0 <= i < |s| :: s[i]| == |s|
  {
    if s != [] {
      var init, last := s[..|s| - 1], s[|s| - 1];
      DistinctSize(init);
      assert (set i | 0 <= i < |s| :: s[i]) == (set i | 0 <= i < |init| :: init[i]) + {last};
    }
  }

  /** Every way up ends at a session without a kept row, or comes back to a row already met. */
  lemma WayUp(rows: seq<Derivation>, keep: set<string>, path: seq<nat>) returns (full: seq<nat>, back: Option<nat>)
    requires IsPath(rows, keep, path)
    ensures IsPath(rows, keep, full) && path <= full
    ensures back.None? ==> Up(rows, keep, full[|full| - 1]).None?
    ensures back.Some? ==> back.value < |full| && rows[full[|full| - 1]].parent == rows[full[back.value]].child
    decreases |rows| - |path|
  {
    PathIsShort(rows, keep, path);
    var up := Up(rows, keep, path[|path| - 1]);
    if up.None? {
      full, back := path, None;
    } else if up.value in path {
      var j :| 0 <= j < |path| && path[j] == up.value;
      full, back := path, Some(j);
    } else {
      PathIsShort(rows, keep, path + [up.value]);
      full, back := WayUp(rows, keep, path + [up.value]);
    }
  }

  lemma PathEndsInCycle(rows: seq<Derivation>, keep: set<string>, path: seq<nat>, back: nat)
    requires IsPath(rows, keep, path) && back < |path| && rows[path[|path| - 1]].parent == rows[path[back]].child
    ensures IsCycle(rows, keep, path[back..])
  {
    var cycle := path[back..];
    forall i | 0 <= i < |cycle|
      ensures After(cycle, i) < |rows| && rows[cycle[i]].parent == rows[After(cycle, i)].child
    {
      assert cycle[i] == path[back + i];
    }
  }

  ghost predicate CyclesAreLateOnce(rows: seq<Derivation>, keep: set<string>) {
    forall cycle :: IsCycle(rows, keep, cycle) ==> LateOnce(cycle)
  }

  /**
   * Each row of a path is fixed one pass after the next; the last one in the first pass, or with its cycle in the
   * second.
   */
  lemma PathFixed(members: map<string, Member>, keep: set<string>, rows: seq<Derivation>, path: seq<nat>,
      back: Option<nat>, i: nat) returns (n: nat, v: Option<string>)
    requires Keyed(rows) && IsPath(rows, keep, path) && i < |path| && CyclesAreLateOnce(rows, keep)
    requires back.None? ==> Up(rows, keep, path[|path| - 1]).None?
    requires back.Some? ==> back.value < |path| && rows[path[|path| - 1]].parent == rows[path[back.value]].child
    ensures Fixed(members, keep, rows, rows[path[i]].child, n, v)
    ensures n <= if back.None? then |path| - i else if i < back.value then 2 + back.value - i else 2
    decreases |path| - i
  {
    hide Keyed, Stage, Passes, Fixed;
    if back.Some? && back.value <= i {
      PathEndsInCycle(rows, keep, path, back.value);
      v := CycleFixed(members, keep, rows, path[back.value..], i - back.value);
      n := 2;
    } else {
      var before, w;
      if i + 1 < |path| {
        before, w := PathFixed(members, keep, rows, path, back, i + 1);
      } else {
        before, w := 0, ProjectOf(members, rows[path[i]].parent);
        FixedRoot(members, keep, rows, rows[path[i]].parent);
      }
      v := ChildFixed(members, keep, rows, path[i], before, w);
      n := before + 1;
    }
  }

  lemma FixedRoot(members: map<string, Member>, keep: set<string>, rows: seq<Derivation>, id: string)
    requires RowOf(rows, id).None? || id !in keep
    ensures Fixed(members, keep, rows, id, 0, ProjectOf(members, id))
  {
    forall m: nat, i: nat | i <= |rows|
      ensures ProjectOf(Stage(members, keep, rows, m, i), id) == ProjectOf(members, id)
    {
      RootFixed(members, keep, rows, id, m, i);
    }
  }

  lemma RowFixed(members: map<string, Member>, keep: set<string>, rows: seq<Derivation>, k: nat)
      returns (v: Option<string>)
    requires Keyed(rows) && k < |rows| && rows[k].child in keep && CyclesAreLateOnce(rows, keep)
    ensures Fixed(members, keep, rows, rows[k].child, |rows|, v)
  {
    hide Keyed, Stage, Passes;
    var path, back := WayUp(rows, keep, [k]);
    assert path[0] == k;
    PathIsShort(rows, keep, path);
    if back.Some? {
      PathEndsInCycle(rows, keep, path, back.value);
      CycleIsLong(rows, keep, path[back.value..]);
    }
    var n;
    n, v := PathFixed(members, keep, rows, path, back, 0);
  }

  lemma BoundSettles(members: map<string, Member>, keep: set<string>, rows: seq<Derivation>)
    requires Keyed(rows) && CyclesAreLateOnce(rows, keep)
    ensures AllSettled(Retargeted(members, keep, rows), keep, rows)
  {
    hide Keyed, Stage, Passes, CyclesAreLateOnce, Fixed;
    forall k | 0 <= k < |rows|
      ensures Settled(Retargeted(members, keep, rows), keep, rows[k])
    {
      if rows[k].child in keep {
        var v := RowFixed(members, keep, rows, k);
        var w;
        var up := Up(rows, keep, k);
        if up.Some? {
          w := RowFixed(members, keep, rows, up.value);
        } else {
          w := ProjectOf(members, rows[k].parent);
          FixedRoot(members, keep, rows, rows[k].parent);
          FixedLater(members, keep, rows, rows[k].parent, w);
        }
        FixedSettles(members, keep, rows, k, v, w);
      }
    }
  }

  lemma FixedLater(members: map<string, Member>, keep: set<string>, rows: seq<Derivation>, id: string,
      w: Option<string>)
    requires Fixed(members, keep, rows, id, 0, w)
    ensures Fixed(members, keep, rows, id, |rows|, w)
  {
  }

  lemma FixedSettles(members: map<string, Member>, keep: set<string>, rows: seq<Derivation>, k: nat, v: Option<string>,
      w: Option<string>)
    requires Keyed(rows) && k < |rows| && rows[k].child in keep
    requires Fixed(members, keep, rows, rows[k].child, |rows|, v)
            && Fixed(members, keep, rows, rows[k].parent, |rows|, w)
    ensures Settled(Retargeted(members, keep, rows), keep, rows[k])
  {
    hide Keyed, Stage, Passes;
    StageStart(members, keep, rows, |rows|);
    assert Retargeted(members, keep, rows) == Passes(members, keep, rows, |rows|);
    ChildStage(members, keep, rows, |rows|, |rows|, k);
  }

  // ----- a cycle with two late rows

  /** Everything on the cycle is in one project, except one session. */
  function Marked(rows: seq<Derivation>, cycle: seq<nat>, id: string): map<string, Member>
    requires forall p :: 0 <= p < |cycle| ==> cycle[p] < |rows|
  {
    map p | 0 <= p < |cycle| :: rows[cycle[p]].child := Member(Some(if rows[cycle[p]].child == id then "p" else "q"), 0)
  }

  ghost predicate AllSome(members: map<string, Member>, rows: seq<Derivation>, cycle: seq<nat>) {
    forall p :: 0 <= p < |cycle| ==> cycle[p] < |rows| && ProjectOf(members, rows[cycle[p]].child).Some?
  }

  lemma {:induction false} AllSomeStays(members: map<string, Member>, keep: set<string>, rows: seq<Derivation>,
      cycle: seq<nat>, n: nat)
    requires AllSome(members, rows, cycle)
    ensures AllSome(Passes(members, keep, rows, n), rows, cycle)
  {
    if n > 0 {
      AllSomeStays(members, keep, rows, cycle, n - 1);
      forall p | 0 <= p < |cycle|
        ensures ProjectOf(Passes(members, keep, rows, n), rows[cycle[p]].child).Some?
      {
        PassKeepsSome(Passes(members, keep, rows, n - 1), keep, rows, rows[cycle[p]].child);
      }
    }
  }

  /** The cycle ends in a late row: if it is uniform after a pass, it was so before, from the second pass on. */
  lemma UniformBefore(members: map<string, Member>, keep: set<string>, rows: seq<Derivation>, cycle: seq<nat>, n: nat,
      v: Option<string>)
    requires Keyed(rows) && IsCycle(rows, keep, cycle) && Late(cycle, |cycle| - 1) && n > 0
    requires AllSome(members, rows, cycle) && Uniform(Passes(members, keep, rows, n + 1), rows, cycle, v)
    ensures Uniform(Passes(members, keep, rows, n), rows, cycle, v)
  {
    hide Keyed, Passes;
    forall p | 0 <= p < |cycle|
      ensures ProjectOf(Passes(members, keep, rows, n), rows[cycle[p]].child) == v
    {
      UniformBeforeAt(members, keep, rows, cycle, n, v, p);
    }
  }

  lemma {:induction false} UniformBeforeAt(members: map<string, Member>, keep: set<string>, rows: seq<Derivation>,
      cycle: seq<nat>, n: nat, v: Option<string>, p: nat)
    requires Keyed(rows) && IsCycle(rows, keep, cycle) && Late(cycle, |cycle| - 1) && n > 0 && p < |cycle|
    requires AllSome(members, rows, cycle) && Uniform(Passes(members, keep, rows, n + 1), rows, cycle, v)
    ensures ProjectOf(Passes(members, keep, rows, n), rows[cycle[p]].child) == v
  {
    hide Keyed, Passes, IsCycle, ProjectOf;
    InRange(rows, keep, cycle);
    AllSomeStays(members, keep, rows, cycle, n);
    var q := if p == 0 then |cycle| - 1 else p - 1;
    CycleStep(rows, keep, cycle, q);
    assert After(cycle, q) == cycle[p];
    if Late(cycle, q) {
      FollowsLate(members, keep, rows, cycle, n, q);
    } else {
      CycleIsLong(rows, keep, cycle);
      DistinctCycle(rows, keep, cycle);
      UniformBeforeAt(members, keep, rows, cycle, n, v, q);
      FollowsParent(members, keep, rows, cycle, n - 1, q);
    }
  }

  lemma {:induction false} UniformFromFirst(members: map<string, Member>, keep: set<string>, rows: seq<Derivation>,
      cycle: seq<nat>, n: nat, v: Option<string>)
    requires Keyed(rows) && IsCycle(rows, keep, cycle) && Late(cycle, |cycle| - 1) && n > 0
    requires AllSome(members, rows, cycle) && Uniform(Passes(members, keep, rows, n), rows, cycle, v)
    ensures Uniform(Passes(members, keep, rows, 1), rows, cycle, v)
  {
    hide Keyed, Passes;
    if n > 1 {
      UniformBefore(members, keep, rows, cycle, n - 1, v);
      UniformFromFirst(members, keep, rows, cycle, n - 1, v);
    }
  }

  lemma {:induction false} SettledUniform(members: map<string, Member>, keep: set<string>, rows: seq<Derivation>,
      cycle: seq<nat>, p: nat)
    requires IsCycle(rows, keep, cycle) && AllSome(members, rows, cycle) && AllSettled(members, keep, rows)
            && p < |cycle|
    ensures ProjectOf(members, rows[cycle[p]].child) == ProjectOf(members, rows[cycle[0]].child)
  {
    if p > 0 {
      SettledUniform(members, keep, rows, cycle, p - 1);
      assert Settled(members, keep, rows[cycle[p - 1]]);
      assert rows[cycle[p - 1]].parent == rows[After(cycle, p - 1)].child;
    }
  }

  lemma MarkedAt(rows: seq<Derivation>, cycle: seq<nat>, id: string, p: nat)
    requires p < |cycle| && forall q :: 0 <= q < |cycle| ==> cycle[q] < |rows|
    ensures ProjectOf(Marked(rows, cycle, id), rows[cycle[p]].child)
            == Some(if rows[cycle[p]].child == id then "p" else "q")
  {
  }

  lemma TwoLateNeverSettle(keep: set<string>, rows: seq<Derivation>, cycle: seq<nat>, a: nat, n: nat)
      returns (members: map<string, Member>)
    requires Keyed(rows) && IsCycle(rows, keep, cycle) && a + 1 < |cycle| && Late(cycle, a) && Late(cycle, |cycle| - 1)
            && n > 0
    ensures !AllSettled(Passes(members, keep, rows, n), keep, rows)
  {
    hide Passes, Keyed, Marked, ProjectOf, AllSettled;
    members := Marked(rows, cycle, rows[cycle[0]].child);
    forall p | 0 <= p < |cycle|
      ensures ProjectOf(members, rows[cycle[p]].child).Some?
    {
      MarkedAt(rows, cycle, rows[cycle[0]].child, p);
    }
    AllSomeStays(members, keep, rows, cycle, n);
    var end := Passes(members, keep, rows, n);
    if AllSettled(end, keep, rows) {
      var v := ProjectOf(end, rows[cycle[0]].child);
      forall p | 0 <= p < |cycle|
        ensures ProjectOf(end, rows[cycle[p]].child) == v
      {
        SettledUniform(end, keep, rows, cycle, p);
      }
      UniformFromFirst(members, keep, rows, cycle, n, v);
      FirstPassDiffers(keep, rows, cycle, a, members, v);
      assert false;
    }
  }

  lemma InRange(rows: seq<Derivation>, keep: set<string>, cycle: seq<nat>)
    requires IsCycle(rows, keep, cycle)
    ensures forall p :: 0 <= p < |cycle| ==> cycle[p] < |rows|
  {
  }

  /** After the first pass the late rows show which of their parents was marked. */
  lemma FirstLate(keep: set<string>, rows: seq<Derivation>, cycle: seq<nat>, id: string, p: nat, q: nat)
    requires Keyed(rows) && IsCycle(rows, keep, cycle) && p < |cycle| && Late(cycle, p) && q < |cycle|
            && After(cycle, p) == cycle[q]
    ensures ProjectOf(Passes(Marked(rows, cycle, id), keep, rows, 1), rows[cycle[p]].child)
            == Some(if rows[cycle[q]].child == id then "p" else "q")
  {
    hide Passes, Marked, ProjectOf, Keyed, IsCycle;
    InRange(rows, keep, cycle);
    CycleStep(rows, keep, cycle, p);
    NoPass(Marked(rows, cycle, id), keep, rows);
    RowLags(Marked(rows, cycle, id), keep, rows, 0, cycle[p], cycle[q]);
    MarkedAt(rows, cycle, id, q);
  }

  lemma DifferentSessions(rows: seq<Derivation>, keep: set<string>, cycle: seq<nat>, p: nat, q: nat)
    requires Keyed(rows) && IsCycle(rows, keep, cycle) && p < q < |cycle|
    ensures rows[cycle[p]].child != rows[cycle[q]].child
  {
    assert cycle[p] != cycle[q];
  }

  lemma FirstPassDiffers(keep: set<string>, rows: seq<Derivation>, cycle: seq<nat>, a: nat,
      members: map<string, Member>, v: Option<string>)
    requires Keyed(rows) && IsCycle(rows, keep, cycle) && a + 1 < |cycle| && Late(cycle, a) && Late(cycle, |cycle| - 1)
    requires members == Marked(rows, cycle, rows[cycle[0]].child)
    ensures !Uniform(Passes(members, keep, rows, 1), rows, cycle, v)
  {
    hide Passes, Marked, ProjectOf, Keyed, IsCycle;
    InRange(rows, keep, cycle);
    FirstLate(keep, rows, cycle, rows[cycle[0]].child, a, a + 1);
    FirstLate(keep, rows, cycle, rows[cycle[0]].child, |cycle| - 1, 0);
    DifferentSessions(rows, keep, cycle, 0, a + 1);
  }

  lemma NoPass(members: map<string, Member>, keep: set<string>, rows: seq<Derivation>)
    ensures Passes(members, keep, rows, 0) == members
  {
  }

  lemma TwoLateTurned(rows: seq<Derivation>, keep: set<string>, cycle: seq<nat>, i: nat, j: nat)
      returns (turned: seq<nat>, a: nat)
    requires Keyed(rows) && IsCycle(rows, keep, cycle) && i < |cycle| && j < |cycle| && i != j && Late(cycle, i)
            && Late(cycle, j)
    ensures IsCycle(rows, keep, turned) && a + 1 < |turned| && Late(turned, a) && Late(turned, |turned| - 1)
  {
    hide Keyed, IsCycle, After, Rotated;
    turned := Rotated(cycle, i);
    RotatedIsCycle(rows, keep, cycle, i);
    RotatedAt(cycle, i, j);
    RotatedAt(cycle, i, i);
    a := Moved(cycle, i, j);
  }

  // ----- the exact condition

  /**
   * The pass bound settles every assignment of projects exactly when no cycle of kept derivations has two rows listed
   * before the rows of their parents.
   */
  lemma PassBoundSettles(keep: set<string>, rows: seq<Derivation>)
    requires Keyed(rows)
    ensures (forall members :: AllSettled(Retargeted(members, keep, rows), keep, rows))
            <==> CyclesAreLateOnce(rows, keep)
  {
    hide Keyed, Passes, LateOnce, IsCycle;
    if CyclesAreLateOnce(rows, keep) {
      forall members
        ensures AllSettled(Retargeted(members, keep, rows), keep, rows)
      {
        BoundSettles(members, keep, rows);
      }
    } else {
      var cycle :| IsCycle(rows, keep, cycle) && !LateOnce(cycle);
      var members := Unsettled(keep, rows, cycle);
      assert !AllSettled(Retargeted(members, keep, rows), keep, rows);
    }
  }

  lemma Unsettled(keep: set<string>, rows: seq<Derivation>, cycle: seq<nat>) returns (members: map<string, Member>)
    requires Keyed(rows) && IsCycle(rows, keep, cycle) && !LateOnce(cycle)
    ensures !AllSettled(Retargeted(members, keep, rows), keep, rows)
  {
    hide Passes;
    var i, j :| 0 <= i < |cycle| && 0 <= j < |cycle| && Late(cycle, i) && Late(cycle, j) && i != j;
    var turned, a := TwoLateTurned(rows, keep, cycle, i, j);
    assert |rows| > 0;
    members := TwoLateNeverSettle(keep, rows, turned, a, |rows|);
  }

  /** In a forest there is no cycle, so the bound settles everything. */
  lemma ForestHasNoCycle(rows: seq<Derivation>, keep: set<string>, rank: string -> nat, cycle: seq<nat>)
    requires Forest(rows, rank)
    ensures !IsCycle(rows, keep, cycle)
  {
    if IsCycle(rows, keep, cycle) {
      var last := |cycle| - 1;
      RankFalls(rows, keep, rank, cycle, last);
      CycleStep(rows, keep, cycle, last);
      assert false;
    }
  }

  lemma {:induction false} RankFalls(rows: seq<Derivation>, keep: set<string>, rank: string -> nat, cycle: seq<nat>,
      p: nat)
    requires Forest(rows, rank) && IsCycle(rows, keep, cycle) && p < |cycle|
    ensures cycle[p] < |rows| && rank(rows[cycle[p]].child) <= rank(rows[cycle[0]].child)
  {
    hide IsCycle;
    InRange(rows, keep, cycle);
    if p > 0 {
      RankFalls(rows, keep, rank, cycle, p - 1);
      CycleStep(rows, keep, cycle, p - 1);
    }
  }

  const ROUND: seq<Derivation> := [Derivation("a", "b", true), Derivation("b", "c", true), Derivation("c", "a", true)]
  const ROUND_BACK: seq<Derivation> :=
      [Derivation("a", "b", true), Derivation("c", "a", true), Derivation("b", "c", true)]

  /** The same three derivations settle in one listing and need not in another. */
  lemma ListingDecides()
    ensures multiset(ROUND) == multiset(ROUND_BACK)
    ensures !(forall members :: AllSettled(Retargeted(members, {"a", "b", "c"}, ROUND), {"a", "b", "c"}, ROUND))
    ensures forall members :: AllSettled(Retargeted(members, {"a", "b", "c"}, ROUND_BACK), {"a", "b", "c"}, ROUND_BACK)
  {
    hide AllSettled, Retargeted, IsCycle, LateOnce, Keyed;
    SameRound();
    PassBoundSettles({"a", "b", "c"}, ROUND);
    RoundIsLateTwice();
    PassBoundSettles({"a", "b", "c"}, ROUND_BACK);
    forall cycle | IsCycle(ROUND_BACK, {"a", "b", "c"}, cycle)
      ensures LateOnce(cycle)
    {
      RoundBackIsLateOnce(cycle);
    }
  }

  lemma Swapped(x: Derivation, y: Derivation, z: Derivation)
    ensures multiset([x, y, z]) == multiset([x, z, y])
  {
    assert [x, y, z] == [x] + [y] + [z] && [x, z, y] == [x] + [z] + [y];
  }

  lemma SameRound()
    ensures multiset(ROUND) == multiset(ROUND_BACK)
    ensures Keyed(ROUND) && Keyed(ROUND_BACK)
  {
    Swapped(Derivation("a", "b", true), Derivation("b", "c", true), Derivation("c", "a", true));
    assert "a"[0] == 'a' && "b"[0] == 'b' && "c"[0] == 'c';
  }

  lemma RoundIsLateTwice()
    ensures !CyclesAreLateOnce(ROUND, {"a", "b", "c"})
  {
    var cycle: seq<nat> := [0, 1, 2];
    assert IsCycle(ROUND, {"a", "b", "c"}, cycle);
    assert Late(cycle, 0) && Late(cycle, 1);
  }

  lemma RoundBackIsLateOnce(cycle: seq<nat>)
    requires IsCycle(ROUND_BACK, {"a", "b", "c"}, cycle)
    ensures LateOnce(cycle)
  {
    forall i | 0 <= i < |cycle| && Late(cycle, i)
      ensures cycle[i] == 0
    {
      CycleStep(ROUND_BACK, {"a", "b", "c"}, cycle, i);
    }
  }
}
