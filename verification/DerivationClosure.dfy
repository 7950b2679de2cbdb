/**
 * Sessions derived from one another: which of them a keep set pulls in, and how projects spread from parent to child.
 */
module DerivationClosure {
  import opened Outcomes
  import opened Sequences

  /**
   * A row of the derivation table. The flag stands for the kind, a continuation in DSH, together with the join that
   * finds the base version among the versions of the parent.
   */
  datatype Derivation = Derivation(child: string, parent: string, continuation: bool)

  datatype Member = Member(projectId: Option<string>, revision: nat)

  // ----- the least set closed under derivation

  ghost predicate Closed(keep: set<string>, rows: seq<Derivation>) {
    forall k :: 0 <= k < |rows| && rows[k].parent in keep ==> rows[k].child in keep
  }

  function Children(rows: seq<Derivation>): set<string> {
    set k | 0 <= k < |rows| :: rows[k].child
  }

  /** One pass over the rows, adding children of what is kept so far. */
  function Pass(keep: set<string>, rows: seq<Derivation>): (r: set<string>)
    ensures keep <= r <= keep + Children(rows)
  {
    if rows == [] then keep
    else
      var before := Pass(keep, rows[..|rows| - 1]);
      assert Children(rows) == Children(rows[..|rows| - 1]) + {Last(rows).child};
      if Last(rows).parent in before then before + {Last(rows).child} else before
  }

  /** Passes are repeated until one adds nothing. */
  function Closure(keep: set<string>, rows: seq<Derivation>): set<string>
    decreases |Children(rows) - keep|
  {
    var next := Pass(keep, rows);
    if next == keep then keep
    else
      PassShrinks(keep, rows);
      Closure(next, rows)
  }

  lemma PassShrinks(keep: set<string>, rows: seq<Derivation>)
    requires Pass(keep, rows) != keep
    ensures |Children(rows) - Pass(keep, rows)| < |Children(rows) - keep|
  {
    var next := Pass(keep, rows);
    var x :| x in next && x !in keep;
    assert x in Children(rows) - keep && x !in Children(rows) - next;
    Smaller(Children(rows) - next, Children(rows) - keep, x);
  }

  lemma Smaller(a: set<string>, b: set<string>, x: string)
    requires a <= b && x in b && x !in a
    ensures |a| < |b|
  {
    assert a <= b - {x};
    SubsetSize(a, b - {x});
  }

  lemma {:induction false} SubsetSize(a: set<string>, b: set<string>)
    requires a <= b
    ensures |a| <= |b|
  {
    if a != {} {
      var x :| x in a;
      SubsetSize(a - {x}, b - {x});
    }
  }

  lemma {:induction false} IdlePassClosed(keep: set<string>, rows: seq<Derivation>)
    requires Pass(keep, rows) == keep
    ensures Closed(keep, rows)
  {
    if rows != [] {
      IdlePassClosed(keep, rows[..|rows| - 1]);
      assert forall k :: 0 <= k < |rows| - 1 ==> rows[..|rows| - 1][k] == rows[k];
    }
  }

  lemma {:induction false} PassWithin(keep: set<string>, rows: seq<Derivation>, closed: set<string>)
    requires keep <= closed && Closed(closed, rows)
    ensures Pass(keep, rows) <= closed
  {
    if rows != [] {
      assert forall k :: 0 <= k < |rows| - 1 ==> rows[..|rows| - 1][k] == rows[k];
      PassWithin(keep, rows[..|rows| - 1], closed);
    }
  }

  lemma {:induction false} ClosureIsClosed(keep: set<string>, rows: seq<Derivation>)
    ensures keep <= Closure(keep, rows) && Closed(Closure(keep, rows), rows)
    decreases |Children(rows) - keep|
  {
    var next := Pass(keep, rows);
    if next == keep {
      IdlePassClosed(keep, rows);
    } else {
      PassShrinks(keep, rows);
      ClosureIsClosed(next, rows);
    }
  }

  lemma {:induction false} ClosureIsLeast(keep: set<string>, rows: seq<Derivation>, closed: set<string>)
    requires keep <= closed && Closed(closed, rows)
    ensures Closure(keep, rows) <= closed
    decreases |Children(rows) - keep|
  {
    var next := Pass(keep, rows);
    PassWithin(keep, rows, closed);
    if next != keep {
      PassShrinks(keep, rows);
      ClosureIsLeast(next, rows, closed);
    }
  }

  method AddChildren(before: set<string>, rows: seq<Derivation>) returns (keep: set<string>, changed: bool)
    ensures keep == Pass(before, rows)
    ensures changed <==> keep != before
  {
    keep := before;
    changed := false;
    for i := 0 to |rows|
      invariant keep == Pass(before, rows[..i])
      invariant changed <==> keep != before
    {
      assert rows[..i + 1][..i] == rows[..i] && Last(rows[..i + 1]) == rows[i];
      if rows[i].parent in keep && rows[i].child !in keep {
        keep := keep + {rows[i].child};
        changed := true;
      }
    }
    assert rows[..|rows|] == rows;
  }

  /** The keep loop ends with exactly the least set that contains the seeds and is closed under derivation. */
  method CloseOver(seeds: set<string>, rows: seq<Derivation>) returns (keep: set<string>)
    ensures keep == Closure(seeds, rows)
    ensures seeds <= keep && Closed(keep, rows)
    ensures forall closed: set<string> :: seeds <= closed && Closed(closed, rows) ==> keep <= closed
  {
    hide Closed, Pass, Children;
    keep := seeds;
    var changed := true;
    while changed
      invariant if changed then Closure(keep, rows) == Closure(seeds, rows) else keep == Closure(seeds, rows)
      decreases |Children(rows) - keep|, if changed then 1 else 0
    {
      ghost var before := keep;
      keep, changed := AddChildren(keep, rows);
      if changed {
        PassShrinks(before, rows);
      }
    }
    ClosureIsClosed(seeds, rows);
    forall closed: set<string> | seeds <= closed && Closed(closed, rows)
      ensures keep <= closed
    {
      ClosureIsLeast(seeds, rows, closed);
    }
  }

  // ----- spreading projects

  function ProjectOf(members: map<string, Member>, id: string): Option<string> {
    if id in members then members[id].projectId else None
  }

  predicate Settled(members: map<string, Member>, keep: set<string>, row: Derivation) {
    row.child !in keep || ProjectOf(members, row.parent).None?
        || ProjectOf(members, row.child) == ProjectOf(members, row.parent)
  }

  function Assign(members: map<string, Member>, id: string, project: Option<string>): map<string, Member> {
    members[id := Member(project, if id in members then members[id].revision + 1 else 0)]
  }

  function RetargetRow(members: map<string, Member>, keep: set<string>, row: Derivation): map<string, Member> {
    if Settled(members, keep, row) then members else Assign(members, row.child, ProjectOf(members, row.parent))
  }

  function RetargetPass(members: map<string, Member>, keep: set<string>, rows: seq<Derivation>): map<string, Member> {
    if rows == [] then members else RetargetRow(RetargetPass(members, keep, rows[..|rows| - 1]), keep, Last(rows))
  }

  function Passes(members: map<string, Member>, keep: set<string>, rows: seq<Derivation>, n: nat): map<string, Member> {
    if n == 0 then members else RetargetPass(Passes(members, keep, rows, n - 1), keep, rows)
  }

  /** What the pass-bounded loop leaves. */
  function Retargeted(members: map<string, Member>, keep: set<string>, rows: seq<Derivation>): map<string, Member> {
    Passes(members, keep, rows, |rows|)
  }

  predicate AllSettled(members: map<string, Member>, keep: set<string>, rows: seq<Derivation>) {
    forall k :: 0 <= k < |rows| ==> Settled(members, keep, rows[k])
  }

  lemma {:induction false} SettledPassIdle(members: map<string, Member>, keep: set<string>, rows: seq<Derivation>)
    requires AllSettled(members, keep, rows)
    ensures RetargetPass(members, keep, rows) == members
  {
    if rows != [] {
      assert forall k :: 0 <= k < |rows| - 1 ==> rows[..|rows| - 1][k] == rows[k];
      SettledPassIdle(members, keep, rows[..|rows| - 1]);
    }
  }

  lemma {:induction false} SettledStays(members: map<string, Member>, keep: set<string>, rows: seq<Derivation>, n: nat,
      m: nat)
    requires n <= m && AllSettled(Passes(members, keep, rows, n), keep, rows)
    ensures Passes(members, keep, rows, m) == Passes(members, keep, rows, n)
  {
    if n < m {
      SettledStays(members, keep, rows, n, m - 1);
      SettledPassIdle(Passes(members, keep, rows, n), keep, rows);
    }
  }

  /** The loop: at most one pass per row, stopping early when a pass changes nothing. */
  method Retarget(before: map<string, Member>, keep: set<string>, rows: seq<Derivation>)
      returns (members: map<string, Member>)
    ensures members == Retargeted(before, keep, rows)
  {
    members := before;
    var pass := 0;
    while pass < |rows|
      invariant 0 <= pass <= |rows|
      invariant members == Passes(before, keep, rows, pass)
    {
      var changed := false;
      ghost var start := members;
      for i := 0 to |rows|
        invariant members == RetargetPass(start, keep, rows[..i])
        invariant !changed ==> members == start && AllSettled(start, keep, rows[..i])
      {
        assert rows[..i + 1][..i] == rows[..i] && Last(rows[..i + 1]) == rows[i];
        var parent := ProjectOf(members, rows[i].parent);
        if rows[i].child in keep && parent.Some? && ProjectOf(members, rows[i].child) != parent {
          members := Assign(members, rows[i].child, parent);
          changed := true;
        }
      }
      assert rows[..|rows|] == rows;
      if !changed {
        SettledStays(before, keep, rows, pass, |rows|);
        break;
      }
      pass := pass + 1;
    }
  }

  // ----- convergence

  /** What the table guarantees: the child is the primary key, and is checked to differ from the parent. */
  ghost predicate Keyed(rows: seq<Derivation>) {
    && (forall j, k :: 0 <= j < k < |rows| ==> rows[j].child != rows[k].child)
    && (forall k :: 0 <= k < |rows| ==> rows[k].parent != rows[k].child)
  }

  /** Keyed rows in which a rank grows from parent to child, so that there is no cycle. */
  ghost predicate Forest(rows: seq<Derivation>, rank: string -> nat) {
    Keyed(rows) && forall k :: 0 <= k < |rows| ==> rank(rows[k].parent) < rank(rows[k].child)
  }

  function RowOf(rows: seq<Derivation>, id: string): (r: Option<nat>)
    ensures r.Some? ==> r.value < |rows| && rows[r.value].child == id
    ensures r.None? ==> forall k :: 0 <= k < |rows| ==> rows[k].child != id
  {
    if rows == [] then None
    else if Last(rows).child == id then Some(|rows| - 1)
    else RowOf(rows[..|rows| - 1], id)
  }

  /** The rows on the way from a session to its root. */
  ghost function Ancestry(rows: seq<Derivation>, rank: string -> nat, id: string): (r: set<nat>)
    requires Forest(rows, rank)
    ensures forall k :: k in r ==> k < |rows| && rank(rows[k].child) <= rank(id)
    decreases rank(id)
  {
    match RowOf(rows, id)
    case None => {}
    case Some(k) => Ancestry(rows, rank, rows[k].parent) + {k}
  }

  /** The project a session ends up with: its root's, passed down through kept sessions. */
  ghost function Target(members: map<string, Member>, keep: set<string>, rows: seq<Derivation>, rank: string -> nat,
      id: string): Option<string>
    requires Forest(rows, rank)
    decreases rank(id)
  {
    match RowOf(rows, id)
    case None => ProjectOf(members, id)
    case Some(k) =>
      var inherited := Target(members, keep, rows, rank, rows[k].parent);
      if id in keep && inherited.Some? then inherited else ProjectOf(members, id)
  }

  lemma AncestryStep(rows: seq<Derivation>, rank: string -> nat, k: nat)
    requires Forest(rows, rank) && k < |rows|
    ensures |Ancestry(rows, rank, rows[k].child)| == |Ancestry(rows, rank, rows[k].parent)| + 1
  {
    var r := RowOf(rows, rows[k].child).value;
    assert r == k;
    assert k !in Ancestry(rows, rank, rows[k].parent);
  }

  lemma {:induction false} RangeSize(s: set<nat>, n: nat)
    requires forall k :: k in s ==> k < n
    ensures |s| <= n
  {
    if n > 0 {
      RangeSize(s - {n - 1}, n - 1);
      if n - 1 in s {
        assert |s - {n - 1}| == |s| - 1;
      } else {
        assert s - {n - 1} == s;
      }
    } else {
      assert s == {};
    }
  }

  /** Rows of other children leave a session's project alone. */
  lemma {:induction false} UntouchedByOthers(members: map<string, Member>, keep: set<string>, rows: seq<Derivation>,
      id: string)
    requires forall k :: 0 <= k < |rows| ==> rows[k].child != id
    ensures ProjectOf(RetargetPass(members, keep, rows), id) == ProjectOf(members, id)
  {
    if rows != [] {
      assert forall k :: 0 <= k < |rows| - 1 ==> rows[..|rows| - 1][k] == rows[k];
      UntouchedByOthers(members, keep, rows[..|rows| - 1], id);
    }
  }

  lemma PassConcat(members: map<string, Member>, keep: set<string>, a: seq<Derivation>, b: seq<Derivation>)
    ensures RetargetPass(members, keep, a + b) == RetargetPass(RetargetPass(members, keep, a), keep, b)
    decreases |b|
  {
    if b == [] {
      assert a + b == a;
    } else {
      assert (a + b)[..|a + b| - 1] == a + b[..|b| - 1];
      PassConcat(members, keep, a, b[..|b| - 1]);
    }
  }

  /** What one pass does to the child of a row, when the project of the parent stays the same throughout the pass. */
  lemma PassAtRow(members: map<string, Member>, keep: set<string>, rows: seq<Derivation>, k: nat,
      inherited: Option<string>)
    requires k < |rows| && forall j :: 0 <= j < |rows| && j != k ==> rows[j].child != rows[k].child
    requires rows[k].parent != rows[k].child
    requires ProjectOf(RetargetPass(members, keep, rows[..k]), rows[k].parent) == inherited
    ensures ProjectOf(RetargetPass(members, keep, rows), rows[k].child)
         == if rows[k].child in keep && inherited.Some? then inherited else ProjectOf(members, rows[k].child)
  {
    var row := rows[k];
    var start := RetargetPass(members, keep, rows[..k]);
    UntouchedByOthers(members, keep, rows[..k], row.child);
    assert rows[..k + 1][..k] == rows[..k] && Last(rows[..k + 1]) == row;
    var middle := RetargetPass(members, keep, rows[..k + 1]);
    assert middle == RetargetRow(start, keep, row);
    UntouchedByOthers(middle, keep, rows[k + 1..], row.child);
    assert rows == rows[..k + 1] + rows[k + 1..];
    PassConcat(members, keep, rows[..k + 1], rows[k + 1..]);
  }

  /** The memberships after n passes and the first i rows of the next. */
  function Stage(members: map<string, Member>, keep: set<string>, rows: seq<Derivation>, n: nat, i: nat): map<string,
      Member>
    requires i <= |rows|
  {
    RetargetPass(Passes(members, keep, rows, n), keep, rows[..i])
  }

  lemma StageStart(members: map<string, Member>, keep: set<string>, rows: seq<Derivation>, n: nat)
    ensures Stage(members, keep, rows, n, 0) == Passes(members, keep, rows, n)
    ensures Stage(members, keep, rows, n, |rows|) == Passes(members, keep, rows, n + 1)
  {
    assert rows[..0] == [] && rows[..|rows|] == rows;
  }

  lemma {:induction false} RootStays(members: map<string, Member>, keep: set<string>, rows: seq<Derivation>, n: nat,
      i: nat, id: string)
    requires i <= |rows| && RowOf(rows, id).None?
    ensures ProjectOf(Stage(members, keep, rows, n, i), id) == ProjectOf(members, id)
  {
    if n > 0 {
      RootStays(members, keep, rows, n - 1, |rows|, id);
      StageStart(members, keep, rows, n - 1);
    }
    UntouchedByOthers(Passes(members, keep, rows, n), keep, rows[..i], id);
  }

  /** One stage of a child: its parent's project if row k has been passed and hands it down, else what it had. */
  lemma ChildStage(members: map<string, Member>, keep: set<string>, rows: seq<Derivation>, n: nat, i: nat, k: nat)
    requires Keyed(rows) && i <= |rows| && k < |rows|
    ensures var child, inherited := rows[k].child, ProjectOf(Stage(members, keep, rows, n, k), rows[k].parent);
            ProjectOf(Stage(members, keep, rows, n, i), child)
            == if k < i && child in keep
                && inherited.Some? then inherited else ProjectOf(Passes(members, keep, rows, n), child)
  {
    var start := Passes(members, keep, rows, n);
    if k < i {
      assert rows[..i][..k] == rows[..k];
      assert rows[k].parent != rows[k].child;
      PassAtRow(start, keep, rows[..i], k, ProjectOf(Stage(members, keep, rows, n, k), rows[k].parent));
    } else {
      UntouchedByOthers(start, keep, rows[..i], rows[k].child);
    }
  }

  ghost predicate HandsNothingDown(members: map<string, Member>, keep: set<string>, rows: seq<Derivation>, n: nat,
      k: nat)
    requires k < |rows|
  {
    forall m :: 0 <= m <= n
        ==> rows[k].child !in keep || ProjectOf(Stage(members, keep, rows, m, k), rows[k].parent).None?
  }

  lemma {:induction false} IdleChildStays(members: map<string, Member>, keep: set<string>, rows: seq<Derivation>,
      n: nat, i: nat, k: nat)
    requires Keyed(rows) && i <= |rows| && k < |rows| && HandsNothingDown(members, keep, rows, n, k)
    ensures ProjectOf(Stage(members, keep, rows, n, i), rows[k].child) == ProjectOf(members, rows[k].child)
  {
    hide Stage, RetargetPass;
    if n > 0 {
      IdleChildStays(members, keep, rows, n - 1, |rows|, k);
      StageStart(members, keep, rows, n - 1);
    }
    ChildStage(members, keep, rows, n, i, k);
  }

  /** A session whose target is no project never gets one. */
  lemma {:induction false} NoTargetStays(members: map<string, Member>, keep: set<string>, rows: seq<Derivation>,
      rank: string -> nat, n: nat, i: nat, id: string)
    requires Forest(rows, rank) && i <= |rows| && Target(members, keep, rows, rank, id).None?
    ensures ProjectOf(Stage(members, keep, rows, n, i), id).None?
    decreases rank(id)
  {
    hide Stage, RetargetPass, Passes;
    match RowOf(rows, id)
    case None => RootStays(members, keep, rows, n, i, id);
    case Some(k) =>
      if id in keep {
        forall m | 0 <= m <= n
          ensures ProjectOf(Stage(members, keep, rows, m, k), rows[k].parent).None?
        {
          NoTargetStays(members, keep, rows, rank, m, k, rows[k].parent);
        }
      }
      IdleChildStays(members, keep, rows, n, i, k);
  }

  /** A kept child gets its parent's project in the first pass in which that has settled, and keeps it. */
  lemma HeirSettles(members: map<string, Member>, keep: set<string>, rows: seq<Derivation>, n: nat, i: nat, k: nat,
      project: Option<string>)
    requires Keyed(rows) && i <= |rows| && k < |rows| && n > 0
    requires rows[k].child in keep && project.Some?
    requires ProjectOf(Stage(members, keep, rows, n - 1, k), rows[k].parent) == project
    requires ProjectOf(Stage(members, keep, rows, n, k), rows[k].parent) == project
    ensures ProjectOf(Stage(members, keep, rows, n, i), rows[k].child) == project
  {
    hide Stage, RetargetPass, Passes;
    ChildStage(members, keep, rows, n - 1, |rows|, k);
    StageStart(members, keep, rows, n - 1);
    ChildStage(members, keep, rows, n, i, k);
  }

  /** A child that inherits nothing keeps what it had. */
  lemma LonerSettles(members: map<string, Member>, keep: set<string>, rows: seq<Derivation>, rank: string -> nat,
      n: nat, i: nat, k: nat)
    requires Forest(rows, rank) && i <= |rows| && k < |rows|
    requires rows[k].child !in keep || Target(members, keep, rows, rank, rows[k].parent).None?
    ensures ProjectOf(Stage(members, keep, rows, n, i), rows[k].child) == ProjectOf(members, rows[k].child)
  {
    hide Stage, RetargetPass, Passes, Target;
    forall m | 0 <= m <= n
      ensures rows[k].child !in keep || ProjectOf(Stage(members, keep, rows, m, k), rows[k].parent).None?
    {
      if rows[k].child in keep {
        NoTargetStays(members, keep, rows, rank, m, k, rows[k].parent);
      }
    }
    IdleChildStays(members, keep, rows, n, i, k);
  }

  /** A session whose ancestry has at most n rows has its target after n passes, and keeps it from then on. */
  lemma {:induction false} SettledByDepth(members: map<string, Member>, keep: set<string>, rows: seq<Derivation>,
      rank: string -> nat, n: nat, i: nat, id: string)
    requires Forest(rows, rank) && i <= |rows| && |Ancestry(rows, rank, id)| <= n
    ensures ProjectOf(Stage(members, keep, rows, n, i), id) == Target(members, keep, rows, rank, id)
    decreases rank(id)
  {
    hide Stage, RetargetPass, Passes, Ancestry;
    match RowOf(rows, id)
    case None => RootStays(members, keep, rows, n, i, id);
    case Some(k) =>
      AncestryStep(rows, rank, k);
      var inherited := Target(members, keep, rows, rank, rows[k].parent);
      if id in keep && inherited.Some? {
        SettledByDepth(members, keep, rows, rank, n - 1, k, rows[k].parent);
        SettledByDepth(members, keep, rows, rank, n, k, rows[k].parent);
        HeirSettles(members, keep, rows, n, i, k, inherited);
      } else {
        LonerSettles(members, keep, rows, rank, n, i, k);
      }
  }

  /**
   * Retargeting converges within its pass bound: every kept child whose parent has a project ends up in that project,
   * and every session ends up in the project its root hands down.
   */
  lemma RetargetConverges(members: map<string, Member>, keep: set<string>, rows: seq<Derivation>, rank: string -> nat)
    requires Forest(rows, rank)
    ensures AllSettled(Retargeted(members, keep, rows), keep, rows)
    ensures forall id :: ProjectOf(Retargeted(members, keep, rows), id) == Target(members, keep, rows, rank, id)
  {
    hide RetargetPass, Passes;
    forall id
      ensures ProjectOf(Retargeted(members, keep, rows), id) == Target(members, keep, rows, rank, id)
    {
      RangeSize(Ancestry(rows, rank, id), |rows|);
      SettledByDepth(members, keep, rows, rank, |rows|, 0, id);
      StageStart(members, keep, rows, |rows|);
    }
    forall k | 0 <= k < |rows|
      ensures Settled(Retargeted(members, keep, rows), keep, rows[k])
    {
      assert RowOf(rows, rows[k].child) == Some(k);
    }
  }
}
