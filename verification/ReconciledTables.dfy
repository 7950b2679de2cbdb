/**
 * What a reconciliation leaves in the tables, and what deletion and restoration by the user leave, told row by row from
 * the rows before.
 */
module ReconciledTables {
  import opened Outcomes
  import opened Sequences
  import opened DerivationClosure
  import opened ProjectMapping
  import opened MappingTheorems

  // ----- which sessions are kept

  ghost predicate Derives(rows: seq<Derivation>, parent: string, child: string) {
    exists k :: 0 <= k < |rows| && rows[k].parent == parent && rows[k].child == child
  }

  /** A way from a first session to this one, each derived from the one before. */
  ghost predicate Leads(rows: seq<Derivation>, chain: seq<string>, id: string) {
    && chain != [] && Last(chain) == id
    && forall i, j :: 0 <= i < |chain| - 1 && j == i + 1 ==> Derives(rows, chain[i], chain[j])
  }

  ghost predicate Reached(seeds: set<string>, rows: seq<Derivation>, id: string) {
    exists chain :: Leads(rows, chain, id) && chain[0] in seeds
  }

  lemma {:induction false} ChainStaysIn(seeds: set<string>, rows: seq<Derivation>, closed: set<string>,
      chain: seq<string>, id: string)
    requires seeds <= closed && Closed(closed, rows) && Leads(rows, chain, id) && chain[0] in seeds
    ensures id in closed
  {
    if |chain| > 1 {
      var init := chain[..|chain| - 1];
      assert forall i :: 0 <= i < |init| ==> init[i] == chain[i];
      ChainStaysIn(seeds, rows, closed, init, Last(init));
      assert Derives(rows, chain[|chain| - 2], chain[|chain| - 1]);
    }
  }

  lemma ReachedOneMore(seeds: set<string>, rows: seq<Derivation>, k: nat)
    requires k < |rows| && Reached(seeds, rows, rows[k].parent)
    ensures Reached(seeds, rows, rows[k].child)
  {
    var chain :| Leads(rows, chain, rows[k].parent) && chain[0] in seeds;
    var longer := chain + [rows[k].child];
    assert forall i :: 0 <= i < |chain| ==> longer[i] == chain[i];
    assert Derives(rows, Last(chain), rows[k].child);
    assert Leads(rows, longer, rows[k].child);
  }

  /** The closure holds exactly what derivations lead to from the seeds. */
  lemma ClosureIsReached(seeds: set<string>, rows: seq<Derivation>, id: string)
    ensures id in Closure(seeds, rows) <==> Reached(seeds, rows, id)
  {
    ClosureIsClosed(seeds, rows);
    if chain :| Leads(rows, chain, id) && chain[0] in seeds {
      ChainStaysIn(seeds, rows, Closure(seeds, rows), chain, id);
    }
    var reached := set x | x in seeds + Children(rows) && Reached(seeds, rows, x);
    forall x | x in seeds
      ensures x in reached
    {
      assert Leads(rows, [x], x);
    }
    forall k | 0 <= k < |rows| && rows[k].parent in reached
      ensures rows[k].child in reached
    {
      ReachedOneMore(seeds, rows, k);
      assert rows[k].child in Children(rows);
    }
    ClosureIsLeast(seeds, rows, reached);
  }

  /** A selected Codex session, or a session that Maintenance made in a selected project. */
  ghost predicate IsSelected(t: Tables, selection: Selection, id: string) {
    || (exists k :: 0 <= k < |t.bindings| && t.bindings[k].sessionId == id
                    && t.bindings[k].sourceKey in selection.sourceKeys)
    || (&& id in t.sessions && t.sessions[id].origin.MaintenanceNative? && id in t.members
        && match t.members[id].projectId case None => false case Some(p) => p in selection.projectIds)
  }

  /** Not deleted, neither by its row nor by a tombstone. */
  ghost predicate InUseStill(t: Tables, id: string) {
    && id in t.sessions && t.sessions[id].tombstonedAt == None
    && (id in t.tombstones ==> t.tombstones[id].restored)
  }

  /** A session in use that Maintenance made and owns in one of its own projects. */
  ghost predicate StartsLocally(t: Tables, id: string) {
    && InUseStill(t, id) && t.sessions[id].origin.MaintenanceNative?
    && t.sessions[id].authority == Some(MaintenanceScope) && id in t.members
    && match t.members[id].projectId case None => false case Some(p) => p in t.projects && t.projects[p].maintenance
  }

  /** A continuation in use that Maintenance owns. */
  ghost predicate ContinuesLocally(t: Tables, row: Derivation) {
    && row.continuation && InUseStill(t, row.child) && t.sessions[row.child].origin.CodexDerived?
    && t.sessions[row.child].authority == Some(MaintenanceScope)
  }

  /** What the selection reaches. */
  ghost predicate Eligible(t: Tables, selection: Selection, id: string) {
    exists chain :: Leads(t.derivations, chain, id) && IsSelected(t, selection, chain[0])
  }

  ghost predicate LocalLink(t: Tables, parent: string, child: string) {
    exists k :: && 0 <= k < |t.derivations| && ContinuesLocally(t, t.derivations[k])
                && t.derivations[k].parent == parent && t.derivations[k].child == child
  }

  /** What continuations in use lead to from a local session in use. */
  ghost predicate IsLocalWork(t: Tables, id: string) {
    exists chain :: && chain != [] && Last(chain) == id && StartsLocally(t, chain[0])
                    && forall i, j :: 0 <= i < |chain| - 1 && j == i + 1 ==> LocalLink(t, chain[i], chain[j])
  }

  lemma SeedsExactly(t: Tables, selection: Selection, id: string)
    ensures id in Seeds(t, selection) <==> IsSelected(t, selection, id)
  {
  }

  lemma RestorableExactly(t: Tables, selection: Selection, id: string)
    ensures id in Restorable(t, selection) <==> Eligible(t, selection, id)
  {
    hide Seeds, IsSelected;
    ClosureIsReached(Seeds(t, selection), t.derivations, id);
    forall x
      ensures x in Seeds(t, selection) <==> IsSelected(t, selection, x)
    {
      SeedsExactly(t, selection, x);
    }
    if chain :| Leads(t.derivations, chain, id) && chain[0] in Seeds(t, selection) {
      assert IsSelected(t, selection, chain[0]);
    }
    if chain :| Leads(t.derivations, chain, id) && IsSelected(t, selection, chain[0]) {
      assert chain[0] in Seeds(t, selection);
    }
  }

  lemma RootsExactly(t: Tables, id: string)
    ensures id in LocalRoots(t) <==> StartsLocally(t, id)
  {
  }

  lemma LinksExactly(t: Tables, parent: string, child: string)
    ensures Derives(Filter(t.derivations, Continuations(t)), parent, child) <==> LocalLink(t, parent, child)
  {
    hide IsContinuation, ContinuesLocally;
    var rows := Filter(t.derivations, Continuations(t));
    FilterMembership(t.derivations, Continuations(t));
    forall row: Derivation
      ensures IsContinuation(t, row) <==> ContinuesLocally(t, row)
    {
      ContinuationExactly(t, row);
    }
    if j :| 0 <= j < |rows| && rows[j].parent == parent && rows[j].child == child {
      assert rows[j] in rows;
      var k :| 0 <= k < |t.derivations| && t.derivations[k] == rows[j];
      assert ContinuesLocally(t, t.derivations[k]);
    }
    if k :| && 0 <= k < |t.derivations| && ContinuesLocally(t, t.derivations[k])
            && t.derivations[k].parent == parent && t.derivations[k].child == child {
      assert t.derivations[k] in rows;
      var j :| 0 <= j < |rows| && rows[j] == t.derivations[k];
    }
  }

  lemma ContinuationExactly(t: Tables, row: Derivation)
    ensures IsContinuation(t, row) <==> ContinuesLocally(t, row)
  {
  }

  lemma LocalExactly(t: Tables, id: string)
    ensures id in Local(t) <==> IsLocalWork(t, id)
  {
    hide LocalRoots, StartsLocally, LocalLink, Derives;
    var rows := Filter(t.derivations, Continuations(t));
    ClosureIsReached(LocalRoots(t), rows, id);
    forall x
      ensures x in LocalRoots(t) <==> StartsLocally(t, x)
    {
      RootsExactly(t, x);
    }
    forall x, y
      ensures Derives(rows, x, y) <==> LocalLink(t, x, y)
    {
      LinksExactly(t, x, y);
    }
    if Reached(LocalRoots(t), rows, id) {
      var chain :| Leads(rows, chain, id) && chain[0] in LocalRoots(t);
      assert StartsLocally(t, chain[0]);
    }
    if IsLocalWork(t, id) {
      var chain :| && chain != [] && Last(chain) == id && StartsLocally(t, chain[0])
                   && forall i, j :: 0 <= i < |chain| - 1 && j == i + 1 ==> LocalLink(t, chain[i], chain[j]);
      assert Leads(rows, chain, id) && chain[0] in LocalRoots(t);
    }
  }

  /** Kept is what the selection reaches, and local work in progress. */
  lemma KeepExactly(t: Tables, selection: Selection, id: string)
    ensures id in Keep(t, selection) <==> Eligible(t, selection, id) || IsLocalWork(t, id)
  {
    hide Restorable, Local, Eligible, IsLocalWork;
    RestorableExactly(t, selection, id);
    LocalExactly(t, id);
  }

  // ----- one session

  /** The mapping itself deleted the session, and nobody has restored or deleted it since. */
  ghost predicate HeldByMapping(t: Tables, id: string) {
    && id in t.sessions && t.sessions[id].tombstonedAt != None
    && id in t.markers && id in t.tombstones && !t.tombstones[id].restored
    && t.tombstones[id].operationId == t.markers[id].operationId
  }

  ghost predicate InUseBefore(t: Tables, id: string) {
    id in t.sessions && t.sessions[id].tombstonedAt == None
  }

  /** All four rows of the session are as before. */
  ghost predicate RowsStay(t: Tables, r: Tables, id: string) {
    && (id in r.sessions <==> id in t.sessions) && (id in t.sessions ==> r.sessions[id] == t.sessions[id])
    && (id in r.tombstones <==> id in t.tombstones) && (id in t.tombstones ==> r.tombstones[id] == t.tombstones[id])
    && (id in r.markers <==> id in t.markers) && (id in t.markers ==> r.markers[id] == t.markers[id])
    && (id in r.placements <==> id in t.placements) && (id in t.placements ==> r.placements[id] == t.placements[id])
  }

  /** The rows of a session that is taken out of scope. */
  ghost predicate RowsRemoved(t: Tables, r: Tables, id: string, revision: int, at: string) {
    && id in t.sessions && id in r.sessions && r.sessions[id] == t.sessions[id].(tombstonedAt := Some(at))
    && id in r.tombstones && !r.tombstones[id].restored
    && r.tombstones[id].checkpointId == t.nextId < r.tombstones[id].operationId < r.nextId
    && r.tombstones[id].previousWorkspace == (if id in t.placements then t.placements[id].workspaceId else None)
    && id in r.markers && r.markers[id].operationId == r.tombstones[id].operationId
    && r.markers[id].policyRevision == revision
    && r.markers[id].placement == (if id in t.placements then Some(t.placements[id]) else None)
    && (id in r.placements <==> id in t.placements)
    && (id in t.placements ==> r.placements[id] == Placement(None, 0, false, true, t.placements[id].revision + 1))
  }

  /** The rows of a session that comes back with its scope. */
  ghost predicate RowsRevived(t: Tables, r: Tables, id: string) {
    && id in t.sessions && id in r.sessions && r.sessions[id] == t.sessions[id].(tombstonedAt := None)
    && id in t.tombstones && id in r.tombstones && r.tombstones[id] == t.tombstones[id].(restored := true)
    && id in t.markers && id !in r.markers
    && (id in r.placements <==> id in t.placements)
    && (id in t.placements ==>
          match t.markers[id].placement
          case None => r.placements[id] == t.placements[id]
          case Some(p) =>
            r.placements[id]
            == Placement(p.workspaceId, p.displayOrder, p.pinned, p.archived, t.placements[id].revision + 1))
  }

  /**
   * What a reconciliation does to the rows of one session: it removes what was in use and is neither eligible nor local
   * work, brings back what the mapping holds and is eligible again, and leaves every other session alone.
   */
  lemma SessionExactly(t: Tables, selection: Selection, revision: int, at: string, id: string)
    requires Valid(t)
    ensures var a, r := AfterAliases(t, selection), Reconciled(t, selection, revision, at);
            if InUseBefore(t, id) && !Eligible(a, selection, id) && !IsLocalWork(a, id) then
              RowsRemoved(t, r, id, revision, at)
            else if HeldByMapping(t, id) && Eligible(a, selection, id) then RowsRevived(t, r, id)
            else RowsStay(t, r, id)
  {
    hide Reconciled, Keep, Restorable, Local, Eligible, IsLocalWork, Suffers, RowsRemoved, RowsRevived, RowsStay,
        RenameAll, Unchanged, IsMarked, IsActive;
    var a, r := AfterAliases(t, selection), Reconciled(t, selection, revision, at);
    KeepExactly(a, selection, id);
    RestorableExactly(a, selection, id);
    var fate := SessionFate(t, selection, revision, at, id);
    FateInRows(t, a, r, id, fate, revision, at);
    StatesAlike(a, id);
    StatesAlike(t, id);
  }

  lemma StatesAlike(t: Tables, id: string)
    ensures IsActive(t, id) <==> InUseBefore(t, id)
    ensures IsMarked(t, id) <==> HeldByMapping(t, id)
    ensures !(InUseBefore(t, id) && HeldByMapping(t, id))
  {
  }

  lemma FateInRows(t: Tables, a: Tables, r: Tables, id: string, fate: Fate, revision: int, at: string)
    requires a == t.(members := a.members) && Suffers(a, r, id, fate, t.nextId, revision, at)
    requires fate.Removed? ==> IsActive(a, id) && t.nextId < fate.operationId < r.nextId
    requires fate == Reviving ==> IsMarked(a, id)
    ensures match fate
            case Removed(_) => RowsRemoved(t, r, id, revision, at)
            case Reviving => RowsRevived(t, r, id)
            case Left => RowsStay(t, r, id)
  {
  }

  // ----- projects

  ghost predicate UsedAfter(r: Tables, project: string) {
    exists id :: && id in r.members && r.members[id].projectId == Some(project)
                 && id in r.sessions && r.sessions[id].tombstonedAt == None
  }

  lemma UsedExactly(r: Tables, project: string)
    ensures InUse(r, project) <==> UsedAfter(r, project)
  {
    if InUse(r, project) {
      var id :| id in r.members && r.members[id].projectId == Some(project) && IsActive(r, id);
      assert id in r.sessions && r.sessions[id].tombstonedAt == None;
    }
    if UsedAfter(r, project) {
      var id :| && id in r.members && r.members[id].projectId == Some(project)
                && id in r.sessions && r.sessions[id].tombstonedAt == None;
      assert IsActive(r, id);
    }
  }

  /** Live exactly while used; retired now if it falls out of use, and otherwise with the date it had. */
  ghost predicate FollowsUse(before: Project, after: Project, used: bool, at: string) {
    && after.maintenance == before.maintenance
    && after.deletedAt
       == if used then None else if before.deletedAt == None then Some(at) else before.deletedAt
  }

  /**
   * After a reconciliation exactly the projects are live that hold a session in use; a project that falls out of use is
   * retired now, and one that was retired before and is still unused keeps its date.
   */
  lemma ProjectsExactly(t: Tables, selection: Selection, revision: int, at: string)
    ensures var r := Reconciled(t, selection, revision, at);
            && r.projects.Keys == t.projects.Keys
            && forall p :: p in t.projects ==> FollowsUse(t.projects[p], r.projects[p], UsedAfter(r, p), at)
  {
    hide RenameAll, Removals, Keep, Retargeted, RefsOf, AfterRevivals, InUse, UsedAfter, Local, Restorable,
        Checkpointed;
    var a, r := AfterAliases(t, selection), Reconciled(t, selection, revision, at);
    CheckpointedKeeps(a, Removals(a, Keep(a, selection)));
    StageFrames(t, selection, revision, at);
    var before := AfterRetarget(t, selection, revision, at);
    forall p
      ensures InUse(before, p) <==> UsedAfter(r, p)
    {
      UsedExactly(before, p);
      SameUse(before, r, p);
    }
  }

  lemma SameUse(m: Tables, r: Tables, project: string)
    requires m.members == r.members && m.sessions == r.sessions
    ensures UsedAfter(m, project) <==> UsedAfter(r, project)
  {
  }

  // ----- memberships

  /** A membership moved exactly if its revision grew, and only kept sessions get one or move. */
  ghost predicate CountedMoves(before: map<string, Member>, after: map<string, Member>, keep: set<string>) {
    && before.Keys <= after.Keys <= before.Keys + keep
    && (forall id :: id in after && id !in before ==> after[id].projectId != None)
    && forall id :: id in before
         ==> && after[id].revision >= before[id].revision
             && (after[id].revision == before[id].revision ==> after[id] == before[id])
             && (after[id] != before[id] ==> after[id].projectId != None)
             && (id !in keep ==> after[id] == before[id])
  }

  lemma MovesJoin(a: map<string, Member>, b: map<string, Member>, c: map<string, Member>, keep: set<string>)
    requires CountedMoves(a, b, keep) && CountedMoves(b, c, keep)
    ensures CountedMoves(a, c, keep)
  {
  }

  lemma {:induction false} PassCountsMoves(members: map<string, Member>, keep: set<string>, rows: seq<Derivation>)
    ensures CountedMoves(members, RetargetPass(members, keep, rows), keep)
  {
    if rows != [] {
      var before := RetargetPass(members, keep, rows[..|rows| - 1]);
      PassCountsMoves(members, keep, rows[..|rows| - 1]);
      assert CountedMoves(before, RetargetRow(before, keep, Last(rows)), keep);
      MovesJoin(members, before, RetargetRow(before, keep, Last(rows)), keep);
    }
  }

  /** Spreading projects moves only memberships of kept sessions, and counts each move. */
  lemma {:induction false} SpreadingCountsMoves(members: map<string, Member>, keep: set<string>, rows: seq<Derivation>,
      n: nat)
    ensures CountedMoves(members, Passes(members, keep, rows, n), keep)
  {
    hide RetargetPass, CountedMoves;
    if n == 0 {
      NoMoves(members, keep);
    } else {
      var before := Passes(members, keep, rows, n - 1);
      SpreadingCountsMoves(members, keep, rows, n - 1);
      PassCountsMoves(before, keep, rows);
      MovesJoin(members, before, RetargetPass(before, keep, rows), keep);
    }
  }

  lemma NoMoves(members: map<string, Member>, keep: set<string>)
    ensures CountedMoves(members, members, keep)
  {
  }

  // ----- counts

  ghost function SessionsInUse(t: Tables): set<string> {
    set id | id in t.sessions && t.sessions[id].tombstonedAt == None
  }

  lemma {:induction false} DistinctSize(s: seq<string>)
    requires Distinct(s)
    ensures |set x | x in s| == |s|
  {
    if s != [] {
      var init := s[..|s| - 1];
      DistinctSize(init);
      assert s == init + [Last(s)];
      assert (set x | x in s) == (set x | x in init) + {Last(s)};
      assert forall i :: 0 <= i < |init| ==> init[i] == s[i];
    }
  }

  lemma WhoMoves(t: Tables, selection: Selection, revision: int, at: string, id: string)
    requires Valid(t)
    ensures var a := AfterAliases(t, selection);
            id in Removals(a, Keep(a, selection))
            <==> InUseBefore(t, id) && !Eligible(a, selection, id) && !IsLocalWork(a, id)
    ensures var a := AfterAliases(t, selection);
            id in Revivals(AfterRemovals(t, selection, revision, at), Restorable(a, selection))
            <==> HeldByMapping(t, id) && Eligible(a, selection, id)
  {
    hide Keep, Restorable, Local, Eligible, IsLocalWork, Removals, Revivals, AfterRemovals, RenameAll, IsMarked,
        IsActive, HeldByMapping, InUseBefore, Unchanged;
    var a := AfterAliases(t, selection);
    AliasesKeep(t, selection);
    RemovalList(a, Keep(a, selection));
    RevivalsAfterRemovals(t, selection, revision, at);
    StatesAlike(t, id);
    MarkedAlike(t, a, id);
    KeepExactly(a, selection, id);
    RestorableExactly(a, selection, id);
  }

  ghost predicate InUseMoves(before: set<string>, after: set<string>, removed: seq<string>, restored: seq<string>,
      id: string) {
    && (id in after <==> (id in before && id !in removed) || id in restored)
    && (id in removed ==> id in before) && (id in restored ==> id !in before)
  }

  /** In use afterwards is what was in use and is not removed, and what comes back. */
  lemma WhoIsInUse(t: Tables, selection: Selection, revision: int, at: string, id: string)
    requires Valid(t)
    ensures var a := AfterAliases(t, selection);
            var removed := Removals(a, Keep(a, selection));
            var restored := Revivals(AfterRemovals(t, selection, revision, at), Restorable(a, selection));
            InUseMoves(SessionsInUse(t), SessionsInUse(Reconciled(t, selection, revision, at)), removed, restored, id)
  {
    hide Reconciled, Keep, Restorable, Local, Eligible, IsLocalWork, Removals, Revivals, AfterRemovals, RenameAll,
        RowsRemoved, RowsRevived, RowsStay, SessionsInUse;
    var a, r := AfterAliases(t, selection), Reconciled(t, selection, revision, at);
    WhoMoves(t, selection, revision, at, id);
    SessionExactly(t, selection, revision, at, id);
    InUseMember(t, id);
    InUseMember(r, id);
    RowsShowUse(t, r, id, revision, at);
  }

  lemma RowsShowUse(t: Tables, r: Tables, id: string, revision: int, at: string)
    ensures RowsRemoved(t, r, id, revision, at) ==> !InUseBefore(r, id)
    ensures RowsRevived(t, r, id) ==> InUseBefore(r, id)
    ensures RowsStay(t, r, id) ==> (InUseBefore(r, id) <==> InUseBefore(t, id))
    ensures !(InUseBefore(t, id) && HeldByMapping(t, id))
  {
  }

  /**
   * The counts that a reconciliation reports: each session it removes or brings back once, and as many sessions in use
   * afterwards as before without the removed and with the restored ones.
   */
  lemma CountsExactly(t: Tables, selection: Selection, revision: int, at: string)
    requires Valid(t)
    ensures var a := AfterAliases(t, selection);
            var removed := Removals(a, Keep(a, selection));
            var restored := Revivals(AfterRemovals(t, selection, revision, at), Restorable(a, selection));
            && Distinct(removed) && Distinct(restored)
            && (forall id :: id in removed
                  <==> InUseBefore(t, id) && !Eligible(a, selection, id) && !IsLocalWork(a, id))
            && (forall id :: id in restored <==> HeldByMapping(t, id) && Eligible(a, selection, id))
            && |SessionsInUse(Reconciled(t, selection, revision, at))|
               == |SessionsInUse(t)| - |removed| + |restored|
  {
    hide Reconciled, Keep, Restorable, Eligible, IsLocalWork, Removals, Revivals, AfterRemovals, RenameAll,
        HeldByMapping, InUseBefore, SessionsInUse, Valid;
    var a, r := AfterAliases(t, selection), Reconciled(t, selection, revision, at);
    var removed := Removals(a, Keep(a, selection));
    var restored := Revivals(AfterRemovals(t, selection, revision, at), Restorable(a, selection));
    AliasesKeep(t, selection);
    ListsDistinct(t, selection, revision, at);
    forall id
      ensures id in removed <==> InUseBefore(t, id) && !Eligible(a, selection, id) && !IsLocalWork(a, id)
      ensures id in restored <==> HeldByMapping(t, id) && Eligible(a, selection, id)
    {
      WhoMoves(t, selection, revision, at, id);
    }
    forall id
      ensures InUseMoves(SessionsInUse(t), SessionsInUse(r), removed, restored, id)
    {
      WhoIsInUse(t, selection, revision, at, id);
    }
    SizesAdd(SessionsInUse(t), SessionsInUse(r), removed, restored);
  }

  lemma ListsDistinct(t: Tables, selection: Selection, revision: int, at: string)
    requires Valid(t)
    ensures var a := AfterAliases(t, selection);
            && Distinct(Removals(a, Keep(a, selection)))
            && Distinct(Revivals(AfterRemovals(t, selection, revision, at), Restorable(a, selection)))
  {
    hide Keep, Restorable, Removals, Revivals, AfterRemovals, RenameAll, Distinct;
    AliasesKeep(t, selection);
    RemovalList(AfterAliases(t, selection), Keep(AfterAliases(t, selection), selection));
    RevivalsAfterRemovals(t, selection, revision, at);
  }

  lemma SizesAdd(before: set<string>, after: set<string>, removed: seq<string>, restored: seq<string>)
    requires Distinct(removed) && Distinct(restored)
    requires forall id :: InUseMoves(before, after, removed, restored, id)
    ensures |after| == |before| - |removed| + |restored|
  {
    DistinctSize(removed);
    DistinctSize(restored);
    var gone, back := set id | id in removed, set id | id in restored;
    forall id
      ensures id in after <==> id in (before - gone) + back
      ensures id in gone ==> id in before
      ensures id in back ==> id !in before
    {
      assert InUseMoves(before, after, removed, restored, id);
    }
    assert after == (before - gone) + back;
    assert gone <= before && back !! before;
  }

  lemma InUseMember(t: Tables, id: string)
    ensures id in SessionsInUse(t) <==> InUseBefore(t, id)
  {
  }

  // ----- the checkpoint of a reconciliation

  /** The version that a checkpoint holds on to. */
  ghost predicate HeldVersion(row: SessionRow, version: string) {
    row.head == Some(version) || (row.head == None && row.canonical == Some(version))
  }

  /**
   * A reconciliation writes one checkpoint, of the versions of what it removes, and none when it removes nothing; older
   * checkpoints stay.
   */
  lemma CheckpointExactly(t: Tables, selection: Selection, revision: int, at: string)
    requires Valid(t)
    ensures var a, r := AfterAliases(t, selection), Reconciled(t, selection, revision, at);
            var removed := Removals(a, Keep(a, selection));
            && (removed == [] ==> r.checkpoints == t.checkpoints)
            && (removed != [] ==>
                  && r.checkpoints.Keys == t.checkpoints.Keys + {t.nextId} && t.nextId !in t.checkpoints
                  && (forall c :: c in t.checkpoints ==> r.checkpoints[c] == t.checkpoints[c])
                  && forall id, version :: id in r.checkpoints[t.nextId] && r.checkpoints[t.nextId][id] == version
                       <==> id in removed && id in t.sessions && HeldVersion(t.sessions[id], version))
  {
    hide Reconciled, Keep, Removals, RenameAll;
    AliasesKeep(t, selection);
    ReconciledFrame(t, selection, revision, at);
    var a := AfterAliases(t, selection);
    assert a.checkpoints == t.checkpoints && a.nextId == t.nextId && a.sessions == t.sessions;
    assert t.nextId !in t.checkpoints;
  }

  // ----- projects over a change of scope and back

  /** Every project is live exactly while it holds a session in use. */
  ghost predicate ProjectsInStep(t: Tables) {
    forall p :: p in t.projects ==> (t.projects[p].deletedAt == None <==> UsedAfter(t, p))
  }

  lemma FewerKept(members: map<string, Member>, keep: set<string>, fewer: set<string>, rows: seq<Derivation>)
    requires AllSettled(members, keep, rows) && fewer <= keep
    ensures Retargeted(members, fewer, rows) == members && AllSettled(members, fewer, rows)
  {
    assert AllSettled(Passes(members, fewer, rows, 0), fewer, rows);
    SettledStays(members, fewer, rows, 0, |rows|);
  }

  lemma LocalIsInUse(t: Tables, id: string)
    requires id in Local(t)
    ensures IsActive(t, id)
  {
    hide Local, LocalLink;
    LocalExactly(t, id);
    var chain :| && chain != [] && Last(chain) == id && StartsLocally(t, chain[0])
                 && forall i, j :: 0 <= i < |chain| - 1 && j == i + 1 ==> LocalLink(t, chain[i], chain[j]);
    if |chain| > 1 {
      assert LocalLink(t, chain[|chain| - 2], chain[|chain| - 1]);
      LinkInUse(t, chain[|chain| - 2], id);
    }
  }

  lemma LinkInUse(t: Tables, parent: string, child: string)
    requires LocalLink(t, parent, child)
    ensures IsActive(t, child)
  {
  }

  /** After narrowing, widening keeps nothing that the wide selection did not keep before. */
  lemma KeptAfterNarrowing(t: Tables, narrow: Selection, wide: Selection, revision: int, at: string)
    requires Valid(t) && NativesAreRoots(t) && Narrower(narrow, wide) && AliasesDone(t, narrow)
    ensures Keep(t, narrow) <= Keep(t, wide)
    ensures Keep(Reconciled(t, narrow, revision, at), wide) <= Keep(t, wide)
    ensures AtRest(t, wide) ==> forall id :: IsActive(Reconciled(t, narrow, revision, at), id) ==> IsActive(t, id)
  {
    hide Reconciled, Restorable, Local, IsActive, IsMarked;
    var m := Reconciled(t, narrow, revision, at);
    NoAliases(t, narrow);
    NarrowerRestores(t, narrow, wide);
    RestorableStays(t, narrow, revision, at, wide);
    forall id
      ensures id in Local(m) ==> id in Keep(t, wide)
      ensures AtRest(t, wide) && IsActive(m, id) ==> IsActive(t, id)
    {
      ActiveAfter(t, narrow, revision, at, id);
      if id in Local(m) {
        LocalIsInUse(m, id);
      }
    }
  }

  lemma MembersStay(t: Tables, narrow: Selection, wide: Selection, revision: int, at: string, revision': int,
      at': string)
    requires Valid(t) && NativesAreRoots(t) && Narrower(narrow, wide)
    requires AliasesDone(t, narrow) && AliasesDone(t, wide)
    requires AllSettled(t.members, Keep(t, wide), t.derivations)
    ensures var m := Reconciled(t, narrow, revision, at);
            && m.members == t.members && Reconciled(m, wide, revision', at').members == t.members
  {
    hide Reconciled, Keep, AllSettled, Retargeted, Checkpointed, Removals;
    var m := Reconciled(t, narrow, revision, at);
    NoAliases(t, narrow);
    AliasesStayDone(t, narrow, revision, at, wide);
    NoAliases(m, wide);
    KeptAfterNarrowing(t, narrow, wide, revision, at);
    FewerKept(t.members, Keep(t, wide), Keep(t, narrow), t.derivations);
    ReconciledFrame(t, narrow, revision, at);
    FewerKept(t.members, Keep(t, wide), Keep(m, wide), t.derivations);
    ReconciledFrame(m, wide, revision', at');
  }

  /**
   * Narrowing the scope and widening it back brings the projects back: where projects had spread and were live exactly
   * while used, every membership and every project is as before, retired ones with their date.
   */
  lemma NarrowThenWidenProjects(t: Tables, narrow: Selection, wide: Selection, revision: int, at: string,
      revision': int, at': string)
    requires Valid(t) && NativesAreRoots(t) && Narrower(narrow, wide) && AtRest(t, wide)
    requires AliasesDone(t, narrow) && AliasesDone(t, wide)
    requires AllSettled(t.members, Keep(t, wide), t.derivations) && ProjectsInStep(t)
    ensures var back := Reconciled(Reconciled(t, narrow, revision, at), wide, revision', at');
            back.members == t.members && back.projects == t.projects
  {
    hide Reconciled, Keep, AllSettled, AtRest, Valid, UsedAfter, IsActive;
    var m := Reconciled(t, narrow, revision, at);
    var back := Reconciled(m, wide, revision', at');
    MembersStay(t, narrow, wide, revision, at, revision', at');
    KeptAfterNarrowing(t, narrow, wide, revision, at);
    ProjectsExactly(t, narrow, revision, at);
    ProjectsExactly(m, wide, revision', at');
    forall id
      ensures IsActive(back, id) == IsActive(t, id)
    {
      NarrowThenWiden(t, narrow, wide, revision, at, revision', at', id);
    }
    forall p | p in t.projects
      ensures back.projects[p] == t.projects[p]
    {
      UseAlike(t, m, p);
      UseAlike(t, back, p);
      UseAlike(back, t, p);
      assert FollowsUse(t.projects[p], m.projects[p], UsedAfter(m, p), at);
      assert FollowsUse(m.projects[p], back.projects[p], UsedAfter(back, p), at');
    }
  }

  lemma UseAlike(t: Tables, r: Tables, project: string)
    requires r.members == t.members && forall id :: IsActive(r, id) ==> IsActive(t, id)
    ensures UsedAfter(r, project) ==> UsedAfter(t, project)
  {
    UsedExactly(t, project);
    UsedExactly(r, project);
  }

  /** From whatever the wide selection left: where no session is derived from itself, the projects come back as well. */
  lemma ScopeSwitchRestoresProjects(t: Tables, narrow: Selection, wide: Selection, revision: int, at: string,
      revision': int, at': string, rank: string -> nat)
    requires Valid(t) && NativesAreRoots(t) && Narrower(narrow, wide) && AliasesSettle(t, wide)
    requires FewerAliases(narrow, wide) && Forest(t.derivations, rank)
    ensures var before := Reconciled(t, wide, revision, at);
            var back := Reconciled(Reconciled(before, narrow, revision, at), wide, revision', at');
            back.members == before.members && back.projects == before.projects
  {
    hide Reconciled, AfterAliases, AliasesSettle, AliasesDone, FewerAliases, Valid, AtRest, Keep, Retargeted, Forest,
        AllSettled, ProjectsInStep, NativesAreRoots;
    var before := Reconciled(t, wide, revision, at);
    ReconciledRests(t, wide, revision, at);
    FewerAliasesDone(before, narrow, wide);
    RootsStay(t, wide, revision, at);
    SpreadAfter(t, wide, revision, at, rank);
    StepAfter(t, wide, revision, at);
    NarrowThenWidenProjects(before, narrow, wide, revision, at, revision', at');
  }

  lemma StepAfter(t: Tables, selection: Selection, revision: int, at: string)
    ensures ProjectsInStep(Reconciled(t, selection, revision, at))
  {
    hide Reconciled, UsedAfter;
    var r := Reconciled(t, selection, revision, at);
    ProjectsExactly(t, selection, revision, at);
    forall p | p in r.projects
      ensures r.projects[p].deletedAt == None <==> UsedAfter(r, p)
    {
      assert FollowsUse(t.projects[p], r.projects[p], UsedAfter(r, p), at);
    }
  }

  /** A reconciliation leaves the projects spread over all it keeps, and over all it would keep the next time. */
  lemma SpreadAfter(t: Tables, selection: Selection, revision: int, at: string, rank: string -> nat)
    requires Valid(t) && NativesAreRoots(t) && AliasesSettle(t, selection) && Forest(t.derivations, rank)
    ensures var r := Reconciled(t, selection, revision, at);
            AllSettled(r.members, Keep(r, selection), r.derivations)
  {
    hide Reconciled, AliasesDone, Valid, Keep, Retargeted, Forest, NativesAreRoots, RenameAll, Checkpointed, Removals,
        Settled;
    var a, r := AfterAliases(t, selection), Reconciled(t, selection, revision, at);
    AliasesKeep(t, selection);
    RootsAfterAliases(t, selection);
    NoAliases(a, selection);
    assert r == Reconciled(a, selection, revision, at) by {
      SameReconciled(t, selection, revision, at);
    }
    ReconciledFrame(a, selection, revision, at);
    RetargetConverges(a.members, Keep(a, selection), t.derivations, rank);
    NarrowerItself(selection);
    KeptAfterNarrowing(a, selection, selection, revision, at);
    FewerSettled(r.members, Keep(a, selection), Keep(r, selection), t.derivations);
  }

  lemma SameReconciled(t: Tables, selection: Selection, revision: int, at: string)
    requires AfterAliases(AfterAliases(t, selection), selection) == AfterAliases(t, selection)
    ensures Reconciled(AfterAliases(t, selection), selection, revision, at) == Reconciled(t, selection, revision, at)
  {
    hide AfterAliases, Keep, Removals, RemoveAll, Restorable, Retargeted, Revivals, RestoreAll, Retired, Checkpointed;
  }

  lemma NarrowerItself(selection: Selection)
    ensures Narrower(selection, selection)
  {
  }

  lemma FewerSettled(members: map<string, Member>, keep: set<string>, fewer: set<string>, rows: seq<Derivation>)
    requires AllSettled(members, keep, rows) && fewer <= keep
    ensures AllSettled(members, fewer, rows)
  {
  }

  // ----- deletion and restoration by the user

  /** Nothing but the rows of one session, the checkpoints and the counter has changed. */
  ghost predicate OnlyRowsOf(t: Tables, r: Tables, id: string) {
    && r.ids == t.ids && r.bindings == t.bindings && r.derivations == t.derivations && r.members == t.members
    && r.markers == t.markers && r.runsActive == t.runsActive && r.sessions.Keys == t.sessions.Keys
    && forall other :: other != id ==> RowsStay(t, r, other)
  }

  ghost function RevisionOf(t: Tables, id: string): nat {
    if id in t.placements then t.placements[id].revision else 0
  }

  /**
   * Deletion by the user. With writes pending it only hides the session, and a session deleted before stays as it is;
   * else it is deleted under a new operation, with its workspace remembered and a new checkpoint of just its version.
   */
  lemma DeletionExactly(t: Tables, id: string, pending: nat, at: string)
    requires Valid(t)
    ensures var r, result := UserDeleted(t, id, pending, at), DeletionResult(t, id, pending);
            && OnlyRowsOf(t, r, id) && r.projects == t.projects
            && if id !in t.sessions || t.sessions[id].authority == None then r == t && result == NotFound
               else if pending > 0 then
                 && result == Pending && r.sessions[id] == t.sessions[id].(tombstonedAt := Some(at))
                 && r.tombstones == t.tombstones && r.placements == t.placements && r.checkpoints == t.checkpoints
               else if id in t.tombstones && !t.tombstones[id].restored then
                 r == t && result == Deleted(t.tombstones[id].checkpointId)
               else IsDeletedNow(t, r, id, at) && result == Deleted(r.tombstones[id].checkpointId)
  {
    hide DeletedNow, OnlyRowsOf, IsDeletedNow, Valid, SetTombstonedAt;
    HiddenRows(t, id, at);
    if InScope(t, id) {
      DeletedRows(t, id, at);
    }
  }

  lemma HiddenRows(t: Tables, id: string, at: string)
    ensures OnlyRowsOf(t, t, id)
    ensures id in t.sessions ==>
              && OnlyRowsOf(t, t.(sessions := SetTombstonedAt(t, id, Some(at))), id)
              && SetTombstonedAt(t, id, Some(at)).Keys == t.sessions.Keys
              && SetTombstonedAt(t, id, Some(at))[id] == t.sessions[id].(tombstonedAt := Some(at))
  {
  }

  lemma DeletedRows(t: Tables, id: string, at: string)
    requires Valid(t) && id in t.sessions
    ensures var r := DeletedNow(t, id, at);
            && OnlyRowsOf(t, r, id) && r.projects == t.projects && IsDeletedNow(t, r, id, at)
            && r.tombstones[id].checkpointId == t.nextId
  {
    var r := DeletedNow(t, id, at);
    assert t.nextId !in t.checkpoints;
  }

  ghost predicate IsDeletedNow(t: Tables, r: Tables, id: string, at: string) {
    && id in t.sessions && id in r.sessions && r.sessions[id] == t.sessions[id].(tombstonedAt := Some(at))
    && id in r.tombstones && !r.tombstones[id].restored
    && r.tombstones[id].previousWorkspace == (if id in t.placements then t.placements[id].workspaceId else None)
    && t.nextId <= r.tombstones[id].operationId < r.nextId
    && id in r.placements && r.placements[id] == Placement(None, 0, false, true, RevisionOf(t, id) + 1)
    && r.checkpoints.Keys == t.checkpoints.Keys + {r.tombstones[id].checkpointId}
    && r.tombstones[id].checkpointId !in t.checkpoints && r.tombstones[id].checkpointId < r.nextId
    && (forall c :: c in t.checkpoints ==> r.checkpoints[c] == t.checkpoints[c])
    && r.checkpoints[r.tombstones[id].checkpointId]
       == match t.sessions[id].head case None => map[] case Some(version) => map[id := version]
  }

  /**
   * Restoration by the user: a deleted session is in use again in the workspace its tombstone remembers, or else where
   * it is, unpinned, archived if it was archived; and its project is live again.
   */
  lemma RestorationExactly(t: Tables, id: string)
    ensures var r := UserRestored(t, id);
            if id in t.sessions && t.sessions[id].tombstonedAt != None then
              && OnlyRowsOf(t, r, id) && r.checkpoints == t.checkpoints && r.nextId == t.nextId
              && r.sessions[id] == t.sessions[id].(tombstonedAt := None)
              && (id in r.tombstones <==> id in t.tombstones)
              && (id in t.tombstones ==> r.tombstones[id] == t.tombstones[id].(restored := true))
              && ProjectComesBack(t, r, id) && PlacedAgain(t, r, id)
            else r == t
  {
  }

  ghost predicate ProjectComesBack(t: Tables, r: Tables, id: string) {
    && r.projects.Keys == t.projects.Keys
    && forall p :: p in t.projects
         ==> && r.projects[p].maintenance == t.projects[p].maintenance
             && r.projects[p].deletedAt
                == if id in t.members && t.members[id].projectId == Some(p) then None else t.projects[p].deletedAt
  }

  ghost predicate PlacedAgain(t: Tables, r: Tables, id: string)
    requires id in t.sessions
  {
    var current := if id in t.placements then t.placements[id].workspaceId else None;
    && id in r.placements && r.placements[id].displayOrder == 0 && !r.placements[id].pinned
    && (r.placements[id].archived <==> t.sessions[id].archivedAt != None)
    && r.placements[id].revision == RevisionOf(t, id) + 1
    && r.placements[id].workspaceId
       == if id !in t.tombstones || t.tombstones[id].previousWorkspace == None then current
          else t.tombstones[id].previousWorkspace
  }

  /**
   * Deleting a session in use and restoring it gives the session back in its workspace; it is first in order, unpinned,
   * and archived exactly if the session was.
   */
  lemma DeleteThenRestore(t: Tables, id: string, at: string)
    requires Valid(t) && InUseBefore(t, id) && t.sessions[id].authority != None
    ensures var r := UserRestored(UserDeleted(t, id, 0, at), id);
            && r.sessions == t.sessions && id in r.placements
            && r.placements[id].workspaceId == (if id in t.placements then t.placements[id].workspaceId else None)
            && r.placements[id].displayOrder == 0 && !r.placements[id].pinned
            && (r.placements[id].archived <==> t.sessions[id].archivedAt != None)
            && forall other :: other != id ==> RowsStay(t, r, other)
  {
    hide UserDeleted, UserRestored, Valid, RowsStay;
    var d := UserDeleted(t, id, 0, at);
    var r := UserRestored(d, id);
    assert !(id in t.tombstones && !t.tombstones[id].restored) by {
      CleanAt(t, id);
    }
    DeletionExactly(t, id, 0, at);
    RestorationExactly(d, id);
    forall other | other != id
      ensures RowsStay(t, r, other)
    {
      RowsStayTwice(t, d, r, other);
    }
    forall other | other in t.sessions
      ensures r.sessions[other] == t.sessions[other]
    {
      if other != id {
        RowsStaySession(t, r, other);
      }
    }
  }

  lemma CleanAt(t: Tables, id: string)
    requires Valid(t) && InUseBefore(t, id)
    ensures !(id in t.tombstones && !t.tombstones[id].restored)
  {
    assert IsActive(t, id);
  }

  lemma RowsStayTwice(t: Tables, m: Tables, r: Tables, id: string)
    requires RowsStay(t, m, id) && RowsStay(m, r, id)
    ensures RowsStay(t, r, id)
  {
  }

  lemma RowsStaySession(t: Tables, r: Tables, id: string)
    requires RowsStay(t, r, id) && id in t.sessions
    ensures id in r.sessions && r.sessions[id] == t.sessions[id]
  {
  }

  /**
   * A deletion with writes pending remembers no workspace. Restoring from it gives the workspace back exactly unless
   * the session carries an older tombstone with another workspace, to which it then goes.
   */
  lemma HideThenRestore(t: Tables, id: string, pending: nat, at: string)
    requires Valid(t) && InUseBefore(t, id) && t.sessions[id].authority != None && pending > 0
    ensures var r := UserRestored(UserDeleted(t, id, pending, at), id);
            var workspace := if id in t.placements then t.placements[id].workspaceId else None;
            && r.sessions == t.sessions && id in r.placements
            && (r.placements[id].workspaceId == workspace
                <==> (id in t.tombstones && t.tombstones[id].previousWorkspace != None
                      ==> t.tombstones[id].previousWorkspace == workspace))
  {
    hide Valid;
  }
}
