/** What reconciliation keeps, undoes and never does, over single steps and over whole runs. */
module MappingTheorems {
  import opened Outcomes
  import opened Sequences
  import opened DerivationClosure
  import opened ProjectMapping

  // ----- tables that can occur

  ghost predicate Listed(t: Tables) {
    && (forall id :: id in t.ids <==> id in t.sessions)
    && Distinct(t.ids)
  }

  /** Operations and checkpoints come from the counter. */
  ghost predicate Counted(t: Tables) {
    && (forall id :: id in t.tombstones ==> t.tombstones[id].operationId < t.nextId)
    && (forall id :: id in t.markers ==> t.markers[id].operationId < t.nextId)
    && (forall c :: c in t.checkpoints ==> c < t.nextId)
  }

  /** An active session has no live tombstone. */
  ghost predicate Clean(t: Tables) {
    forall id :: IsActive(t, id) ==> !HasLiveTombstone(t, id)
  }

  ghost predicate Valid(t: Tables) {
    Listed(t) && Counted(t) && Clean(t)
  }

  // ----- one session at a time

  predicate Agree<T(==)>(m: map<string, T>, n: map<string, T>, id: string) {
    (id in m <==> id in n) && (id in m ==> m[id] == n[id])
  }

  /** Nothing about the session has changed. */
  predicate Unchanged(t: Tables, r: Tables, id: string) {
    Agree(t.sessions, r.sessions, id) && Agree(t.tombstones, r.tombstones, id) && Agree(t.markers, r.markers, id)
        && Agree(t.placements, r.placements, id)
  }

  /** The session was removed under an operation, with its placement remembered. */
  predicate RemovedUnder(t: Tables, r: Tables, id: string, operationId: nat, checkpointId: nat, revision: int,
      at: string) {
    && id in r.tombstones && r.tombstones[id] == Tombstone(operationId, checkpointId, WorkspaceOf(t, id), false)
    && id in r.markers && r.markers[id] == Marker(operationId, revision, PlacementOf(t, id))
    && (id in t.sessions <==> id in r.sessions)
         && (id in t.sessions ==> r.sessions[id] == t.sessions[id].(tombstonedAt := Some(at)))
    && (id in t.placements <==> id in r.placements)
         && (id in t.placements ==> r.placements[id] == CLEARED.(revision := t.placements[id].revision + 1))
  }

  predicate RevivedAt(t: Tables, r: Tables, id: string) {
    && (id in t.sessions <==> id in r.sessions)
         && (id in t.sessions ==> r.sessions[id] == t.sessions[id].(tombstonedAt := None))
    && (id in t.tombstones <==> id in r.tombstones)
         && (id in t.tombstones ==> r.tombstones[id] == t.tombstones[id].(restored := true))
    && id !in r.markers
    && Agree(Revived(t, id), r.placements, id)
  }

  /** Everything but sessions, tombstones, markers, placements and the counter. */
  predicate SameFrame(t: Tables, r: Tables) {
    && r.ids == t.ids && r.bindings == t.bindings && r.derivations == t.derivations && r.members == t.members
    && r.projects == t.projects && r.checkpoints == t.checkpoints && r.runsActive == t.runsActive
  }

  lemma RemoveOneAt(t: Tables, id: string, checkpointId: nat, revision: int, at: string, other: string)
    ensures var r := RemoveOne(t, id, checkpointId, revision, at);
            && SameFrame(t, r) && r.nextId == t.nextId + 1
            && RemovedUnder(t, r, id, t.nextId, checkpointId, revision, at)
            && (other != id ==> Unchanged(t, r, other))
  {
  }

  lemma {:induction false} RemoveAllFrame(t: Tables, ids: seq<string>, checkpointId: nat, revision: int, at: string)
    ensures SameFrame(t, RemoveAll(t, ids, checkpointId, revision, at))
    ensures RemoveAll(t, ids, checkpointId, revision, at).nextId == t.nextId + |ids|
  {
    if ids != [] {
      RemoveAllFrame(t, ids[..|ids| - 1], checkpointId, revision, at);
    }
  }

  lemma UnchangedTrans(t: Tables, m: Tables, r: Tables, id: string)
    requires Unchanged(t, m, id) && Unchanged(m, r, id)
    ensures Unchanged(t, r, id)
  {
  }

  lemma {:induction false} RemoveAllOthers(t: Tables, ids: seq<string>, checkpointId: nat, revision: int, at: string,
      other: string)
    requires other !in ids
    ensures Unchanged(t, RemoveAll(t, ids, checkpointId, revision, at), other)
  {
    hide RemoveOne;
    if ids != [] {
      RemoveAllOthers(t, ids[..|ids| - 1], checkpointId, revision, at, other);
      RemoveOneAt(RemoveAll(t, ids[..|ids| - 1], checkpointId, revision, at), Last(ids), checkpointId, revision, at,
          other);
    }
  }

  /** The k-th session of the list is removed under the k-th fresh operation. */
  lemma {:induction false} RemoveAllAt(t: Tables, ids: seq<string>, checkpointId: nat, revision: int, at: string,
      k: nat)
    requires Distinct(ids) && k < |ids|
    ensures RemovedUnder(t, RemoveAll(t, ids, checkpointId, revision, at), ids[k], t.nextId + k, checkpointId, revision,
            at)
  {
    hide RemoveOne;
    var init := ids[..|ids| - 1];
    var before := RemoveAll(t, init, checkpointId, revision, at);
    RemoveAllFrame(t, init, checkpointId, revision, at);
    RemoveOneAt(before, Last(ids), checkpointId, revision, at, ids[k]);
    if k < |ids| - 1 {
      RemoveAllAt(t, init, checkpointId, revision, at, k);
    } else {
      RemoveAllOthers(t, init, checkpointId, revision, at, ids[k]);
    }
  }

  lemma RestoreOneAt(t: Tables, id: string, other: string)
    ensures var r := RestoreOne(t, id);
            && SameFrame(t, r) && r.nextId == t.nextId && RevivedAt(t, r, id)
            && (other != id ==> Unchanged(t, r, other))
  {
  }

  lemma {:induction false} RestoreAllFrame(t: Tables, ids: seq<string>)
    ensures SameFrame(t, RestoreAll(t, ids)) && RestoreAll(t, ids).nextId == t.nextId
  {
    if ids != [] {
      RestoreAllFrame(t, ids[..|ids| - 1]);
    }
  }

  lemma {:induction false} RestoreAllOthers(t: Tables, ids: seq<string>, other: string)
    requires other !in ids
    ensures Unchanged(t, RestoreAll(t, ids), other)
  {
    hide RestoreOne;
    if ids != [] {
      RestoreAllOthers(t, ids[..|ids| - 1], other);
      RestoreOneAt(RestoreAll(t, ids[..|ids| - 1]), Last(ids), other);
    }
  }

  lemma {:induction false} RestoreAllAt(t: Tables, ids: seq<string>, id: string)
    requires Distinct(ids) && id in ids
    ensures RevivedAt(t, RestoreAll(t, ids), id)
  {
    hide RestoreOne;
    var init := ids[..|ids| - 1];
    RestoreOneAt(RestoreAll(t, init), Last(ids), id);
    if id == Last(ids) {
      assert id !in init;
      RestoreAllOthers(t, init, id);
    } else {
      assert id in init;
      RestoreAllAt(t, init, id);
    }
  }

  // ----- the two lists

  lemma RemovalList(t: Tables, keep: set<string>)
    requires Listed(t)
    ensures Distinct(Removals(t, keep))
    ensures forall id :: id in Removals(t, keep) <==> IsActive(t, id) && id !in keep
  {
    var p := (id: string) => IsActive(t, id) && id !in keep;
    FilterDistinct(t.ids, p);
    FilterMembership(t.ids, p);
  }

  lemma RevivalList(t: Tables, restorable: set<string>)
    requires Listed(t)
    ensures Distinct(Revivals(t, restorable))
    ensures forall id :: id in Revivals(t, restorable) <==> IsMarked(t, id) && id in restorable
  {
    var p := (id: string) => IsMarked(t, id) && id in restorable;
    FilterDistinct(t.ids, p);
    FilterMembership(t.ids, p);
  }

  // ----- what one reconciliation does to a session

  datatype Fate = Removed(operationId: nat) | Reviving | Left

  ghost predicate Suffers(t: Tables, r: Tables, id: string, fate: Fate, checkpointId: nat, revision: int, at: string) {
    match fate
    case Removed(operationId) => RemovedUnder(t, r, id, operationId, checkpointId, revision, at)
    case Reviving => RevivedAt(t, r, id)
    case Left => Unchanged(t, r, id)
  }

  /**
   * Removed if active and out of scope, revived if the mapping had removed it and it is eligible again, else left
   * alone.
   */
  ghost predicate Decided(a: Tables, selection: Selection, id: string, fate: Fate) {
    match fate
    case Removed(operationId) => IsActive(a, id) && id !in Keep(a, selection) && a.nextId < operationId
    case Reviving => IsMarked(a, id) && id in Restorable(a, selection)
    case Left => !(IsActive(a, id) && id !in Keep(a, selection)) && !(IsMarked(a, id) && id in Restorable(a, selection))
  }

  lemma SameSessions(r: Tables, r': Tables, id: string)
    requires r'.sessions == r.sessions && r'.tombstones == r.tombstones && r'.markers == r.markers
            && r'.placements == r.placements
    ensures Unchanged(r, r', id)
  {
  }

  lemma SuffersLater(t: Tables, m: Tables, r: Tables, id: string, fate: Fate, checkpointId: nat, revision: int,
      at: string)
    requires Suffers(t, m, id, fate, checkpointId, revision, at) && Unchanged(m, r, id)
    ensures Suffers(t, r, id, fate, checkpointId, revision, at)
  {
  }

  lemma AliasesKeep(t: Tables, selection: Selection)
    requires Valid(t)
    ensures Valid(AfterAliases(t, selection))
    ensures forall id :: Unchanged(t, AfterAliases(t, selection), id)
  {
    hide RenameAll;
    assert forall id :: IsActive(AfterAliases(t, selection), id) == IsActive(t, id);
  }

  lemma MarkedAlike(t: Tables, r: Tables, id: string)
    requires Unchanged(t, r, id)
    ensures IsMarked(t, id) == IsMarked(r, id) && IsActive(t, id) == IsActive(r, id)
            && HasLiveTombstone(t, id) == HasLiveTombstone(r, id)
  {
  }

  function Narrowed(a: Tables, keep: set<string>, revision: int, at: string): Tables {
    RemoveAll(Checkpointed(a, Removals(a, keep)), Removals(a, keep), a.nextId, revision, at)
  }

  lemma RemovedFate(a: Tables, keep: set<string>, revision: int, at: string, id: string) returns (operationId: nat)
    requires Listed(a) && id in Removals(a, keep)
    ensures Suffers(a, Narrowed(a, keep, revision, at), id, Removed(operationId), a.nextId, revision, at)
    ensures a.nextId < operationId < Narrowed(a, keep, revision, at).nextId
  {
    hide RefsOf, RemoveAll, Removals, Unchanged, RemovedUnder, Listed, Suffers;
    var remove := Removals(a, keep);
    var c := Checkpointed(a, remove);
    RemovalList(a, keep);
    var k :| 0 <= k < |remove| && remove[k] == id;
    operationId := c.nextId + k;
    RemoveAllFrame(c, remove, a.nextId, revision, at);
    RemoveAllAt(c, remove, a.nextId, revision, at, k);
    RemovedSuffers(a, c, Narrowed(a, keep, revision, at), id, operationId, a.nextId, revision, at);
  }

  lemma RemovedSuffers(a: Tables, c: Tables, r: Tables, id: string, operationId: nat, checkpointId: nat, revision: int,
      at: string)
    requires c.sessions == a.sessions && c.placements == a.placements
            && RemovedUnder(c, r, id, operationId, checkpointId, revision, at)
    ensures Suffers(a, r, id, Removed(operationId), checkpointId, revision, at)
  {
  }

  lemma CheckpointedSame(a: Tables, ids: seq<string>, id: string)
    ensures Unchanged(a, Checkpointed(a, ids), id)
  {
    hide RefsOf;
    if ids != [] {
      SameSessions(a, Checkpointed(a, ids), id);
    }
  }

  lemma LeftFate(a: Tables, keep: set<string>, revision: int, at: string, id: string)
    requires Listed(a) && id !in Removals(a, keep)
    ensures Unchanged(a, Narrowed(a, keep, revision, at), id)
  {
    hide RemoveAll, Removals, Unchanged, Listed, Checkpointed;
    var remove := Removals(a, keep);
    var c := Checkpointed(a, remove);
    CheckpointedSame(a, remove, id);
    RemoveAllOthers(c, remove, a.nextId, revision, at, id);
    UnchangedTrans(a, c, RemoveAll(c, remove, a.nextId, revision, at), id);
  }

  /** The fate of each session under the removals. */
  lemma RemovalFate(a: Tables, keep: set<string>, revision: int, at: string, id: string) returns (fate: Fate)
    requires Listed(a)
    ensures Suffers(a, Narrowed(a, keep, revision, at), id, fate, a.nextId, revision, at)
    ensures fate.Removed? <==> IsActive(a, id) && id !in keep
    ensures fate.Removed? ==> a.nextId < fate.operationId < Narrowed(a, keep, revision, at).nextId
    ensures !fate.Removed? ==> fate == Left
  {
    hide Narrowed, Removals, RemovedUnder, IsActive, Listed;
    RemovalList(a, keep);
    if id in Removals(a, keep) {
      var operationId := RemovedFate(a, keep, revision, at, id);
      fate := Removed(operationId);
    } else {
      LeftFate(a, keep, revision, at, id);
      fate := Left;
    }
  }

  lemma RemovalsFrame(t: Tables, selection: Selection, revision: int, at: string)
    ensures var a, r := AfterAliases(t, selection), AfterRemovals(t, selection, revision, at);
            && r.ids == a.ids && r.bindings == a.bindings && r.derivations == a.derivations && r.members == a.members
               && r.projects == a.projects
            && r.nextId >= a.nextId
  {
    hide Removals, Keep;
    var a := AfterAliases(t, selection);
    var remove := Removals(a, Keep(a, selection));
    RemoveAllFrame(Checkpointed(a, remove), remove, a.nextId, revision, at);
  }

  lemma ListedAfter(a: Tables, r: Tables)
    requires Listed(a) && r.ids == a.ids && forall id :: id in a.sessions <==> id in r.sessions
    ensures Listed(r)
  {
  }

  /** What one reconciliation does to each session. */
  lemma SessionFate(t: Tables, selection: Selection, revision: int, at: string, id: string) returns (fate: Fate)
    requires Valid(t)
    ensures var a := AfterAliases(t, selection);
            Decided(a, selection, id, fate)
                && Suffers(a, Reconciled(t, selection, revision, at), id, fate, a.nextId, revision, at)
    ensures fate.Removed? ==> fate.operationId < Reconciled(t, selection, revision, at).nextId
  {
    hide RenameAll, Removals, RemoveAll, Restorable, Local, Revivals, RestoreAll, Retargeted, Retired, IsMarked,
        Suffers, Unchanged;
    AliasesKeep(t, selection);
    var a, r := AfterAliases(t, selection), AfterRemovals(t, selection, revision, at);
    fate := RemovalFate(a, Keep(a, selection), revision, at, id);
    var restorable := Restorable(a, selection);
    RevivalsAfterRemovals(t, selection, revision, at);
    var marked := Revivals(r, restorable);
    var v := RestoreAll(r, marked);
    var done := Reconciled(t, selection, revision, at);
    RestoreAllFrame(r, marked);
    SameSessions(v, done, id);
    if id in marked {
      RestoreAllAt(r, marked, id);
      fate := Reviving;
      UnmarkedUnchanged(t, selection, revision, at, id);
      AssembleRevival(a, r, v, done, id, revision, at);
    } else {
      RestoreAllOthers(r, marked, id);
      UnchangedTrans(r, v, done, id);
      SuffersLater(a, r, done, id, fate, a.nextId, revision, at);
    }
  }

  lemma AssembleRevival(a: Tables, r: Tables, v: Tables, done: Tables, id: string, revision: int, at: string)
    requires Unchanged(a, r, id) && RevivedAt(r, v, id) && Unchanged(v, done, id)
    ensures Suffers(a, done, id, Reviving, a.nextId, revision, at)
  {
  }

  /** After the removals, exactly the sessions marked before and eligible are on the revival list. */
  lemma RevivalsAfterRemovals(t: Tables, selection: Selection, revision: int, at: string)
    requires Valid(t)
    ensures var a, r := AfterAliases(t, selection), AfterRemovals(t, selection, revision, at);
            var restorable := Restorable(a, selection);
            && Listed(r) && Distinct(Revivals(r, restorable))
            && forall id :: id in Revivals(r, restorable) <==> IsMarked(a, id) && id in restorable
  {
    hide RenameAll, Removals, RemoveAll, Restorable, Local, Revivals, IsMarked, Unchanged;
    AliasesKeep(t, selection);
    RemovalsFrame(t, selection, revision, at);
    var a, r := AfterAliases(t, selection), AfterRemovals(t, selection, revision, at);
    forall id
      ensures id in a.sessions <==> id in r.sessions
      ensures id in Restorable(a, selection) ==> IsMarked(a, id) == IsMarked(r, id)
    {
      var fate := RemovalFate(a, Keep(a, selection), revision, at, id);
      SessionsStay(a, r, id, fate, a.nextId, revision, at);
      if fate == Left {
        MarkedAlike(a, r, id);
      }
    }
    ListedAfter(a, r);
    RevivalList(r, Restorable(a, selection));
  }

  lemma SessionsStay(a: Tables, r: Tables, id: string, fate: Fate, checkpointId: nat, revision: int, at: string)
    requires Suffers(a, r, id, fate, checkpointId, revision, at)
    ensures id in a.sessions <==> id in r.sessions
  {
  }

  lemma UnmarkedUnchanged(t: Tables, selection: Selection, revision: int, at: string, id: string)
    requires Valid(t)
    requires var a := AfterAliases(t, selection); IsMarked(a, id)
    ensures Unchanged(AfterAliases(t, selection), AfterRemovals(t, selection, revision, at), id)
  {
    hide RenameAll, Removals, RemoveAll, Keep, Unchanged;
    AliasesKeep(t, selection);
    var a := AfterAliases(t, selection);
    var fate := RemovalFate(a, Keep(a, selection), revision, at, id);
  }

  // ----- one reconciliation

  lemma UnmarkedWhenActive(t: Tables, id: string)
    ensures IsActive(t, id) ==> !IsMarked(t, id)
  {
  }

  lemma FateActive(t: Tables, r: Tables, id: string, fate: Fate, checkpointId: nat, revision: int, at: string)
    requires Suffers(t, r, id, fate, checkpointId, revision, at)
    ensures fate.Removed? && id in t.sessions ==> !IsActive(r, id) && IsMarked(r, id)
    ensures fate == Reviving && id in t.sessions ==> IsActive(r, id) && !HasLiveTombstone(r, id)
    ensures fate == Left
            ==> IsActive(r, id) == IsActive(t, id) && IsMarked(r, id) == IsMarked(t, id)
                && HasLiveTombstone(r, id) == HasLiveTombstone(t, id)
    ensures id in t.sessions <==> id in r.sessions
    ensures IsNative(t, id) == IsNative(r, id)
  {
  }

  /**
   * After reconciling, exactly those are active that were active and are kept, or were removed by the mapping and are
   * eligible.
   */
  lemma ActiveAfter(t: Tables, selection: Selection, revision: int, at: string, id: string)
    requires Valid(t)
    ensures var a := AfterAliases(t, selection);
            IsActive(Reconciled(t, selection, revision, at), id) <==>
              (IsActive(t, id) && id in Keep(a, selection)) || (IsMarked(t, id) && id in Restorable(a, selection))
  {
    hide Reconciled, Suffers, IsActive, IsMarked, AfterAliases, Restorable, Local, Unchanged;
    AliasesKeep(t, selection);
    var a := AfterAliases(t, selection);
    var fate := SessionFate(t, selection, revision, at, id);
    MarkedAlike(t, a, id);
    UnmarkedWhenActive(a, id);
    FateActive(a, Reconciled(t, selection, revision, at), id, fate, a.nextId, revision, at);
    ActiveExists(a, id);
  }

  lemma ActiveExists(t: Tables, id: string)
    ensures IsActive(t, id) || IsMarked(t, id) ==> id in t.sessions
  {
  }

  /** Only a session whose live tombstone carries the operation of its own marker is ever revived. */
  lemma OnlyMarkedRevived(t: Tables, selection: Selection, revision: int, at: string, id: string)
    requires Valid(t) && !IsActive(t, id) && IsActive(Reconciled(t, selection, revision, at), id)
    ensures id in t.markers && HasLiveTombstone(t, id) && t.tombstones[id].operationId == t.markers[id].operationId
    ensures id in Restorable(AfterAliases(t, selection), selection)
  {
    ActiveAfter(t, selection, revision, at, id);
  }

  lemma StageFrames(t: Tables, selection: Selection, revision: int, at: string)
    ensures var a := AfterAliases(t, selection);
            var c := Checkpointed(a, Removals(a, Keep(a, selection)));
            var v := AfterRevivals(t, selection, revision, at);
            SameFrame(c, v) && v.nextId == c.nextId + |Removals(a, Keep(a, selection))|
  {
    hide RenameAll, Removals, Keep, Revivals, Restorable, RefsOf, RemoveAll, RestoreAll, Checkpointed;
    var a := AfterAliases(t, selection);
    var remove := Removals(a, Keep(a, selection));
    RemoveAllFrame(Checkpointed(a, remove), remove, a.nextId, revision, at);
    var r := AfterRemovals(t, selection, revision, at);
    RestoreAllFrame(r, Revivals(r, Restorable(a, selection)));
  }

  lemma ReconciledFrame(t: Tables, selection: Selection, revision: int, at: string)
    ensures var a, done := AfterAliases(t, selection), Reconciled(t, selection, revision, at);
            var remove := Removals(a, Keep(a, selection));
            && done.ids == t.ids && done.bindings == t.bindings && done.derivations == t.derivations
            && done.members == Retargeted(a.members, Keep(a, selection), t.derivations)
            && done.projects.Keys == t.projects.Keys
               && (forall p :: p in done.projects ==> done.projects[p].maintenance == t.projects[p].maintenance)
            && done.checkpoints == Checkpointed(a, remove).checkpoints
            && done.nextId == Checkpointed(a, remove).nextId + |remove|
  {
    hide RenameAll, Removals, Keep, Retargeted, RefsOf, AfterRevivals, InUse, Local, Restorable, Retired, Checkpointed;
    var a := AfterAliases(t, selection);
    CheckpointedKeeps(a, Removals(a, Keep(a, selection)));
    StageFrames(t, selection, revision, at);
    RetiredKeeps(AfterRetarget(t, selection, revision, at), at);
  }

  lemma CheckpointedKeeps(t: Tables, ids: seq<string>)
    ensures var c := Checkpointed(t, ids);
            && c.ids == t.ids && c.bindings == t.bindings && c.derivations == t.derivations && c.members == t.members
            && c.projects == t.projects
  {
    hide RefsOf;
    if ids == [] {
      assert Checkpointed(t, ids) == t;
    }
  }

  lemma RetiredKeeps(t: Tables, at: string)
    ensures Retired(t, at).Keys == t.projects.Keys
    ensures forall p :: p in t.projects ==> Retired(t, at)[p].maintenance == t.projects[p].maintenance
  {
    hide InUse;
  }

  /** Every removed session with a version is held by the checkpoint of its removal. */
  lemma CheckpointHoldsRemovals(t: Tables, selection: Selection, revision: int, at: string, id: string)
    requires Valid(t) && IsActive(t, id) && !IsActive(Reconciled(t, selection, revision, at), id)
    requires HeadOf(t.sessions[id]).Some?
    ensures var done := Reconciled(t, selection, revision, at);
            && id in done.tombstones && done.tombstones[id].checkpointId in done.checkpoints
            && done.tombstones[id].checkpointId !in t.checkpoints
            && id in done.checkpoints[done.tombstones[id].checkpointId]
            && done.checkpoints[done.tombstones[id].checkpointId][id] == HeadOf(t.sessions[id]).value
  {
    hide Reconciled, Restorable, Local, Removals, RenameAll;
    AliasesKeep(t, selection);
    ReconciledFrame(t, selection, revision, at);
    var a := AfterAliases(t, selection);
    RemovalList(a, Keep(a, selection));
    var fate := SessionFate(t, selection, revision, at, id);
  }

  // ----- tables stay valid

  lemma ReconciledValid(t: Tables, selection: Selection, revision: int, at: string)
    requires Valid(t)
    ensures Valid(Reconciled(t, selection, revision, at))
  {
    hide Reconciled, Restorable, Local, Removals, RenameAll, RefsOf, IsMarked;
    AliasesKeep(t, selection);
    ReconciledFrame(t, selection, revision, at);
    var a, done := AfterAliases(t, selection), Reconciled(t, selection, revision, at);
    forall id
      ensures id in done.sessions <==> id in a.sessions
      ensures id in done.tombstones ==> done.tombstones[id].operationId < done.nextId
      ensures id in done.markers ==> done.markers[id].operationId < done.nextId
      ensures IsActive(done, id) ==> !HasLiveTombstone(done, id)
    {
      var fate := SessionFate(t, selection, revision, at, id);
      FateValid(a, done, id, fate, revision, at);
    }
  }

  lemma FateValid(a: Tables, done: Tables, id: string, fate: Fate, revision: int, at: string)
    requires Valid(a) && Suffers(a, done, id, fate, a.nextId, revision, at) && a.nextId <= done.nextId
    requires fate.Removed? ==> fate.operationId < done.nextId
    ensures id in done.sessions <==> id in a.sessions
    ensures id in done.tombstones ==> done.tombstones[id].operationId < done.nextId
    ensures id in done.markers ==> done.markers[id].operationId < done.nextId
    ensures IsActive(done, id) ==> !HasLiveTombstone(done, id)
  {
    assert IsActive(a, id) ==> !HasLiveTombstone(a, id);
    FateActive(a, done, id, fate, a.nextId, revision, at);
  }

  lemma DeletedNowCounted(t: Tables, id: string, at: string)
    requires Counted(t) && id in t.sessions
    ensures Counted(DeletedNow(t, id, at))
  {
  }

  lemma DeletedNowAt(t: Tables, id: string, at: string, other: string)
    requires Counted(t) && id in t.sessions
    ensures other != id ==> Unchanged(t, DeletedNow(t, id, at), other)
    ensures var r := DeletedNow(t, id, at);
            r.ids == t.ids && r.sessions.Keys == t.sessions.Keys && r.sessions[id].tombstonedAt.Some?
                && !IsMarked(r, id)
  {
  }

  lemma HiddenAt(t: Tables, id: string, at: string, other: string)
    requires id in t.sessions
    ensures var r := t.(sessions := SetTombstonedAt(t, id, Some(at)));
            && (other != id ==> Unchanged(t, r, other))
            && r.sessions.Keys == t.sessions.Keys && r.sessions[id].tombstonedAt.Some?
            && (HasLiveTombstone(t, id) <==> HasLiveTombstone(r, id))
            && (!HasLiveTombstone(t, id) || !IsActive(t, id) ==> IsMarked(r, id) == IsMarked(t, id))
            && (Counted(t) ==> Counted(r))
  {
  }

  /** What a deletion does to the session itself and to every other one. */
  lemma UserDeletedAt(t: Tables, id: string, pending: nat, at: string, other: string)
    requires Valid(t)
    ensures var r := UserDeleted(t, id, pending, at);
            && (other != id ==> Unchanged(t, r, other))
            && r.sessions.Keys == t.sessions.Keys
            && (InScope(t, id) ==> !IsActive(r, id) && (IsMarked(r, id) <==> IsMarked(t, id)))
            && (!InScope(t, id) ==> r == t)
  {
    hide DeletedNow, SetTombstonedAt, Unchanged;
    assert IsActive(t, id) ==> !HasLiveTombstone(t, id);
    if InScope(t, id) {
      DeletedNowAt(t, id, at, other);
      HiddenAt(t, id, at, other);
      assert !HasLiveTombstone(t, id) ==> !IsMarked(t, id);
    }
    assert Unchanged(t, t, other) by {
      SameSessions(t, t, other);
    }
  }

  lemma UserDeletedCounted(t: Tables, id: string, pending: nat, at: string)
    requires Counted(t)
    ensures Counted(UserDeleted(t, id, pending, at))
  {
    hide DeletedNow, SetTombstonedAt, Counted;
    if InScope(t, id) {
      DeletedNowCounted(t, id, at);
      HiddenAt(t, id, at, id);
    }
  }

  lemma UserDeletedValid(t: Tables, id: string, pending: nat, at: string)
    requires Valid(t)
    ensures Valid(UserDeleted(t, id, pending, at))
  {
    hide UserDeleted, Counted;
    var r := UserDeleted(t, id, pending, at);
    UserDeletedCounted(t, id, pending, at);
    UserDeletedIds(t, id, pending, at);
    forall other
      ensures other in r.sessions <==> other in t.sessions
      ensures IsActive(r, other) ==> !HasLiveTombstone(r, other)
    {
      UserDeletedAt(t, id, pending, at, other);
      assert IsActive(t, other) ==> !HasLiveTombstone(t, other);
    }
  }

  lemma UserDeletedIds(t: Tables, id: string, pending: nat, at: string)
    ensures UserDeleted(t, id, pending, at).ids == t.ids
  {
  }

  lemma UserRestoredValid(t: Tables, id: string)
    requires Valid(t)
    ensures Valid(UserRestored(t, id))
  {
    var r := UserRestored(t, id);
    assert forall other :: other != id
            ==> IsActive(r, other) == IsActive(t, other) && HasLiveTombstone(r, other) == HasLiveTombstone(t, other);
  }

  // ----- every run of reconciliations, deletions and restorations

  datatype Command =
    | Reconcile(selection: Selection, revision: int, at: string)
    | Delete(id: string, pending: nat, at: string)
    | Restore(id: string)

  function Step(t: Tables, command: Command): Tables {
    match command
    case Reconcile(selection, revision, at) => if t.runsActive then t else Reconciled(t, selection, revision, at)
    case Delete(id, pending, at) => UserDeleted(t, id, pending, at)
    case Restore(id) => UserRestored(t, id)
  }

  function Run(t: Tables, commands: seq<Command>): Tables {
    if commands == [] then t else Step(Run(t, commands[..|commands| - 1]), Last(commands))
  }

  lemma StepValid(t: Tables, command: Command)
    requires Valid(t)
    ensures Valid(Step(t, command))
  {
    match command
    case Reconcile(selection, revision, at) => ReconciledValid(t, selection, revision, at);
    case Delete(id, pending, at) => UserDeletedValid(t, id, pending, at);
    case Restore(id) => UserRestoredValid(t, id);
  }

  /** Deleted by the user: gone, and not in the mapping's hands. */
  predicate GoneForGood(t: Tables, id: string) {
    id in t.sessions && t.sessions[id].tombstonedAt.Some? && !IsMarked(t, id)
  }

  /**
   * Deleting an existing session puts it out of reach of the mapping exactly when the mapping had not removed it
   * already: deleting a session that is out of scope changes nothing, and it will come back with its scope.
   */
  lemma DeletionProtects(t: Tables, id: string, pending: nat, at: string)
    requires Valid(t) && InScope(t, id)
    ensures GoneForGood(UserDeleted(t, id, pending, at), id) <==> !IsMarked(t, id)
    ensures IsActive(t, id) ==> GoneForGood(UserDeleted(t, id, pending, at), id)
  {
    hide UserDeleted, Valid;
    UserDeletedAt(t, id, pending, at, id);
    UnmarkedWhenActive(t, id);
  }

  lemma UserKeepsGone(t: Tables, id: string, other: string, pending: nat, at: string)
    requires Valid(t) && GoneForGood(t, id)
    ensures GoneForGood(UserDeleted(t, other, pending, at), id)
    ensures other != id ==> GoneForGood(UserRestored(t, other), id)
  {
    hide UserDeleted, UserRestored, Valid, Unchanged;
    if other == id {
      UserDeletedAt(t, other, pending, at, id);
      if InScope(t, id) {
        DeletionProtects(t, id, pending, at);
      }
    } else {
      UserDeletedAt(t, other, pending, at, id);
      UserRestoredOthers(t, other, id);
      GoneAlike(t, UserDeleted(t, other, pending, at), id);
      GoneAlike(t, UserRestored(t, other), id);
    }
  }

  lemma GoneAlike(t: Tables, r: Tables, id: string)
    requires Unchanged(t, r, id) && GoneForGood(t, id)
    ensures GoneForGood(r, id)
  {
    MarkedAlike(t, r, id);
  }

  lemma UserRestoredOthers(t: Tables, id: string, other: string)
    ensures other != id ==> Unchanged(t, UserRestored(t, id), other)
  {
  }

  lemma StepKeepsGone(t: Tables, command: Command, id: string)
    requires Valid(t) && GoneForGood(t, id) && command != Restore(id)
    ensures GoneForGood(Step(t, command), id)
  {
    hide UserDeleted, UserRestored, Reconciled, GoneForGood, Valid;
    match command
    case Reconcile(selection, revision, at) =>
      if !t.runsActive {
        ReconcileKeepsGone(t, selection, revision, at, id);
      }
    case Delete(other, pending, at) => UserKeepsGone(t, id, other, pending, at);
    case Restore(other) => UserKeepsGone(t, id, other, 0, "");
  }

  lemma ReconcileKeepsGone(t: Tables, selection: Selection, revision: int, at: string, id: string)
    requires Valid(t) && GoneForGood(t, id)
    ensures GoneForGood(Reconciled(t, selection, revision, at), id)
  {
    hide Reconciled, Suffers, IsActive, IsMarked, AfterAliases, Restorable, Local, Unchanged;
    AliasesKeep(t, selection);
    var a := AfterAliases(t, selection);
    var fate := SessionFate(t, selection, revision, at, id);
    MarkedAlike(t, a, id);
    GoneInactive(t, id);
    FateActive(a, Reconciled(t, selection, revision, at), id, fate, a.nextId, revision, at);
    StillGone(t, a, Reconciled(t, selection, revision, at), id);
  }

  lemma GoneInactive(t: Tables, id: string)
    requires GoneForGood(t, id)
    ensures !IsActive(t, id)
  {
  }

  lemma StillGone(t: Tables, a: Tables, r: Tables, id: string)
    requires GoneForGood(t, id) && Unchanged(t, a, id) && (id in a.sessions <==> id in r.sessions)
    requires !IsActive(r, id) && !IsMarked(r, id)
    ensures GoneForGood(r, id)
  {
  }

  lemma {:induction false} RunValid(t: Tables, commands: seq<Command>)
    requires Valid(t)
    ensures Valid(Run(t, commands))
  {
    hide Step, Valid;
    if commands != [] {
      RunValid(t, commands[..|commands| - 1]);
      StepValid(Run(t, commands[..|commands| - 1]), Last(commands));
    }
  }

  /**
   * A session deleted by the user while it was active stays deleted through every run of reconciliations, deletions and
   * restorations of others, until the user restores it.
   */
  lemma {:induction false} DeletedStaysDeleted(t: Tables, id: string, pending: nat, at: string, commands: seq<Command>)
    requires Valid(t) && InScope(t, id) && IsActive(t, id)
    requires Restore(id) !in commands
    ensures GoneForGood(Run(UserDeleted(t, id, pending, at), commands), id)
    ensures !IsActive(Run(UserDeleted(t, id, pending, at), commands), id)
  {
    hide Step, Valid, GoneForGood, UserDeleted;
    var start := UserDeleted(t, id, pending, at);
    if commands == [] {
      DeletionProtects(t, id, pending, at);
      GoneInactive(start, id);
    } else {
      var init := commands[..|commands| - 1];
      DeletedStaysDeleted(t, id, pending, at, init);
      UserDeletedValid(t, id, pending, at);
      RunValid(start, init);
      StepKeepsGone(Run(start, init), Last(commands), id);
      GoneInactive(Run(start, commands), id);
    }
  }

  // ----- reconciling twice, narrowing and widening

  /** No session that Maintenance owns is derived from another one. */
  predicate NativesAreRoots(t: Tables) {
    forall k :: 0 <= k < |t.derivations| ==> !IsNative(t, t.derivations[k].child)
  }

  lemma {:induction false} RetargetLeavesRoots(members: map<string, Member>, keep: set<string>, rows: seq<Derivation>,
      id: string)
    requires forall k :: 0 <= k < |rows| ==> rows[k].child != id
    ensures Agree(members, RetargetPass(members, keep, rows), id)
  {
    if rows != [] {
      assert forall k :: 0 <= k < |rows| - 1 ==> rows[..|rows| - 1][k] == rows[k];
      RetargetLeavesRoots(members, keep, rows[..|rows| - 1], id);
    }
  }

  lemma {:induction false} PassesLeaveRoots(members: map<string, Member>, keep: set<string>, rows: seq<Derivation>,
      n: nat, id: string)
    requires forall k :: 0 <= k < |rows| ==> rows[k].child != id
    ensures Agree(members, Passes(members, keep, rows, n), id)
  {
    if n > 0 {
      PassesLeaveRoots(members, keep, rows, n - 1, id);
      RetargetLeavesRoots(Passes(members, keep, rows, n - 1), keep, rows, id);
    }
  }

  predicate IsAliased(aliases: seq<(string, string)>, project: Option<string>) {
    exists k :: 0 <= k < |aliases| && project == Some(aliases[k].0)
  }

  /** No membership is in a project that the selection renames. */
  predicate AliasesDone(t: Tables, selection: Selection) {
    forall id :: id in t.members ==> !IsAliased(selection.aliases, t.members[id].projectId)
  }

  /** Renaming once leaves no membership in a project that the selection renames. */
  predicate AliasesSettle(t: Tables, selection: Selection) {
    AliasesDone(AfterAliases(t, selection), selection)
  }

  lemma {:induction false} RenamesNothing(members: map<string, Member>, aliases: seq<(string, string)>)
    requires forall id :: id in members ==> !IsAliased(aliases, members[id].projectId)
    ensures RenameAll(members, aliases) == members
  {
    if aliases != [] {
      var init := aliases[..|aliases| - 1];
      forall id | id in members
        ensures !IsAliased(init, members[id].projectId) && members[id].projectId != Some(Last(aliases).0)
      {
        assert forall k :: 0 <= k < |init| ==> init[k] == aliases[k];
        assert Last(aliases) == aliases[|aliases| - 1];
      }
      RenamesNothing(members, init);
    }
  }

  /** Once the aliases are done, a reconciliation starts from the tables themselves. */
  lemma NoAliases(t: Tables, selection: Selection)
    requires AliasesDone(t, selection)
    ensures AfterAliases(t, selection) == t
  {
    RenamesNothing(t.members, selection.aliases);
  }

  /** Retargeting only copies projects. */
  lemma {:induction false} PassCopies(members: map<string, Member>, keep: set<string>, rows: seq<Derivation>,
      aliases: seq<(string, string)>)
    requires forall id :: id in members ==> !IsAliased(aliases, members[id].projectId)
    ensures forall id :: id in RetargetPass(members, keep, rows)
              ==> !IsAliased(aliases, RetargetPass(members, keep, rows)[id].projectId)
  {
    hide IsAliased;
    if rows != [] {
      PassCopies(members, keep, rows[..|rows| - 1], aliases);
    }
  }

  lemma {:induction false} PassesCopy(members: map<string, Member>, keep: set<string>, rows: seq<Derivation>, n: nat,
      aliases: seq<(string, string)>)
    requires forall id :: id in members ==> !IsAliased(aliases, members[id].projectId)
    ensures forall id :: id in Passes(members, keep, rows, n)
              ==> !IsAliased(aliases, Passes(members, keep, rows, n)[id].projectId)
  {
    hide IsAliased, RetargetPass;
    if n > 0 {
      PassesCopy(members, keep, rows, n - 1, aliases);
      PassCopies(Passes(members, keep, rows, n - 1), keep, rows, aliases);
    }
  }

  /** Reconciling with one selection leaves the aliases of another done. */
  lemma AliasesStayDone(t: Tables, selection: Selection, revision: int, at: string, other: Selection)
    requires Valid(t) && AliasesDone(t, selection) && AliasesDone(t, other)
    ensures AliasesDone(Reconciled(t, selection, revision, at), other)
  {
    hide Reconciled, IsAliased, Keep, Passes;
    NoAliases(t, selection);
    ReconciledFrame(t, selection, revision, at);
    PassesCopy(t.members, Keep(t, selection), t.derivations, |t.derivations|, other.aliases);
  }

  lemma NativeStays(t: Tables, selection: Selection, revision: int, at: string, id: string)
    requires Valid(t) && AliasesDone(t, selection) && NativesAreRoots(t)
    ensures var done := Reconciled(t, selection, revision, at);
            IsNative(done, id) == IsNative(t, id) && (IsNative(t, id) ==> Agree(t.members, done.members, id))
  {
    hide Reconciled, Suffers, Restorable, Local, Unchanged;
    NoAliases(t, selection);
    ReconciledFrame(t, selection, revision, at);
    var fate := SessionFate(t, selection, revision, at, id);
    FateActive(t, Reconciled(t, selection, revision, at), id, fate, t.nextId, revision, at);
    if IsNative(t, id) {
      PassesLeaveRoots(t.members, Keep(t, selection), t.derivations, |t.derivations|, id);
    }
  }

  /** Reconciling with one selection does not change what another one makes eligible. */
  lemma RestorableStays(t: Tables, selection: Selection, revision: int, at: string, other: Selection)
    requires Valid(t) && AliasesDone(t, selection) && NativesAreRoots(t)
    ensures Restorable(Reconciled(t, selection, revision, at), other) == Restorable(t, other)
    ensures NativesAreRoots(Reconciled(t, selection, revision, at))
  {
    hide Reconciled;
    var done := Reconciled(t, selection, revision, at);
    NoAliases(t, selection);
    ReconciledFrame(t, selection, revision, at);
    forall id
      ensures IsNative(done, id) == IsNative(t, id) && (IsNative(t, id) ==> Agree(t.members, done.members, id))
    {
      NativeStays(t, selection, revision, at, id);
    }
    assert Seeds(done, other) == Seeds(t, other);
  }

  lemma KeptIsLeft(t: Tables, selection: Selection, revision: int, at: string, id: string)
    requires Valid(t) && AliasesDone(t, selection) && IsActive(t, id) && id in Keep(t, selection)
    ensures Unchanged(t, Reconciled(t, selection, revision, at), id)
  {
    hide Reconciled, Suffers, Restorable, Local;
    NoAliases(t, selection);
    UnmarkedWhenActive(t, id);
    var fate := SessionFate(t, selection, revision, at, id);
    LeftUnchanged(t, Reconciled(t, selection, revision, at), id, fate, t.nextId, revision, at);
  }

  lemma LeftUnchanged(t: Tables, r: Tables, id: string, fate: Fate, checkpointId: nat, revision: int, at: string)
    requires Suffers(t, r, id, fate, checkpointId, revision, at)
    ensures fate == Left ==> Unchanged(t, r, id)
  {
  }

  lemma LocalRootStays(t: Tables, selection: Selection, revision: int, at: string, id: string)
    requires Valid(t) && AliasesDone(t, selection) && NativesAreRoots(t)
    requires IsLocalRoot(t, id) && id in Keep(t, selection)
    ensures IsLocalRoot(Reconciled(t, selection, revision, at), id)
  {
    hide Reconciled, Restorable, Local, Retargeted;
    KeptIsLeft(t, selection, revision, at, id);
    NativeStays(t, selection, revision, at, id);
    NoAliases(t, selection);
    ReconciledFrame(t, selection, revision, at);
  }

  lemma ContinuationStays(t: Tables, r: Tables, row: Derivation)
    requires Unchanged(t, r, row.child) && IsContinuation(t, row)
    ensures IsContinuation(r, row)
  {
  }

  lemma FilteredRow(rows: seq<Derivation>, p: Derivation -> bool, k: nat)
    requires k < |rows| && p(rows[k])
    ensures exists j :: 0 <= j < |Filter(rows, p)| && Filter(rows, p)[j] == rows[k]
  {
    FilterMembership(rows, p);
    assert rows[k] in rows;
    assert rows[k] in Filter(rows, p);
  }

  lemma ContinuationRow(t: Tables, j: nat) returns (k: nat)
    requires j < |Filter(t.derivations, Continuations(t))|
    ensures k < |t.derivations| && t.derivations[k] == Filter(t.derivations, Continuations(t))[j]
            && IsContinuation(t, t.derivations[k])
  {
    var rows := Filter(t.derivations, Continuations(t));
    FilterMembership(t.derivations, Continuations(t));
    assert rows[j] in rows;
    k :| 0 <= k < |t.derivations| && t.derivations[k] == rows[j];
  }

  /** What local DSH projects protect before a reconciliation they protect after it. */
  lemma LocalStays(t: Tables, selection: Selection, revision: int, at: string)
    requires Valid(t) && AliasesDone(t, selection) && NativesAreRoots(t)
    ensures Local(t) <= Local(Reconciled(t, selection, revision, at))
  {
    hide Reconciled, Restorable, IsLocalRoot, IsContinuation, Unchanged, Closure;
    var done := Reconciled(t, selection, revision, at);
    NoAliases(t, selection);
    ReconciledFrame(t, selection, revision, at);
    var rows, rows' := Filter(t.derivations, Continuations(t)), Filter(done.derivations, Continuations(done));
    ClosureIsClosed(LocalRoots(t), rows);
    ClosureIsClosed(LocalRoots(done), rows');
    var both := Local(t) * Local(done);
    forall id | id in LocalRoots(t)
      ensures id in both
    {
      LocalRootStays(t, selection, revision, at, id);
      RootListed(done, id);
    }
    forall j | 0 <= j < |rows| && rows[j].parent in both
      ensures rows[j].child in both
    {
      var k := ContinuationRow(t, j);
      assert rows[j].child in Local(t);
      ContinuationActive(t, rows[j]);
      KeptIsLeft(t, selection, revision, at, rows[j].child);
      ContinuationStays(t, done, rows[j]);
      FilteredRow(done.derivations, Continuations(done), k);
      var i :| 0 <= i < |rows'| && rows'[i] == rows[j];
      assert rows'[i].child in Local(done);
    }
    ClosureIsLeast(LocalRoots(t), rows, both);
  }

  lemma RootListed(t: Tables, id: string)
    requires IsLocalRoot(t, id)
    ensures id in LocalRoots(t)
  {
  }

  lemma ContinuationActive(t: Tables, row: Derivation)
    requires IsContinuation(t, row)
    ensures IsActive(t, row.child)
  {
  }

  /** Nothing to remove and nothing to revive under a selection. */
  ghost predicate AtRest(t: Tables, selection: Selection) {
    && (forall id :: IsActive(t, id) ==> id in Keep(t, selection))
    && (forall id :: IsMarked(t, id) ==> id !in Restorable(t, selection))
  }

  lemma ActiveStaysKept(t: Tables, selection: Selection, revision: int, at: string, id: string)
    requires Valid(t) && AliasesDone(t, selection) && NativesAreRoots(t)
    requires IsActive(Reconciled(t, selection, revision, at), id)
    ensures id in Keep(Reconciled(t, selection, revision, at), selection)
  {
    hide Reconciled, Restorable, Local;
    NoAliases(t, selection);
    ActiveAfter(t, selection, revision, at, id);
    RestorableStays(t, selection, revision, at, selection);
    LocalStays(t, selection, revision, at);
  }

  lemma MarkedStaysOut(t: Tables, selection: Selection, revision: int, at: string, id: string)
    requires Valid(t) && AliasesDone(t, selection) && NativesAreRoots(t)
    requires IsMarked(Reconciled(t, selection, revision, at), id)
    ensures id !in Restorable(Reconciled(t, selection, revision, at), selection)
  {
    hide Reconciled, Restorable, Local, Suffers, IsMarked;
    NoAliases(t, selection);
    RestorableStays(t, selection, revision, at, selection);
    var fate := SessionFate(t, selection, revision, at, id);
    var done := Reconciled(t, selection, revision, at);
    FateActive(t, done, id, fate, t.nextId, revision, at);
    UnmarkedWhenActive(done, id);
    ActiveExists(t, id);
  }

  lemma ReconciledAtRest(t: Tables, selection: Selection, revision: int, at: string)
    requires Valid(t) && AliasesDone(t, selection) && NativesAreRoots(t)
    ensures AtRest(Reconciled(t, selection, revision, at), selection)
  {
    hide Reconciled, Keep, Restorable;
    var done := Reconciled(t, selection, revision, at);
    forall id
      ensures IsActive(done, id) ==> id in Keep(done, selection)
      ensures IsMarked(done, id) ==> id !in Restorable(done, selection)
    {
      if IsActive(done, id) {
        ActiveStaysKept(t, selection, revision, at, id);
      }
      if IsMarked(done, id) {
        MarkedStaysOut(t, selection, revision, at, id);
      }
    }
  }

  lemma HasHead(s: seq<string>)
    ensures s == [] || s[0] in s
  {
  }

  /** Reconciling tables at rest removes and revives nothing and leaves every session as it is. */
  lemma AtRestIsIdle(t: Tables, selection: Selection, revision: int, at: string)
    requires Valid(t) && AliasesDone(t, selection) && AtRest(t, selection)
    ensures Removals(t, Keep(t, selection)) == []
    ensures Revivals(AfterRemovals(t, selection, revision, at), Restorable(t, selection)) == []
    ensures forall id :: Unchanged(t, Reconciled(t, selection, revision, at), id)
  {
    hide Reconciled, Restorable, Local, Suffers, Unchanged, Removals, Revivals;
    NoAliases(t, selection);
    RemovalList(t, Keep(t, selection));
    HasHead(Removals(t, Keep(t, selection)));
    RevivalsAfterRemovals(t, selection, revision, at);
    var marked := Revivals(AfterRemovals(t, selection, revision, at), Restorable(t, selection));
    HasHead(marked);
    forall id
      ensures Unchanged(t, Reconciled(t, selection, revision, at), id)
    {
      var fate := SessionFate(t, selection, revision, at, id);
      LeftUnchanged(t, Reconciled(t, selection, revision, at), id, fate, t.nextId, revision, at);
    }
  }

  lemma RootsAfterAliases(t: Tables, selection: Selection)
    ensures NativesAreRoots(AfterAliases(t, selection)) == NativesAreRoots(t)
  {
  }

  /** A reconciliation leaves tables that are at rest under its selection, with its aliases done. */
  lemma ReconciledRests(t: Tables, selection: Selection, revision: int, at: string)
    requires Valid(t) && AliasesSettle(t, selection) && NativesAreRoots(t)
    ensures var once := Reconciled(t, selection, revision, at);
            Valid(once) && AtRest(once, selection) && AliasesDone(once, selection)
  {
    hide Valid, AtRest, AliasesDone, NativesAreRoots, Keep, Restorable;
    var a := AfterAliases(t, selection);
    AliasesKeep(t, selection);
    RootsAfterAliases(t, selection);
    NoAliases(a, selection);
    assert Reconciled(t, selection, revision, at) == Reconciled(a, selection, revision, at);
    ReconciledValid(a, selection, revision, at);
    ReconciledAtRest(a, selection, revision, at);
    AliasesStayDone(a, selection, revision, at, selection);
  }

  /** Reconciling twice with one selection removes and restores nothing the second time. */
  lemma ReconcileTwice(t: Tables, selection: Selection, revision: int, at: string, revision': int, at': string)
    requires Valid(t) && AliasesSettle(t, selection) && NativesAreRoots(t)
    ensures var once := Reconciled(t, selection, revision, at);
            && AfterAliases(once, selection) == once
            && Removals(once, Keep(once, selection)) == []
            && Revivals(AfterRemovals(once, selection, revision', at'), Restorable(once, selection)) == []
            && forall id :: Unchanged(once, Reconciled(once, selection, revision', at'), id)
  {
    hide Reconciled, AfterAliases, AliasesSettle;
    ReconciledRests(t, selection, revision, at);
    NoAliases(Reconciled(t, selection, revision, at), selection);
    AtRestIsIdle(Reconciled(t, selection, revision, at), selection, revision', at');
  }

  predicate Narrower(narrow: Selection, wide: Selection) {
    narrow.sourceKeys <= wide.sourceKeys && narrow.projectIds <= wide.projectIds
  }

  lemma NarrowerRestores(t: Tables, narrow: Selection, wide: Selection)
    requires Narrower(narrow, wide)
    ensures Restorable(t, narrow) <= Restorable(t, wide)
  {
    ClosureIsClosed(Seeds(t, wide), t.derivations);
    ClosureIsLeast(Seeds(t, narrow), t.derivations, Restorable(t, wide));
  }

  /** The same workspace, order, pin and archive fields. */
  predicate SamePlace(t: Tables, r: Tables, id: string) {
    && (id in t.placements <==> id in r.placements)
    && (id in t.placements ==> r.placements[id] == t.placements[id].(revision := r.placements[id].revision))
  }

  lemma UnchangedPlace(t: Tables, m: Tables, r: Tables, id: string)
    requires Unchanged(t, m, id) && Unchanged(m, r, id)
    ensures IsActive(r, id) == IsActive(t, id) && SamePlace(t, r, id)
  {
  }

  lemma RoundTripPlace(t: Tables, m: Tables, r: Tables, id: string, operationId: nat, checkpointId: nat, revision: int,
      at: string)
    requires RemovedUnder(t, m, id, operationId, checkpointId, revision, at) && RevivedAt(m, r, id) && IsActive(t, id)
    ensures IsActive(r, id) && SamePlace(t, r, id)
  {
  }

  /** A session removed by narrowing is marked, and the wide selection makes it eligible again. */
  lemma NarrowedComesBack(t: Tables, narrow: Selection, wide: Selection, id: string)
    requires Narrower(narrow, wide) && AtRest(t, wide) && IsActive(t, id) && id !in Keep(t, narrow)
    ensures id in Restorable(t, wide)
  {
    hide Restorable, Local;
  }

  /**
   * Scope switches undo each other: narrowing a selection and widening it back gives the same active sessions, each
   * with the same workspace, order, pin and archive fields.
   */
  lemma NarrowThenWiden(t: Tables, narrow: Selection, wide: Selection, revision: int, at: string, revision': int,
      at': string, id: string)
    requires Valid(t) && NativesAreRoots(t) && Narrower(narrow, wide) && AtRest(t, wide)
    requires AliasesDone(t, narrow) && AliasesDone(t, wide)
    ensures var back := Reconciled(Reconciled(t, narrow, revision, at), wide, revision', at');
            IsActive(back, id) == IsActive(t, id) && SamePlace(t, back, id)
  {
    hide Reconciled, Restorable, Local, Suffers, Unchanged, RemovedUnder, RevivedAt, IsActive, IsMarked, Valid;
    var m := Reconciled(t, narrow, revision, at);
    var back := Reconciled(m, wide, revision', at');
    NoAliases(t, narrow);
    AliasesStayDone(t, narrow, revision, at, wide);
    NoAliases(m, wide);
    ReconciledValid(t, narrow, revision, at);
    RestorableStays(t, narrow, revision, at, wide);
    NarrowerRestores(t, narrow, wide);
    LocalStays(t, narrow, revision, at);
    var first := SessionFate(t, narrow, revision, at, id);
    var second := SessionFate(m, wide, revision', at', id);
    FateActive(t, m, id, first, t.nextId, revision, at);
    UnmarkedWhenActive(t, id);
    UnmarkedWhenActive(m, id);
    ActiveExists(t, id);
    if first.Removed? {
      NarrowedComesBack(t, narrow, wide, id);
      FateShows(t, m, id, first, t.nextId, revision, at);
      FateShows(m, back, id, second, m.nextId, revision', at');
      RoundTripPlace(t, m, back, id, first.operationId, t.nextId, revision, at);
    } else {
      FateShows(t, m, id, first, t.nextId, revision, at);
      FateShows(m, back, id, second, m.nextId, revision', at');
      UnchangedPlace(t, m, back, id);
    }
  }

  /** Every project that the narrow selection renames is renamed by the wide one. */
  predicate FewerAliases(narrow: Selection, wide: Selection) {
    forall k :: 0 <= k < |narrow.aliases| ==> IsAliased(wide.aliases, Some(narrow.aliases[k].0))
  }

  lemma FewerAliasesDone(t: Tables, narrow: Selection, wide: Selection)
    requires AliasesDone(t, wide) && FewerAliases(narrow, wide)
    ensures AliasesDone(t, narrow)
  {
  }

  /** From whatever the wide selection left, narrowing and widening comes back. */
  lemma ScopeSwitchUndone(t: Tables, narrow: Selection, wide: Selection, revision: int, at: string, revision': int,
      at': string, id: string)
    requires Valid(t) && NativesAreRoots(t) && Narrower(narrow, wide) && AliasesSettle(t, wide)
    requires FewerAliases(narrow, wide)
    ensures var before := Reconciled(t, wide, revision, at);
            var back := Reconciled(Reconciled(before, narrow, revision, at), wide, revision', at');
            IsActive(back, id) == IsActive(before, id) && SamePlace(before, back, id)
  {
    hide Reconciled, AfterAliases, AliasesSettle, AliasesDone, FewerAliases, Valid, AtRest;
    ReconciledRests(t, wide, revision, at);
    FewerAliasesDone(Reconciled(t, wide, revision, at), narrow, wide);
    RootsStay(t, wide, revision, at);
    NarrowThenWiden(Reconciled(t, wide, revision, at), narrow, wide, revision, at, revision', at', id);
  }

  lemma RootsStay(t: Tables, selection: Selection, revision: int, at: string)
    requires Valid(t) && NativesAreRoots(t) && AliasesSettle(t, selection)
    ensures NativesAreRoots(Reconciled(t, selection, revision, at))
  {
    hide Valid, AliasesDone, NativesAreRoots, Keep, Restorable;
    var a := AfterAliases(t, selection);
    AliasesKeep(t, selection);
    RootsAfterAliases(t, selection);
    NoAliases(a, selection);
    RestorableStays(a, selection, revision, at, selection);
  }

  lemma FateShows(t: Tables, r: Tables, id: string, fate: Fate, checkpointId: nat, revision: int, at: string)
    requires Suffers(t, r, id, fate, checkpointId, revision, at)
    ensures match fate
            case Removed(operationId) => RemovedUnder(t, r, id, operationId, checkpointId, revision, at)
            case Reviving => RevivedAt(t, r, id)
            case Left => Unchanged(t, r, id)
  {
  }
}
