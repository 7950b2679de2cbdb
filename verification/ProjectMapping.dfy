/** The canonical tables of a maintenance store, and what mapping, deletion and restoration do to them. */
module ProjectMapping {
  import opened Outcomes
  import opened Sequences
  import opened DerivationClosure

  datatype Origin = CodexImported | MaintenanceNative | CodexDerived
  datatype Authority = CodexScope | MaintenanceScope

  datatype SessionRow = SessionRow(
    head: Option<string>,
    canonical: Option<string>,
    tombstonedAt: Option<string>,
    archivedAt: Option<string>,
    authority: Option<Authority>,
    origin: Origin)

  datatype Placement = Placement(workspaceId: Option<string>, displayOrder: int, pinned: bool, archived: bool,
      revision: nat)

  datatype Tombstone = Tombstone(operationId: nat, checkpointId: nat, previousWorkspace: Option<string>, restored: bool)

  /** Who removed a session for being out of scope, and the placement it had. */
  datatype Marker = Marker(operationId: nat, policyRevision: int, placement: Option<Placement>)

  datatype Project = Project(maintenance: bool, deletedAt: Option<string>)

  datatype Binding = Binding(sessionId: string, sourceKey: string)

  datatype Tables = Tables(
    ids: seq<string>, // logical sessions in table order
    sessions: map<string, SessionRow>,
    bindings: seq<Binding>, // of the codex platform
    derivations: seq<Derivation>,
    members: map<string, Member>,
    projects: map<string, Project>,
    placements: map<string, Placement>,
    tombstones: map<string, Tombstone>,
    markers: map<string, Marker>,
    checkpoints: map<nat, map<string, string>>, // head version by session
    nextId: nat, // operation and checkpoint identifiers are never reused
    runsActive: bool)

  datatype Selection = Selection(sourceKeys: set<string>, projectIds: set<string>, aliases: seq<(string, string)>)

  // ----- reading the tables

  predicate IsActive(t: Tables, id: string) {
    id in t.sessions && t.sessions[id].tombstonedAt.None?
  }

  predicate HasLiveTombstone(t: Tables, id: string) {
    id in t.tombstones && !t.tombstones[id].restored
  }

  predicate IsNative(t: Tables, id: string) {
    id in t.sessions && t.sessions[id].origin == MaintenanceNative
  }

  /** Sessions bound to a selected source, and native sessions of a selected project. */
  function Seeds(t: Tables, selection: Selection): set<string> {
    (set k | 0 <= k < |t.bindings| && t.bindings[k].sourceKey in selection.sourceKeys :: t.bindings[k].sessionId)
    + (set id | id in t.members && IsNative(t, id) && t.members[id].projectId.Some?
        && t.members[id].projectId.value in selection.projectIds)
  }

  /** What the selection makes eligible for automatic restoration. */
  function Restorable(t: Tables, selection: Selection): set<string> {
    Closure(Seeds(t, selection), t.derivations)
  }

  predicate InMaintenanceProject(t: Tables, id: string) {
    && id in t.members && t.members[id].projectId.Some?
    && t.members[id].projectId.value in t.projects && t.projects[t.members[id].projectId.value].maintenance
  }

  predicate IsLocalRoot(t: Tables, id: string) {
    && InMaintenanceProject(t, id) && IsNative(t, id) && t.sessions[id].authority == Some(MaintenanceScope)
    && IsActive(t, id) && !HasLiveTombstone(t, id)
  }

  function LocalRoots(t: Tables): set<string> {
    set id | id in t.members && IsLocalRoot(t, id)
  }

  /** A continuation made in DSH from a Codex session, still in use. */
  predicate IsContinuation(t: Tables, row: Derivation) {
    && row.continuation && row.child in t.sessions
    && t.sessions[row.child].authority == Some(MaintenanceScope) && t.sessions[row.child].origin == CodexDerived
    && IsActive(t, row.child) && !HasLiveTombstone(t, row.child)
  }

  function Continuations(t: Tables): Derivation -> bool {
    (row: Derivation) => IsContinuation(t, row)
  }

  function Local(t: Tables): set<string> {
    Closure(LocalRoots(t), Filter(t.derivations, Continuations(t)))
  }

  function Keep(t: Tables, selection: Selection): set<string> {
    Restorable(t, selection) + Local(t)
  }

  // ----- removing and reviving one session

  const CLEARED := Placement(None, 0, false, true, 0)

  function Cleared(placements: map<string, Placement>, id: string): map<string, Placement> {
    if id in placements then placements[id := CLEARED.(revision := placements[id].revision + 1)] else placements
  }

  function PlacementOf(t: Tables, id: string): Option<Placement> {
    if id in t.placements then Some(t.placements[id]) else None
  }

  function WorkspaceOf(t: Tables, id: string): Option<string> {
    if id in t.placements then t.placements[id].workspaceId else None
  }

  function SetTombstonedAt(t: Tables, id: string, at: Option<string>): map<string, SessionRow> {
    if id in t.sessions then t.sessions[id := t.sessions[id].(tombstonedAt := at)] else t.sessions
  }

  /** Takes one session out of scope under a fresh operation, remembering its placement. */
  function RemoveOne(t: Tables, id: string, checkpointId: nat, revision: int, at: string): Tables {
    t.(tombstones := t.tombstones[id := Tombstone(t.nextId, checkpointId, WorkspaceOf(t, id), false)],
       markers := t.markers[id := Marker(t.nextId, revision, PlacementOf(t, id))],
       sessions := SetTombstonedAt(t, id, Some(at)),
       placements := Cleared(t.placements, id),
       nextId := t.nextId + 1)
  }

  function RemoveAll(t: Tables, ids: seq<string>, checkpointId: nat, revision: int, at: string): Tables {
    if ids == [] then t
        else RemoveOne(RemoveAll(t, ids[..|ids| - 1], checkpointId, revision, at), Last(ids), checkpointId, revision,
        at)
  }

  /** The session is deleted, and its live tombstone was written by the mapping itself. */
  predicate IsMarked(t: Tables, id: string) {
    && id in t.markers && HasLiveTombstone(t, id) && t.tombstones[id].operationId == t.markers[id].operationId
    && id in t.sessions && t.sessions[id].tombstonedAt.Some?
  }

  function Revived(t: Tables, id: string): map<string, Placement> {
    if id in t.markers && t.markers[id].placement.Some? && id in t.placements
    then t.placements[id := t.markers[id].placement.value.(revision := t.placements[id].revision + 1)]
    else t.placements
  }

  function RestoreOne(t: Tables, id: string): Tables {
    t.(sessions := SetTombstonedAt(t, id, None),
       tombstones := if id in t.tombstones then t.tombstones[id := t.tombstones[id].(restored := true)]
           else t.tombstones,
       placements := Revived(t, id),
       markers := t.markers - {id})
  }

  function RestoreAll(t: Tables, ids: seq<string>): Tables {
    if ids == [] then t else RestoreOne(RestoreAll(t, ids[..|ids| - 1]), Last(ids))
  }

  // ----- reconciliation

  function Renamed(members: map<string, Member>, from: string, to: string): map<string, Member> {
    map id | id in members :: if members[id].projectId == Some(from) then Member(Some(to), members[id].revision + 1)
        else members[id]
  }

  function RenameAll(members: map<string, Member>, aliases: seq<(string, string)>): map<string, Member> {
    if aliases == [] then members
    else Renamed(RenameAll(members, aliases[..|aliases| - 1]), Last(aliases).0, Last(aliases).1)
  }

  function HeadOf(row: SessionRow): Option<string> {
    if row.head.Some? then row.head else row.canonical
  }

  /** The versions a checkpoint holds on to. */
  function RefsOf(t: Tables, ids: seq<string>): map<string, string> {
    map id | id in ids && id in t.sessions && HeadOf(t.sessions[id]).Some? :: HeadOf(t.sessions[id]).value
  }

  function Removals(t: Tables, keep: set<string>): seq<string> {
    Filter(t.ids, (id: string) => IsActive(t, id) && id !in keep)
  }

  function Checkpointed(t: Tables, ids: seq<string>): Tables {
    if ids == [] then t else t.(checkpoints := t.checkpoints[t.nextId := RefsOf(t, ids)], nextId := t.nextId + 1)
  }

  function Revivals(t: Tables, restorable: set<string>): seq<string> {
    Filter(t.ids, (id: string) => IsMarked(t, id) && id in restorable)
  }

  predicate InUse(t: Tables, project: string) {
    exists id :: id in t.members && t.members[id].projectId == Some(project) && IsActive(t, id)
  }

  /** Projects without an active session are retired, others are brought back. */
  function Retired(t: Tables, at: string): map<string, Project> {
    map p | p in t.projects ::
      if InUse(t, p) then t.projects[p].(deletedAt := None)
      else if t.projects[p].deletedAt.None? then t.projects[p].(deletedAt := Some(at))
      else t.projects[p]
  }

  datatype Outcome = Outcome(removed: nat, restored: nat, kept: nat, checkpointId: Option<nat>)

  function AfterAliases(t: Tables, selection: Selection): Tables {
    t.(members := RenameAll(t.members, selection.aliases))
  }

  function AfterRemovals(t: Tables, selection: Selection, revision: int, at: string): Tables {
    var a := AfterAliases(t, selection);
    var remove := Removals(a, Keep(a, selection));
    RemoveAll(Checkpointed(a, remove), remove, a.nextId, revision, at)
  }

  function AfterRevivals(t: Tables, selection: Selection, revision: int, at: string): Tables {
    var r := AfterRemovals(t, selection, revision, at);
    RestoreAll(r, Revivals(r, Restorable(AfterAliases(t, selection), selection)))
  }

  function AfterRetarget(t: Tables, selection: Selection, revision: int, at: string): Tables {
    var r := AfterRevivals(t, selection, revision, at);
    r.(members := Retargeted(r.members, Keep(AfterAliases(t, selection), selection), r.derivations))
  }

  /** The tables after reconciling them with a selection. */
  function Reconciled(t: Tables, selection: Selection, revision: int, at: string): Tables {
    var r := AfterRetarget(t, selection, revision, at);
    r.(projects := Retired(r, at))
  }

  // ----- deletion and restoration by the user

  datatype Deletion = NotFound | Pending | Deleted(checkpointId: nat)

  predicate InScope(t: Tables, id: string) {
    id in t.sessions && t.sessions[id].authority.Some?
  }

  function NextRevision(t: Tables, id: string): nat {
    (if id in t.placements then t.placements[id].revision else 0) + 1
  }

  /** Writes a checkpoint and a tombstone under fresh identifiers and takes the session off its workspace. */
  function DeletedNow(t: Tables, id: string, at: string): Tables
    requires id in t.sessions
  {
    var head := t.sessions[id].head;
    t.(checkpoints := t.checkpoints[t.nextId := if head.Some? then map[id := head.value] else map[]],
       tombstones := t.tombstones[id := Tombstone(t.nextId + 1, t.nextId, WorkspaceOf(t, id), false)],
       sessions := SetTombstonedAt(t, id, Some(at)),
       placements := t.placements[id := CLEARED.(revision := NextRevision(t, id))],
       nextId := t.nextId + 2)
  }

  /** With writes pending the session is only hidden; otherwise a tombstone with a fresh operation is written. */
  function UserDeleted(t: Tables, id: string, pending: nat, at: string): Tables {
    if !InScope(t, id) then t
    else if pending > 0 then t.(sessions := SetTombstonedAt(t, id, Some(at)))
    else if HasLiveTombstone(t, id) then t
    else DeletedNow(t, id, at)
  }

  function DeletionResult(t: Tables, id: string, pending: nat): Deletion {
    if !InScope(t, id) then NotFound
    else if pending > 0 then Pending
    else if HasLiveTombstone(t, id) then Deleted(t.tombstones[id].checkpointId)
    else Deleted(t.nextId)
  }

  predicate CanRestore(t: Tables, id: string) {
    id in t.sessions && t.sessions[id].tombstonedAt.Some?
  }

  /** The workspace a session returns to: the tombstone's if it recorded one, else where it is now. */
  function ReturnsTo(t: Tables, id: string): Option<string> {
    if id in t.tombstones
        && t.tombstones[id].previousWorkspace.Some? then t.tombstones[id].previousWorkspace else WorkspaceOf(t, id)
  }

  function UserRestored(t: Tables, id: string): Tables {
    if !CanRestore(t, id) then t
    else
      t.(tombstones := if id in t.tombstones then t.tombstones[id := t.tombstones[id].(restored := true)]
          else t.tombstones,
         sessions := SetTombstonedAt(t, id, None),
         projects := if id in t.members && t.members[id].projectId.Some? && t.members[id].projectId.value in t.projects
                     then t.projects[t.members[id].projectId.value :=
                         t.projects[t.members[id].projectId.value].(deletedAt := None)]
                     else t.projects,
         placements := t.placements[id := Placement(ReturnsTo(t, id), 0, false, t.sessions[id].archivedAt.Some?,
                                                    NextRevision(t, id))])
  }

  // ----- the store

  class Store {
    var tables: Tables

    constructor (tables: Tables)
      ensures this.tables == tables
    {
      this.tables := tables;
    }

    method SelectedMappingKeepSet(selection: Selection) returns (keep: set<string>)
      ensures keep == Restorable(tables, selection)
      ensures Seeds(tables, selection) <= keep && Closed(keep, tables.derivations)
      ensures forall closed: set<string> :: Seeds(tables, selection) <= closed && Closed(closed, tables.derivations)
                ==> keep <= closed
    {
      keep := CloseOver(Seeds(tables, selection), tables.derivations);
    }

    method WithActiveLocalDsh(selected: set<string>) returns (keep: set<string>)
      ensures keep == selected + Local(tables)
    {
      var local := CloseOver(LocalRoots(tables), Filter(tables.derivations, Continuations(tables)));
      keep := selected + local;
    }

    method ApplyAliases(aliases: seq<(string, string)>)
      modifies this
      ensures tables == old(tables).(members := RenameAll(old(tables).members, aliases))
    {
      ghost var before := tables;
      for k := 0 to |aliases|
        invariant tables == before.(members := RenameAll(before.members, aliases[..k]))
      {
        assert aliases[..k + 1][..k] == aliases[..k] && Last(aliases[..k + 1]) == aliases[k];
        tables := tables.(members := Renamed(tables.members, aliases[k].0, aliases[k].1));
      }
      assert aliases[..|aliases|] == aliases;
    }

    /** Each session out of scope gets a tombstone and a marker under its own fresh operation. */
    method RemoveSessions(remove: seq<string>, checkpointId: nat, revision: int, at: string)
      modifies this
      ensures tables == RemoveAll(old(tables), remove, checkpointId, revision, at)
    {
      hide RemoveOne;
      ghost var before := tables;
      for k := 0 to |remove|
        invariant tables == RemoveAll(before, remove[..k], checkpointId, revision, at)
      {
        assert remove[..k + 1][..k] == remove[..k] && Last(remove[..k + 1]) == remove[k];
        tables := RemoveOne(tables, remove[k], checkpointId, revision, at);
      }
      assert remove[..|remove|] == remove;
    }

    method RestoreSessions(marked: seq<string>)
      modifies this
      ensures tables == RestoreAll(old(tables), marked)
    {
      hide RestoreOne;
      ghost var before := tables;
      for k := 0 to |marked|
        invariant tables == RestoreAll(before, marked[..k])
      {
        assert marked[..k + 1][..k] == marked[..k] && Last(marked[..k + 1]) == marked[k];
        tables := RestoreOne(tables, marked[k]);
      }
      assert marked[..|marked|] == marked;
    }

    /** Renames aliased projects and removes what is out of scope, under a checkpoint of the versions removed. */
    method RemoveOutOfScope(selection: Selection, revision: int, at: string)
      returns (restorable: set<string>, keep: set<string>, remove: seq<string>, kept: nat, checkpointId: nat)
      modifies this
      ensures tables == AfterRemovals(old(tables), selection, revision, at)
      ensures var a := AfterAliases(old(tables), selection);
              && restorable == Restorable(a, selection) && keep == Keep(a, selection)
              && remove == Removals(a, keep) && kept == |Filter(a.ids, (id: string) => id in keep)|
              && checkpointId == a.nextId
    {
      hide Removals, RemoveAll, Restorable, Local, RenameAll, RefsOf;
      ApplyAliases(selection.aliases);
      restorable := SelectedMappingKeepSet(selection);
      keep := WithActiveLocalDsh(restorable);
      remove := Removals(tables, keep);
      kept := |Filter(tables.ids, (id: string) => id in keep)|;
      checkpointId := tables.nextId;
      if remove != [] {
        tables := tables.(checkpoints := tables.checkpoints[checkpointId := RefsOf(tables, remove)],
            nextId := checkpointId + 1);
      }
      RemoveSessions(remove, checkpointId, revision, at);
    }

    /** Brings the store in line with a selection, unless a run still holds sessions. */
    method Reconcile(selection: Selection, revision: int, at: string) returns (r: Result<Outcome>)
      modifies this
      ensures r.Ok? <==> !old(tables).runsActive
      ensures tables == if r.Ok? then Reconciled(old(tables), selection, revision, at) else old(tables)
      ensures r.Ok? ==>
        var a := AfterAliases(old(tables), selection);
        var remove := Removals(a, Keep(a, selection));
        && r.value.removed == |remove|
        && r.value.restored == |Revivals(AfterRemovals(old(tables), selection, revision, at), Restorable(a, selection))|
        && r.value.kept == |Filter(a.ids, (id: string) => id in Keep(a, selection))|
        && r.value.checkpointId == if remove == [] then None else Some(a.nextId)
    {
      hide AfterRemovals, Removals, Keep, RestoreAll, Revivals, Restorable, Retargeted, Retired;
      if tables.runsActive {
        return Err("MAPPING_RUNTIME_ACTIVE");
      }
      var restorable, keep, remove, kept, checkpointId := RemoveOutOfScope(selection, revision, at);
      var marked := Revivals(tables, restorable);
      RestoreSessions(marked);
      var members := Retarget(tables.members, keep, tables.derivations);
      tables := tables.(members := members);
      tables := tables.(projects := Retired(tables, at));
      return Ok(Outcome(|remove|, |marked|, kept, if remove == [] then None else Some(checkpointId)));
    }

    method DeleteWithinTransaction(id: string, pending: nat, at: string) returns (r: Deletion)
      modifies this
      ensures tables == UserDeleted(old(tables), id, pending, at)
      ensures r == DeletionResult(old(tables), id, pending)
    {
      if id !in tables.sessions || tables.sessions[id].authority.None? {
        return NotFound;
      }
      if pending > 0 {
        tables := tables.(sessions := SetTombstonedAt(tables, id, Some(at)));
        return Pending;
      }
      if HasLiveTombstone(tables, id) {
        return Deleted(tables.tombstones[id].checkpointId);
      }
      var checkpointId, operationId := tables.nextId, tables.nextId + 1;
      var head := tables.sessions[id].head;
      var refs := if head.Some? then map[id := head.value] else map[];
      var revision := NextRevision(tables, id);
      tables := tables.(
        checkpoints := tables.checkpoints[checkpointId := refs],
        tombstones := tables.tombstones[id := Tombstone(operationId, checkpointId, WorkspaceOf(tables, id), false)],
        sessions := SetTombstonedAt(tables, id, Some(at)),
        placements := tables.placements[id := CLEARED.(revision := revision)],
        nextId := operationId + 1);
      return Deleted(checkpointId);
    }

    method RestoreSession(id: string) returns (r: Option<Option<string>>)
      modifies this
      ensures tables == UserRestored(old(tables), id)
      ensures r == if CanRestore(old(tables), id) then Some(ReturnsTo(old(tables), id)) else None
    {
      if !CanRestore(tables, id) {
        return None;
      }
      var workspace := ReturnsTo(tables, id);
      var session := tables.sessions[id];
      if id in tables.tombstones {
        tables := tables.(tombstones := tables.tombstones[id := tables.tombstones[id].(restored := true)]);
      }
      tables := tables.(sessions := SetTombstonedAt(tables, id, None));
      if id in tables.members && tables.members[id].projectId.Some?
          && tables.members[id].projectId.value in tables.projects {
        var project := tables.members[id].projectId.value;
        tables := tables.(projects := tables.projects[project := tables.projects[project].(deletedAt := None)]);
      }
      tables := tables.(placements :=
          tables.placements[id := Placement(workspace, 0, false, session.archivedAt.Some?, NextRevision(tables, id))]);
      return Some(workspace);
    }
  }
}
