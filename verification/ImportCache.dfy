/**
 * The change cache of the incremental import, as a state machine over the places where the importer waits. The source
 * is a set of components whose versions only grow, and it may move at every one of those places; a fingerprint is the
 * versions it was taken from.
 */
module ImportCache {
  import opened Outcomes
  import opened Sequences

  /**
   * The versions of one source session: display title, the rest of its thread row, its rollout file, and the project
   * scope it is selected under.
   */
  datatype Versions = Versions(title: nat, row: nat, file: nat, scope: nat)

  /** Where the importer waits in the visit of one session. */
  datatype Place =
    | Between
    | RowRead(id: string, scope: nat, title: nat, row: nat) // the stamp's thread row is read, its file not yet
    | Retitling(id: string, stamp: Versions) // only the title differs from the cached stamp
    | Observing(id: string, stamp: Versions)
    | Committing(id: string, stamp: Versions, seen: Versions)
    | Stored(id: string, stamp: Versions) // the mirror is written, the stamp not yet taken again
    | RowReread(id: string, stamp: Versions, title: nat, row: nat)

  /** pending holds the sessions of the running pass still to be visited, with the scope captured for them. */
  datatype World = World(source: map<string, Versions>, mirror: map<string, Versions>, cache: map<string, Versions>,
      pending: map<string, nat>, place: Place)

  datatype Action =
    | Move(id: string, next: Versions) // the source changes
    | BeginPass(ids: set<string>)
    | ReadRow(id: string)
    | ReadFile
    | CommitTitle(found: bool) // no mirror to retitle: the session is observed in full
    | Observe(stable: bool)
    | Commit
    | RereadRow
    | Compare
    | Abort // an error or a cancellation ends the pass where it is
    | EndPass(ids: set<string>) // sessions no longer listed are forgotten

  predicate Below(a: Versions, b: Versions) {
    a.title <= b.title && a.row <= b.row && a.file <= b.file && a.scope <= b.scope
  }

  /** The fingerprints without the title agree. */
  predicate SameBody(a: Versions, b: Versions) {
    a.(title := 0) == b.(title := 0)
  }

  predicate Enabled(w: World, action: Action) {
    match action
    case Move(id, next) => id in w.source ==> Below(w.source[id], next)
    case BeginPass(ids) => w.place.Between? && ids <= w.source.Keys
    case ReadRow(id) => w.place.Between? && id in w.pending && id in w.source
    case ReadFile => w.place.RowRead?
    case CommitTitle(found) => w.place.Retitling? && (found ==> w.place.id in w.mirror)
    case Observe(_) => w.place.Observing?
    case Commit => w.place.Committing?
    case RereadRow => w.place.Stored?
    case Compare => w.place.RowReread?
    case Abort => true
    case EndPass(_) => w.place.Between?
  }

  /** The scope has not moved since the pass captured it; otherwise the import refuses to write. */
  predicate ScopeHolds(w: World, id: string, stamp: Versions) {
    id in w.source && w.source[id].scope == stamp.scope
  }

  function Stopped(w: World): World {
    w.(pending := map[], place := Between)
  }

  /** After the second half of the stamp: skip, retitle or observe. */
  function Decide(w: World, id: string, stamp: Versions): World {
    if id in w.cache && w.cache[id] == stamp then w.(place := Between)
    else if id in w.cache && SameBody(w.cache[id], stamp) then w.(place := Retitling(id, stamp))
    else w.(place := Observing(id, stamp))
  }

  /** The entry is kept only if the second stamp equals the first. */
  function Remember(w: World, id: string, stamp: Versions, again: Versions): World {
    w.(cache := if again == stamp then w.cache[id := stamp] else w.cache - {id}, place := Between)
  }

  function Next(w: World, action: Action): World
    requires Enabled(w, action)
  {
    match action
    case Move(id, next) => w.(source := w.source[id := next])
    case BeginPass(ids) => w.(pending := map id | id in ids :: w.source[id].scope)
    case ReadRow(id) =>
      w.(pending := w.pending - {id}, place := RowRead(id, w.pending[id], w.source[id].title, w.source[id].row))
    case ReadFile =>
      var p := w.place;
      if p.id !in w.source then Stopped(w) else Decide(w, p.id, Versions(p.title, p.row, w.source[p.id].file, p.scope))
    case CommitTitle(found) =>
      var p := w.place;
      if !ScopeHolds(w, p.id, p.stamp) then Stopped(w)
      else if found
          then w.(mirror := w.mirror[p.id := w.mirror[p.id].(title := p.stamp.title)], place := Stored(p.id, p.stamp))
      else w.(place := Observing(p.id, p.stamp))
    case Observe(stable) =>
      var p := w.place;
      if !ScopeHolds(w, p.id, p.stamp) then Stopped(w)
      else if !stable then w.(place := Between)
      else w.(place := Committing(p.id, p.stamp, w.source[p.id].(scope := p.stamp.scope)))
    case Commit =>
      var p := w.place;
      if !ScopeHolds(w, p.id, p.stamp) then Stopped(w)
      else w.(mirror := w.mirror[p.id := p.seen], place := Stored(p.id, p.stamp))
    case RereadRow =>
      var p := w.place;
      if p.id !in w.source then Stopped(w)
      else w.(place := RowReread(p.id, p.stamp, w.source[p.id].title, w.source[p.id].row))
    case Compare =>
      var p := w.place;
      if p.id !in w.source then Stopped(w)
      else Remember(w, p.id, p.stamp, Versions(p.title, p.row, w.source[p.id].file, p.stamp.scope))
    case Abort => Stopped(w)
    case EndPass(ids) => w.(pending := map[], cache := map id | id in w.cache && id in ids :: w.cache[id])
  }

  // ----- what every state keeps

  /** The mirror shows a past of the source, and every cached stamp a past of the mirror. */
  ghost predicate Ordered(w: World) {
    && (forall id :: id in w.mirror ==> id in w.source && Below(w.mirror[id], w.source[id]))
    && (forall id :: id in w.cache ==> id in w.mirror && Below(w.cache[id], w.mirror[id]))
    && (forall id :: id in w.pending
         ==> id in w.source && w.pending[id] <= w.source[id].scope
             && (id in w.mirror ==> w.mirror[id].scope <= w.pending[id]))
  }

  /** What was read in a visit lies between the mirror, as it was found, and the source, as it now is. */
  ghost predicate Placed(w: World) {
    match w.place
    case Between => true
    case RowRead(id, scope, title, row) =>
      && id in w.source && title <= w.source[id].title && row <= w.source[id].row && scope <= w.source[id].scope
      && (id in w.mirror ==> w.mirror[id].title <= title && w.mirror[id].row <= row && w.mirror[id].scope <= scope)
    case Retitling(id, stamp) =>
      && id in w.source && Below(stamp, w.source[id])
      && id in w.mirror && Below(w.mirror[id], stamp)
      && id in w.cache && SameBody(w.cache[id], stamp)
    case Observing(id, stamp) => id in w.source && Below(stamp, w.source[id])
        && (id in w.mirror ==> Below(w.mirror[id], stamp))
    case Committing(id, stamp, seen) =>
      && id in w.source && Below(stamp, seen) && Below(seen, w.source[id]) && seen.scope == stamp.scope
      && (id in w.mirror ==> Below(w.mirror[id], stamp))
    case Stored(id, stamp) => id in w.source && id in w.mirror && Below(stamp, w.mirror[id])
        && w.mirror[id].scope == stamp.scope
    case RowReread(id, stamp, title, row) =>
      && id in w.source && id in w.mirror && Below(stamp, w.mirror[id]) && w.mirror[id].scope == stamp.scope
      && w.mirror[id].title <= title && w.mirror[id].row <= row
  }

  /** The session being visited is no longer pending. */
  predicate Started(w: World) {
    w.place.Between? || w.place.id !in w.pending
  }

  ghost predicate Sound(w: World) {
    Ordered(w) && Placed(w) && Started(w)
  }

  lemma MoveSound(w: World, id: string, next: Versions)
    requires Sound(w) && Enabled(w, Move(id, next))
    ensures Sound(Next(w, Move(id, next)))
  {
  }

  lemma ReadSound(w: World, action: Action)
    requires Sound(w) && Enabled(w, action) && (action.ReadRow? || action.ReadFile?)
    ensures Sound(Next(w, action))
  {
  }

  lemma TitleSound(w: World, found: bool)
    requires Sound(w) && Enabled(w, CommitTitle(found))
    ensures Sound(Next(w, CommitTitle(found)))
  {
  }

  lemma ObserveSound(w: World, stable: bool)
    requires Sound(w) && Enabled(w, Observe(stable))
    ensures Sound(Next(w, Observe(stable)))
  {
  }

  lemma CommitSound(w: World)
    requires Sound(w) && Enabled(w, Commit)
    ensures Sound(Next(w, Commit))
  {
  }

  lemma CompareSound(w: World, action: Action)
    requires Sound(w) && Enabled(w, action) && (action.RereadRow? || action.Compare?)
    ensures Sound(Next(w, action))
  {
  }

  lemma PassSound(w: World, action: Action)
    requires Sound(w) && Enabled(w, action) && (action.BeginPass? || action.Abort? || action.EndPass?)
    ensures Sound(Next(w, action))
  {
  }

  lemma StepSound(w: World, action: Action)
    requires Sound(w) && Enabled(w, action)
    ensures Sound(Next(w, action))
  {
    hide Sound, Enabled, Next;
    match action
    case Move(id, next) => MoveSound(w, id, next);
    case ReadRow(_) => ReadSound(w, action);
    case ReadFile => ReadSound(w, action);
    case CommitTitle(found) => TitleSound(w, found);
    case Observe(stable) => ObserveSound(w, stable);
    case Commit => CommitSound(w);
    case RereadRow => CompareSound(w, action);
    case Compare => CompareSound(w, action);
    case _ => PassSound(w, action);
  }

  function Run(w: World, actions: seq<Action>): Option<World> {
    if actions == [] then Some(w)
    else
      var before := Run(w, actions[..|actions| - 1]);
      if before.Some? && Enabled(before.value, Last(actions)) then Some(Next(before.value, Last(actions))) else None
  }

  const EMPTY := World(map[], map[], map[], map[], Between)

  /** In every interleaving of import and source. */
  lemma {:induction false} AlwaysSound(actions: seq<Action>)
    requires Run(EMPTY, actions).Some?
    ensures Sound(Run(EMPTY, actions).value)
  {
    if actions != [] {
      AlwaysSound(actions[..|actions| - 1]);
      StepSound(Run(EMPTY, actions[..|actions| - 1]).value, Last(actions));
    }
  }

  // ----- skipping, retitling, remembering

  predicate Skips(w: World) {
    w.place.RowRead? && w.place.id in w.source && w.place.id in w.cache
    && w.cache[w.place.id] == Versions(w.place.title, w.place.row, w.source[w.place.id].file, w.place.scope)
  }

  /** A skipped session's mirror is exactly the observation its stamp stands for. */
  lemma SkipIsSound(actions: seq<Action>)
    requires Run(EMPTY, actions).Some? && Skips(Run(EMPTY, actions).value)
    ensures var w := Run(EMPTY, actions).value;
            var p := w.place;
            && p.id in w.mirror && w.mirror[p.id] == Versions(p.title, p.row, w.source[p.id].file, p.scope)
            && Next(w, ReadFile).mirror == w.mirror
  {
    AlwaysSound(actions);
  }

  /** A title-only update leaves what a full observation of the stamped source would have stored. */
  lemma TitleOnlyIsSound(actions: seq<Action>)
    requires Run(EMPTY, actions).Some? && Enabled(Run(EMPTY, actions).value, CommitTitle(true))
    ensures var w := Run(EMPTY, actions).value;
            var next := Next(w, CommitTitle(true));
            ScopeHolds(w, w.place.id, w.place.stamp) ==> next.mirror == w.mirror[w.place.id := w.place.stamp]
  {
    AlwaysSound(actions);
    hide Run, Next, Sound;
    var w := Run(EMPTY, actions).value;
    if ScopeHolds(w, w.place.id, w.place.stamp) {
      TitleStores(w);
    }
  }

  lemma TitleStores(w: World)
    requires Sound(w) && Enabled(w, CommitTitle(true)) && ScopeHolds(w, w.place.id, w.place.stamp)
    ensures Next(w, CommitTitle(true)).mirror == w.mirror[w.place.id := w.place.stamp]
  {
    var id, stamp := w.place.id, w.place.stamp;
    Squeezed(w.cache[id], w.mirror[id], stamp);
  }

  /** An entry enters the cache only when the mirror is exactly what it says. */
  lemma EntryMatchesMirror(actions: seq<Action>, action: Action, id: string)
    requires Run(EMPTY, actions + [action]).Some?
    requires var before, after := Run(EMPTY, actions), Run(EMPTY, actions + [action]);
             before.Some? && id in after.value.cache
                 && (id !in before.value.cache || before.value.cache[id] != after.value.cache[id])
    ensures var after := Run(EMPTY, actions + [action]).value;
            id in after.mirror && after.mirror[id] == after.cache[id]
  {
    assert (actions + [action])[..|actions|] == actions;
    AlwaysSound(actions);
  }

  /** While the source stays at a cached stamp, the mirror is up to date with it. */
  lemma CurrentEntryMeansCurrentMirror(actions: seq<Action>, id: string)
    requires Run(EMPTY, actions).Some?
    requires var w := Run(EMPTY, actions).value; id in w.cache && id in w.source && w.cache[id] == w.source[id]
    ensures var w := Run(EMPTY, actions).value; id in w.mirror && w.mirror[id] == w.source[id]
  {
    AlwaysSound(actions);
  }

  // ----- quiet passes

  /** A visit can begin, and the scope is the one the pass captured. */
  ghost predicate CanVisit(w: World, id: string) {
    && Sound(w) && Enabled(w, ReadRow(id)) && w.pending[id] == w.source[id].scope
  }

  function VisitBegun(w: World, id: string): World
    requires Enabled(w, ReadRow(id))
  {
    Next(Next(w, ReadRow(id)), ReadFile)
  }

  /** The visit of one session while the source is quiet and everything succeeds. */
  ghost function Visit(w: World, id: string): World
    requires CanVisit(w, id)
  {
    var decided := VisitBegun(w, id);
    if decided.place.Between? then decided
    else Next(Next(Store(decided), RereadRow), Compare)
  }

  /** Retitles, or observes and commits. */
  function Store(w: World): (r: World)
    requires (w.place.Retitling? && w.place.id in w.source && w.place.id in w.mirror)
            || (w.place.Observing? && w.place.id in w.source)
    requires ScopeHolds(w, w.place.id, w.place.stamp)
    ensures r.place == Stored(w.place.id, w.place.stamp) && r.source == w.source && r.cache == w.cache
            && r.pending == w.pending
  {
    if w.place.Retitling? then Next(w, CommitTitle(true)) else Next(Next(w, Observe(true)), Commit)
  }

  lemma Squeezed(e: Versions, m: Versions, s: Versions)
    requires Below(e, m) && Below(m, s) && SameBody(e, s)
    ensures m.(title := s.title) == s
    ensures e == s ==> m == s
  {
  }

  lemma FinishVisit(w: World)
    requires w.place.Stored? && w.place.id in w.source && w.place.stamp == w.source[w.place.id]
    ensures Next(Next(w, RereadRow), Compare) == w.(cache := w.cache[w.place.id := w.place.stamp], place := Between)
  {
    var p := w.place;
    var s := w.source[p.id];
    assert Versions(s.title, s.row, s.file, s.scope) == s;
  }

  lemma MirrorToRetitle(w: World)
    requires Sound(w)
    ensures w.place.Retitling? ==> w.place.id in w.mirror
  {
  }

  lemma StoredCurrent(w: World)
    requires Sound(w) && (w.place.Retitling? || w.place.Observing?) && w.place.id in w.source
            && w.place.stamp == w.source[w.place.id]
    ensures Store(w) == w.(mirror := w.mirror[w.place.id := w.place.stamp], place := Stored(w.place.id, w.place.stamp))
  {
    var p := w.place;
    if p.Retitling? {
      Squeezed(w.cache[p.id], w.mirror[p.id], p.stamp);
    } else {
      assert w.source[p.id].(scope := p.stamp.scope) == p.stamp;
    }
  }

  /** A quiet visit ends with the session's current versions in mirror and cache, and touches no other session. */
  lemma QuietVisit(w: World, id: string)
    requires CanVisit(w, id)
    ensures Visit(w, id)
            == w.(place := Between, pending := w.pending - {id}, cache := w.cache[id := w.source[id]],
            mirror := w.mirror[id := w.source[id]])
  {
    hide Sound, Store;
    StepSound(w, ReadRow(id));
    StepSound(Next(w, ReadRow(id)), ReadFile);
    var decided, s := VisitBegun(w, id), w.source[id];
    assert Versions(s.title, s.row, s.file, w.pending[id]) == s;
    if decided.place.Between? {
      CachedIsMirrored(w, id);
      assert w.cache[id := s] == w.cache && w.mirror[id := s] == w.mirror;
    } else {
      MirrorToRetitle(decided);
      StoredCurrent(decided);
      FinishVisit(Store(decided));
    }
  }

  lemma CachedIsMirrored(w: World, id: string)
    requires Sound(w) && id in w.cache && id in w.source && w.cache[id] == w.source[id]
    ensures id in w.mirror && w.mirror[id] == w.source[id]
  {
    Squeezed(w.cache[id], w.mirror[id], w.source[id]);
  }

  /** A visit whose session is cached at its current versions ends at the stamp: nothing is observed or written. */
  predicate SkipsAtOnce(w: World, id: string)
    requires Enabled(w, ReadRow(id))
  {
    var decided := VisitBegun(w, id);
    decided.place.Between? && decided.mirror == w.mirror && decided.cache == w.cache
  }

  lemma CachedSkips(w: World, id: string)
    requires CanVisit(w, id) && id in w.cache && w.cache[id] == w.source[id]
    ensures SkipsAtOnce(w, id)
  {
  }

  lemma QuietVisitSound(w: World, id: string)
    requires CanVisit(w, id)
    ensures Sound(Visit(w, id))
  {
    QuietVisit(w, id);
  }

  /** A pass in which every pending session can be visited while the source keeps still. */
  ghost predicate PassReady(w: World, ids: seq<string>) {
    && Sound(w) && w.place.Between? && Distinct(ids)
    && forall k :: 0 <= k < |ids|
         ==> ids[k] in w.pending && ids[k] in w.source && w.pending[ids[k]] == w.source[ids[k]].scope
  }

  /** Mirror and cache show the source as it is. */
  ghost predicate Current(w: World, id: string) {
    id in w.source && id in w.cache && w.cache[id] == w.source[id] && id in w.mirror && w.mirror[id] == w.source[id]
  }

  /** The pass over the sessions in order, from the last prefix; None once a visit cannot take place. */
  ghost function QuietPass(w: World, ids: seq<string>): Option<World> {
    if ids == [] then Some(w)
    else
      var before := QuietPass(w, ids[..|ids| - 1]);
      if before.Some? && CanVisit(before.value, Last(ids)) then Some(Visit(before.value, Last(ids))) else None
  }

  /** A quiet pass that succeeds leaves every visited session current. */
  lemma {:induction false} QuietPassMakesCurrent(w: World, ids: seq<string>)
    requires PassReady(w, ids)
    ensures var after := QuietPass(w, ids);
            && after.Some? && Sound(after.value) && after.value.place.Between? && after.value.source == w.source
            && (forall id :: id in after.value.pending <==> id in w.pending && id !in ids)
            && (forall id :: id in after.value.pending ==> after.value.pending[id] == w.pending[id])
            && (forall id :: id in ids ==> Current(after.value, id))
            && (forall id :: id in w.cache && id in w.source && w.cache[id] == w.source[id]
                 ==> id in after.value.cache && after.value.cache[id] == w.source[id])
  {
    hide Sound;
    if ids != [] {
      var init, last := ids[..|ids| - 1], Last(ids);
      QuietPassMakesCurrent(w, init);
      var before := QuietPass(w, init).value;
      assert last !in init && last in w.pending;
      QuietVisit(before, last);
      QuietVisitSound(before, last);
      assert forall id :: id in ids <==> id in init || id == last;
    }
  }

  /**
   * The pass after a quiet successful one reads no bodies: while the source keeps still, every visit of a session the
   * earlier pass covered ends at its stamp.
   */
  lemma NextPassReadsNothing(w: World, ids: seq<string>, again: set<string>, id: string)
    requires PassReady(w, ids) && id in ids && id in again
    requires again <= w.source.Keys
    ensures QuietPass(w, ids).Some?
    ensures var after := QuietPass(w, ids).value;
            && Enabled(after, BeginPass(again))
            && CanVisit(Next(after, BeginPass(again)), id)
            && SkipsAtOnce(Next(after, BeginPass(again)), id)
  {
    QuietPassMakesCurrent(w, ids);
    var after := QuietPass(w, ids).value;
    StepSound(after, BeginPass(again));
    CachedSkips(Next(after, BeginPass(again)), id);
  }

  /** After a whole quiet pass the cache holds exactly the listed sessions, each at its current versions. */
  lemma PassCachesListed(w: World, ids: seq<string>)
    requires Sound(w) && w.place.Between? && Distinct(ids) && forall id :: id in ids ==> id in w.source
    ensures var listed := set id | id in ids;
            var after := QuietPass(Next(w, BeginPass(listed)), ids);
            && after.Some? && Enabled(after.value, EndPass(listed))
            && var ended := Next(after.value, EndPass(listed));
               && ended.source == w.source && ended.place.Between? && ended.pending == map[]
               && ended.cache == (map id | id in listed :: w.source[id])
               && forall id :: id in listed ==> id in ended.mirror && ended.mirror[id] == w.source[id]
  {
    hide Sound, QuietPass;
    var listed := set id | id in ids;
    StepSound(w, BeginPass(listed));
    var begun := Next(w, BeginPass(listed));
    assert forall k :: 0 <= k < |ids| ==> ids[k] in listed;
    QuietPassMakesCurrent(begun, ids);
    var after := QuietPass(begun, ids).value;
    assert forall id :: id in listed ==> Current(after, id);
  }
}
