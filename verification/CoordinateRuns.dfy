/**
 * Grouping of located entries. The specification splits the entries into consecutive runs of one coordinate; the
 * algorithm groups through a table, sorts the groups by ordinal and then checks density and contiguity.
 */
module CoordinateRuns {
  import opened Outcomes
  import opened Sequences
  import opened Sorting
  import opened Canonical

  datatype Group = Group(coord: Coord, members: seq<CanonicalEvent>)

  /** Consecutive entries with one coordinate form a run. */
  function Runs(entries: seq<CanonicalEvent>, coord: CanonicalEvent -> Coord): seq<Group> {
    if entries == [] then []
    else Extend(Runs(entries[..|entries| - 1], coord), coord(Last(entries)), Last(entries))
  }

  function Extend(runs: seq<Group>, c: Coord, entry: CanonicalEvent): seq<Group> {
    if runs != [] && Last(runs).coord == c
    then runs[..|runs| - 1] + [Group(c, Last(runs).members + [entry])]
    else runs + [Group(c, [entry])]
  }

  /** Groups are numbered from zero and no identity is used twice. */
  ghost predicate Numbered(groups: seq<Group>) {
    && (forall k :: 0 <= k < |groups| ==> groups[k].coord.ordinal == k)
    && (forall j, k :: 0 <= j < k < |groups| ==> groups[j].coord.id != groups[k].coord.id)
  }

  ghost predicate Homogeneous(groups: seq<Group>, coord: CanonicalEvent -> Coord) {
    forall k :: 0 <= k < |groups| ==>
      && groups[k].members != []
      && forall e :: e in groups[k].members ==> coord(e) == groups[k].coord
  }

  /** Each group ends before its successor begins. */
  ghost predicate Contiguous(groups: seq<Group>) {
    forall j, k :: 0 <= j < k < |groups| && k == j + 1 ==> Precedes(groups[j], groups[k])
  }

  predicate Precedes(a: Group, b: Group) {
    a.members != [] && b.members != [] && Last(a.members).sequence < b.members[0].sequence
  }

  function MembersOf(): Group -> seq<CanonicalEvent> {
    (g: Group) => g.members
  }

  function AtCoord(coord: CanonicalEvent -> Coord, c: Coord): CanonicalEvent -> bool {
    (e: CanonicalEvent) => coord(e) == c
  }

  function OrdinalLe(): (Group, Group) -> bool {
    (a: Group, b: Group) => a.coord.ordinal <= b.coord.ordinal
  }

  // ----- properties of runs

  lemma {:induction false} RunsHomogeneous(entries: seq<CanonicalEvent>, coord: CanonicalEvent -> Coord)
    ensures Homogeneous(Runs(entries, coord), coord)
  {
    if entries != [] {
      RunsHomogeneous(entries[..|entries| - 1], coord);
    }
  }

  lemma ExtendFlatten(runs: seq<Group>, c: Coord, entry: CanonicalEvent)
    ensures FlatMap(Extend(runs, c, entry), MembersOf()) == FlatMap(runs, MembersOf()) + [entry]
  {
    var runs' := Extend(runs, c, entry);
    if runs != [] && Last(runs).coord == c {
      assert runs'[..|runs'| - 1] == runs[..|runs| - 1];
      var front := FlatMap(runs[..|runs| - 1], MembersOf());
      assert front + (Last(runs).members + [entry]) == (front + Last(runs).members) + [entry];
    } else {
      assert runs'[..|runs'| - 1] == runs;
    }
  }

  lemma NoRuns(coord: CanonicalEvent -> Coord)
    ensures FlatMap(Runs([], coord), MembersOf()) == []
  {
  }

  lemma OneMoreFlattened(init: seq<CanonicalEvent>, last: CanonicalEvent, coord: CanonicalEvent -> Coord)
    requires FlatMap(Runs(init, coord), MembersOf()) == init
    ensures FlatMap(Runs(init + [last], coord), MembersOf()) == init + [last]
  {
    hide Extend, FlatMap, Runs;
    RunsSnoc(init, last, coord);
    ExtendFlatten(Runs(init, coord), coord(last), last);
  }

  /** Runs lose nothing and reorder nothing. */
  lemma {:induction false} RunsFlatten(entries: seq<CanonicalEvent>, coord: CanonicalEvent -> Coord)
    ensures FlatMap(Runs(entries, coord), MembersOf()) == entries
  {
    hide FlatMap, Runs;
    if entries == [] {
      NoRuns(coord);
    } else {
      var init := entries[..|entries| - 1];
      RunsFlatten(init, coord);
      OneMoreFlattened(init, Last(entries), coord);
      assert entries == init + [Last(entries)];
    }
  }

  /** Homogeneous groups with distinct neighbouring coordinates are the runs of their concatenation. */
  lemma {:induction false} RunsOfFlatten(groups: seq<Group>, coord: CanonicalEvent -> Coord)
    requires Homogeneous(groups, coord)
    requires forall j, k :: 0 <= j < k < |groups| && k == j + 1 ==> groups[j].coord != groups[k].coord
    ensures Runs(FlatMap(groups, MembersOf()), coord) == groups
  {
    if groups != [] {
      var init, last := groups[..|groups| - 1], Last(groups);
      RunsOfFlatten(init, coord);
      assert last in groups;
      assert init != [] ==> Last(init) == groups[|groups| - 2];
      RunsExtend(FlatMap(init, MembersOf()), last.members, last.coord, coord);
      assert groups == init + [last];
      assert last == Group(last.coord, last.members);
    }
  }

  lemma {:induction false} RunsExtend(prefix: seq<CanonicalEvent>, members: seq<CanonicalEvent>, c: Coord,
      coord: CanonicalEvent -> Coord)
    requires members != [] && forall e :: e in members ==> coord(e) == c
    requires var runs := Runs(prefix, coord); runs == [] || Last(runs).coord != c
    ensures Runs(prefix + members, coord) == Runs(prefix, coord) + [Group(c, members)]
  {
    var init, last := members[..|members| - 1], Last(members);
    assert members == init + [last];
    RunsSnoc(prefix + init, last, coord);
    assert prefix + members == prefix + init + [last];
    if init == [] {
      assert prefix + init == prefix;
    } else {
      RunsExtend(prefix, init, c, coord);
      ExtendLast(Runs(prefix, coord), c, init, last);
    }
  }

  lemma RunsSnoc(prefix: seq<CanonicalEvent>, entry: CanonicalEvent, coord: CanonicalEvent -> Coord)
    ensures Runs(prefix + [entry], coord) == Extend(Runs(prefix, coord), coord(entry), entry)
  {
    var all := prefix + [entry];
    assert all[..|all| - 1] == prefix;
  }

  lemma ExtendLast(runs: seq<Group>, c: Coord, members: seq<CanonicalEvent>, entry: CanonicalEvent)
    ensures Extend(runs + [Group(c, members)], c, entry) == runs + [Group(c, members + [entry])]
  {
    var all := runs + [Group(c, members)];
    assert all[..|all| - 1] == runs;
  }

  lemma RunCoordOf(entries: seq<CanonicalEvent>, coord: CanonicalEvent -> Coord, e: CanonicalEvent)
    requires e in entries
    ensures exists k :: 0 <= k < |Runs(entries, coord)| && Runs(entries, coord)[k].coord == coord(e)
              && e in Runs(entries, coord)[k].members
  {
    RunsFlatten(entries, coord);
    RunsHomogeneous(entries, coord);
    var runs := Runs(entries, coord);
    FlatMapMembership(runs, MembersOf());
    var g :| g in runs && e in MembersOf()(g);
    var k :| 0 <= k < |runs| && runs[k] == g;
  }

  lemma RunMember(entries: seq<CanonicalEvent>, coord: CanonicalEvent -> Coord, k: nat, e: CanonicalEvent)
    requires k < |Runs(entries, coord)| && e in Runs(entries, coord)[k].members
    ensures e in entries && coord(e) == Runs(entries, coord)[k].coord
  {
    RunsFlatten(entries, coord);
    RunsHomogeneous(entries, coord);
    FlatMapMembership(Runs(entries, coord), MembersOf());
    assert Runs(entries, coord)[k] in Runs(entries, coord);
    assert e in MembersOf()(Runs(entries, coord)[k]);
  }

  /** In numbered runs the members of a group are the entries at its coordinate. */
  lemma GroupMembers(entries: seq<CanonicalEvent>, coord: CanonicalEvent -> Coord, group: Group, e: CanonicalEvent)
    requires Numbered(Runs(entries, coord)) && group in Runs(entries, coord)
    ensures e in group.members <==> e in entries && coord(e) == group.coord
  {
    var runs := Runs(entries, coord);
    var k :| 0 <= k < |runs| && runs[k] == group;
    if e in group.members {
      RunMember(entries, coord, k, e);
    }
    if e in entries && coord(e) == group.coord {
      RunCoordOf(entries, coord, e);
      var j :| 0 <= j < |runs| && runs[j].coord == coord(e) && e in runs[j].members;
      assert j == k;
    }
  }

  /** In numbered runs, identity and ordinal determine each other. */
  lemma NumberedFunctional(entries: seq<CanonicalEvent>, coord: CanonicalEvent -> Coord, e: CanonicalEvent,
      f: CanonicalEvent)
    requires Numbered(Runs(entries, coord))
    requires e in entries && f in entries
    requires coord(e).id == coord(f).id || coord(e).ordinal == coord(f).ordinal
    ensures coord(e) == coord(f)
  {
    var runs := Runs(entries, coord);
    RunCoordOf(entries, coord, e);
    RunCoordOf(entries, coord, f);
    var j :| 0 <= j < |runs| && runs[j].coord == coord(e) && e in runs[j].members;
    var k :| 0 <= k < |runs| && runs[k].coord == coord(f) && f in runs[k].members;
  }

  lemma {:induction false} FilterAbsent(groups: seq<Group>, coord: CanonicalEvent -> Coord, c: Coord)
    requires Homogeneous(groups, coord)
    requires forall k :: 0 <= k < |groups| ==> groups[k].coord != c
    ensures Filter(FlatMap(groups, MembersOf()), AtCoord(coord, c)) == []
  {
    if groups != [] {
      FilterAbsent(groups[..|groups| - 1], coord, c);
      FilterConcat(FlatMap(groups[..|groups| - 1], MembersOf()), Last(groups).members, AtCoord(coord, c));
      FilterNone(Last(groups).members, AtCoord(coord, c));
    }
  }

  /** The members of a group are the entries at its coordinate. */
  lemma {:induction false} FilterFlatten(groups: seq<Group>, coord: CanonicalEvent -> Coord, k: nat)
    requires Homogeneous(groups, coord)
    requires forall i, j :: 0 <= i < j < |groups| ==> groups[i].coord != groups[j].coord
    requires k < |groups|
    ensures Filter(FlatMap(groups, MembersOf()), AtCoord(coord, groups[k].coord)) == groups[k].members
  {
    hide Filter;
    var init, last, at := groups[..|groups| - 1], Last(groups), AtCoord(coord, groups[k].coord);
    FilterConcat(FlatMap(init, MembersOf()), last.members, at);
    if k == |groups| - 1 {
      FilterAbsent(init, coord, last.coord);
      FilterAll(last.members, at);
    } else {
      FilterFlatten(init, coord, k);
      FilterNone(last.members, at);
    }
  }

  lemma {:induction false} FilterAll(s: seq<CanonicalEvent>, p: CanonicalEvent -> bool)
    requires forall e :: e in s ==> p(e)
    ensures Filter(s, p) == s
  {
    if s != [] {
      FilterAll(s[..|s| - 1], p);
      assert s == s[..|s| - 1] + [Last(s)];
    }
  }

  lemma {:induction false} FilterNone(s: seq<CanonicalEvent>, p: CanonicalEvent -> bool)
    requires forall e :: e in s ==> !p(e)
    ensures Filter(s, p) == []
  {
    if s != [] {
      FilterNone(s[..|s| - 1], p);
    }
  }

  lemma {:induction false} FilterIncreasing(s: seq<CanonicalEvent>, p: CanonicalEvent -> bool)
    requires InOrder(s)
    ensures InOrder(Filter(s, p))
  {
    if s != [] {
      var init := s[..|s| - 1];
      FilterIncreasing(init, p);
      FilterMembership(init, p);
      forall e | e in Filter(init, p)
        ensures e.sequence < Last(s).sequence
      {
        var i :| 0 <= i < |init| && init[i] == e;
        assert s[i] == e;
      }
    }
  }

  // ----- the table of groups built by the loop

  /** Every group holds the entries of its coordinate, and every entry has a group. */
  ghost predicate Grouped(entries: seq<CanonicalEvent>, coord: CanonicalEvent -> Coord, groups: seq<Group>) {
    && (forall k :: 0 <= k < |groups|
         ==> groups[k].members != [] && groups[k].members == Filter(entries, AtCoord(coord, groups[k].coord)))
    && (forall e :: e in entries ==> exists k :: 0 <= k < |groups| && groups[k].coord == coord(e))
  }

  /** The groups' coordinates agree in neither part, and the ordinal table lists exactly them. */
  ghost predicate Indexed(groups: seq<Group>, idByOrdinal: map<nat, string>) {
    && (forall j, k :: 0 <= j < k < |groups| ==>
         groups[j].coord.id != groups[k].coord.id && groups[j].coord.ordinal != groups[k].coord.ordinal)
    && (forall k :: 0 <= k < |groups|
         ==> groups[k].coord.ordinal in idByOrdinal && idByOrdinal[groups[k].coord.ordinal] == groups[k].coord.id)
    && (forall o :: o in idByOrdinal ==> exists k :: 0 <= k < |groups| && groups[k].coord == Coord(idByOrdinal[o], o))
  }

  /** What the two tables hold after a prefix of the entries. */
  ghost predicate Tabulated(entries: seq<CanonicalEvent>, coord: CanonicalEvent -> Coord, groups: seq<Group>,
      idByOrdinal: map<nat, string>) {
    Grouped(entries, coord, groups) && Indexed(groups, idByOrdinal)
  }

  lemma TabulatedCoords(entries: seq<CanonicalEvent>, coord: CanonicalEvent -> Coord, groups: seq<Group>,
      idByOrdinal: map<nat, string>, k: nat)
    requires Tabulated(entries, coord, groups, idByOrdinal)
    requires k < |groups|
    ensures groups[k].members[0] in entries && coord(groups[k].members[0]) == groups[k].coord
    ensures forall e :: e in groups[k].members ==> e in entries && coord(e) == groups[k].coord
  {
    FilterMembership(entries, AtCoord(coord, groups[k].coord));
    assert groups[k].members[0] in groups[k].members;
  }

  function IndexOfId(groups: seq<Group>, id: string): (r: Option<nat>)
    ensures r.Some? ==> r.value < |groups| && groups[r.value].coord.id == id
    ensures r.None? ==> forall k :: 0 <= k < |groups| ==> groups[k].coord.id != id
  {
    if groups == [] then None
    else if Last(groups).coord.id == id then Some(|groups| - 1)
    else IndexOfId(groups[..|groups| - 1], id)
  }

  lemma UnknownIsNew(entries: seq<CanonicalEvent>, entry: CanonicalEvent, coord: CanonicalEvent -> Coord,
      groups: seq<Group>, idByOrdinal: map<nat, string>)
    requires Tabulated(entries, coord, groups, idByOrdinal)
    requires forall k :: 0 <= k < |groups| ==> groups[k].coord.id != coord(entry).id
    requires coord(entry).ordinal in idByOrdinal ==> idByOrdinal[coord(entry).ordinal] == coord(entry).id
    ensures coord(entry).ordinal !in idByOrdinal
    ensures Filter(entries, AtCoord(coord, coord(entry))) == []
  {
    var c := coord(entry);
    forall e | e in entries
      ensures coord(e) != c
    {
      var k :| 0 <= k < |groups| && groups[k].coord == coord(e);
    }
    FilterNone(entries, AtCoord(coord, c));
  }

  lemma TabulateNew(entries: seq<CanonicalEvent>, entry: CanonicalEvent, coord: CanonicalEvent -> Coord,
      groups: seq<Group>, idByOrdinal: map<nat, string>)
    requires Tabulated(entries, coord, groups, idByOrdinal)
    requires forall k :: 0 <= k < |groups| ==> groups[k].coord.id != coord(entry).id
    requires coord(entry).ordinal in idByOrdinal ==> idByOrdinal[coord(entry).ordinal] == coord(entry).id
    ensures Tabulated(entries + [entry], coord, groups + [Group(coord(entry), [entry])],
            idByOrdinal[coord(entry).ordinal := coord(entry).id])
  {
    var groups' := groups + [Group(coord(entry), [entry])];
    assert (entries + [entry])[..|entries + [entry]| - 1] == entries;
    UnknownIsNew(entries, entry, coord, groups, idByOrdinal);
    assert groups'[|groups|].coord == coord(entry);
    forall k | 0 <= k < |groups'|
      ensures groups'[k].members != []
              && groups'[k].members == Filter(entries + [entry], AtCoord(coord, groups'[k].coord))
    {
      if k < |groups| {
        assert groups'[k] == groups[k] && groups[k].coord != coord(entry);
      }
    }
    CoverageGrows(entries, entry, coord, groups, groups');
    IndexNew(groups, coord(entry), groups', idByOrdinal);
  }

  lemma IndexNew(groups: seq<Group>, c: Coord, groups': seq<Group>, idByOrdinal: map<nat, string>)
    requires Indexed(groups, idByOrdinal)
    requires |groups'| == |groups| + 1 && groups'[..|groups|] == groups && groups'[|groups|].coord == c
    requires c.ordinal !in idByOrdinal
    requires forall k :: 0 <= k < |groups| ==> groups[k].coord.id != c.id
    ensures Indexed(groups', idByOrdinal[c.ordinal := c.id])
  {
    assert forall k :: 0 <= k < |groups| ==> groups'[k] == groups[k];
    var table := idByOrdinal[c.ordinal := c.id];
    forall o | o in table
      ensures exists k :: 0 <= k < |groups'| && groups'[k].coord == Coord(table[o], o)
    {
      if o == c.ordinal {
        assert groups'[|groups|].coord == Coord(table[o], o);
      } else {
        var k :| 0 <= k < |groups| && groups[k].coord == Coord(idByOrdinal[o], o);
        assert groups'[k].coord == Coord(table[o], o);
      }
    }
  }

  lemma TabulateKnown(entries: seq<CanonicalEvent>, entry: CanonicalEvent, coord: CanonicalEvent -> Coord,
      groups: seq<Group>, idByOrdinal: map<nat, string>, at: nat)
    requires Tabulated(entries, coord, groups, idByOrdinal)
    requires at < |groups| && groups[at].coord == coord(entry)
    ensures Tabulated(entries + [entry], coord, groups[at := Group(groups[at].coord, groups[at].members + [entry])],
                      idByOrdinal[coord(entry).ordinal := coord(entry).id])
  {
    var groups' := groups[at := Group(groups[at].coord, groups[at].members + [entry])];
    assert (entries + [entry])[..|entries + [entry]| - 1] == entries;
    assert forall k :: 0 <= k < |groups| ==> groups'[k].coord == groups[k].coord;
    assert groups'[at].coord == coord(entry);
    CoverageGrows(entries, entry, coord, groups, groups');
    forall k | 0 <= k < |groups'|
      ensures groups'[k].members != []
              && groups'[k].members == Filter(entries + [entry], AtCoord(coord, groups'[k].coord))
    {
      if k != at {
        assert groups'[k] == groups[k] && groups[k].coord != coord(entry);
      }
    }
    assert idByOrdinal[coord(entry).ordinal := coord(entry).id] == idByOrdinal;
    IndexSame(groups, groups', idByOrdinal);
  }

  lemma IndexSame(groups: seq<Group>, groups': seq<Group>, idByOrdinal: map<nat, string>)
    requires Indexed(groups, idByOrdinal)
    requires |groups'| == |groups| && forall k :: 0 <= k < |groups| ==> groups'[k].coord == groups[k].coord
    ensures Indexed(groups', idByOrdinal)
  {
    forall o | o in idByOrdinal
      ensures exists k :: 0 <= k < |groups'| && groups'[k].coord == Coord(idByOrdinal[o], o)
    {
      var k :| 0 <= k < |groups| && groups[k].coord == Coord(idByOrdinal[o], o);
      assert groups'[k].coord == Coord(idByOrdinal[o], o);
    }
  }

  lemma CoverageGrows(entries: seq<CanonicalEvent>, entry: CanonicalEvent, coord: CanonicalEvent -> Coord,
      groups: seq<Group>, groups': seq<Group>)
    requires Grouped(entries, coord, groups)
    requires |groups| <= |groups'| && forall k :: 0 <= k < |groups| ==> groups'[k].coord == groups[k].coord
    requires exists k :: 0 <= k < |groups'| && groups'[k].coord == coord(entry)
    ensures forall e :: e in entries + [entry] ==> exists k :: 0 <= k < |groups'| && groups'[k].coord == coord(e)
  {
    forall e | e in entries + [entry]
      ensures exists k :: 0 <= k < |groups'| && groups'[k].coord == coord(e)
    {
      if e in entries {
        var k :| 0 <= k < |groups| && groups[k].coord == coord(e);
        assert groups'[k].coord == coord(e);
      }
    }
  }

  /** Groups that pass the density and contiguity checks are exactly the runs, and those are numbered. */
  lemma CheckedGroupsAreRuns(entries: seq<CanonicalEvent>, coord: CanonicalEvent -> Coord, groups: seq<Group>)
    requires InOrder(entries)
    requires Homogeneous(groups, coord)
    requires forall k :: 0 <= k < |groups| ==> groups[k].members == Filter(entries, AtCoord(coord, groups[k].coord))
    requires forall e :: e in entries ==> exists k :: 0 <= k < |groups| && groups[k].coord == coord(e)
    requires Numbered(groups)
    requires Contiguous(groups)
    ensures groups == Runs(entries, coord)
  {
    FlattenIncreasing(entries, coord, groups);
    var flat := FlatMap(groups, MembersOf());
    forall e
      ensures e in flat <==> e in entries
    {
      FlatMapMembership(groups, MembersOf());
      if e in entries {
        var k :| 0 <= k < |groups| && groups[k].coord == coord(e);
        FilterMembership(entries, AtCoord(coord, groups[k].coord));
        assert groups[k] in groups && e in MembersOf()(groups[k]);
      }
      if g :| g in groups && e in MembersOf()(g) {
        FilterMembership(entries, AtCoord(coord, g.coord));
      }
    }
    OrderedUnique(flat, entries, (x: CanonicalEvent, y: CanonicalEvent) => x.sequence < y.sequence);
    RunsOfFlatten(groups, coord);
  }

  lemma {:induction false} FlattenIncreasing(entries: seq<CanonicalEvent>, coord: CanonicalEvent -> Coord,
      groups: seq<Group>)
    requires InOrder(entries)
    requires forall k :: 0 <= k < |groups| ==> groups[k].members != []
    requires forall k :: 0 <= k < |groups| ==> groups[k].members == Filter(entries, AtCoord(coord, groups[k].coord))
    requires Contiguous(groups)
    ensures InOrder(FlatMap(groups, MembersOf()))
    ensures groups != []
            ==> FlatMap(groups, MembersOf()) != [] && Last(FlatMap(groups, MembersOf())) == Last(Last(groups).members)
  {
    if groups != [] {
      var init, last := groups[..|groups| - 1], Last(groups);
      FlattenIncreasing(entries, coord, init);
      FilterIncreasing(entries, AtCoord(coord, last.coord));
      var flat := FlatMap(init, MembersOf());
      if init != [] {
        assert Last(init) == groups[|groups| - 2];
        forall i, j | 0 <= i < |flat| && 0 <= j < |last.members|
          ensures flat[i].sequence < last.members[j].sequence
        {
          assert i < |flat| - 1 ==> flat[i].sequence < flat[|flat| - 1].sequence;
          assert j > 0 ==> last.members[0].sequence < last.members[j].sequence;
        }
      }
    }
  }

  /** A tabulated group is a run, and the other way round, when the runs are numbered. */
  lemma TabulatedIsRun(entries: seq<CanonicalEvent>, coord: CanonicalEvent -> Coord, groups: seq<Group>,
      idByOrdinal: map<nat, string>, k: nat)
    requires Tabulated(entries, coord, groups, idByOrdinal)
    requires Numbered(Runs(entries, coord))
    requires k < |groups|
    ensures groups[k] in Runs(entries, coord)
  {
    var runs, g := Runs(entries, coord), groups[k];
    RunsHomogeneous(entries, coord);
    RunsFlatten(entries, coord);
    TabulatedCoords(entries, coord, groups, idByOrdinal, k);
    RunCoordOf(entries, coord, g.members[0]);
    var j :| 0 <= j < |runs| && runs[j].coord == coord(g.members[0]) && g.members[0] in runs[j].members;
    FilterFlatten(runs, coord, j);
    assert g == runs[j];
  }

  lemma RunIsTabulated(entries: seq<CanonicalEvent>, coord: CanonicalEvent -> Coord, groups: seq<Group>,
      idByOrdinal: map<nat, string>, j: nat)
    requires Tabulated(entries, coord, groups, idByOrdinal)
    requires Numbered(Runs(entries, coord))
    requires j < |Runs(entries, coord)|
    ensures Runs(entries, coord)[j] in groups
  {
    var runs := Runs(entries, coord);
    var g := runs[j];
    RunsHomogeneous(entries, coord);
    RunsFlatten(entries, coord);
    assert g.members[0] in g.members;
    RunMember(entries, coord, j, g.members[0]);
    var k :| 0 <= k < |groups| && groups[k].coord == g.coord;
    FilterFlatten(runs, coord, j);
    assert groups[k] == g;
  }

  /** When the runs are numbered, sorting the table by ordinal recovers them. */
  lemma NumberedRunsAreSorted(entries: seq<CanonicalEvent>, coord: CanonicalEvent -> Coord, groups: seq<Group>,
      idByOrdinal: map<nat, string>, sorted: seq<Group>)
    requires Tabulated(entries, coord, groups, idByOrdinal)
    requires Numbered(Runs(entries, coord))
    requires multiset(sorted) == multiset(groups) && Ordered(sorted, OrdinalLe())
    ensures sorted == Runs(entries, coord)
  {
    var runs := Runs(entries, coord);
    SameMembers(sorted, groups);
    forall g
      ensures g in sorted <==> g in runs
    {
      if g in sorted {
        var k :| 0 <= k < |groups| && groups[k] == g;
        TabulatedIsRun(entries, coord, groups, idByOrdinal, k);
      }
      if g in runs {
        var j :| 0 <= j < |runs| && runs[j] == g;
        RunIsTabulated(entries, coord, groups, idByOrdinal, j);
      }
    }
    DistinctOrdinals(entries, coord, groups, idByOrdinal, sorted);
    OrderedUnique(sorted, runs, (a: Group, b: Group) => a.coord.ordinal < b.coord.ordinal);
  }

  lemma DistinctOrdinals(entries: seq<CanonicalEvent>, coord: CanonicalEvent -> Coord, groups: seq<Group>,
      idByOrdinal: map<nat, string>, sorted: seq<Group>)
    requires Tabulated(entries, coord, groups, idByOrdinal)
    requires multiset(sorted) == multiset(groups) && Ordered(sorted, OrdinalLe())
    ensures forall i, j :: 0 <= i < j < |sorted| ==> sorted[i].coord.ordinal < sorted[j].coord.ordinal
  {
    SameMembers(sorted, groups);
    forall i, j | 0 <= i < j < |sorted|
      ensures sorted[i].coord.ordinal < sorted[j].coord.ordinal
    {
      assert OrdinalLe()(sorted[i], sorted[j]);
      if sorted[i].coord.ordinal == sorted[j].coord.ordinal {
        assert sorted[i] in groups && sorted[j] in groups;
        var a :| 0 <= a < |groups| && groups[a] == sorted[i];
        var b :| 0 <= b < |groups| && groups[b] == sorted[j];
        assert a == b;
        MultiplicityTwo(sorted, i, j);
        MultiplicityOne(groups, a);
      }
    }
  }

  /** Fills the tables; refuses an entry without a coordinate, or with one that contradicts an earlier entry. */
  method Tabulate(entries: seq<CanonicalEvent>, coord: CanonicalEvent -> Coord, located: CanonicalEvent -> bool)
    returns (r: Result<seq<Group>>, ghost idByOrdinal': map<nat, string>)
    ensures r.Ok? ==> (forall e :: e in entries ==> located(e)) && Tabulated(entries, coord, r.value, idByOrdinal')
    ensures r.Err? ==> !((forall e :: e in entries ==> located(e)) && Numbered(Runs(entries, coord)))
  {
    var groups: seq<Group> := [];
    var idByOrdinal: map<nat, string> := map[];
    idByOrdinal' := idByOrdinal;
    for i := 0 to |entries|
      invariant Tabulated(entries[..i], coord, groups, idByOrdinal)
      invariant forall e :: e in entries[..i] ==> located(e)
    {
      var entry := entries[i];
      assert entry in entries;
      assert entries[..i + 1] == entries[..i] + [entry];
      if !located(entry) {
        return Err("entry has no coordinate"), idByOrdinal;
      }
      var c := coord(entry);
      if c.ordinal in idByOrdinal && idByOrdinal[c.ordinal] != c.id {
        ConflictingOrdinal(entries, i, coord, groups, idByOrdinal);
        return Err("ordinal has conflicting identities"), idByOrdinal;
      }
      var at := IndexOfId(groups, c.id);
      if at.None? {
        TabulateNew(entries[..i], entry, coord, groups, idByOrdinal);
        groups := groups + [Group(c, [entry])];
      } else if groups[at.value].coord.ordinal != c.ordinal {
        ConflictingGroup(entries, i, coord, groups, idByOrdinal, at.value);
        return Err("identity changes ordinal"), idByOrdinal;
      } else {
        TabulateKnown(entries[..i], entry, coord, groups, idByOrdinal, at.value);
        groups := groups[at.value := Group(groups[at.value].coord, groups[at.value].members + [entry])];
      }
      idByOrdinal := idByOrdinal[c.ordinal := c.id];
    }
    assert entries[..|entries|] == entries;
    return Ok(groups), idByOrdinal;
  }

  lemma ConflictingOrdinal(entries: seq<CanonicalEvent>, i: nat, coord: CanonicalEvent -> Coord, groups: seq<Group>,
      idByOrdinal: map<nat, string>)
    requires i < |entries| && Tabulated(entries[..i], coord, groups, idByOrdinal)
    requires var c := coord(entries[i]); c.ordinal in idByOrdinal && idByOrdinal[c.ordinal] != c.id
    ensures !Numbered(Runs(entries, coord))
  {
    var c := coord(entries[i]);
    var k :| 0 <= k < |groups| && groups[k].coord == Coord(idByOrdinal[c.ordinal], c.ordinal);
    TabulatedCoords(entries[..i], coord, groups, idByOrdinal, k);
    if Numbered(Runs(entries, coord)) {
      NumberedFunctional(entries, coord, entries[i], groups[k].members[0]);
    }
  }

  lemma ConflictingGroup(entries: seq<CanonicalEvent>, i: nat, coord: CanonicalEvent -> Coord, groups: seq<Group>,
      idByOrdinal: map<nat, string>, k: nat)
    requires i < |entries| && Tabulated(entries[..i], coord, groups, idByOrdinal)
    requires k < |groups| && groups[k].coord.id == coord(entries[i]).id && groups[k].coord != coord(entries[i])
    ensures !Numbered(Runs(entries, coord))
  {
    TabulatedCoords(entries[..i], coord, groups, idByOrdinal, k);
    if Numbered(Runs(entries, coord)) {
      NumberedFunctional(entries, coord, entries[i], groups[k].members[0]);
    }
  }

  /** Accepts sorted groups when their ordinals are dense from zero and no group reaches into the next. */
  method CheckGroups(sorted: seq<Group>) returns (r: Result<()>)
    requires forall g :: g in sorted ==> g.members != []
    ensures r.Ok? <==> (forall k :: 0 <= k < |sorted| ==> sorted[k].coord.ordinal == k) && Contiguous(sorted)
  {
    for index := 0 to |sorted|
      invariant forall k :: 0 <= k < index ==> sorted[k].coord.ordinal == k
      invariant forall j, k :: 0 <= j < k < index && k == j + 1 ==> Precedes(sorted[j], sorted[k])
    {
      if sorted[index].coord.ordinal != index {
        return Err("ordinals are not dense from zero");
      }
      if index > 0 && !Precedes(sorted[index - 1], sorted[index]) {
        return Err("group is not contiguous");
      }
    }
    return Ok(());
  }

  /**
   * Groups through tables keyed by identity and by ordinal, sorts by ordinal, and refuses gaps and interleaving. It
   * succeeds exactly when every entry is located and the consecutive runs are numbered from zero without a repeated
   * identity, and it then returns those runs.
   */
  method CollectGroups(entries: seq<CanonicalEvent>, coord: CanonicalEvent -> Coord, located: CanonicalEvent -> bool)
      returns (r: Result<seq<Group>>)
    requires InOrder(entries)
    ensures r.Ok? <==> (forall e :: e in entries ==> located(e)) && Numbered(Runs(entries, coord))
    ensures r.Ok? ==> r.value == Runs(entries, coord)
  {
    var tabulated, idByOrdinal := Tabulate(entries, coord, located);
    if tabulated.Err? {
      return Err(tabulated.fault);
    }
    var groups := tabulated.value;
    var sorted := Sort(groups, OrdinalLe());
    SortOrdered(groups, OrdinalLe());
    SameMembers(sorted, groups);
    if Numbered(Runs(entries, coord)) {
      NumberedRunsAreSorted(entries, coord, groups, idByOrdinal, sorted);
      RunsContiguous(entries, coord);
    }
    var checked := CheckGroups(sorted);
    if checked.Err? {
      return Err(checked.fault);
    }
    TabulatedSorted(entries, coord, groups, idByOrdinal, sorted);
    forall k | 0 <= k < |sorted|
      ensures sorted[k].members == Filter(entries, AtCoord(coord, sorted[k].coord))
    {
      assert sorted[k] in groups;
    }
    CheckedGroupsAreRuns(entries, coord, sorted);
    return Ok(sorted);
  }

  lemma TabulatedSorted(entries: seq<CanonicalEvent>, coord: CanonicalEvent -> Coord, groups: seq<Group>,
      idByOrdinal: map<nat, string>, sorted: seq<Group>)
    requires Tabulated(entries, coord, groups, idByOrdinal)
    requires multiset(sorted) == multiset(groups)
    requires forall k :: 0 <= k < |sorted| ==> sorted[k].coord.ordinal == k
    ensures Homogeneous(sorted, coord)
    ensures Numbered(sorted)
    ensures forall e :: e in entries ==> exists k :: 0 <= k < |sorted| && sorted[k].coord == coord(e)
  {
    SameMembers(sorted, groups);
    forall k | 0 <= k < |sorted|
      ensures sorted[k].members != [] && forall e :: e in sorted[k].members ==> coord(e) == sorted[k].coord
    {
      assert sorted[k] in groups;
      var j :| 0 <= j < |groups| && groups[j] == sorted[k];
      TabulatedCoords(entries, coord, groups, idByOrdinal, j);
    }
    forall j, k | 0 <= j < k < |sorted|
      ensures sorted[j].coord.id != sorted[k].coord.id
    {
      assert sorted[j] in groups && sorted[k] in groups;
    }
    forall e | e in entries
      ensures exists k :: 0 <= k < |sorted| && sorted[k].coord == coord(e)
    {
      var j :| 0 <= j < |groups| && groups[j].coord == coord(e);
      assert groups[j] in sorted;
    }
  }

  /** Runs follow one another: all of a run lies before the next. */
  lemma RunsContiguous(entries: seq<CanonicalEvent>, coord: CanonicalEvent -> Coord)
    requires InOrder(entries)
    ensures Contiguous(Runs(entries, coord))
  {
    var runs := Runs(entries, coord);
    RunsFlatten(entries, coord);
    RunsHomogeneous(entries, coord);
    forall j, k | 0 <= j < k < |runs| && k == j + 1
      ensures Precedes(runs[j], runs[k])
    {
      NeighboursInOrder(runs, j);
    }
  }

  lemma NeighboursInOrder(groups: seq<Group>, j: nat)
    requires InOrder(FlatMap(groups, MembersOf()))
    requires j + 1 < |groups| && groups[j].members != [] && groups[j + 1].members != []
    ensures Precedes(groups[j], groups[j + 1])
  {
    FlattenAround(groups, j + 1);
    var front, rear := FlatMap(groups[..j + 1], MembersOf()),
        groups[j + 1].members + FlatMap(groups[j + 2..], MembersOf());
    EndsWithLast(groups[..j + 1]);
    BoundaryInOrder(front, rear);
  }

  lemma EndsWithLast(groups: seq<Group>)
    requires groups != [] && Last(groups).members != []
    ensures FlatMap(groups, MembersOf()) != [] && Last(FlatMap(groups, MembersOf())) == Last(Last(groups).members)
  {
  }

  lemma FlattenAround(groups: seq<Group>, j: nat)
    requires j < |groups|
    ensures FlatMap(groups, MembersOf())
            == FlatMap(groups[..j], MembersOf()) + (groups[j].members + FlatMap(groups[j + 1..], MembersOf()))
  {
    assert groups == groups[..j] + groups[j..];
    FlatMapConcat(groups[..j], groups[j..], MembersOf());
    FlatMapCons(groups[j..], MembersOf());
    assert groups[j..][1..] == groups[j + 1..];
  }

  lemma BoundaryInOrder(front: seq<CanonicalEvent>, rear: seq<CanonicalEvent>)
    requires front != [] && rear != [] && InOrder(front + rear)
    ensures Last(front).sequence < rear[0].sequence
  {
    var all, at := front + rear, |front|;
    assert all[at - 1] == Last(front) && all[at] == rear[0];
  }

  lemma RunInOrder(entries: seq<CanonicalEvent>, coord: CanonicalEvent -> Coord, k: nat)
    requires InOrder(entries) && k < |Runs(entries, coord)|
    ensures InOrder(Runs(entries, coord)[k].members) && Runs(entries, coord)[k].members != []
  {
    var runs := Runs(entries, coord);
    RunsFlatten(entries, coord);
    RunsHomogeneous(entries, coord);
    FlattenAround(runs, k);
    MiddleInOrder(FlatMap(runs[..k], MembersOf()), runs[k].members, FlatMap(runs[k + 1..], MembersOf()));
  }

  lemma MiddleInOrder(before: seq<CanonicalEvent>, members: seq<CanonicalEvent>, after: seq<CanonicalEvent>)
    requires InOrder(before + (members + after))
    ensures InOrder(members)
  {
    var all := before + (members + after);
    forall i, j | 0 <= i < j < |members|
      ensures members[i].sequence < members[j].sequence
    {
      assert all[|before| + i] == members[i] && all[|before| + j] == members[j];
    }
  }

  lemma InOrderDistinct(entries: seq<CanonicalEvent>)
    requires InOrder(entries)
    ensures Distinct(entries)
  {
  }

  lemma SameSequence(entries: seq<CanonicalEvent>, a: CanonicalEvent, b: CanonicalEvent)
    requires InOrder(entries) && a in entries && b in entries && a.sequence == b.sequence
    ensures a == b
  {
    var i :| 0 <= i < |entries| && entries[i] == a;
    var j :| 0 <= j < |entries| && entries[j] == b;
  }

  /** Everything in an earlier run precedes everything in a later one. */
  lemma {:induction false} RunsSeparated(entries: seq<CanonicalEvent>, coord: CanonicalEvent -> Coord, j: nat, k: nat,
      a: CanonicalEvent, b: CanonicalEvent)
    requires InOrder(entries) && j < k < |Runs(entries, coord)|
    requires a in Runs(entries, coord)[j].members && b in Runs(entries, coord)[k].members
    ensures a.sequence < b.sequence
    decreases k - j
  {
    var runs := Runs(entries, coord);
    RunsContiguous(entries, coord);
    assert Precedes(runs[j], runs[j + 1]);
    RunInOrder(entries, coord, j);
    EndsInOrder(runs[j].members, a);
    if j + 1 < k {
      RunsSeparated(entries, coord, j + 1, k, runs[j + 1].members[0], b);
    } else {
      RunInOrder(entries, coord, k);
      EndsInOrder(runs[k].members, b);
    }
  }

  lemma EndsInOrder(members: seq<CanonicalEvent>, e: CanonicalEvent)
    requires InOrder(members) && e in members
    ensures members[0].sequence <= e.sequence <= Last(members).sequence
  {
    var i :| 0 <= i < |members| && members[i] == e;
  }
}
