/**
 * Events without portable semantics are folded into groups: one per turn that encloses them, else one per unbroken
 * stretch.
 */
module OtherGroups {
  import opened Outcomes
  import opened Sequences
  import opened Sorting
  import opened Canonical
  import opened CoordinateRuns

  predicate IsOther(e: CanonicalEvent) {
    e.kind == Other
  }

  predicate Encloses(turn: Group, sequence: int) {
    turn.members != [] && turn.members[0].sequence <= sequence <= Last(turn.members).sequence
  }

  /** The first turn whose interval contains the sequence. */
  function EnclosingTurn(turns: seq<Group>, sequence: int): (r: Option<string>)
    ensures r.Some? ==> exists k :: 0 <= k < |turns| && turns[k].coord.id == r.value && Encloses(turns[k], sequence)
    ensures r.None? ==> forall k :: 0 <= k < |turns| ==> !Encloses(turns[k], sequence)
  {
    if turns == [] then None
    else if Encloses(turns[0], sequence) then Some(turns[0].coord.id)
    else EnclosingTurn(turns[1..], sequence)
  }

  /** Groups so far, the group of each turn, and the stretch still open outside any turn. */
  datatype Progress = Progress(groups: seq<seq<CanonicalEvent>>, byTurn: map<string, nat>, open: Option<nat>)

  function AddTo(st: Progress, at: nat, e: CanonicalEvent): seq<seq<CanonicalEvent>> {
    if at < |st.groups| then st.groups[at := st.groups[at] + [e]] else st.groups
  }

  function Collect(turns: seq<Group>, st: Progress, e: CanonicalEvent): Progress {
    if !IsOther(e) then st.(open := None)
    else match EnclosingTurn(turns, e.sequence)
      case Some(id) =>
        if id in st.byTurn then st.(groups := AddTo(st, st.byTurn[id], e), open := None)
        else Progress(st.groups + [[e]], st.byTurn[id := |st.groups|], None)
      case None =>
        if st.open.Some? then st.(groups := AddTo(st, st.open.value, e))
        else Progress(st.groups + [[e]], st.byTurn, Some(|st.groups|))
  }

  function CollectAll(turns: seq<Group>, events: seq<CanonicalEvent>): Progress {
    if events == [] then Progress([], map[], None)
    else Collect(turns, CollectAll(turns, events[..|events| - 1]), Last(events))
  }

  function GroupsOf(turns: seq<Group>, events: seq<CanonicalEvent>): seq<seq<CanonicalEvent>> {
    CollectAll(turns, events).groups
  }

  function Itself(): seq<CanonicalEvent> -> seq<CanonicalEvent> {
    (group: seq<CanonicalEvent>) => group
  }

  function HeadLe(): (seq<CanonicalEvent>, seq<CanonicalEvent>) -> bool {
    (a: seq<CanonicalEvent>, b: seq<CanonicalEvent>) => a == [] || (b != [] && a[0].sequence <= b[0].sequence)
  }

  /** Indices into the groups stay valid. */
  ghost predicate Consistent(st: Progress) {
    && (forall id :: id in st.byTurn ==> st.byTurn[id] < |st.groups|)
    && (st.open.Some? ==> st.open.value < |st.groups|)
  }

  /** Groups are nonempty, made of other events of the input, and led in canonical order. */
  ghost predicate Led(groups: seq<seq<CanonicalEvent>>, events: seq<CanonicalEvent>) {
    && (forall k :: 0 <= k < |groups| ==> groups[k] != [] && groups[k][0] in events && IsOther(groups[k][0]))
    && (forall j, k :: 0 <= j < k < |groups|
         ==> groups[j] != [] && groups[k] != [] && groups[j][0].sequence < groups[k][0].sequence)
  }

  lemma {:induction false} GroupsConsistent(turns: seq<Group>, events: seq<CanonicalEvent>)
    ensures Consistent(CollectAll(turns, events))
  {
    if events != [] {
      GroupsConsistent(turns, events[..|events| - 1]);
    }
  }

  lemma LastIsLargest(events: seq<CanonicalEvent>, e: CanonicalEvent)
    requires InOrder(events) && events != [] && e in events[..|events| - 1]
    ensures e.sequence < Last(events).sequence && e in events
  {
    var i :| 0 <= i < |events| - 1 && events[..|events| - 1][i] == e;
    assert events[i] == e;
  }

  lemma {:induction false} GroupsLed(turns: seq<Group>, events: seq<CanonicalEvent>)
    requires InOrder(events)
    ensures Led(GroupsOf(turns, events), events)
  {
    if events != [] {
      var init := events[..|events| - 1];
      GroupsLed(turns, init);
      GroupsConsistent(turns, init);
      var st, e := CollectAll(turns, init), Last(events);
      forall k | 0 <= k < |st.groups|
        ensures st.groups[k][0] in events && st.groups[k][0].sequence < e.sequence
      {
        LastIsLargest(events, st.groups[k][0]);
      }
      assert e in events;
      var groups := GroupsOf(turns, events);
      if |groups| == |st.groups| {
        assert forall k :: 0 <= k < |groups| ==> groups[k] != [] && groups[k][0] == st.groups[k][0];
      } else {
        assert groups == st.groups + [[e]];
      }
    }
  }

  lemma {:induction false} AddedTo(groups: seq<seq<CanonicalEvent>>, at: nat, e: CanonicalEvent)
    requires at < |groups|
    ensures multiset(FlatMap(groups[at := groups[at] + [e]], Itself()))
            == multiset(FlatMap(groups, Itself())) + multiset{e}
  {
    var groups' := groups[at := groups[at] + [e]];
    if at == |groups| - 1 {
      assert groups'[..|groups| - 1] == groups[..|groups| - 1];
    } else {
      assert groups'[..|groups| - 1] == groups[..|groups| - 1][at := groups[at] + [e]];
      AddedTo(groups[..|groups| - 1], at, e);
    }
  }

  /** The groups partition the other events: each is kept exactly once and nothing else is. */
  lemma {:induction false} GroupsPartition(turns: seq<Group>, events: seq<CanonicalEvent>)
    ensures multiset(FlatMap(GroupsOf(turns, events), Itself())) == multiset(Filter(events, IsOther))
  {
    if events != [] {
      var init, e := events[..|events| - 1], Last(events);
      GroupsPartition(turns, init);
      GroupsConsistent(turns, init);
      var st := CollectAll(turns, init);
      if IsOther(e) {
        var turn := EnclosingTurn(turns, e.sequence);
        if turn.Some? && turn.value in st.byTurn {
          AddedTo(st.groups, st.byTurn[turn.value], e);
        } else if turn.None? && st.open.Some? {
          AddedTo(st.groups, st.open.value, e);
        } else {
          assert (st.groups + [[e]])[..|st.groups|] == st.groups;
        }
      }
    }
  }

  // ----- which events share a group

  /** Where an other event is put. */
  function Slot(turns: seq<Group>, st: Progress, e: CanonicalEvent): nat {
    match EnclosingTurn(turns, e.sequence)
    case Some(id) => if id in st.byTurn then st.byTurn[id] else |st.groups|
    case None => if st.open.Some? then st.open.value else |st.groups|
  }

  function SlotAt(turns: seq<Group>, events: seq<CanonicalEvent>, i: nat): nat
    requires i < |events|
  {
    Slot(turns, CollectAll(turns, events[..i]), events[i])
  }

  /** Groups of turns and the group of the running stretch are kept apart. */
  ghost predicate Apart(st: Progress) {
    && (forall id :: id in st.byTurn ==> st.byTurn[id] < |st.groups|)
    && (forall a, b :: a in st.byTurn && b in st.byTurn && st.byTurn[a] == st.byTurn[b] ==> a == b)
    && (st.open.Some? ==> st.open.value < |st.groups| && forall id :: id in st.byTurn
                                                          ==> st.byTurn[id] != st.open.value)
  }

  lemma CollectOne(turns: seq<Group>, st: Progress, e: CanonicalEvent)
    requires Apart(st)
    ensures var next := Collect(turns, st, e);
            && Apart(next) && |st.groups| <= |next.groups|
            && (IsOther(e) ==>
                  && Slot(turns, st, e) < |next.groups|
                  && (forall k :: 0 <= k < |next.groups| ==>
                        next.groups[k]
                            == (if k < |st.groups| then st.groups[k] else [])
                            + (if k == Slot(turns, st, e) then [e] else [])))
            && (!IsOther(e) ==> next.groups == st.groups)
  {
  }

  lemma {:induction false} AllApart(turns: seq<Group>, events: seq<CanonicalEvent>)
    ensures Apart(CollectAll(turns, events))
  {
    hide Collect, Apart;
    if events == [] {
      NothingApart(turns);
    } else {
      AllApart(turns, events[..|events| - 1]);
      CollectOne(turns, CollectAll(turns, events[..|events| - 1]), Last(events));
    }
  }

  lemma NothingApart(turns: seq<Group>)
    ensures Apart(CollectAll(turns, []))
  {
  }

  lemma CollectMore(turns: seq<Group>, events: seq<CanonicalEvent>, n: nat)
    requires n < |events|
    ensures CollectAll(turns, events[..n + 1]) == Collect(turns, CollectAll(turns, events[..n]), events[n])
  {
    assert events[..n + 1][..n] == events[..n] && Last(events[..n + 1]) == events[n];
  }

  /** A group holds exactly the events put in its place. */
  ghost predicate Holds(turns: seq<Group>, events: seq<CanonicalEvent>, n: nat, groups: seq<seq<CanonicalEvent>>)
    requires n <= |events|
  {
    && (forall i :: 0 <= i < n && IsOther(events[i])
         ==> SlotAt(turns, events, i) < |groups| && events[i] in groups[SlotAt(turns, events, i)])
    && forall k, e :: 0 <= k < |groups| && e in groups[k]
         ==> exists i :: 0 <= i < n && IsOther(events[i]) && events[i] == e && SlotAt(turns, events, i) == k
  }

  lemma {:induction false} GroupsHold(turns: seq<Group>, events: seq<CanonicalEvent>, n: nat)
    requires n <= |events|
    ensures Holds(turns, events, n, CollectAll(turns, events[..n]).groups)
  {
    hide Collect, Apart, Slot;
    if n == 0 {
      assert events[..0] == [];
    } else {
      GroupsHold(turns, events, n - 1);
      AllApart(turns, events[..n - 1]);
      CollectMore(turns, events, n - 1);
      var st, e := CollectAll(turns, events[..n - 1]), events[n - 1];
      CollectOne(turns, st, e);
      HoldsMore(turns, events, n, st.groups, CollectAll(turns, events[..n]).groups);
    }
  }

  lemma HoldsMore(turns: seq<Group>, events: seq<CanonicalEvent>, n: nat, before: seq<seq<CanonicalEvent>>,
      after: seq<seq<CanonicalEvent>>)
    requires 0 < n <= |events| && Holds(turns, events, n - 1, before) && |before| <= |after|
    requires IsOther(events[n - 1]) ==>
               && SlotAt(turns, events, n - 1) < |after|
               && forall k :: 0 <= k < |after| ==>
                    after[k] == (if k < |before| then before[k] else [])
                        + (if k == SlotAt(turns, events, n - 1) then [events[n - 1]] else [])
    requires !IsOther(events[n - 1]) ==> after == before
    ensures Holds(turns, events, n, after)
  {
    hide SlotAt, IsOther;
    forall k, e | 0 <= k < |after| && e in after[k]
      ensures exists i :: 0 <= i < n && IsOther(events[i]) && events[i] == e && SlotAt(turns, events, i) == k
    {
      if k < |before| && e in before[k] {
        var i :| 0 <= i < n - 1 && IsOther(events[i]) && events[i] == e && SlotAt(turns, events, i) == k;
      } else {
        assert events[n - 1] == e && SlotAt(turns, events, n - 1) == k;
      }
    }
  }

  /** Between two places there are only other events outside all turns. */
  predicate Unbroken(turns: seq<Group>, events: seq<CanonicalEvent>, i: nat, j: nat)
    requires j <= |events|
  {
    forall m :: i < m < j ==> IsOther(events[m]) && EnclosingTurn(turns, events[m].sequence).None?
  }

  /**
   * The place is that of the turn, or a place outside the turns, which is open exactly while its stretch is unbroken.
   */
  ghost predicate Stands(st: Progress, turn: Option<string>, slot: nat, unbroken: bool) {
    match turn
    case Some(id) => id in st.byTurn && st.byTurn[id] == slot
    case None =>
      && slot < |st.groups| && (forall id :: id in st.byTurn ==> st.byTurn[id] != slot)
      && (st.open == Some(slot) <==> unbroken)
  }

  lemma SlotTaken(turns: seq<Group>, st: Progress, e: CanonicalEvent)
    requires Apart(st) && IsOther(e)
    ensures Stands(Collect(turns, st, e), EnclosingTurn(turns, e.sequence), Slot(turns, st, e), true)
  {
    hide EnclosingTurn;
  }

  lemma SlotKept(turns: seq<Group>, st: Progress, e: CanonicalEvent, turn: Option<string>, slot: nat, unbroken: bool)
    requires Apart(st) && Stands(st, turn, slot, unbroken)
    ensures Stands(Collect(turns, st, e), turn, slot, unbroken && IsOther(e) && EnclosingTurn(turns, e.sequence).None?)
  {
    hide EnclosingTurn;
  }

  /**
   * Where event i was put stays its turn's place, or the place of the running stretch for as long as that is unbroken.
   */
  lemma {:induction false} SlotStays(turns: seq<Group>, events: seq<CanonicalEvent>, i: nat, n: nat)
    requires i < n <= |events| && IsOther(events[i])
    ensures Stands(CollectAll(turns, events[..n]), EnclosingTurn(turns, events[i].sequence), SlotAt(turns, events, i),
                   Unbroken(turns, events, i, n))
  {
    hide EnclosingTurn, Collect, Slot, Apart, Stands;
    CollectMore(turns, events, n - 1);
    AllApart(turns, events[..n - 1]);
    if n > i + 1 {
      SlotStays(turns, events, i, n - 1);
      SlotKept(turns, CollectAll(turns, events[..n - 1]), events[n - 1], EnclosingTurn(turns, events[i].sequence),
               SlotAt(turns, events, i), Unbroken(turns, events, i, n - 1));
      assert Unbroken(turns, events, i, n) <==>
             Unbroken(turns, events, i, n - 1) && IsOther(events[n - 1])
                 && EnclosingTurn(turns, events[n - 1].sequence).None?;
    } else {
      SlotTaken(turns, CollectAll(turns, events[..i]), events[i]);
      assert Unbroken(turns, events, i, n);
    }
  }

  /** Two other events belong together: within one turn, or in one stretch outside all turns. */
  predicate Together(turns: seq<Group>, events: seq<CanonicalEvent>, i: nat, j: nat)
    requires i < j < |events|
  {
    var a, b := EnclosingTurn(turns, events[i].sequence), EnclosingTurn(turns, events[j].sequence);
    if a.Some? then a == b else b.None? && Unbroken(turns, events, i, j)
  }

  lemma SlotsDecide(turns: seq<Group>, events: seq<CanonicalEvent>, i: nat, j: nat)
    requires i < j < |events| && IsOther(events[i]) && IsOther(events[j])
    ensures SlotAt(turns, events, i) == SlotAt(turns, events, j) <==> Together(turns, events, i, j)
  {
    hide EnclosingTurn, Collect;
    SlotStays(turns, events, i, j);
    AllApart(turns, events[..j]);
  }

  /** The groups are the turns' other events and the maximal stretches between the turns. */
  lemma GroupsJoin(turns: seq<Group>, events: seq<CanonicalEvent>, i: nat, j: nat)
    requires InOrder(events) && i < j < |events| && IsOther(events[i]) && IsOther(events[j])
    ensures var groups := GroupsOf(turns, events);
            (exists k :: 0 <= k < |groups| && events[i] in groups[k] && events[j] in groups[k])
                <==> Together(turns, events, i, j)
  {
    hide SlotAt, Together, CollectAll;
    GroupsHold(turns, events, |events|);
    assert events[..|events|] == events;
    SlotsDecide(turns, events, i, j);
    var groups := GroupsOf(turns, events);
    if k :| 0 <= k < |groups| && events[i] in groups[k] && events[j] in groups[k] {
      OwnSlot(turns, events, i, k, groups);
      OwnSlot(turns, events, j, k, groups);
    }
  }

  lemma OwnSlot(turns: seq<Group>, events: seq<CanonicalEvent>, i: nat, k: nat, groups: seq<seq<CanonicalEvent>>)
    requires InOrder(events) && Holds(turns, events, |events|, groups) && i < |events| && k < |groups|
            && events[i] in groups[k]
    ensures SlotAt(turns, events, i) == k
  {
    hide SlotAt;
    var m :| 0 <= m < |events| && IsOther(events[m]) && events[m] == events[i] && SlotAt(turns, events, m) == k;
    assert m == i;
  }

  /** Folds the events once, as the source does, and sorts the groups by their first sequence. */
  method CollectPortableOtherGroups(events: seq<CanonicalEvent>, turns: seq<Group>)
      returns (r: seq<seq<CanonicalEvent>>)
    requires InOrder(events)
    ensures r == GroupsOf(turns, events)
  {
    var groups: seq<seq<CanonicalEvent>> := [];
    var groupByTurn: map<string, nat> := map[];
    var outside: Option<nat> := None;
    for i := 0 to |events|
      invariant CollectAll(turns, events[..i]) == Progress(groups, groupByTurn, outside)
      invariant Consistent(Progress(groups, groupByTurn, outside))
    {
      var event := events[i];
      assert events[..i + 1][..i] == events[..i] && Last(events[..i + 1]) == event;
      if event.kind != Other {
        outside := None;
      } else {
        var turn := EnclosingTurn(turns, event.sequence);
        if turn.Some? {
          if turn.value in groupByTurn {
            var at := groupByTurn[turn.value];
            groups := groups[at := groups[at] + [event]];
          } else {
            groupByTurn := groupByTurn[turn.value := |groups|];
            groups := groups + [[event]];
          }
          outside := None;
        } else if outside.Some? {
          groups := groups[outside.value := groups[outside.value] + [event]];
        } else {
          outside := Some(|groups|);
          groups := groups + [[event]];
        }
      }
    }
    assert events[..|events|] == events;
    GroupsLed(turns, events);
    SortIsIdle(groups, HeadLe());
    r := Sort(groups, HeadLe());
  }
}
