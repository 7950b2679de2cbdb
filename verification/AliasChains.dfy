/** Project aliases that lead to one another: which selections rename again when reconciled a second time. */
module AliasChains {
  import opened Outcomes
  import opened Sequences
  import opened DerivationClosure
  import opened ProjectMapping
  import opened MappingTheorems

  // ----- where a project ends up

  /** The project after all renamings, one after the other. */
  function Destination(aliases: seq<(string, string)>, project: string): string {
    if aliases == [] then project
    else
      var before := Destination(aliases[..|aliases| - 1], project);
      if before == Last(aliases).0 then Last(aliases).1 else before
  }

  /** No renamed project ends up in one that is renamed. */
  predicate Settling(aliases: seq<(string, string)>) {
    forall k :: 0 <= k < |aliases| ==> !IsAliased(aliases, Some(Destination(aliases, aliases[k].0)))
  }

  lemma {:induction false} RenamedTo(members: map<string, Member>, aliases: seq<(string, string)>, id: string)
    requires id in members
    ensures id in RenameAll(members, aliases)
    ensures RenameAll(members, aliases)[id].projectId
            == match members[id].projectId
               case Some(project) => Some(Destination(aliases, project))
               case None => None
  {
    if aliases != [] {
      RenamedTo(members, aliases[..|aliases| - 1], id);
    }
  }

  lemma {:induction false} RenamedSessions(members: map<string, Member>, aliases: seq<(string, string)>)
    ensures RenameAll(members, aliases).Keys == members.Keys
  {
    if aliases != [] {
      RenamedSessions(members, aliases[..|aliases| - 1]);
    }
  }

  lemma {:induction false} UnaliasedStays(aliases: seq<(string, string)>, project: string)
    requires !IsAliased(aliases, Some(project))
    ensures Destination(aliases, project) == project
  {
    if aliases != [] {
      var init := aliases[..|aliases| - 1];
      assert forall k :: 0 <= k < |init| ==> init[k] == aliases[k];
      assert Last(aliases) == aliases[|aliases| - 1];
      UnaliasedStays(init, project);
    }
  }

  /** Selections that settle do so on all tables. */
  lemma SettlingSettles(t: Tables, selection: Selection)
    requires Settling(selection.aliases)
    ensures AliasesSettle(t, selection)
  {
    var aliases := selection.aliases;
    RenamedSessions(t.members, aliases);
    forall id | id in t.members
      ensures !IsAliased(aliases, RenameAll(t.members, aliases)[id].projectId)
    {
      RenamedTo(t.members, aliases, id);
      if t.members[id].projectId.Some? && !IsAliased(aliases, t.members[id].projectId) {
        UnaliasedStays(aliases, t.members[id].projectId.value);
      }
    }
  }

  // ----- renaming nothing

  lemma OnlyTheLast(aliases: seq<(string, string)>, project: Option<string>)
    requires aliases != [] && IsAliased(aliases, project)
    ensures IsAliased(aliases[..|aliases| - 1], project) || project == Some(Last(aliases).0)
  {
    var k :| 0 <= k < |aliases| && project == Some(aliases[k].0);
    if k < |aliases| - 1 {
      assert aliases[..|aliases| - 1][k] == aliases[k];
    }
  }

  /** Each renaming counts in the revision of the membership. */
  lemma {:induction false} RevisionGrows(members: map<string, Member>, aliases: seq<(string, string)>, id: string)
    requires id in members
    ensures id in RenameAll(members, aliases)
    ensures var after := RenameAll(members, aliases)[id];
            && after.revision >= members[id].revision
            && (IsAliased(aliases, members[id].projectId) ==> after.revision > members[id].revision)
  {
    if aliases != [] {
      var init := aliases[..|aliases| - 1];
      RevisionGrows(members, init, id);
      RenamedTo(members, init, id);
      if IsAliased(aliases, members[id].projectId) && !IsAliased(init, members[id].projectId) {
        OnlyTheLast(aliases, members[id].projectId);
        UnaliasedStays(init, members[id].projectId.value);
      }
    }
  }

  /** A reconciliation renames nothing exactly when no membership is in a project that is renamed. */
  lemma RenamesNothingExactly(t: Tables, selection: Selection)
    ensures AfterAliases(t, selection) == t <==> AliasesDone(t, selection)
  {
    if AliasesDone(t, selection) {
      NoAliases(t, selection);
    } else {
      var id :| id in t.members && IsAliased(selection.aliases, t.members[id].projectId);
      RevisionGrows(t.members, selection.aliases, id);
      assert RenameAll(t.members, selection.aliases)[id] != t.members[id];
    }
  }

  // ----- the exact condition

  /** Tables with one native session, in one project. */
  function OneSession(project: string): Tables {
    Tables(["s"], map["s" := SessionRow(None, None, None, None, Some(MaintenanceScope), MaintenanceNative)], [], [],
           map["s" := Member(Some(project), 0)], map[], map[], map[], map[], map[], 0, false)
  }

  lemma OneSessionIsValid(project: string)
    ensures Valid(OneSession(project)) && NativesAreRoots(OneSession(project))
  {
  }

  lemma RenamedSession(project: string, selection: Selection, revision: int, at: string)
    ensures var once := Reconciled(OneSession(project), selection, revision, at);
            "s" in once.members && once.members["s"].projectId == Some(Destination(selection.aliases, project))
  {
    hide Reconciled, Keep;
    ReconciledFrame(OneSession(project), selection, revision, at);
    RenamedTo(OneSession(project).members, selection.aliases, "s");
  }

  /** A second reconciliation renames nothing, whatever the tables, exactly when the aliases settle. */
  lemma SettlingExactly(selection: Selection, revision: int, at: string)
    ensures Settling(selection.aliases)
            <==> forall t :: Valid(t) && NativesAreRoots(t) ==>
                   var once := Reconciled(t, selection, revision, at); AfterAliases(once, selection) == once
  {
    hide Reconciled, Valid, NativesAreRoots, AfterAliases, AtRest;
    if Settling(selection.aliases) {
      forall t | Valid(t) && NativesAreRoots(t)
        ensures var once := Reconciled(t, selection, revision, at); AfterAliases(once, selection) == once
      {
        SettlingSettles(t, selection);
        ReconciledRests(t, selection, revision, at);
        RenamesNothingExactly(Reconciled(t, selection, revision, at), selection);
      }
    } else {
      var k :| 0 <= k < |selection.aliases|
          && IsAliased(selection.aliases, Some(Destination(selection.aliases, selection.aliases[k].0)));
      var t := OneSession(selection.aliases[k].0);
      OneSessionIsValid(selection.aliases[k].0);
      RenamedSession(selection.aliases[k].0, selection, revision, at);
      RenamesNothingExactly(Reconciled(t, selection, revision, at), selection);
    }
  }

  /** A chain listed from its end renames again, and listed from its beginning does not. */
  lemma ChainsDiffer()
    ensures !Settling([("b", "c"), ("a", "b")]) && Settling([("a", "b"), ("b", "c")])
  {
    var back, forth := [("b", "c"), ("a", "b")], [("a", "b"), ("b", "c")];
    assert back[..1] == [("b", "c")] && forth[..1] == [("a", "b")];
    assert [("b", "c")][..0] == [] && [("a", "b")][..0] == [];
    assert Destination([("b", "c")], "a") == "a" && Destination(back, "a") == "b";
    assert back[1].0 == "a" && back[0].0 == "b" && IsAliased(back, Some("b"));
    assert Destination([("a", "b")], "a") == "b" && Destination(forth, "a") == "c";
    assert Destination([("a", "b")], "b") == "b" && Destination(forth, "b") == "c";
    assert !IsAliased(forth, Some("c"));
  }

  // ----- a narrow selection that renames

  const WIDE := Selection({}, {"p"}, [])
  const RENAMING := Selection({}, {}, [("p", "q")])

  lemma NothingLocal(t: Tables, selection: Selection)
    requires t.projects == map[] && t.derivations == [] && t.bindings == []
    ensures forall id :: id in Keep(t, selection) ==>
              IsNative(t, id) && id in t.members && t.members[id].projectId.Some?
                  && t.members[id].projectId.value in selection.projectIds
    ensures forall id :: id in Restorable(t, selection) ==> id in Keep(t, selection)
  {
    NothingDerived(Seeds(t, selection));
    NothingDerived(LocalRoots(t));
    assert Filter(t.derivations, Continuations(t)) == [];
  }

  lemma NothingDerived(seeds: set<string>)
    ensures Closure(seeds, []) == seeds
  {
    ClosureIsLeast(seeds, [], seeds);
    ClosureIsClosed(seeds, []);
  }

  lemma OneSessionRests()
    ensures AtRest(OneSession("p"), WIDE)
  {
    ClosureIsClosed(Seeds(OneSession("p"), WIDE), []);
    assert "s" in Seeds(OneSession("p"), WIDE);
  }

  /** Renaming a project that the wide selection selects takes its session away for good. */
  lemma RenamingNarrowLoses(revision: int, at: string, revision': int, at': string)
    ensures Narrower(RENAMING, WIDE) && AliasesDone(OneSession("p"), WIDE) && !AliasesDone(OneSession("p"), RENAMING)
    ensures AtRest(OneSession("p"), WIDE) && IsActive(OneSession("p"), "s")
    ensures !IsActive(Reconciled(Reconciled(OneSession("p"), RENAMING, revision, at), WIDE, revision', at'), "s")
  {
    hide Reconciled, Restorable, Keep;
    var t := OneSession("p");
    OneSessionIsValid("p");
    OneSessionRests();
    assert RENAMING.aliases[0].0 == "p" && t.members["s"].projectId == Some("p");
    assert IsAliased(RENAMING.aliases, t.members["s"].projectId);
    NothingLocal(AfterAliases(t, RENAMING), RENAMING);
    ActiveAfter(t, RENAMING, revision, at, "s");
    var m := Reconciled(t, RENAMING, revision, at);
    ReconciledValid(t, RENAMING, revision, at);
    RenamedSession("p", RENAMING, revision, at);
    ReconciledFrame(t, RENAMING, revision, at);
    assert [("p", "q")][..0] == [];
    assert Destination(RENAMING.aliases, "p") == "q";
    NothingLocal(AfterAliases(m, WIDE), WIDE);
    ActiveAfter(m, WIDE, revision', at', "s");
  }
}
