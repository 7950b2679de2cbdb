/**
 * When a portable history is projected: the exact condition on the canonical events alone, without the groups, the
 * drafts and the tables of the compiler.
 */
module PortableVerdict {
  import opened Sequences
  import opened Canonical
  import opened CoordinateRuns
  import opened PortableEmission
  import opened PortableOrder
  import opened PortableAcceptance
  import opened PortableRelocation
  import opened PortableAnchors
  import opened PortableMaterialize
  import opened PortableContents
  import opened PortableLinks
  import opened PortableMessages
  import opened Materialize

  /** Sequences are not negative and increase, and identities are distinct. */
  ghost predicate IsHistory(events: seq<CanonicalEvent>) {
    && (forall i :: 0 <= i < |events| ==> 0 <= events[i].sequence)
    && forall i, j :: 0 <= i < j < |events| ==>
         events[i].sequence < events[j].sequence && events[i].id != events[j].id
  }

  /** What a portable history must bring. */
  ghost predicate Projectable(events: seq<CanonicalEvent>) {
    && IsHistory(events)
    && TurnsFollow(events) && StepsFollow(events)
    && (forall e :: e in events ==> IsWritable(events, e)) && NotSteeredWithin(events)
    && MessagesApart(events)
    && IdentifiersGiven(events) && ReferencesHold(events)
  }

  lemma TurnsPlannableExactly(events: seq<CanonicalEvent>, createdAt: int)
    requires InOrder(events) && TurnsPlanned(events)
    ensures (forall turn :: turn in Turns(events) ==> TurnPlannable(events, turn))
            <==> StepsFollow(events) && (forall e :: e in events ==> IsWritable(events, e)) && NotSteeredWithin(events)
  {
    hide TurnsFollow, StepsFollow, IsWritable, NotSteeredWithin, Turns, Steps, Numbered, InOrder, StepWritable, HasStep,
        Filter;
    StepsExactly(events);
    var plan := PlanFor(events, createdAt);
    if forall turn :: turn in Turns(events) ==> StepsPlanned(turn) {
      PlanIsValid(events, createdAt);
      ContentsExactly(plan);
      forall turn | turn in Turns(events)
        ensures TurnPlannable(events, turn) <==>
                  forall step :: step in Steps(turn) ==> StepWritable(events, turn, step)
      {
      }
    }
  }

  lemma PlanIsValid(events: seq<CanonicalEvent>, createdAt: int)
    requires InOrder(events) && TurnsPlanned(events) && forall turn :: turn in Turns(events) ==> StepsPlanned(turn)
    ensures ValidPlan(PlanFor(events, createdAt))
  {
    hide Turns, Steps, Numbered, InOrder, HasStep, Filter;
  }

  /**
   * A history is compiled exactly if its turns and steps are in sequence, what it says fits its messages, no user
   * message comes within one, the messages can be told apart, identifiers are given and references hold.
   */
  lemma CompilableExactly(events: seq<CanonicalEvent>, createdAt: int)
    requires Guarded(events) && forall e :: e in events ==> ReadableEvent(e)
    ensures Compilable(events, createdAt) <==> Projectable(events)
  {
    hide TurnsFollow, StepsFollow, IsWritable, NotSteeredWithin, MessagesApart, IdentifiersGiven, ReferencesHold,
        TurnPlannable, PushAll, AllRelocatable, Stream, Pushes, TurnsPlanned, ValidPlan, Guarded, ReadableEvent, Turns;
    SequenceExactly(events);
    TurnsExactly(events);
    if IsHistory(events) && TurnsFollow(events) {
      TurnsPlannableExactly(events, createdAt);
      if forall turn :: turn in Turns(events) ==> TurnPlannable(events, turn) {
        var plan := PlanFor(events, createdAt);
        CompilablePlan(events, createdAt);
        MessagesExactly(plan);
        RelocatableExactly(plan);
      }
    }
  }

  lemma SequenceExactly(events: seq<CanonicalEvent>)
    ensures ValidSequence(events) <==> IsHistory(events)
    ensures IsHistory(events) ==> InOrder(events)
  {
  }

  /** A portable history is projected exactly if it brings no native artifact and all that a projection needs. */
  lemma ProjectedExactly(events: seq<CanonicalEvent>, createdAt: int)
    ensures PortableProjection(events, createdAt)
            <==> && HasPortable(events)
                 && (forall e :: e in events ==> !IsNativeArtifact(e) && EnvelopeReads(e))
                 && Projectable(events)
  {
    hide Projectable, Compilable, HasPortable;
    if forall e :: e in events ==> !IsNativeArtifact(e) && EnvelopeReads(e) {
      CompilableExactly(events, createdAt);
    }
  }
}
