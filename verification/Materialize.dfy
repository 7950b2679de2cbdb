/**
 * The entry point: a history is projected either as a portable conversation or as native envelopes, never as a mixture.
 */
module Materialize {
  import opened Outcomes
  import opened Canonical
  import opened SessionInvariants
  import opened Provenance
  import opened PortableEmission
  import opened PortableAcceptance
  import opened PortableRelocation
  import opened PortableAnchors
  import opened PortableMaterialize
  import opened PortableTheorems
  import opened PortableTranscript
  import opened NativeRelocation

  /** A conversation event without an envelope makes the history portable. */
  predicate HasPortable(events: seq<CanonicalEvent>) {
    exists e :: e in events && IsConversation(e) && !HasEnvelope(e)
  }

  /** Packed chunks, or an envelope of one of the native conversation and control types. */
  predicate IsNativeArtifact(e: CanonicalEvent) {
    e.kind != Other && (e.raw.Packed? || (e.raw.Envelope? && !e.raw.kind.Extension?))
  }

  predicate EnvelopeReads(e: CanonicalEvent) {
    e.kind != Other && e.raw.Envelope? && e.raw.provenance.Some? ==> Decodes(e.raw.provenance.value, e.sequence)
  }

  ghost predicate PortableProjection(events: seq<CanonicalEvent>, createdAt: int) {
    && HasPortable(events)
    && (forall e :: e in events ==> !IsNativeArtifact(e) && EnvelopeReads(e))
    && Compilable(events, createdAt)
  }

  ghost predicate NativeProjection(events: seq<CanonicalEvent>, createdAt: int) {
    !HasPortable(events) && NativeCompilable(events, createdAt)
  }

  method ScanPortable(events: seq<CanonicalEvent>) returns (r: Result<bool>)
    ensures r.Ok? ==> r.value == HasPortable(events)
    ensures r.Err? ==> exists e :: e in events && !EnvelopeReads(e)
  {
    for i := 0 to |events|
      invariant forall k :: 0 <= k < i ==> !(IsConversation(events[k]) && !HasEnvelope(events[k]))
    {
      var event := events[i];
      assert event in events;
      if IsConversation(event) {
        if event.raw.Envelope? && event.raw.provenance.Some? {
          var decoded := DecodeSourceEventSeqs(event.raw.provenance.value, event.sequence);
          if decoded.Err? {
            return Err(decoded.fault);
          }
        }
        if !HasEnvelope(event) {
          return Ok(true);
        }
      }
    }
    return Ok(false);
  }

  method RefuseArtifacts(events: seq<CanonicalEvent>) returns (r: Result<()>)
    ensures r.Ok? <==> forall e :: e in events ==> !IsNativeArtifact(e) && EnvelopeReads(e)
  {
    for i := 0 to |events|
      invariant forall k :: 0 <= k < i ==> !IsNativeArtifact(events[k]) && EnvelopeReads(events[k])
    {
      var event := events[i];
      assert event in events;
      if event.kind != Other {
        if event.raw.Packed? {
          return Err("cannot mix portable topology with native envelopes");
        }
        if event.raw.Envelope? {
          if event.raw.provenance.Some? {
            var decoded := DecodeSourceEventSeqs(event.raw.provenance.value, event.sequence);
            if decoded.Err? {
              return Err(decoded.fault);
            }
          }
          if !event.raw.kind.Extension? {
            return Err("cannot mix portable topology with native envelopes");
          }
        }
      }
    }
    return Ok(());
  }

  method MaterializeEvents(events: seq<CanonicalEvent>, createdAt: int)
      returns (r: Result<(seq<Row>, map<string, string>)>)
    ensures r.Ok? <==> PortableProjection(events, createdAt) || NativeProjection(events, createdAt)
    ensures r.Ok? && HasPortable(events) ==>
              && r.value.0 == Rows(Stream(PlanFor(events, createdAt)))
              && r.value.1 == PushAll(events, Ok(EMPTY_SINK), Pushes(PlanFor(events, createdAt))).value.aliases
    ensures r.Ok? && !HasPortable(events) ==> r.value == (NativeRows(Drafts(events, createdAt)), map[])
  {
    var portable := ScanPortable(events);
    if portable.Err? {
      assert !PortableProjection(events, createdAt);
      assert !NativeProjection(events, createdAt) by {
        var e :| e in events && !EnvelopeReads(e);
        assert !ReadableNative(e);
      }
      return Err(portable.fault);
    }
    if !portable.value {
      var rows :- MaterializeNativeEnvelopeEvents(events, createdAt);
      return Ok((rows, map[]));
    }
    var _ :- RefuseArtifacts(events);
    r := MaterializePortable(events, createdAt);
  }

  lemma ProjectionGuarded(events: seq<CanonicalEvent>, createdAt: int)
    requires PortableProjection(events, createdAt)
    ensures Guarded(events)
  {
  }

  /**
   * A portable projection passes the session checker exactly when every correlated call precedes its result, and
   * whatever the checker says it keeps the conversation.
   */
  lemma PortableProjectionCorrect(events: seq<CanonicalEvent>, createdAt: int)
    requires PortableProjection(events, createdAt)
    ensures Accepted(Rows(Stream(PlanFor(events, createdAt)))) <==> CallsPrecedeResults(events)
    ensures Transcript(Rows(Stream(PlanFor(events, createdAt)))) == CanonicalTranscript(events)
  {
    ProjectionGuarded(events, createdAt);
    PortableOutputAccepted(events, createdAt);
    TranscriptPreserved(events, createdAt);
  }
}
