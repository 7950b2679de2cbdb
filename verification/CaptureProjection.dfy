/** Capture and projection end to end, and the agreement of capture on decoded rows with capture on JSON rows. */
module CaptureProjection {
  import opened Outcomes
  import opened Sequences
  import opened Canonical
  import opened SessionInvariants
  import opened NativeRelocation
  import opened NativeRoundTrip
  import opened Materialize
  import opened RuntimeArtifact
  import PortableCapture
  import Json = ExactJson

  // ----- a captured history is projected natively

  /** Captured rows keep their envelopes or are held out, so that nothing among them asks for a portable projection. */
  lemma CapturedIsNative(rows: seq<Row>, idOf: int -> string)
    ensures !HasPortable(Captured(rows, idOf))
  {
    forall e | e in Captured(rows, idOf)
      ensures !IsConversation(e) || HasEnvelope(e)
    {
      var i :| 0 <= i < |rows| && Captured(rows, idOf)[i] == e;
      assert e == Capture(idOf)(rows[i]);
    }
  }

  /**
   * What the entry point does with a captured dense history: it returns exactly when all provenance is readable, with
   * the restored rows.
   */
  lemma CapturedProjects(rows: seq<Row>, createdAt: int, idOf: int -> string)
    requires Dense(rows)
    ensures var events := Captured(rows, idOf);
            && (PortableProjection(events, createdAt) || NativeProjection(events, createdAt) <==>
                  forall row :: row in rows ==> WellSourced(rows, row))
            && !HasPortable(events)
    ensures (forall row :: row in rows ==> WellSourced(rows, row)) ==>
              var projected := NativeRows(Drafts(Captured(rows, idOf), createdAt));
              && |projected| == |rows| && (forall i :: 0 <= i < |rows| ==> projected[i] == Restored(createdAt, rows[i]))
              && (Accepted(projected) <==> Accepted(rows))
  {
    hide Captured, NativeCompilable, WellSourced, Restored, Accepted, NativeRows, Drafts, HasPortable;
    CapturedIsNative(rows, idOf);
    CapturedCompilable(rows, createdAt, idOf);
    if forall row :: row in rows ==> WellSourced(rows, row) {
      NativeRoundTrip.NativeRoundTrip(rows, createdAt, idOf);
      AcceptanceCarriesOver(rows, createdAt, idOf);
    }
  }

  // ----- decoded rows and JSON rows

  function TypeName(kind: RowType): string {
    match kind
    case TurnStart => "turn/start"
    case TurnEnd => "turn/end"
    case StepStart => "step/start"
    case StepEnd => "step/end"
    case UserMessageRow => "user/message"
    case AssistantChunk => "assistant/chunk"
    case AssistantMessageRow => "assistant/message"
    case ToolCallRow => "tool/call"
    case ToolResultRow => "tool/result"
    case RequestHeader => "request/header"
    case RequestContext => "request/context"
    case EndSeed => "session/end-seed"
    case Extension(name) => name
  }

  const NATIVE_NAMES: seq<string> := PortableCapture.CORE + PortableCapture.CONTROL + ["assistant/chunk"]

  /** A string whose characters are single UTF-16 units. */
  predicate IsPlain(s: string) {
    forall i :: 0 <= i < |s| ==> s[i] as int < 0x10000
  }

  /** An extension type is written in single units and is none of the native types. */
  predicate WellNamed(kind: RowType) {
    kind.Extension? ==> IsPlain(kind.name) && forall k :: 0 <= k < |NATIVE_NAMES| ==> kind.name != NATIVE_NAMES[k]
  }

  lemma UnitsApart(s: string, t: string)
    requires IsPlain(s) && IsPlain(t) && Units(s) == Units(t)
    ensures s == t
  {
    assert |Units(s)| == |Units(t)|;
    forall i | 0 <= i < |s|
      ensures s[i] == t[i]
    {
      assert Units(s)[i] == s[i] as int && Units(t)[i] == t[i] as int;
    }
  }

  lemma UnitsOfPart(s: string, i: nat, j: nat)
    requires i <= j <= |s|
    ensures Units(s)[i..j] == Units(s[i..j])
  {
  }

  lemma UnitsContain(s: string, part: string)
    requires IsPlain(s) && IsPlain(part)
    ensures Contains(Units(s), Units(part)) <==> Contains(s, part)
  {
    forall i | 0 <= i <= |s|
      ensures OccursAt(Units(s), Units(part), i) <==> OccursAt(s, part, i)
    {
      if i + |part| <= |s| {
        UnitsOfPart(s, i, i + |part|);
        if Units(s[i..i + |part|]) == Units(part) {
          UnitsApart(s[i..i + |part|], part);
        }
      }
    }
    if Contains(s, part) {
      var i :| 0 <= i <= |s| && OccursAt(s, part, i);
      assert OccursAt(Units(s), Units(part), i);
    }
    if Contains(Units(s), Units(part)) {
      var i :| 0 <= i <= |Units(s)| && OccursAt(Units(s), Units(part), i);
      assert OccursAt(s, part, i);
    }
  }

  lemma NamesAlike(s: string, t: string)
    requires IsPlain(s) && IsPlain(t)
    ensures Units(s) == Units(t) <==> s == t
  {
    if Units(s) == Units(t) {
      UnitsApart(s, t);
    }
  }

  lemma AmongNames(s: string, names: seq<string>)
    requires IsPlain(s) && forall k :: 0 <= k < |names| ==> IsPlain(names[k])
    ensures PortableCapture.Among(Units(s), names) <==> s in names
  {
    forall k | 0 <= k < |names|
      ensures Units(s) == Units(names[k]) <==> s == names[k]
    {
      NamesAlike(s, names[k]);
    }
  }

  function KindName(kind: EventKind): string {
    match kind
    case UserMessage => "user-message"
    case Reasoning => "reasoning"
    case AssistantMessage => "assistant-message"
    case ToolCall => "tool-call"
    case ToolResult => "tool-result"
    case Other => "other"
    case Metadata(name) => name
  }

  ghost predicate SameKind(kind: RowType) {
    var identity := PortableCapture.IdentityOf(Units(TypeName(kind)));
    match KindOf(kind)
    case None => identity.None?
    case Some(k) => identity.Some? && identity.value.0 == KindName(k)
  }

  /** The names the two models test a type against. */
  lemma TestsAgree(name: string)
    requires IsPlain(name)
    ensures PortableCapture.Among(Units(name), PortableCapture.CONTROL) <==> name in PortableCapture.CONTROL
    ensures PortableCapture.Among(Units(name), NATIVE_METADATA) <==> name in NATIVE_METADATA
    ensures PortableCapture.Named(Units(name), "maintenance/other") <==> name == "maintenance/other"
    ensures PortableCapture.Named(Units(name), "assistant/chunk") <==> name == "assistant/chunk"
  {
    hide PortableCapture.Among, Units;
    PlainControls();
    PlainMetadata();
    AmongNames(name, PortableCapture.CONTROL);
    AmongNames(name, NATIVE_METADATA);
    NamesAlike(name, "maintenance/other");
    NamesAlike(name, "assistant/chunk");
  }

  lemma PlainControls()
    ensures forall k :: 0 <= k < |PortableCapture.CONTROL| ==> IsPlain(PortableCapture.CONTROL[k])
  {
  }

  lemma PlainMetadata()
    ensures forall k :: 0 <= k < |NATIVE_METADATA| ==> IsPlain(NATIVE_METADATA[k])
  {
  }

  lemma CoreTestsAgree(name: string)
    requires IsPlain(name)
    ensures PortableCapture.Named(Units(name), "user/message") <==> name == "user/message"
    ensures PortableCapture.Named(Units(name), "assistant/message") <==> name == "assistant/message"
    ensures PortableCapture.Named(Units(name), "tool/call") <==> name == "tool/call"
    ensures PortableCapture.Named(Units(name), "tool/result") <==> name == "tool/result"
  {
    NamesAlike(name, "user/message");
    NamesAlike(name, "assistant/message");
    NamesAlike(name, "tool/call");
    NamesAlike(name, "tool/result");
  }

  lemma PartTestsAgree(name: string)
    requires IsPlain(name)
    ensures Contains(Units(name), Units("annotation")) <==> Contains(name, "annotation")
    ensures Contains(Units(name), Units("sticker")) <==> Contains(name, "sticker")
    ensures Contains(Units(name), Units("obsidian")) <==> Contains(name, "obsidian")
    ensures Contains(Units(name), Units("reference")) <==> Contains(name, "reference")
  {
    UnitsContain(name, "annotation");
    UnitsContain(name, "sticker");
    UnitsContain(name, "obsidian");
    UnitsContain(name, "reference");
  }

  lemma ExtensionKinds(name: string)
    requires WellNamed(Extension(name))
    ensures SameKind(Extension(name))
  {
    hide Contains, Units, PortableCapture.Among, PortableCapture.Named;
    TestsAgree(name);
    CoreTestsAgree(name);
    PartTestsAgree(name);
    NativeNames(name);
  }

  lemma NativeNames(name: string)
    requires WellNamed(Extension(name))
    ensures name !in PortableCapture.CONTROL && name !in PortableCapture.CORE && name != "assistant/chunk"
  {
    forall k | 0 <= k < |NATIVE_NAMES|
      ensures name != NATIVE_NAMES[k]
    {
    }
    assert forall other :: other in NATIVE_NAMES ==> name != other;
    assert forall other :: other in PortableCapture.CONTROL ==> other in NATIVE_NAMES;
    assert forall other :: other in PortableCapture.CORE ==> other in NATIVE_NAMES;
    assert "assistant/chunk" in NATIVE_NAMES;
  }

  lemma NativeTests(kind: RowType)
    requires !kind.Extension?
    ensures var t := Units(TypeName(kind));
            && !PortableCapture.Among(t, NATIVE_METADATA) && !PortableCapture.Named(t, "maintenance/other")
            && (PortableCapture.Among(t, PortableCapture.CONTROL) <==>
                  kind in {TurnStart, TurnEnd, StepStart, StepEnd, RequestHeader, RequestContext, EndSeed})
            && (PortableCapture.Named(t, "user/message") <==> kind == UserMessageRow)
            && (PortableCapture.Named(t, "assistant/message") <==> kind == AssistantMessageRow)
            && (PortableCapture.Named(t, "tool/call") <==> kind == ToolCallRow)
            && (PortableCapture.Named(t, "tool/result") <==> kind == ToolResultRow)
            && (PortableCapture.Named(t, "assistant/chunk") <==> kind == AssistantChunk)
  {
    hide Units, PortableCapture.Among, PortableCapture.Named, TypeName;
    NativeNameIsPlain(kind);
    TestsAgree(TypeName(kind));
    CoreTestsAgree(TypeName(kind));
    NotMetadata(kind);
  }

  lemma NativeNameIsPlain(kind: RowType)
    requires !kind.Extension?
    ensures IsPlain(TypeName(kind))
  {
  }

  lemma NativeKinds(kind: RowType)
    requires !kind.Extension?
    ensures SameKind(kind)
  {
    hide Contains, Units, PortableCapture.Among, PortableCapture.Named, TypeName;
    NativeTests(kind);
  }

  lemma NotMetadata(kind: RowType)
    requires !kind.Extension?
    ensures TypeName(kind) !in NATIVE_METADATA && TypeName(kind) != "maintenance/other"
    ensures TypeName(kind) in PortableCapture.CONTROL <==>
              kind in {TurnStart, TurnEnd, StepStart, StepEnd, RequestHeader, RequestContext, EndSeed}
    ensures (TypeName(kind) == "user/message" <==> kind == UserMessageRow)
            && (TypeName(kind) == "assistant/message" <==> kind == AssistantMessageRow)
    ensures (TypeName(kind) == "tool/call" <==> kind == ToolCallRow)
            && (TypeName(kind) == "tool/result" <==> kind == ToolResultRow)
    ensures TypeName(kind) == "assistant/chunk" <==> kind == AssistantChunk
  {
  }

  /** The JSON value of a decoded row, as far as capture reads it. */
  predicate Writes(v: Json.Json, row: Row) {
    && PortableCapture.IsNativeEvent(v)
    && PortableCapture.TypeOf(v) == Units(TypeName(row.kind)) && PortableCapture.SeqOf(v) == row.seqNumber
  }

  /** The envelope holds everything of the row but its sequence, which is the event's. */
  predicate HoldsRow(raw: RawPayload, row: Row) {
    && raw.Envelope? && raw.kind == row.kind && raw.time == row.time && raw.data == row.data
    && raw.ignorable == row.ignorable && raw.surface == row.surface
    && raw.provenance == match row.sourceSeqs
                         case Some(seqs) => Some(Map(seqs, AsSingle))
                         case None => None
  }

  /**
   * Native capture of a row and of its JSON value give one event each, with the same identity, sequence and kind.
   * Either both hold the row out, without an envelope, or the one stores the row and the other the value, both whole.
   */
  lemma CapturesCorrespond(keeper: PortableCapture.Keeper, v: Json.Json, row: Row)
    requires Writes(v, row) && WellNamed(row.kind)
    ensures var captured, written := Capture(keeper.idOf)(row),
            PortableCapture.CaptureOne(keeper, PortableCapture.Native, v);
            && |written| == 1
            && written[0].id == captured.id && written[0].sequence == captured.sequence
            && written[0].kind == KindName(captured.kind)
            && (written[0].heldOut <==> HeldOut(row))
            && (if HeldOut(row) then written[0].raw.None? && captured.raw.NoRaw?
                else written[0].raw == Some(v) && HoldsRow(captured.raw, row))
            && (!HeldOut(row) ==> written[0].content == PortableCapture.DataOf(v))
            && !written[0].topology && captured.topology.None?
  {
    hide PortableCapture.IdentityOf, PortableCapture.IsNativeEvent, PortableCapture.CoreContent,
        PortableCapture.UnsupportedContent, Units, TypeName, KindOf;
    if row.kind.Extension? {
      ExtensionKinds(row.kind.name);
      assert TypeName(row.kind) == row.kind.name by {
        ExtensionName(row.kind.name);
      }
    } else {
      NativeKinds(row.kind);
    }
    assert SameKind(row.kind);
  }

  lemma ExtensionName(name: string)
    ensures TypeName(Extension(name)) == name
  {
  }
}
