/** What an artifact holds: decoding succeeds exactly on bytes that are made up so, and returns what they hold. */
module ArtifactContent {
  import opened Outcomes
  import opened Sequences
  import opened Lines
  import opened ZstdFrames
  import opened RuntimeArtifact
  import Json = ExactJson

  ghost function Flat<T>(parts: seq<seq<T>>): seq<T> {
    if parts == [] then [] else Flat(parts[..|parts| - 1]) + Last(parts)
  }

  lemma FlatMore<T>(parts: seq<seq<T>>, part: seq<T>)
    ensures Flat(parts + [part]) == Flat(parts) + part
  {
    assert (parts + [part])[..|parts|] == parts;
  }

  // ----- frames

  /** The frame inflates, within what is left of the limit, to whole lines; the first to exactly one. */
  ghost predicate Inflates(host: Host, bytes: seq<Byte>, frame: Frame, before: seq<Byte>, output: seq<Byte>) {
    && 0 <= frame.start <= frame.end <= |bytes| && |before| <= 256 * 1024 * 1024
    && host.inflate(bytes[frame.start..frame.end], 256 * 1024 * 1024 - |before|) == Some(output)
    && |before| + |output| <= 256 * 1024 * 1024
    && output != [] && output[|output| - 1] == 10
    && (before == [] ==> forall i :: 0 <= i < |output| - 1 ==> output[i] != 10)
  }

  ghost predicate AllInflate(host: Host, bytes: seq<Byte>, frames: seq<Frame>, outputs: seq<seq<Byte>>) {
    && |outputs| == |frames|
    && forall k :: 0 <= k < |frames| ==> Inflates(host, bytes, frames[k], Flat(outputs[..k]), outputs[k])
  }

  lemma FrameExactly(host: Host, bytes: seq<Byte>, before: seq<Byte>, frame: Frame, after: seq<Byte>)
    requires frame.start <= frame.end <= |bytes| && |before| <= MAX_DECOMPRESSED_BYTES
    ensures InflateFrame(host, bytes, before, frame) == Ok(after)
            <==> exists output :: Inflates(host, bytes, frame, before, output) && after == before + output
  {
    var inflated := host.inflate(bytes[frame.start..frame.end], MAX_DECOMPRESSED_BYTES - |before|);
    if InflateFrame(host, bytes, before, frame) == Ok(after) {
      var output := inflated.value;
      forall i | 0 <= i < |output| - 1 && before == []
        ensures output[i] != 10
      {
        assert output[..|output| - 1][i] == output[i];
      }
      assert Inflates(host, bytes, frame, before, output);
    }
  }

  lemma {:induction false} FramesInflate(host: Host, bytes: seq<Byte>, frames: seq<Frame>)
      returns (outputs: seq<seq<Byte>>)
    requires FramesWithin(bytes, frames) && InflateAll(host, bytes, frames).Ok?
    ensures AllInflate(host, bytes, frames, outputs) && InflateAll(host, bytes, frames).value == Flat(outputs)
  {
    hide InflateFrame, Inflates, AllInflate;
    if frames == [] {
      outputs := [];
      NothingInflates(host, bytes);
    } else {
      var init, frame := frames[..|frames| - 1], Last(frames);
      assert frame in frames && forall f :: f in init ==> f in frames;
      var some := FramesInflate(host, bytes, init);
      FrameExactly(host, bytes, Flat(some), frame, InflateAll(host, bytes, frames).value);
      var output :| Inflates(host, bytes, frame, Flat(some), output)
          && InflateAll(host, bytes, frames).value == Flat(some) + output;
      outputs := some + [output];
      OneMoreInflates(host, bytes, init, some, frame, output);
      FlatMore(some, output);
      assert frames == init + [frame];
    }
  }

  lemma NothingInflates(host: Host, bytes: seq<Byte>)
    ensures AllInflate(host, bytes, [], [])
  {
  }

  lemma {:induction false} InflatedFrames(host: Host, bytes: seq<Byte>, frames: seq<Frame>, outputs: seq<seq<Byte>>)
    requires FramesWithin(bytes, frames) && AllInflate(host, bytes, frames, outputs)
    ensures InflateAll(host, bytes, frames) == Ok(Flat(outputs))
  {
    hide InflateFrame, Inflates, AllInflate;
    if frames == [] {
      assert outputs == [] by {
        SameLength(host, bytes, frames, outputs);
      }
    } else {
      var init, frame := frames[..|frames| - 1], Last(frames);
      assert frame in frames && forall f :: f in init ==> f in frames;
      SameLength(host, bytes, frames, outputs);
      var some, output := outputs[..|outputs| - 1], Last(outputs);
      FewerInflate(host, bytes, frames, outputs);
      InflatedFrames(host, bytes, init, some);
      FrameExactly(host, bytes, Flat(some), frame, Flat(outputs));
    }
  }

  lemma SameLength(host: Host, bytes: seq<Byte>, frames: seq<Frame>, outputs: seq<seq<Byte>>)
    requires AllInflate(host, bytes, frames, outputs)
    ensures |outputs| == |frames|
  {
  }

  lemma OneMoreInflates(host: Host, bytes: seq<Byte>, frames: seq<Frame>, outputs: seq<seq<Byte>>, frame: Frame,
      output: seq<Byte>)
    requires AllInflate(host, bytes, frames, outputs) && Inflates(host, bytes, frame, Flat(outputs), output)
    ensures AllInflate(host, bytes, frames + [frame], outputs + [output])
  {
    hide Inflates, Flat;
    var more, longer := frames + [frame], outputs + [output];
    forall k | 0 <= k < |more|
      ensures Inflates(host, bytes, more[k], Flat(longer[..k]), longer[k])
    {
      assert longer[..k] == outputs[..k];
      assert outputs[..|outputs|] == outputs;
    }
  }

  lemma FewerInflate(host: Host, bytes: seq<Byte>, frames: seq<Frame>, outputs: seq<seq<Byte>>)
    requires frames != [] && AllInflate(host, bytes, frames, outputs)
    ensures |outputs| == |frames|
    ensures AllInflate(host, bytes, frames[..|frames| - 1], outputs[..|outputs| - 1])
    ensures Inflates(host, bytes, Last(frames), Flat(outputs[..|outputs| - 1]), Last(outputs))
  {
    hide Inflates, Flat;
    var n := |frames| - 1;
    forall k | 0 <= k < n
      ensures Inflates(host, bytes, frames[..n][k], Flat(outputs[..n][..k]), outputs[..n][k])
    {
      assert outputs[..n][..k] == outputs[..k];
      assert Inflates(host, bytes, frames[k], Flat(outputs[..k]), outputs[k]);
    }
    assert Inflates(host, bytes, frames[n], Flat(outputs[..n]), outputs[n]);
  }

  /** The bytes hold this content: themselves, or what their frames inflate to. */
  ghost predicate HoldsContent(host: Host, bytes: seq<Byte>, compressed: bool, content: seq<Byte>) {
    if !compressed then content == bytes
    else
      && ScanFrames(bytes, 0).Ok? && ScanFrames(bytes, 0).value != []
      && exists outputs: seq<seq<Byte>> ::
           AllInflate(host, bytes, ScanFrames(bytes, 0).value, outputs) && content == Flat(outputs)
  }

  lemma ContentExactly(host: Host, bytes: seq<Byte>, compressed: bool, content: seq<Byte>)
    ensures Content(host, bytes, compressed) == Ok(content) <==> HoldsContent(host, bytes, compressed, content)
  {
    hide InflateAll, AllInflate, ScanFrames, Flat;
    if compressed && ScanFrames(bytes, 0).Ok? {
      ScannedEndToEnd(bytes, 0);
      var frames := ScanFrames(bytes, 0).value;
      if InflateAll(host, bytes, frames).Ok? {
        var outputs := FramesInflate(host, bytes, frames);
      }
      if outputs: seq<seq<Byte>> :| AllInflate(host, bytes, frames, outputs) && content == Flat(outputs) {
        InflatedFrames(host, bytes, frames, outputs);
      }
    }
  }

  // ----- lines

  /** The content is these lines, each ended by a newline, and a rest without any. */
  ghost predicate HasLines(content: seq<Byte>, lines: seq<seq<Byte>>, rest: seq<Byte>) {
    && content == Ended(lines) + rest && NEWLINE !in rest
    && forall k :: 0 <= k < |lines| ==> NEWLINE !in lines[k]
  }

  ghost function Ended(lines: seq<seq<Byte>>): seq<Byte> {
    if lines == [] then [] else Ended(lines[..|lines| - 1]) + Last(lines) + [10]
  }

  lemma {:induction false} SplitHasLines(content: seq<Byte>)
    ensures HasLines(content, SplitLines(content).lines, SplitLines(content).carry)
  {
    if content != [] {
      var init := content[..|content| - 1];
      SplitHasLines(init);
      var before := SplitLines(init);
      assert content == init + [Last(content)];
      if Last(content) == NEWLINE {
        var lines := before.lines + [before.carry];
        assert lines[..|lines| - 1] == before.lines;
        assert Ended(lines) == Ended(before.lines) + before.carry + [10];
        assert content == Ended(lines) + [];
        assert forall k :: 0 <= k < |before.lines| ==> lines[k] == before.lines[k];
      } else {
        assert content == Ended(before.lines) + (before.carry + [Last(content)]);
      }
    }
  }

  lemma {:induction false} LinesAreSplit(lines: seq<seq<Byte>>, rest: seq<Byte>)
    requires NEWLINE !in rest && forall k :: 0 <= k < |lines| ==> NEWLINE !in lines[k]
    ensures SplitLines(Ended(lines) + rest) == Split(lines, rest)
    decreases |lines|, |rest|
  {
    var content := Ended(lines) + rest;
    if rest != [] {
      var init := rest[..|rest| - 1];
      LinesAreSplit(lines, init);
      assert content[..|content| - 1] == Ended(lines) + init && Last(content) == Last(rest);
      assert Last(rest) in rest && init + [Last(rest)] == rest;
    } else if lines != [] {
      var some, last := lines[..|lines| - 1], Last(lines);
      assert forall k :: 0 <= k < |some| ==> some[k] == lines[k];
      LinesAreSplit(some, last);
      assert content[..|content| - 1] == Ended(some) + last && Last(content) == 10;
      assert some + [last] == lines;
    }
  }

  lemma LinesExactly(content: seq<Byte>, lines: seq<seq<Byte>>)
    ensures SplitLines(content).lines == lines <==> exists rest :: HasLines(content, lines, rest)
  {
    SplitHasLines(content);
    if SplitLines(content).lines == lines {
      assert HasLines(content, lines, SplitLines(content).carry);
    }
    if rest :| HasLines(content, lines, rest) {
      LinesAreSplit(lines, rest);
    }
  }

  // ----- rows

  /** The line is the text of a record that stands for these events. */
  ghost predicate HoldsEvents(host: Host, line: seq<Byte>, events: seq<Json.Json>) {
    line != [] && host.parse(line).Some? && DecodeStorageRecord(host.parse(line).value) == Ok(events)
  }

  ghost predicate AllHold(host: Host, lines: seq<seq<Byte>>, parts: seq<seq<Json.Json>>) {
    |parts| == |lines| && forall k :: 0 <= k < |lines| ==> HoldsEvents(host, lines[k], parts[k])
  }

  ghost predicate NumberedFromZero(events: seq<Json.Json>) {
    forall k :: 0 <= k < |events| ==> IsEventAt(events[k], k)
  }

  lemma {:induction false} RowsHold(host: Host, lines: seq<seq<Byte>>) returns (parts: seq<seq<Json.Json>>)
    requires EventsOf(host, lines).Ok?
    ensures AllHold(host, lines, parts) && EventsOf(host, lines).value == Flat(parts)
    ensures NumberedFromZero(Flat(parts))
  {
    hide DecodeStorageRecord, IsEventAt;
    if lines == [] {
      parts := [];
    } else {
      var init, line := lines[..|lines| - 1], Last(lines);
      var some := RowsHold(host, init);
      var more := LineEvents(host, line, |Flat(some)|).value;
      parts := some + [more];
      FlatMore(some, more);
      NumberedOn(Flat(some), more);
    }
  }

  lemma {:induction false} HeldRows(host: Host, lines: seq<seq<Byte>>, parts: seq<seq<Json.Json>>)
    requires AllHold(host, lines, parts) && NumberedFromZero(Flat(parts))
    ensures EventsOf(host, lines) == Ok(Flat(parts))
  {
    hide DecodeStorageRecord, IsEventAt;
    if lines != [] {
      var init, line := lines[..|lines| - 1], Last(lines);
      var some, more := parts[..|parts| - 1], Last(parts);
      assert AllHold(host, init, some) && HoldsEvents(host, line, more);
      NumberedOn(Flat(some), more);
      HeldRows(host, init, some);
    }
  }

  lemma RowsExactly(host: Host, lines: seq<seq<Byte>>, events: seq<Json.Json>)
    ensures EventsOf(host, lines) == Ok(events)
            <==> NumberedFromZero(events) && exists parts :: AllHold(host, lines, parts) && events == Flat(parts)
  {
    hide EventsOf, AllHold, NumberedFromZero;
    if EventsOf(host, lines).Ok? {
      var parts := RowsHold(host, lines);
    }
    if parts :| AllHold(host, lines, parts) && events == Flat(parts) {
      if NumberedFromZero(events) {
        HeldRows(host, lines, parts);
      }
    }
  }

  lemma NumberedOn(before: seq<Json.Json>, more: seq<Json.Json>)
    ensures NumberedFromZero(before + more) <==> NumberedFromZero(before) && EventsFollow(more, |before|)
  {
    hide IsEventAt;
    var all := before + more;
    if NumberedFromZero(all) {
      forall k | 0 <= k < |before|
        ensures IsEventAt(before[k], k)
      {
        assert all[k] == before[k];
      }
      forall k | 0 <= k < |more|
        ensures IsEventAt(more[k], |before| + k)
      {
        assert all[|before| + k] == more[k];
      }
    }
    if NumberedFromZero(before) && EventsFollow(more, |before|) {
      forall k | 0 <= k < |all|
        ensures IsEventAt(all[k], k)
      {
        if k >= |before| {
          assert IsEventAt(more[k - |before|], |before| + (k - |before|));
        }
      }
    }
  }

  // ----- the artifact

  /**
   * The artifact holds this header and these events: its content begins with complete lines, the first of them the
   * header, the others records that stand for the events, numbered from zero; all within the limits.
   */
  ghost predicate Holds(host: Host, bytes: seq<Byte>, compressed: bool, header: Json.Json, events: seq<Json.Json>) {
    && |bytes| <= 64 * 1024 * 1024
    && exists content, lines, rest ::
         HoldsContent(host, bytes, compressed, content) && HasLines(content, lines, rest)
         && HoldsRows(host, lines, header, events)
  }

  ghost predicate HoldsRows(host: Host, lines: seq<seq<Byte>>, header: Json.Json, events: seq<Json.Json>) {
    && 0 < |lines| <= 1000001 && (forall k :: 0 <= k < |lines| ==> |lines[k]| <= 8 * 1024 * 1024)
    && lines[0] != [] && host.parse(lines[0]) == Some(header) && IsStorageHeader(header)
    && NumberedFromZero(events) && exists parts :: AllHold(host, lines[1..], parts) && events == Flat(parts)
  }

  lemma LinesDecodeExactly(host: Host, lines: seq<seq<Byte>>, header: Json.Json, events: seq<Json.Json>)
    ensures DecodeLines(host, lines) == Ok(Decoded(header, events)) <==> HoldsRows(host, lines, header, events)
  {
    hide IsStorageHeader, EventsOf, NumberedFromZero, AllHold, Flat;
    if lines != [] {
      RowsExactly(host, lines[1..], events);
    }
  }

  /** Decoding returns a header and events exactly if the artifact holds them. */
  lemma ArtifactExactly(host: Host, bytes: seq<Byte>, compressed: bool, header: Json.Json, events: seq<Json.Json>)
    ensures DecodeArtifact(host, bytes, compressed) == Ok(Decoded(header, events))
            <==> Holds(host, bytes, compressed, header, events)
  {
    hide Content, DecodeLines, HoldsContent, HasLines, HoldsRows, SplitLines;
    if Content(host, bytes, compressed).Ok? {
      var content := Content(host, bytes, compressed).value;
      ContentExactly(host, bytes, compressed, content);
      LinesExactly(content, SplitLines(content).lines);
      LinesDecodeExactly(host, SplitLines(content).lines, header, events);
      var rest :| HasLines(content, SplitLines(content).lines, rest);
    }
    if Holds(host, bytes, compressed, header, events) {
      var content, lines, rest :| HoldsContent(host, bytes, compressed, content) && HasLines(content, lines, rest)
          && HoldsRows(host, lines, header, events);
      ContentExactly(host, bytes, compressed, content);
      LinesExactly(content, lines);
      LinesDecodeExactly(host, lines, header, events);
    }
  }
}
