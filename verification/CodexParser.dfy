/** The two parsers of a Codex rollout: one over the whole text, one over whatever chunks the stream delivers. */
module CodexParser {
  import opened Outcomes
  import opened Sequences
  import opened Lines

  const MAX_ROLLOUT_BYTES := 512 * 1024 * 1024
  const MAX_LINE_BYTES := 16 * 1024 * 1024
  const MAX_LINES := 1000000
  const CR: Byte := 13

  function StripReturn(line: seq<Byte>): seq<Byte> {
    if line != [] && Last(line) == CR then line[..|line| - 1] else line
  }

  /** One line: nothing when it is blank, else the envelope that `parse` makes of it, under the line limit. */
  function ParseLine<E>(parse: seq<Byte> -> Option<E>, line: seq<Byte>): Result<Option<E>> {
    var bytes := StripReturn(line);
    if bytes == [] then Ok(None)
    else if |bytes| > MAX_LINE_BYTES then Err("Codex JSONL line exceeds the line limit")
    else
      match parse(bytes)
      case None => Err("Malformed Codex envelope")
      case Some(e) => Ok(Some(e))
  }

  function AsSequence<E>(e: Option<E>): seq<E> {
    if e.Some? then [e.value] else []
  }

  function Envelopes<E>(parse: seq<Byte> -> Option<E>, lines: seq<seq<Byte>>): Result<seq<E>> {
    if lines == [] then Ok([])
    else
      match Envelopes(parse, lines[..|lines| - 1])
      case Err(fault) => Err(fault)
      case Ok(before) =>
        match ParseLine(parse, Last(lines))
        case Err(fault) => Err(fault)
        case Ok(e) => Ok(before + AsSequence(e))
  }

  function Concat(chunks: seq<seq<Byte>>): seq<Byte> {
    if chunks == [] then [] else Concat(chunks[..|chunks| - 1]) + Last(chunks)
  }

  /** The raw lines, carriage returns included; what follows the last newline counts as a line. */
  function RawLines(raw: seq<Byte>): seq<seq<Byte>> {
    SplitLines(raw).lines + [SplitLines(raw).carry]
  }

  // ----- what each parser computes

  /** The parser over the whole text. */
  function Whole<E>(parse: seq<Byte> -> Option<E>, raw: seq<Byte>): Result<seq<E>> {
    if |raw| > MAX_ROLLOUT_BYTES || |RawLines(raw)| > MAX_LINES then Err("CONTENT_TOO_LARGE")
    else Envelopes(parse, RawLines(raw))
  }

  /** The lines the stream counts: a last line without a newline counts only if it is not empty. */
  function StreamLines(raw: seq<Byte>): nat {
    |SplitLines(raw).lines| + if SplitLines(raw).carry == [] then 0 else 1
  }

  /** Whatever is carried over from chunk to chunk stays within the line limit. */
  predicate CarriesFit(chunks: seq<seq<Byte>>) {
    chunks == [] || (CarriesFit(chunks[..|chunks| - 1]) && |SplitLines(Concat(chunks)).carry| <= MAX_LINE_BYTES)
  }

  datatype Parsed<E> = Parsed(envelopes: seq<E>, bytesRead: nat, digest: string)

  /** The parser over the stream. */
  function Stream<E>(parse: seq<Byte> -> Option<E>, hash: seq<Byte> -> string,
      chunks: seq<seq<Byte>>): Result<Parsed<E>> {
    var raw := Concat(chunks);
    if |raw| > MAX_ROLLOUT_BYTES || StreamLines(raw) > MAX_LINES || !CarriesFit(chunks) then Err("CONTENT_TOO_LARGE")
    else
      match Envelopes(parse, RawLines(raw))
      case Err(fault) => Err(fault)
      case Ok(envelopes) => Ok(Parsed(envelopes, |raw|, hash(raw)))
  }

  // ----- the loops of the source

  method ParseCodexJsonl<E>(parse: seq<Byte> -> Option<E>, bytes: seq<Byte>) returns (r: Result<seq<E>>)
    ensures r.Ok? <==> Whole(parse, bytes).Ok?
    ensures r.Ok? ==> r == Whole(parse, bytes)
  {
    if |bytes| > MAX_ROLLOUT_BYTES {
      return Err("CONTENT_TOO_LARGE");
    }
    var lines := RawLines(bytes);
    if |lines| > MAX_LINES {
      return Err("CONTENT_TOO_LARGE");
    }
    var envelopes: seq<E> := [];
    for index := 0 to |lines|
      invariant Envelopes(parse, lines[..index]) == Ok(envelopes)
    {
      EnvelopesMore(parse, lines[..index], lines[index]);
      assert lines[..index + 1] == lines[..index] + [lines[index]];
      var parsed := ParseLine(parse, lines[index]);
      if parsed.Err? {
        EnvelopesFail(parse, lines, index + 1);
        return Err(parsed.fault);
      }
      envelopes := envelopes + AsSequence(parsed.value);
    }
    assert lines[..|lines|] == lines;
    return Ok(envelopes);
  }

  lemma EnvelopesMore<E>(parse: seq<Byte> -> Option<E>, lines: seq<seq<Byte>>, line: seq<Byte>)
    ensures Envelopes(parse, lines + [line]) ==
              match Envelopes(parse, lines)
              case Err(fault) => Err(fault)
              case Ok(before) =>
                match ParseLine(parse, line)
                case Err(fault) => Err(fault)
                case Ok(e) => Ok(before + AsSequence(e))
  {
    assert (lines + [line])[..|lines|] == lines;
  }

  lemma {:induction false} EnvelopesFail<E>(parse: seq<Byte> -> Option<E>, lines: seq<seq<Byte>>, n: nat)
    requires n <= |lines| && Envelopes(parse, lines[..n]).Err?
    ensures Envelopes(parse, lines).Err?
  {
    if n < |lines| {
      assert lines[..|lines| - 1][..n] == lines[..n];
      EnvelopesFail(parse, lines[..|lines| - 1], n);
    } else {
      assert lines[..n] == lines;
    }
  }

  /** Splitting goes on from what was carried. */
  lemma {:induction false} SplitOn(a: seq<Byte>, b: seq<Byte>)
    ensures NEWLINE !in SplitLines(a).carry
    ensures SplitLines(a + b)
            == Split(SplitLines(a).lines + SplitLines(SplitLines(a).carry + b).lines,
            SplitLines(SplitLines(a).carry + b).carry)
    decreases |b|, |a|
  {
    var carry := SplitLines(a).carry;
    if b == [] {
      CarryPlain(a);
      assert a + b == a && carry + b == carry;
      PlainSplit(carry);
      assert SplitLines(a).lines + [] == SplitLines(a).lines;
    } else {
      SplitOn(a, b[..|b| - 1]);
      assert (a + b)[..|a + b| - 1] == a + b[..|b| - 1] && Last(a + b) == Last(b);
      assert (carry + b)[..|carry + b| - 1] == carry + b[..|b| - 1] && Last(carry + b) == Last(b);
      var inner := SplitLines(carry + b[..|b| - 1]);
      assert SplitLines(a).lines + (inner.lines + [inner.carry]) == SplitLines(a).lines + inner.lines + [inner.carry];
    }
  }

  lemma {:induction false} CarryPlain(a: seq<Byte>)
    ensures NEWLINE !in SplitLines(a).carry
  {
    if a != [] {
      CarryPlain(a[..|a| - 1]);
    }
  }

  lemma PlainSplit(b: seq<Byte>)
    requires NEWLINE !in b
    ensures SplitLines(b) == Split([], b)
  {
    assert b[0..|b|] == b && b[..|b|] == b && b[..0] == [];
    SplitPlain(b, 0, |b|);
    assert [] + b == b;
  }

  lemma NothingSplit(b: seq<Byte>)
    ensures SplitLines(b[..0]) == Split([], [])
  {
  }

  datatype Progress<E> = Progress(envelopes: seq<E>, lineNumber: nat)

  /** The lines completed in one buffer. */
  method ParseBuffer<E>(parse: seq<Byte> -> Option<E>, before: Progress<E>, buffer: seq<Byte>,
      ghost done: seq<seq<Byte>>) returns (r: Result<(Progress<E>, seq<Byte>)>)
    requires Envelopes(parse, done) == Ok(before.envelopes) && |done| == before.lineNumber <= MAX_LINES
    ensures var lines := done + SplitLines(buffer).lines;
            && (r.Ok? <==> |lines| <= MAX_LINES && Envelopes(parse, lines).Ok?)
            && (r.Ok? ==> Envelopes(parse, lines) == Ok(r.value.0.envelopes) && r.value.0.lineNumber == |lines|
                           && r.value.1 == SplitLines(buffer).carry)
  {
    hide ParseLine, Envelopes, SplitLines;
    var envelopes, lineNumber := before.envelopes, before.lineNumber;
    ghost var lines := SplitLines(buffer).lines;
    ghost var seen: seq<seq<Byte>> := [];
    var start := 0;
    var newline := IndexOf(buffer, start);
    assert done + [] == done;
    NothingSplit(buffer);
    while newline != -1
      invariant 0 <= start <= |buffer|
      invariant SplitLines(buffer[..start]) == Split(seen, []) && seen <= lines
      invariant Envelopes(parse, done + seen) == Ok(envelopes) && |done + seen| == lineNumber <= MAX_LINES
      invariant newline == -1 ==> NEWLINE !in buffer[start..]
      invariant newline != -1
              ==> start <= newline < |buffer| && buffer[newline] == NEWLINE && NEWLINE !in buffer[start..newline]
      decreases |buffer| - start
    {
      var line := buffer[start..newline];
      SplitLine(buffer, start, newline);
      LinesGrow(buffer, newline + 1);
      EnvelopesMore(parse, done + seen, line);
      assert done + seen + [line] == done + (seen + [line]);
      ghost var all := done + lines;
      assert all[..|done| + |seen| + 1] == done + (seen + [line]);
      lineNumber := lineNumber + 1;
      if lineNumber > MAX_LINES {
        return Err("CONTENT_TOO_LARGE");
      }
      var parsed := ParseLine(parse, line);
      if parsed.Err? {
        EnvelopesFail(parse, all, |done| + |seen| + 1);
        return Err(parsed.fault);
      }
      envelopes := envelopes + AsSequence(parsed.value);
      seen := seen + [line];
      start := newline + 1;
      newline := IndexOf(buffer, start);
    }
    assert buffer[start..|buffer|] == buffer[start..] && buffer[..|buffer|] == buffer;
    SplitPlain(buffer, start, |buffer|);
    assert [] + buffer[start..] == buffer[start..];
    return Ok((Progress(envelopes, lineNumber), buffer[start..]));
  }

  lemma {:induction false} ConcatGrows(chunks: seq<seq<Byte>>, k: nat)
    requires k <= |chunks|
    ensures Concat(chunks[..k]) <= Concat(chunks)
    ensures CarriesFit(chunks) ==> CarriesFit(chunks[..k])
  {
    if k < |chunks| {
      ConcatGrows(chunks[..|chunks| - 1], k);
      assert chunks[..|chunks| - 1][..k] == chunks[..k];
    } else {
      assert chunks[..k] == chunks;
    }
  }

  /** What a prefix of the chunks has been refused for refuses all of them. */
  lemma StreamFails<E>(parse: seq<Byte> -> Option<E>, hash: seq<Byte> -> string, chunks: seq<seq<Byte>>, k: nat)
    requires k <= |chunks|
    requires var raw := Concat(chunks[..k]);
             || |raw| > MAX_ROLLOUT_BYTES || |SplitLines(raw).lines| > MAX_LINES
                || Envelopes(parse, SplitLines(raw).lines).Err? || !CarriesFit(chunks[..k])
    ensures Stream(parse, hash, chunks).Err?
  {
    hide SplitLines, Envelopes, CarriesFit;
    var raw, part := Concat(chunks), Concat(chunks[..k]);
    ConcatGrows(chunks, k);
    LinesGrow(raw, |part|);
    assert raw[..|part|] == part;
    var lines := SplitLines(part).lines;
    assert RawLines(raw)[..|lines|] == lines;
    if Envelopes(parse, lines).Err? {
      EnvelopesFail(parse, RawLines(raw), |lines|);
    }
  }

  ghost predicate Reached<E>(parse: seq<Byte> -> Option<E>, raw: seq<Byte>, p: Progress<E>, carry: seq<Byte>,
      bytesRead: nat) {
    && bytesRead == |raw| <= MAX_ROLLOUT_BYTES && carry == SplitLines(raw).carry
    && Envelopes(parse, SplitLines(raw).lines) == Ok(p.envelopes)
       && p.lineNumber == |SplitLines(raw).lines| <= MAX_LINES
  }

  lemma ReachedNothing<E>(parse: seq<Byte> -> Option<E>)
    ensures Reached(parse, [], Progress([], 0), [], 0)
  {
  }

  method ParseCodexJsonlChunks<E>(parse: seq<Byte> -> Option<E>, hash: seq<Byte> -> string, chunks: seq<seq<Byte>>)
      returns (r: Result<Parsed<E>>)
    ensures r.Ok? <==> Stream(parse, hash, chunks).Ok?
    ensures r.Ok? ==> r == Stream(parse, hash, chunks)
  {
    hide SplitLines, Envelopes, ParseLine;
    var progress: Progress<E> := Progress([], 0);
    var carry: seq<Byte> := [];
    var bytesRead: nat := 0;
    var hashed: seq<Byte> := [];
    ReachedNothing(parse);
    for k := 0 to |chunks|
      invariant Reached(parse, Concat(chunks[..k]), progress, carry, bytesRead)
      invariant hashed == Concat(chunks[..k]) && CarriesFit(chunks[..k])
    {
      ghost var before := Concat(chunks[..k]);
      assert chunks[..k + 1][..k] == chunks[..k] && Last(chunks[..k + 1]) == chunks[k];
      assert Concat(chunks[..k + 1]) == before + chunks[k];
      SplitOn(before, chunks[k]);
      bytesRead := bytesRead + |chunks[k]|;
      if bytesRead > MAX_ROLLOUT_BYTES {
        StreamFails(parse, hash, chunks, k + 1);
        return Err("CONTENT_TOO_LARGE");
      }
      hashed := hashed + chunks[k];
      var parsed := ParseBuffer(parse, progress, carry + chunks[k], SplitLines(before).lines);
      if parsed.Err? {
        StreamFails(parse, hash, chunks, k + 1);
        return Err(parsed.fault);
      }
      progress, carry := parsed.value.0, parsed.value.1;
      if |carry| > MAX_LINE_BYTES {
        StreamFails(parse, hash, chunks, k + 1);
        return Err("CONTENT_TOO_LARGE");
      }
    }
    assert chunks[..|chunks|] == chunks;
    ghost var raw := Concat(chunks);
    EnvelopesMore(parse, SplitLines(raw).lines, carry);
    if |carry| > 0 {
      if progress.lineNumber + 1 > MAX_LINES {
        return Err("CONTENT_TOO_LARGE");
      }
      var last :- ParseLine(parse, carry);
      progress := Progress(progress.envelopes + AsSequence(last), progress.lineNumber + 1);
    } else {
      BlankLine(parse);
    }
    return Ok(Parsed(progress.envelopes, bytesRead, hash(hashed)));
  }

  lemma BlankLine<E>(parse: seq<Byte> -> Option<E>)
    ensures ParseLine(parse, []) == Ok(None)
    ensures forall before: seq<E> :: before + AsSequence(None) == before
  {
  }

  // ----- how the two agree

  /**
   * The whole text is refused for its number of lines although the stream is not: a last, empty line counts for it
   * alone.
   */
  predicate OneLineTooMany(raw: seq<Byte>) {
    |SplitLines(raw).lines| == MAX_LINES && SplitLines(raw).carry == []
  }

  /**
   * Exactly when the two parsers agree: whatever the chunks, they return the same envelopes or both refuse, unless the
   * stream carries over more than a line may hold, or the text ends right after the last line it may have.
   */
  lemma StreamAgreesWithWhole<E>(parse: seq<Byte> -> Option<E>, hash: seq<Byte> -> string, chunks: seq<seq<Byte>>)
    ensures var raw := Concat(chunks);
            && (Stream(parse, hash, chunks).Ok? && Whole(parse, raw).Ok? ==>
                  Stream(parse, hash, chunks).value == Parsed(Whole(parse, raw).value, |raw|, hash(raw)))
            && (Whole(parse, raw).Ok? ==> (Stream(parse, hash, chunks).Ok? <==> CarriesFit(chunks)))
            && (Stream(parse, hash, chunks).Ok? ==> (Whole(parse, raw).Ok? <==> !OneLineTooMany(raw)))
  {
  }

  predicate RawLinesFit(raw: seq<Byte>) {
    forall k :: 0 <= k < |RawLines(raw)| ==> |RawLines(raw)[k]| <= MAX_LINE_BYTES
  }

  /** What is carried at any point is the beginning of a raw line. */
  lemma {:induction false} CarryInLine(raw: seq<Byte>, n: nat)
    requires n <= |raw|
    ensures |SplitLines(raw[..n]).lines| < |RawLines(raw)|
    ensures SplitLines(raw[..n]).carry <= RawLines(raw)[|SplitLines(raw[..n]).lines|]
  {
    if n < |raw| {
      var init := raw[..|raw| - 1];
      CarryInLine(init, n);
      assert init[..n] == raw[..n];
    } else {
      assert raw[..n] == raw;
    }
  }

  lemma {:induction false} FittingLinesFitCarries(chunks: seq<seq<Byte>>, raw: seq<Byte>)
    requires Concat(chunks) <= raw && RawLinesFit(raw)
    ensures CarriesFit(chunks)
  {
    if chunks != [] {
      CarryInLine(raw, |Concat(chunks)|);
      assert raw[..|Concat(chunks)|] == Concat(chunks);
      FittingLinesFitCarries(chunks[..|chunks| - 1], raw);
    }
  }

  /** Chunking is irrelevant when no raw line, carriage return included, exceeds the line limit. */
  lemma ChunkingIrrelevant<E>(parse: seq<Byte> -> Option<E>, hash: seq<Byte> -> string, chunks: seq<seq<Byte>>,
      others: seq<seq<Byte>>)
    requires Concat(chunks) == Concat(others) && RawLinesFit(Concat(chunks))
    ensures Stream(parse, hash, chunks) == Stream(parse, hash, others)
    ensures !OneLineTooMany(Concat(chunks)) ==>
              (Stream(parse, hash, chunks).Ok? <==> Whole(parse, Concat(chunks)).Ok?)
              && (Stream(parse, hash, chunks).Ok? ==>
                    Stream(parse, hash, chunks).value
                    == Parsed(Whole(parse, Concat(chunks)).value, |Concat(chunks)|, hash(Concat(chunks))))
  {
    FittingLinesFitCarries(chunks, Concat(chunks));
    FittingLinesFitCarries(others, Concat(chunks));
    StreamAgreesWithWhole(parse, hash, chunks);
  }

  lemma SplitReturned(body: seq<Byte>)
    requires NEWLINE !in body
    ensures SplitLines(body + [CR]) == Split([], body + [CR])
    ensures SplitLines(body + [CR] + [NEWLINE]) == Split([body + [CR]], [])
  {
    PlainSplit(body + [CR]);
    assert (body + [CR] + [NEWLINE])[..|body| + 1] == body + [CR];
    assert [] + [body + [CR]] == [body + [CR]];
  }

  lemma OneChunk(chunk: seq<Byte>)
    ensures Concat([chunk]) == chunk
    ensures CarriesFit([chunk]) <==> |SplitLines(chunk).carry| <= MAX_LINE_BYTES
  {
    assert [chunk][..0] == [] && [] + chunk == chunk;
    assert CarriesFit([]);
  }

  lemma TwoChunks(a: seq<Byte>, b: seq<Byte>)
    ensures Concat([a, b]) == a + b
    ensures CarriesFit([a, b])
            <==> |SplitLines(a).carry| <= MAX_LINE_BYTES && |SplitLines(a + b).carry| <= MAX_LINE_BYTES
  {
    OneChunk(a);
    assert [a, b][..1] == [a];
  }

  /**
   * At the line limit chunking does matter: a line of exactly the permitted length that ends in a carriage return is
   * accepted when its newline arrives with it and refused when it arrives in the next chunk.
   */
  lemma ChunkingMattersAtTheLimit<E>(parse: seq<Byte> -> Option<E>, hash: seq<Byte> -> string, body: seq<Byte>)
    requires |body| == MAX_LINE_BYTES && NEWLINE !in body && parse(body).Some?
    ensures Stream(parse, hash, [body + [CR] + [NEWLINE]]).Ok?
    ensures Stream(parse, hash, [body + [CR], [NEWLINE]]).Err?
    ensures Whole(parse, body + [CR] + [NEWLINE]).Ok?
  {
    var raw := body + [CR] + [NEWLINE];
    SplitReturned(body);
    OneChunk(raw);
    TwoChunks(body + [CR], [NEWLINE]);
    OneEnvelope(parse, body);
    assert RawLines(raw) == [body + [CR], []];
  }

  lemma OneEnvelope<E>(parse: seq<Byte> -> Option<E>, body: seq<Byte>)
    requires 0 < |body| <= MAX_LINE_BYTES && parse(body).Some?
    ensures Envelopes(parse, [body + [CR], []]).Ok?
  {
    assert StripReturn(body + [CR]) == body;
    var first: seq<seq<Byte>> := [body + [CR]];
    assert [body + [CR], []] == first + [[]];
    EnvelopesMore(parse, [], body + [CR]);
    EnvelopesMore(parse, first, []);
    assert [] + [body + [CR]] == first;
  }
}
