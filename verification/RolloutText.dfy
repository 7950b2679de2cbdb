/** What the text of a rollout holds: the parser over the whole text returns exactly the envelopes of its lines. */
module RolloutText {
  import opened Outcomes
  import opened Sequences
  import opened Lines
  import opened CodexParser
  import opened ArtifactContent

  /** The text of a line; a carriage return at its end does not belong to it. */
  ghost predicate IsTextOfLine(line: seq<Byte>, text: seq<Byte>) {
    (line == text + [13]) || (line == text && (text == [] || text[|text| - 1] != 13))
  }

  /** Lines without text say nothing; every other line is the text of the next envelope. */
  ghost predicate LinesHold<E>(parse: seq<Byte> -> Option<E>, lines: seq<seq<Byte>>, envelopes: seq<E>)
    decreases |lines|, 1
  {
    if lines == [] then envelopes == []
    else
      exists text: seq<Byte> :: IsTextOfLine(Last(lines), text) && LastHolds(parse, lines, text, envelopes)
  }

  ghost predicate LastHolds<E>(parse: seq<Byte> -> Option<E>, lines: seq<seq<Byte>>, text: seq<Byte>, envelopes: seq<E>)
    requires lines != []
    decreases |lines|, 0
  {
    if text == [] then LinesHold(parse, lines[..|lines| - 1], envelopes)
    else
      && |text| <= 16 * 1024 * 1024 && envelopes != [] && parse(text) == Some(Last(envelopes))
      && LinesHold(parse, lines[..|lines| - 1], envelopes[..|envelopes| - 1])
  }

  /** The rollout is within its limits, and its lines hold these envelopes. */
  ghost predicate HoldsEnvelopes<E>(parse: seq<Byte> -> Option<E>, raw: seq<Byte>, envelopes: seq<E>) {
    && |raw| <= 512 * 1024 * 1024
    && exists lines, rest ::
         HasLines(raw, lines, rest) && |lines| < 1000000 && LinesHold(parse, lines + [rest], envelopes)
  }

  lemma TextOfLine(line: seq<Byte>, text: seq<Byte>)
    ensures IsTextOfLine(line, text) <==> StripReturn(line) == text
  {
    if line != [] && Last(line) == CR {
      assert line == line[..|line| - 1] + [13];
      if line == text + [13] {
        assert line[..|line| - 1] == text;
      }
    }
  }

  lemma {:induction false} EnvelopesExactly<E>(parse: seq<Byte> -> Option<E>, lines: seq<seq<Byte>>, envelopes: seq<E>)
    ensures Envelopes(parse, lines) == Ok(envelopes) <==> LinesHold(parse, lines, envelopes)
  {
    hide StripReturn, IsTextOfLine;
    if lines != [] {
      var init, text := lines[..|lines| - 1], StripReturn(Last(lines));
      forall other: seq<Byte>
        ensures IsTextOfLine(Last(lines), other) <==> other == text
      {
        TextOfLine(Last(lines), other);
      }
      EnvelopesExactly(parse, init, envelopes);
      if envelopes != [] {
        EnvelopesExactly(parse, init, envelopes[..|envelopes| - 1]);
        assert envelopes == envelopes[..|envelopes| - 1] + [Last(envelopes)];
      }
      LastExactly(parse, lines, text, envelopes);
    }
  }

  lemma LastExactly<E>(parse: seq<Byte> -> Option<E>, lines: seq<seq<Byte>>, text: seq<Byte>, envelopes: seq<E>)
    requires lines != [] && text == StripReturn(Last(lines))
    requires Envelopes(parse, lines[..|lines| - 1]) == Ok(envelopes)
             <==> LinesHold(parse, lines[..|lines| - 1], envelopes)
    requires envelopes != [] ==>
               (Envelopes(parse, lines[..|lines| - 1]) == Ok(envelopes[..|envelopes| - 1])
                <==> LinesHold(parse, lines[..|lines| - 1], envelopes[..|envelopes| - 1]))
    ensures Envelopes(parse, lines) == Ok(envelopes) <==> LastHolds(parse, lines, text, envelopes)
  {
    hide StripReturn, LinesHold;
    var before := Envelopes(parse, lines[..|lines| - 1]);
    if before.Ok? {
      assert before.value + [] == before.value;
      if envelopes != [] && parse(text).Some? {
        assert before.value + [parse(text).value] == envelopes
            <==> before.value == envelopes[..|envelopes| - 1] && parse(text).value == Last(envelopes);
      }
    }
  }

  /** The parser over the whole text returns envelopes exactly if the text holds them. */
  lemma WholeExactly<E>(parse: seq<Byte> -> Option<E>, raw: seq<Byte>, envelopes: seq<E>)
    ensures Whole(parse, raw) == Ok(envelopes) <==> HoldsEnvelopes(parse, raw, envelopes)
  {
    hide Envelopes, LinesHold, HasLines, SplitLines;
    var split := SplitLines(raw);
    SplitHasLines(raw);
    EnvelopesExactly(parse, split.lines + [split.carry], envelopes);
    if lines, rest :| HasLines(raw, lines, rest) && |lines| < 1000000 && LinesHold(parse, lines + [rest], envelopes) {
      SplitIs(raw, lines, rest);
    }
  }

  lemma SplitIs(raw: seq<Byte>, lines: seq<seq<Byte>>, rest: seq<Byte>)
    requires HasLines(raw, lines, rest)
    ensures SplitLines(raw) == Split(lines, rest)
  {
    LinesAreSplit(lines, rest);
  }
}
