/** Stored provenance: single sequences and inclusive ranges, decoded to the sequences they stand for. */
module Provenance {
  import opened Outcomes
  import opened Sequences
  import opened Canonical

  function Span(start: int, end: int): (r: seq<int>)
    requires start <= end + 1
    ensures |r| == end - start + 1
    ensures forall i :: 0 <= i < |r| ==> r[i] == start + i
  {
    seq(end - start + 1, i => start + i)
  }

  /** An entry is readable after `count` decoded sequences of an event with the given sequence. */
  predicate Readable(entry: SeqEntry, count: nat, eventSeq: int) {
    match entry
    case Single(value) => 0 <= value && count < eventSeq
    case Range(start, end) => 0 <= start <= end && end - start + 1 <= eventSeq - count
    case BadEntry => false
  }

  function Expand(entry: SeqEntry): seq<int> {
    match entry
    case Single(value) => [value]
    case Range(start, end) => if start <= end then Span(start, end) else []
    case BadEntry => []
  }

  function ExpandAll(): SeqEntry -> seq<int> {
    (entry: SeqEntry) => Expand(entry)
  }

  predicate StrictlyIncreasing(s: seq<int>) {
    forall i, j :: 0 <= i < j < |s| ==> s[i] < s[j]
  }

  predicate AllReadable(entries: seq<SeqEntry>, eventSeq: int) {
    entries == [] || (
      var init := entries[..|entries| - 1];
      AllReadable(init, eventSeq) && Readable(Last(entries), |FlatMap(init, ExpandAll())|, eventSeq))
  }

  predicate HasRange(entries: seq<SeqEntry>) {
    exists i :: 0 <= i < |entries| && entries[i].Range?
  }

  /** Provenance decodes when every entry is readable and, once a range is used, the whole is strictly increasing. */
  predicate Decodes(entries: seq<SeqEntry>, eventSeq: int) {
    AllReadable(entries, eventSeq) && (HasRange(entries) ==> StrictlyIncreasing(FlatMap(entries, ExpandAll())))
  }

  function Decode(entries: seq<SeqEntry>, eventSeq: int): Result<seq<int>> {
    if Decodes(entries, eventSeq) then Ok(FlatMap(entries, ExpandAll())) else Err("sourceEventSeqs is invalid")
  }

  lemma {:induction false} DecodedNonNegative(entries: seq<SeqEntry>, eventSeq: int)
    requires AllReadable(entries, eventSeq)
    ensures forall x :: x in FlatMap(entries, ExpandAll()) ==> 0 <= x
  {
    if entries != [] {
      DecodedNonNegative(entries[..|entries| - 1], eventSeq);
    }
  }

  lemma {:induction false} PrefixReadable(entries: seq<SeqEntry>, eventSeq: int, i: nat)
    requires i <= |entries| && AllReadable(entries, eventSeq)
    ensures AllReadable(entries[..i], eventSeq)
  {
    if i < |entries| {
      PrefixReadable(entries[..|entries| - 1], eventSeq, i);
      assert entries[..|entries| - 1][..i] == entries[..i];
    } else {
      assert entries[..i] == entries;
    }
  }

  lemma ReadOneMore(entries: seq<SeqEntry>, eventSeq: int, i: nat)
    requires i < |entries|
    ensures AllReadable(entries[..i + 1], eventSeq)
            <==> AllReadable(entries[..i], eventSeq)
                  && Readable(entries[i], |FlatMap(entries[..i], ExpandAll())|, eventSeq)
    ensures FlatMap(entries[..i + 1], ExpandAll()) == FlatMap(entries[..i], ExpandAll()) + Expand(entries[i])
    ensures HasRange(entries[..i + 1]) <==> HasRange(entries[..i]) || entries[i].Range?
  {
    var prefix := entries[..i + 1];
    assert prefix[..i] == entries[..i] && Last(prefix) == entries[i];
    assert forall k :: 0 <= k < i ==> prefix[k] == entries[..i][k];
  }

  method AppendRange(prefix: seq<int>, start: int, end: int) returns (decoded: seq<int>)
    requires start <= end
    ensures decoded == prefix + Span(start, end)
  {
    decoded := prefix;
    var sequence := start;
    while sequence <= end
      invariant start <= sequence <= end + 1
      invariant decoded == prefix + Span(start, sequence - 1)
    {
      decoded := decoded + [sequence];
      assert Span(start, sequence) == Span(start, sequence - 1) + [sequence];
      sequence := sequence + 1;
    }
  }

  method IsIncreasing(decoded: seq<int>) returns (r: bool)
    ensures r == StrictlyIncreasing(decoded)
  {
    var index := 1;
    while index < |decoded|
      invariant 1 <= index
      invariant forall i, j :: 0 <= i < j < index && j < |decoded| ==> decoded[i] < decoded[j]
    {
      if decoded[index] <= decoded[index - 1] {
        return false;
      }
      index := index + 1;
    }
    return true;
  }

  method DecodeSourceEventSeqs(entries: seq<SeqEntry>, eventSeq: int) returns (r: Result<seq<int>>)
    ensures r.Ok? <==> Decode(entries, eventSeq).Ok?
    ensures r.Ok? ==> r == Decode(entries, eventSeq)
  {
    var decoded: seq<int> := [];
    var hasRange := false;
    for i := 0 to |entries|
      invariant decoded == FlatMap(entries[..i], ExpandAll())
      invariant hasRange <==> HasRange(entries[..i])
      invariant AllReadable(entries[..i], eventSeq)
    {
      var entry := entries[i];
      ReadOneMore(entries, eventSeq, i);
      if !Readable(entry, |decoded|, eventSeq) {
        if AllReadable(entries, eventSeq) {
          PrefixReadable(entries, eventSeq, i + 1);
        }
        return Err("sourceEventSeqs contains an invalid entry");
      }
      if entry.Range? {
        decoded := AppendRange(decoded, entry.start, entry.end);
        hasRange := true;
      } else {
        decoded := decoded + [entry.value];
      }
    }
    assert entries[..|entries|] == entries;
    var increasing := IsIncreasing(decoded);
    if hasRange && !increasing {
      return Err("sourceEventSeqs ranges must be strictly increasing");
    }
    return Ok(decoded);
  }
}
