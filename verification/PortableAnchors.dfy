/** Message identities and anchor aliases recorded while pushing, and the resolution of anchors against the rows. */
module PortableAnchors {
  import opened Outcomes
  import opened Text
  import opened Sequences
  import opened Canonical
  import opened PortableEmission
  import opened PortableOrder

  /** What the pushes accumulate: drafts, message identities and anchor aliases. */
  datatype Sink = Sink(drafts: seq<Draft>, messageIds: set<string>, aliases: map<string, string>)

  const EMPTY_SINK := Sink([], {}, map[])

  /** A row that appends a message to the transcript. */
  predicate IsMessageRow(row: Row) {
    row.surface == Append
        && (row.kind == UserMessageRow || row.kind == AssistantMessageRow || row.kind == ToolResultRow)
  }

  function MessageId(row: Row): Option<string> {
    match row.data.message
    case Some(message) => message.id
    case None => None
  }

  function EventAt(events: seq<CanonicalEvent>, sequence: int): (r: Option<CanonicalEvent>)
    ensures r.Some? ==> r.value in events && r.value.sequence == sequence
    ensures r.None? ==> forall e :: e in events ==> e.sequence != sequence
  {
    if events == [] then None
    else if Last(events).sequence == sequence then Some(Last(events))
    else EventAt(events[..|events| - 1], sequence)
  }

  /** The anchors under which an event is known: its identifier and, if any, its historical message identifier. */
  function AnchorsOf(e: CanonicalEvent): seq<string> {
    var historical := NonEmptyString(e.content.message.id);
    [e.id] + if historical.Some? then [historical.value] else []
  }

  function OriginAnchors(events: seq<CanonicalEvent>): int -> seq<string> {
    (sequence: int) =>
      match EventAt(events, sequence)
      case Some(e) => AnchorsOf(e)
      case None => []
  }

  /** The anchors that lead to the message of an emission. */
  function AnchorsTo(events: seq<CanonicalEvent>, x: Emission): seq<string> {
    [OrElse(MessageId(x.row), "")] + FlatMap(x.origins, OriginAnchors(events))
  }

  function AddAnchors(aliases: map<string, string>, anchors: seq<string>, target: string): Result<map<string, string>> {
    if anchors == [] then Ok(aliases)
    else
      match AddAnchors(aliases, anchors[..|anchors| - 1], target)
      case Err(fault) => Err(fault)
      case Ok(table) =>
        var anchor := Last(anchors);
        if anchor in table && table[anchor] != target then Err("ambiguous message anchor")
        else Ok(table[anchor := target])
  }

  /** One push: messages need an unused identity, and every anchor may lead to one message only. */
  function Push(events: seq<CanonicalEvent>, sink: Sink, x: Emission): Result<Sink> {
    var drafts := sink.drafts + [Draft(x, |sink.drafts|)];
    if !IsMessageRow(x.row) then Ok(sink.(drafts := drafts))
    else
      match NonEmptyString(MessageId(x.row))
      case None => Err("empty message ID")
      case Some(id) =>
        if id in sink.messageIds then Err("repeated message ID")
        else
          match AddAnchors(sink.aliases, AnchorsTo(events, x), id)
          case Err(fault) => Err(fault)
          case Ok(aliases) => Ok(Sink(drafts, sink.messageIds + {id}, aliases))
  }

  function PushAll(events: seq<CanonicalEvent>, sink: Result<Sink>, xs: seq<Emission>): Result<Sink> {
    if xs == [] then sink
    else
      match PushAll(events, sink, xs[..|xs| - 1])
      case Err(fault) => Err(fault)
      case Ok(before) => Push(events, before, Last(xs))
  }

  lemma {:induction false} PushAllConcat(events: seq<CanonicalEvent>, sink: Result<Sink>, a: seq<Emission>,
      b: seq<Emission>)
    ensures PushAll(events, sink, a + b) == PushAll(events, PushAll(events, sink, a), b)
  {
    if b == [] {
      assert a + b == a;
    } else {
      assert (a + b)[..|a + b| - 1] == a + b[..|b| - 1];
      PushAllConcat(events, sink, a, b[..|b| - 1]);
    }
  }

  lemma {:induction false} PushFailed(events: seq<CanonicalEvent>, sink: Result<Sink>, xs: seq<Emission>)
    requires sink.Err?
    ensures PushAll(events, sink, xs) == sink
  {
    if xs != [] {
      PushFailed(events, sink, xs[..|xs| - 1]);
    }
  }

  // ----- what a completed sequence of pushes guarantees

  lemma {:induction false} AnchorsAdded(aliases: map<string, string>, anchors: seq<string>, target: string)
    requires AddAnchors(aliases, anchors, target).Ok?
    ensures var table := AddAnchors(aliases, anchors, target).value;
            && (forall a :: a in table <==> a in aliases || a in anchors)
            && (forall a :: a in aliases ==> table[a] == aliases[a])
            && (forall a :: a in anchors ==> table[a] == target)
  {
    if anchors != [] {
      AnchorsAdded(aliases, anchors[..|anchors| - 1], target);
      assert anchors == anchors[..|anchors| - 1] + [Last(anchors)];
    }
  }

  function IdOf(x: Emission): string {
    OrElse(MessageId(x.row), "")
  }

  /** Aliases after the pushes: exactly the anchors of the messages pushed, each leading to its message. */
  ghost predicate Anchored(events: seq<CanonicalEvent>, xs: seq<Emission>, aliases: map<string, string>) {
    && (forall a :: a in aliases ==> exists x :: x in xs && IsMessageRow(x.row) && a in AnchorsTo(events, x))
    && (forall x, a :: x in xs && IsMessageRow(x.row) && a in AnchorsTo(events, x)
         ==> a in aliases && aliases[a] == IdOf(x))
  }

  ghost predicate DistinctMessages(xs: seq<Emission>) {
    && (forall x :: x in xs && IsMessageRow(x.row) ==> MessageId(x.row).Some? && NonBlank(IdOf(x)))
    && (forall i, j :: 0 <= i < j < |xs| && IsMessageRow(xs[i].row) && IsMessageRow(xs[j].row)
         ==> IdOf(xs[i]) != IdOf(xs[j]))
  }

  lemma {:induction false} PushedDrafts(events: seq<CanonicalEvent>, xs: seq<Emission>)
    requires PushAll(events, Ok(EMPTY_SINK), xs).Ok?
    ensures PushAll(events, Ok(EMPTY_SINK), xs).value.drafts == Numbering(xs)
  {
    if xs != [] {
      PushedDrafts(events, xs[..|xs| - 1]);
    }
  }

  lemma {:induction false} PushedMessages(events: seq<CanonicalEvent>, xs: seq<Emission>)
    requires PushAll(events, Ok(EMPTY_SINK), xs).Ok?
    ensures DistinctMessages(xs)
    ensures forall id :: id in PushAll(events, Ok(EMPTY_SINK), xs).value.messageIds
              <==> exists x :: x in xs && IsMessageRow(x.row) && IdOf(x) == id
  {
    if xs != [] {
      var init, last := xs[..|xs| - 1], Last(xs);
      PushedMessages(events, init);
      assert forall x :: x in xs <==> x in init || x == last;
      forall i, j | 0 <= i < j < |xs| && IsMessageRow(xs[i].row) && IsMessageRow(xs[j].row)
        ensures IdOf(xs[i]) != IdOf(xs[j])
      {
        assert xs[i] in init;
        if j < |xs| - 1 {
          assert init[i] == xs[i] && init[j] == xs[j];
        }
      }
    }
  }

  lemma AnchoredGrows(events: seq<CanonicalEvent>, xs: seq<Emission>, x: Emission, before: map<string, string>,
      after: map<string, string>)
    requires Anchored(events, xs, before)
    requires forall a :: a in after <==> a in before || (IsMessageRow(x.row) && a in AnchorsTo(events, x))
    requires forall a :: a in before ==> after[a] == before[a]
    requires forall a :: IsMessageRow(x.row) && a in AnchorsTo(events, x) ==> after[a] == IdOf(x)
    ensures Anchored(events, xs + [x], after)
  {
    hide AnchorsTo, IsMessageRow, IdOf;
    forall a | a in after
      ensures exists y :: y in xs + [x] && IsMessageRow(y.row) && a in AnchorsTo(events, y)
    {
      if a in before {
        var y :| y in xs && IsMessageRow(y.row) && a in AnchorsTo(events, y);
        assert y in xs + [x];
      } else {
        assert x in xs + [x];
      }
    }
    forall y, a | y in xs + [x] && IsMessageRow(y.row) && a in AnchorsTo(events, y)
      ensures a in after && after[a] == IdOf(y)
    {
      if y in xs {
        assert a in before;
      } else {
        assert y == x;
      }
    }
  }

  lemma {:induction false} PushedAnchors(events: seq<CanonicalEvent>, xs: seq<Emission>)
    requires PushAll(events, Ok(EMPTY_SINK), xs).Ok?
    ensures Anchored(events, xs, PushAll(events, Ok(EMPTY_SINK), xs).value.aliases)
  {
    if xs != [] {
      var init, last := xs[..|xs| - 1], Last(xs);
      PushedAnchors(events, init);
      assert xs == init + [last];
      var before := PushAll(events, Ok(EMPTY_SINK), init).value.aliases;
      var after := PushAll(events, Ok(EMPTY_SINK), xs).value.aliases;
      if IsMessageRow(last.row) {
        AnchorsAdded(before, AnchorsTo(events, last), IdOf(last));
      }
      AnchoredGrows(events, init, last, before, after);
    }
  }
}
