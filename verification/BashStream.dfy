/** Streaming of a command's output: two readers interleave at awaits, share an order counter, and
    cut their buffers into published chunks. */
module BashStream {
  import opened Text

  const MAX_CONTENT: nat := 1048576

  /** No read returns more bytes, nor more decoded characters. */
  const READ_SIZE: nat := 8192

  datatype Event = Event(order: nat, isErr: bool, chunk: string)

  datatype Pc = Reading | Publishing | AtEnd

  /** `buffer` is the reader's own variable, `shared` the variable the final event reads,
      `text` everything read so far. */
  datatype Reader = Reader(buffer: string, shared: string, pc: Pc, text: string)

  datatype State = State(order: nat, out: Reader, err: Reader, events: seq<Event>)

  datatype Action = Data(isErr: bool, text: string) | Eof(isErr: bool) | Published(isErr: bool)

  const INIT := State(0, Reader("", "", Reading, ""), Reader("", "", Reading, ""), [])

  function Of(s: State, isErr: bool): Reader { if isErr then s.err else s.out }

  function With(s: State, isErr: bool, r: Reader): State { if isErr then s.(err := r) else s.(out := r) }

  /** The inner loop's test: cut a chunk and start publishing it, or go back to reading. */
  function CutOrRead(s: State, isErr: bool): State
  {
    var r := Of(s, isErr);
    if |r.buffer| > MAX_CONTENT then
      With(s, isErr, r.(buffer := r.buffer[MAX_CONTENT..], pc := Publishing)).(
        events := s.events + [Event(s.order, isErr, r.buffer[..MAX_CONTENT])])
    else With(s, isErr, r.(pc := Reading))
  }

  predicate Enabled(s: State, a: Action)
  {
    match a
    case Data(isErr, text) => Of(s, isErr).pc.Reading? && 0 < |text| <= READ_SIZE
    case Eof(isErr) => Of(s, isErr).pc.Reading?
    case Published(isErr) => Of(s, isErr).pc.Publishing?
  }

  function Step(s: State, a: Action): State
    requires Enabled(s, a)
  {
    match a
    case Data(isErr, text) =>
      var r := Of(s, isErr);
      CutOrRead(With(s, isErr, r.(buffer := r.buffer + text, shared := r.buffer + text, text := r.text + text)), isErr)
    case Eof(isErr) => With(s, isErr, Of(s, isErr).(pc := AtEnd))
    case Published(isErr) =>
      var r := Of(s, isErr);
      CutOrRead(With(s, isErr, r.(shared := r.buffer)).(order := s.order + 1), isErr)
  }

  function Run(steps: seq<Action>): Option<State>
  {
    if steps == [] then Some(INIT)
    else
      match Run(steps[..|steps| - 1])
      case None => None
      case Some(s) => if Enabled(s, steps[|steps| - 1]) then Some(Step(s, steps[|steps| - 1])) else None
  }

  // ---------- chunks ----------

  function Chunks(events: seq<Event>, isErr: bool): seq<string>
  {
    if events == [] then []
    else
      var e := events[|events| - 1];
      Chunks(events[..|events| - 1], isErr) + if e.isErr == isErr then [e.chunk] else []
  }

  function Concat(parts: seq<string>): string
  {
    if parts == [] then "" else parts[0] + Concat(parts[1..])
  }

  /** The chunks a text is cut into, and what remains. */
  function Pieces(text: string): (r: seq<string>)
  {
    if |text| <= MAX_CONTENT then [] else [text[..MAX_CONTENT]] + Pieces(text[MAX_CONTENT..])
  }

  function Rest(text: string): string
  {
    if |text| <= MAX_CONTENT then text else Rest(text[MAX_CONTENT..])
  }

  lemma ChunksAppend(events: seq<Event>, e: Event, isErr: bool)
    ensures Chunks(events + [e], isErr) == Chunks(events, isErr) + if e.isErr == isErr then [e.chunk] else []
  {
    assert (events + [e])[..|events|] == events;
  }

  lemma {:induction false} ConcatAppend(parts: seq<string>, last: string)
    ensures Concat(parts + [last]) == Concat(parts) + last
  {
    if parts == [] {
      assert [last][1..] == [];
    } else {
      assert (parts + [last])[1..] == parts[1..] + [last];
      ConcatAppend(parts[1..], last);
    }
  }

  /** Full chunks followed by a short, non-empty remainder are the cut of their concatenation. */
  lemma {:induction false} CutIsUnique(parts: seq<string>, rest: string)
    requires forall i :: 0 <= i < |parts| ==> |parts[i]| == MAX_CONTENT
    requires |rest| <= MAX_CONTENT && (parts != [] ==> rest != "")
    ensures Pieces(Concat(parts) + rest) == parts && Rest(Concat(parts) + rest) == rest
  {
    if parts == [] {
      assert Concat(parts) + rest == rest;
    } else {
      var tail := Concat(parts[1..]) + rest;
      var text := Concat(parts) + rest;
      CutIsUnique(parts[1..], rest);
      assert text == parts[0] + tail;
      assert text[..MAX_CONTENT] == parts[0] && text[MAX_CONTENT..] == tail;
      assert |tail| >= 1;
      assert [parts[0]] + parts[1..] == parts;
    }
  }

  // ---------- what every step keeps ----------

  /** A reader against the events published so far. */
  ghost predicate ReaderOk(s: State, isErr: bool)
  {
    var r, chunks := Of(s, isErr), Chunks(s.events, isErr);
    && r.text == Concat(chunks) + r.buffer
    && (chunks != [] ==> r.buffer != "")
    && (!r.pc.Publishing? ==> r.shared == r.buffer && |r.buffer| <= MAX_CONTENT)
    && (r.pc.Publishing? ==> chunks != [] && r.shared == chunks[|chunks| - 1] + r.buffer)
    && (forall i :: 0 <= i < |chunks| ==> |chunks[i]| == MAX_CONTENT)
  }

  /** Orders grow strictly within a stream; only an event still being published carries the current one. */
  ghost predicate OrdersOk(s: State, isErr: bool)
  {
    && (forall i, j :: 0 <= i < j < |s.events| && s.events[i].isErr == isErr && s.events[j].isErr == isErr ==>
          s.events[i].order < s.events[j].order)
    && (forall i :: 0 <= i < |s.events| && s.events[i].isErr == isErr ==>
          s.events[i].order <= s.order && (!Of(s, isErr).pc.Publishing? ==> s.events[i].order < s.order))
  }

  function Pending(s: State): nat { (if s.out.pc.Publishing? then 1 else 0) + if s.err.pc.Publishing? then 1 else 0 }

  ghost predicate Inv(s: State)
  {
    && ReaderOk(s, false) && ReaderOk(s, true)
    && OrdersOk(s, false) && OrdersOk(s, true)
    && s.order + Pending(s) == |s.events|
  }

  /** The state in the middle of a step, just before the inner loop's test for one stream. */
  ghost predicate BeforeTest(s: State, isErr: bool)
  {
    var r, chunks := Of(s, isErr), Chunks(s.events, isErr);
    && ReaderOk(s, !isErr) && OrdersOk(s, !isErr)
    && r.text == Concat(chunks) + r.buffer && r.shared == r.buffer && (chunks != [] ==> r.buffer != "")
    && (forall i :: 0 <= i < |chunks| ==> |chunks[i]| == MAX_CONTENT)
    && (forall i, j :: 0 <= i < j < |s.events| && s.events[i].isErr == isErr && s.events[j].isErr == isErr ==>
          s.events[i].order < s.events[j].order)
    && (forall i :: 0 <= i < |s.events| && s.events[i].isErr == isErr ==> s.events[i].order < s.order)
    && s.order + (if Of(s, !isErr).pc.Publishing? then 1 else 0) == |s.events|
  }

  lemma OtherChunksSame(s: State, isErr: bool)
    ensures Chunks(CutOrRead(s, isErr).events, !isErr) == Chunks(s.events, !isErr)
    ensures Of(CutOrRead(s, isErr), !isErr) == Of(s, !isErr)
  {
    var r := Of(s, isErr);
    if |r.buffer| > MAX_CONTENT {
      ChunksAppend(s.events, Event(s.order, isErr, r.buffer[..MAX_CONTENT]), !isErr);
      assert Chunks(s.events, !isErr) + [] == Chunks(s.events, !isErr);
    }
  }

  lemma OtherStreamOk(s: State, isErr: bool)
    requires BeforeTest(s, isErr)
    ensures ReaderOk(CutOrRead(s, isErr), !isErr)
  {
    hide Concat, Chunks, CutOrRead, OrdersOk;
    OtherChunksSame(s, isErr);
  }

  lemma OtherOrdersOk(s: State, isErr: bool)
    requires OrdersOk(s, !isErr)
    ensures OrdersOk(CutOrRead(s, isErr), !isErr)
  {
    OtherChunksSame(s, isErr);
    hide Chunks;
  }

  lemma OwnReaderOk(s: State, isErr: bool)
    requires BeforeTest(s, isErr)
    ensures ReaderOk(CutOrRead(s, isErr), isErr)
  {
    hide OrdersOk, Concat;
    var s' := CutOrRead(s, isErr);
    var r, chunks := Of(s, isErr), Chunks(s.events, isErr);
    if |r.buffer| > MAX_CONTENT {
      var chunk := r.buffer[..MAX_CONTENT];
      ChunksAppend(s.events, Event(s.order, isErr, chunk), isErr);
      ConcatAppend(chunks, chunk);
      assert chunk + r.buffer[MAX_CONTENT..] == r.buffer;
      assert Concat(chunks) + (chunk + r.buffer[MAX_CONTENT..]) == (Concat(chunks) + chunk) + r.buffer[MAX_CONTENT..];
    }
  }

  lemma OwnOrdersOk(s: State, isErr: bool)
    requires BeforeTest(s, isErr)
    ensures OrdersOk(CutOrRead(s, isErr), isErr)
  {
    hide ReaderOk, Chunks, Concat;
  }

  lemma TestKeeps(s: State, isErr: bool)
    requires BeforeTest(s, isErr)
    ensures Inv(CutOrRead(s, isErr))
  {
    OtherStreamOk(s, isErr);
    OtherOrdersOk(s, isErr);
    OwnReaderOk(s, isErr);
    OwnOrdersOk(s, isErr);
    hide ReaderOk, OrdersOk;
  }

  lemma DataReady(s: State, isErr: bool, text: string)
    requires Inv(s) && Enabled(s, Data(isErr, text))
    ensures var r := Of(s, isErr);
            BeforeTest(With(s, isErr, r.(buffer := r.buffer + text, shared := r.buffer + text,
                text := r.text + text)), isErr)
  {
    hide Chunks, Concat;
    var r := Of(s, isErr);
    var before := Concat(Chunks(s.events, isErr));
    assert before + (r.buffer + text) == (before + r.buffer) + text;
  }

  lemma PublishedReady(s: State, isErr: bool)
    requires Inv(s) && Enabled(s, Published(isErr))
    ensures BeforeTest(With(s, isErr, Of(s, isErr).(shared := Of(s, isErr).buffer)).(order := s.order + 1), isErr)
  {
    hide Chunks, Concat;
  }

  lemma StepKeeps(s: State, a: Action)
    requires Inv(s) && Enabled(s, a)
    ensures Inv(Step(s, a))
  {
    hide BeforeTest, CutOrRead;
    match a
    case Data(isErr, text) =>
      DataReady(s, isErr, text);
      var r := Of(s, isErr);
      TestKeeps(With(s, isErr, r.(buffer := r.buffer + text, shared := r.buffer + text, text := r.text + text)), isErr);
    case Eof(isErr) =>
    case Published(isErr) =>
      PublishedReady(s, isErr);
      TestKeeps(With(s, isErr, Of(s, isErr).(shared := Of(s, isErr).buffer)).(order := s.order + 1), isErr);
  }

  lemma {:induction false} RunKeeps(steps: seq<Action>)
    requires Run(steps).Some?
    ensures Inv(Run(steps).value)
  {
    hide Step, Enabled;
    if steps != [] {
      RunKeeps(steps[..|steps| - 1]);
      StepKeeps(Run(steps[..|steps| - 1]).value, steps[|steps| - 1]);
    }
  }

  // ---------- what a consumer sees ----------

  ghost predicate Finished(s: State) { s.out.pc.AtEnd? && s.err.pc.AtEnd? }

  /** The text a run reads from one stream. */
  function TextRead(steps: seq<Action>, isErr: bool): string
  {
    if steps == [] then ""
    else
      var a := steps[|steps| - 1];
      TextRead(steps[..|steps| - 1], isErr) + if a.Data? && a.isErr == isErr then a.text else ""
  }

  lemma StepReads(s: State, a: Action, isErr: bool)
    requires Enabled(s, a)
    ensures Of(Step(s, a), isErr).text == Of(s, isErr).text + if a.Data? && a.isErr == isErr then a.text else ""
  {
  }

  /** A reader holds exactly what the run read from its stream. */
  lemma {:induction false} RunReads(steps: seq<Action>, isErr: bool)
    requires Run(steps).Some?
    ensures Of(Run(steps).value, isErr).text == TextRead(steps, isErr)
  {
    hide Step, Enabled;
    if steps != [] {
      RunReads(steps[..|steps| - 1], isErr);
      StepReads(Run(steps[..|steps| - 1]).value, steps[|steps| - 1], isErr);
    }
  }

  /** In every interleaving that reaches the end of both streams, each stream's chunks and its final
      remainder are the cut of exactly the text read: the schedule and the read sizes leave no trace. */
  lemma OutputIsDetermined(steps: seq<Action>, isErr: bool)
    requires Run(steps).Some? && Finished(Run(steps).value)
    ensures var s := Run(steps).value;
            var chunks, rest := Chunks(s.events, isErr), Of(s, isErr).shared;
            && chunks == Pieces(TextRead(steps, isErr)) && rest == Rest(TextRead(steps, isErr))
            && Concat(chunks) + rest == TextRead(steps, isErr)
            && (forall i :: 0 <= i < |chunks| ==> |chunks[i]| == MAX_CONTENT) && |rest| <= MAX_CONTENT
  {
    hide Run, Chunks, Concat, Pieces, Rest, OrdersOk, TextRead;
    RunKeeps(steps);
    RunReads(steps, isErr);
    var s := Run(steps).value;
    CutIsUnique(Chunks(s.events, isErr), Of(s, isErr).buffer);
  }

  /** The order of the final event is the number of events before it and exceeds all of theirs. */
  lemma FinalOrderIsLast(steps: seq<Action>)
    requires Run(steps).Some? && Finished(Run(steps).value)
    ensures var s := Run(steps).value;
            s.order == |s.events| && forall i :: 0 <= i < |s.events| ==> s.events[i].order < s.order
  {
    hide Run, ReaderOk;
    RunKeeps(steps);
  }

  /** Within one stream orders strictly increase, so events that share an order come from different
      streams. */
  lemma OrdersIncrease(steps: seq<Action>, i: nat, j: nat)
    requires Run(steps).Some? && i < j < |Run(steps).value.events|
    requires Run(steps).value.events[i].isErr == Run(steps).value.events[j].isErr
    ensures Run(steps).value.events[i].order < Run(steps).value.events[j].order
  {
    hide Run, ReaderOk;
    RunKeeps(steps);
  }

  ghost predicate DistinctOrders(events: seq<Event>)
  {
    forall i, j :: 0 <= i < j < |events| ==> events[i].order != events[j].order
  }

  /** The step leaves more in its stream's buffer than one event may carry, so a chunk is cut. */
  predicate Cuts(s: State, a: Action)
  {
    match a
    case Data(isErr, text) => |Of(s, isErr).buffer| + |text| > MAX_CONTENT
    case Eof(_) => false
    case Published(isErr) => |Of(s, isErr).buffer| > MAX_CONTENT
  }

  /** A chunk of one stream is cut while the other stream is still publishing one. */
  predicate Overlaps(s: State, a: Action) { Cuts(s, a) && Of(s, !a.isErr).pc.Publishing? }

  predicate RunOverlaps(steps: seq<Action>)
  {
    steps != [] &&
    (RunOverlaps(steps[..|steps| - 1]) ||
     (Run(steps[..|steps| - 1]).Some? && Overlaps(Run(steps[..|steps| - 1]).value, steps[|steps| - 1])))
  }

  /** One publish at a time, and every event numbered by its place. */
  ghost predicate Sequential(s: State)
  {
    Pending(s) <= 1 && forall i :: 0 <= i < |s.events| ==> s.events[i].order == i
  }

  lemma StepEvents(s: State, a: Action)
    requires Enabled(s, a)
    ensures s.events <= Step(s, a).events
    ensures a.Data? && Cuts(s, a) ==>
              |Step(s, a).events| == |s.events| + 1 && Step(s, a).events[|s.events|].order == s.order
  {
  }

  /** From a sequential state a step stays sequential iff it does not overlap; if it does, the new
      event repeats the order of the last one. */
  lemma StepSequentialIff(s: State, a: Action)
    requires Inv(s) && Sequential(s) && Enabled(s, a)
    ensures !Overlaps(s, a) ==> Sequential(Step(s, a))
    ensures Overlaps(s, a) ==> !DistinctOrders(Step(s, a).events)
  {
    hide ReaderOk, OrdersOk;
    StepEvents(s, a);
    if Overlaps(s, a) {
      assert a.Data?;
      var events := Step(s, a).events;
      assert events[|s.events| - 1] == s.events[|s.events| - 1];
      assert events[|s.events| - 1].order == events[|s.events|].order;
    }
  }

  lemma {:induction false} RunSequentialIff(steps: seq<Action>)
    requires Run(steps).Some?
    ensures if RunOverlaps(steps) then !DistinctOrders(Run(steps).value.events) else Sequential(Run(steps).value)
  {
    hide Step, Enabled, Overlaps, Inv;
    if steps != [] {
      var before := steps[..|steps| - 1];
      var s, a := Run(before).value, steps[|steps| - 1];
      RunSequentialIff(before);
      RunKeeps(before);
      StepEvents(s, a);
      if RunOverlaps(before) {
        var i, j :| 0 <= i < j < |s.events| && s.events[i].order == s.events[j].order;
        assert Step(s, a).events[i] == s.events[i] && Step(s, a).events[j] == s.events[j];
      } else {
        StepSequentialIff(s, a);
      }
    }
  }

  /** Order numbers are distinct iff no chunk was cut while the other stream was publishing; they are
      then the events' places. */
  lemma OrdersDistinctIff(steps: seq<Action>)
    requires Run(steps).Some?
    ensures DistinctOrders(Run(steps).value.events) <==> !RunOverlaps(steps)
    ensures !RunOverlaps(steps) ==>
              forall i :: 0 <= i < |Run(steps).value.events| ==> Run(steps).value.events[i].order == i
  {
    hide Run, RunOverlaps;
    RunSequentialIff(steps);
  }

  /** `outs` reads of one stream followed by `errs` reads of the other, all of them the same text. */
  function Reads(outs: nat, errs: nat, text: string): seq<Action>
    decreases outs + errs
  {
    if errs > 0 then Reads(outs, errs - 1, text) + [Data(true, text)]
    else if outs > 0 then Reads(outs - 1, 0, text) + [Data(false, text)]
    else []
  }

  /** Both readers wait, with so many full reads in their buffers, and nothing has been published. */
  predicate Filled(s: State, outs: nat, errs: nat)
  {
    && s.order == 0 && s.events == [] && s.out.pc.Reading? && s.err.pc.Reading?
    && |s.out.buffer| == outs * READ_SIZE && |s.err.buffer| == errs * READ_SIZE
  }

  lemma OneMore(steps: seq<Action>, a: Action)
    requires Run(steps).Some? && Enabled(Run(steps).value, a)
    ensures Run(steps + [a]) == Some(Step(Run(steps).value, a))
  {
    assert (steps + [a])[..|steps|] == steps;
  }

  lemma FillStep(s: State, outs: nat, errs: nat, isErr: bool, text: string)
    requires |text| == READ_SIZE && Filled(s, outs, errs) && (if isErr then errs else outs) < 128
    ensures Enabled(s, Data(isErr, text))
    ensures Filled(Step(s, Data(isErr, text)), if isErr then outs else outs + 1, if isErr then errs + 1 else errs)
  {
  }

  lemma {:induction false} ReadsFill(outs: nat, errs: nat, text: string)
    requires |text| == READ_SIZE && outs <= 128 && errs <= 128
    ensures Run(Reads(outs, errs, text)).Some? && Filled(Run(Reads(outs, errs, text)).value, outs, errs)
    decreases outs + errs
  {
    hide Run, Enabled, Step, Filled;
    if errs > 0 {
      ReadsFill(outs, errs - 1, text);
      FillStep(Run(Reads(outs, errs - 1, text)).value, outs, errs - 1, true, text);
      OneMore(Reads(outs, errs - 1, text), Data(true, text));
    } else if outs > 0 {
      ReadsFill(outs - 1, 0, text);
      FillStep(Run(Reads(outs - 1, 0, text)).value, outs - 1, 0, false, text);
      OneMore(Reads(outs - 1, 0, text), Data(false, text));
    } else {
      NothingRead();
    }
  }

  lemma NothingRead()
    ensures Run([]) == Some(INIT) && Filled(INIT, 0, 0)
  {
  }

  lemma BothCut(s: State, text: string)
    requires |text| == READ_SIZE && Filled(s, 128, 128)
    ensures var s1 := Step(s, Data(false, text));
            && Enabled(s, Data(false, text)) && Enabled(s1, Data(true, text))
            && var s2 := Step(s1, Data(true, text));
               |s2.events| == 2 && s2.events[0].order == s2.events[1].order
  {
  }

  /** After 128 full reads of each stream one more of each publishes two events with the same order. */
  lemma OrdersCollide(text: string)
    requires |text| == READ_SIZE
    ensures var steps := Reads(128, 128, text) + [Data(false, text)] + [Data(true, text)];
            && Run(steps).Some? && |Run(steps).value.events| == 2
            && Run(steps).value.events[0].order == Run(steps).value.events[1].order
  {
    hide Run, Enabled, Step, Filled, Reads;
    var fill := Reads(128, 128, text);
    ReadsFill(128, 128, text);
    BothCut(Run(fill).value, text);
    OneMore(fill, Data(false, text));
    OneMore(fill + [Data(false, text)], Data(true, text));
  }

  // ---------- one reader's inner loop ----------

  /** The loop that cuts a buffer, without the awaits between its rounds. */
  method SplitBuffer(text: string) returns (chunks: seq<string>, buffer: string)
    ensures chunks == Pieces(text) && buffer == Rest(text)
  {
    chunks, buffer := [], text;
    assert [] + Pieces(text) == Pieces(text);
    while |buffer| > MAX_CONTENT
      invariant chunks + Pieces(buffer) == Pieces(text) && Rest(buffer) == Rest(text)
    {
      var chunk := buffer[..MAX_CONTENT];
      assert chunks + ([chunk] + Pieces(buffer[MAX_CONTENT..])) == (chunks + [chunk]) + Pieces(buffer[MAX_CONTENT..]);
      chunks := chunks + [chunk];
      buffer := buffer[MAX_CONTENT..];
    }
    assert chunks + [] == chunks;
  }

  // ---------- the shared variables ----------

  class CommandOutput {
    var outputOrder: nat
    var out: Reader
    var err: Reader
    var events: seq<Event>

    function Current(): State
      reads this
    {
      State(outputOrder, out, err, events)
    }

    constructor ()
      ensures Current() == INIT
    {
      outputOrder, out, err, events := 0, INIT.out, INIT.err, [];
    }

    method SetReader(isErr: bool, r: Reader)
      modifies this
      ensures Current() == With(old(Current()), isErr, r)
    {
      if isErr { err := r; } else { out := r; }
    }

    method CutOrReadOn(isErr: bool)
      modifies this
      ensures Current() == CutOrRead(old(Current()), isErr)
    {
      var r := if isErr then err else out;
      if |r.buffer| > MAX_CONTENT {
        var chunk := r.buffer[..MAX_CONTENT];
        SetReader(isErr, r.(buffer := r.buffer[MAX_CONTENT..], pc := Publishing));
        events := events + [Event(outputOrder, isErr, chunk)];
      } else {
        SetReader(isErr, r.(pc := Reading));
      }
    }

    /** A read returned `text` (empty at end of file). */
    method ReadReturned(isErr: bool, text: string)
      requires Of(Current(), isErr).pc.Reading? && |text| <= READ_SIZE
      modifies this
      ensures Current() == Step(old(Current()), if text == "" then Eof(isErr) else Data(isErr, text))
    {
      var r := if isErr then err else out;
      if text == "" {
        SetReader(isErr, r.(pc := AtEnd));
      } else {
        var buffer := r.buffer + text;
        SetReader(isErr, r.(buffer := buffer, shared := buffer, text := r.text + text));
        CutOrReadOn(isErr);
      }
    }

    /** Publishing an event returned. */
    method PublishReturned(isErr: bool)
      requires Of(Current(), isErr).pc.Publishing?
      modifies this
      ensures Current() == Step(old(Current()), Published(isErr))
    {
      outputOrder := outputOrder + 1;
      var r := if isErr then err else out;
      SetReader(isErr, r.(shared := r.buffer));
      CutOrReadOn(isErr);
    }
  }
}
