/** The incremental progress stream: an event-stream parser (WHATWG HTML Living Standard, section 9.2,
    "Server-sent events") fed with arbitrary chunks of bytes (crates/platform-api/src/stream.rs). */
module Sse {
  import opened Tables
  import opened Utf8

  datatype Status = Accepted | Queued | Running | Succeeded | PartiallySucceeded | Failed | Cancelled

  datatype Wire = Wire(status: string, stage: Option<string>, percent: Option<nat>, message: Option<string>,
                       observedAt: string)

  datatype Frame = Frame(event: Uuid, status: Status, stage: Option<string>, percent: Option<nat>,
                         message: Option<string>, observedAt: int)

  datatype StreamFault = MalformedFrame | Transport

  /** The decoders of libraries: JSON, timestamps and identifiers. */
  datatype Codec = Codec(
    json: string -> Option<Wire>,
    instant: string -> Option<int>,
    uuid: string -> Option<Uuid>)

  predicate IsTerminal(status: Status) {
    status.Succeeded? || status.PartiallySucceeded? || status.Failed? || status.Cancelled?
  }

  function ParseStatus(word: string): Option<Status> {
    if word == "accepted" then Some(Accepted)
    else if word == "queued" then Some(Queued)
    else if word == "running" then Some(Running)
    else if word == "succeeded" then Some(Succeeded)
    else if word == "partially_succeeded" then Some(PartiallySucceeded)
    else if word == "failed" then Some(Failed)
    else if word == "cancelled" then Some(Status.Cancelled)
    else None
  }

  // ---------------------------------------------------------------- finding an event

  /** An event's text ends at `end`; its terminator ends at `next`. */
  datatype Boundary = Boundary(end: nat, next: nat)

  function BoundaryAt(buffer: string, i: nat): Option<Boundary>
    requires i < |buffer|
  {
    if buffer[i] != '\n' then None
    else if i + 1 < |buffer| && buffer[i + 1] == '\n' then Some(Boundary(i, i + 2))
    else if i + 2 < |buffer| && buffer[i + 1] == '\r' && buffer[i + 2] == '\n' then Some(Boundary(i, i + 3))
    else None
  }

  /** The first terminator at or after `from`, whichever kind it is. */
  function FirstBoundary(buffer: string, from: nat): (b: Option<Boundary>)
    requires from <= |buffer|
    ensures b.Some? ==> from <= b.value.end < b.value.next <= |buffer|
    decreases |buffer| - from
  {
    if from == |buffer| then None
    else if BoundaryAt(buffer, from).Some? then BoundaryAt(buffer, from)
    else FirstBoundary(buffer, from + 1)
  }

  method CompleteEvent(buffer: string) returns (found: Option<Boundary>)
    ensures found == FirstBoundary(buffer, 0)
  {
    for i := 0 to |buffer|
      invariant FirstBoundary(buffer, 0) == FirstBoundary(buffer, i)
    {
      if buffer[i] != '\n' {
        continue;
      }
      if i + 1 < |buffer| && buffer[i + 1] == '\n' {
        return Some(Boundary(i, i + 2));
      } else if i + 2 < |buffer| && buffer[i + 1] == '\r' && buffer[i + 2] == '\n' {
        return Some(Boundary(i, i + 3));
      }
    }
    found := None;
  }

  // ---------------------------------------------------------------- reading an event

  /** The lines of an event: a line feed ends a line and takes one carriage return before it along; a
      last line without line feed counts unless it is empty. */
  function Lines(text: string): seq<string>
    decreases |text|
  {
    if text == "" then []
    else
      var end := LineEnd(text);
      if end == |text| then [text] else [DropReturn(text[..end])] + Lines(text[end + 1..])
  }

  /** Index of the first line feed, or the length. */
  function LineEnd(text: string): (end: nat)
    ensures end <= |text|
    ensures end < |text| ==> text[end] == '\n'
    ensures forall i | 0 <= i < end :: text[i] != '\n'
  {
    if text == "" || text[0] == '\n' then 0
    else
      var rest := LineEnd(text[1..]);
      assert forall i | 1 <= i < rest + 1 :: text[i] == text[1..][i - 1];
      rest + 1
  }

  function DropReturn(line: string): string {
    if line != "" && line[|line| - 1] == '\r' then line[..|line| - 1] else line
  }

  datatype Fields = Fields(id: Option<string>, name: Option<string>, data: seq<string>)

  const NO_FIELDS: Fields := Fields(None, None, [])

  /** Index of the first colon, or the length. */
  function Colon(line: string): (i: nat)
    ensures i <= |line|
    ensures i < |line| ==> line[i] == ':'
    ensures forall k | 0 <= k < i :: line[k] != ':'
  {
    if line == "" || line[0] == ':' then 0
    else
      var rest := Colon(line[1..]);
      assert forall k | 1 <= k < rest + 1 :: line[k] == line[1..][k - 1];
      rest + 1
  }

  function FieldName(line: string): string { line[..Colon(line)] }

  function FieldValue(line: string): string {
    var i := Colon(line);
    if i == |line| then ""
    else if i + 1 < |line| && line[i + 1] == ' ' then line[i + 2..]
    else line[i + 1..]
  }

  function ReadLine(f: Fields, raw: string): Fields {
    var line := DropReturn(raw);
    if line == "" || line[0] == ':' then f
    else
      var name, value := FieldName(line), FieldValue(line);
      if name == "id" then f.(id := Some(value))
      else if name == "event" then f.(name := Some(value))
      else if name == "data" then f.(data := f.data + [value])
      else f
  }

  function ReadLines(lines: seq<string>): Fields {
    if lines == [] then NO_FIELDS else ReadLine(ReadLines(lines[..|lines| - 1]), lines[|lines| - 1])
  }

  function Joined(data: seq<string>): string
    requires data != []
  {
    if |data| == 1 then data[0] else Joined(data[..|data| - 1]) + "\n" + data[|data| - 1]
  }

  function FrameOf(codec: Codec, f: Fields): Result<Option<Frame>, StreamFault> {
    if f.name != Some("progress") || f.data == [] then Ok(None)
    else
      match codec.json(Joined(f.data))
      case None => Err(MalformedFrame)
      case Some(wire) =>
        if f.id.None? then Err(MalformedFrame)
        else
          match (codec.instant(wire.observedAt), codec.uuid(f.id.value), ParseStatus(wire.status))
          case (Some(at), Some(event), Some(status)) =>
            Ok(Some(Frame(event, status, wire.stage, wire.percent, wire.message, at)))
          case _ => Err(MalformedFrame)
  }

  function ParseEvent(codec: Codec, text: string): Result<Option<Frame>, StreamFault> {
    FrameOf(codec, ReadLines(Lines(text)))
  }

  method ParseSseEvent(codec: Codec, event: string) returns (parsed: Result<Option<Frame>, StreamFault>)
    ensures parsed == ParseEvent(codec, event)
  {
    var id: Option<string>, name: Option<string>, data: seq<string> := None, None, [];
    var lines := Lines(event);
    for n := 0 to |lines|
      invariant Fields(id, name, data) == ReadLines(lines[..n])
    {
      assert lines[..n + 1][..n] == lines[..n];
      var line := DropReturn(lines[n]);
      if line == "" || line[0] == ':' {
        continue;
      }
      var field, value := FieldName(line), FieldValue(line);
      if field == "id" {
        id := Some(value);
      } else if field == "event" {
        name := Some(value);
      } else if field == "data" {
        data := data + [value];
      }
    }
    assert lines[..|lines|] == lines;
    parsed := FrameOf(codec, Fields(id, name, data));
  }

  // ---------------------------------------------------------------- the parser

  /** Drain events up to and including the first that is a frame or an error. */
  function NextFrame(codec: Codec, buffer: string): (r: (Result<Option<Frame>, StreamFault>, string))
    ensures r.0 != Ok(None) ==> |r.1| < |buffer|
    decreases |buffer|
  {
    match FirstBoundary(buffer, 0)
    case None => (Ok(None), buffer)
    case Some(b) =>
      var parsed := ParseEvent(codec, buffer[..b.end]);
      if parsed == Ok(None) then NextFrame(codec, buffer[b.next..]) else (parsed, buffer[b.next..])
  }

  class SseParser {
    const codec: Codec
    var buffer: string

    constructor (codec: Codec)
      ensures this.codec == codec && buffer == ""
    {
      this.codec := codec;
      buffer := "";
    }

    /** Each chunk is decoded on its own. */
    method Feed(bytes: seq<Byte>)
      modifies this
      ensures buffer == old(buffer) + Lossy(bytes)
    {
      buffer := buffer + Lossy(bytes);
    }

    method NextProgressFrame() returns (result: Result<Option<Frame>, StreamFault>)
      modifies this
      ensures (result, buffer) == NextFrame(codec, old(buffer))
    {
      while true
        invariant NextFrame(codec, buffer) == NextFrame(codec, old(buffer))
        decreases |buffer|
      {
        var found := CompleteEvent(buffer);
        if found.None? {
          return Ok(None);
        }
        var event := buffer[..found.value.end];
        buffer := buffer[found.value.next..];
        var parsed := ParseSseEvent(codec, event);
        if parsed != Ok(None) {
          return parsed;
        }
      }
    }
  }

  // ---------------------------------------------------------------- the stream

  datatype Arrival = Chunk(bytes: seq<Byte>) | Broken

  /** `response` is absent once the body has ended. */
  datatype Stream = Stream(buffer: string, response: Option<seq<Arrival>>, terminalSeen: bool)

  function StreamSize(st: Stream): nat { if st.response.Some? then 1 + |st.response.value| else 0 }

  function StreamNext(codec: Codec, st: Stream): (r: (Result<Option<Frame>, StreamFault>, Stream))
    ensures r.0 != Ok(None) ==>
      StreamSize(r.1) < StreamSize(st) || (StreamSize(r.1) == StreamSize(st) && |r.1.buffer| < |st.buffer|)
    decreases StreamSize(st)
  {
    if st.terminalSeen then (Ok(None), st)
    else
      var (result, rest) := NextFrame(codec, st.buffer);
      var drained := st.(buffer := rest);
      match result
      case Err(_) => (result, drained)
      case Ok(Some(frame)) => (result, drained.(terminalSeen := IsTerminal(frame.status)))
      case Ok(None) =>
        if st.response.None? then (Ok(None), drained)
        else if st.response.value == [] then (Ok(None), drained.(response := None))
        else
          var later := Some(st.response.value[1..]);
          match st.response.value[0]
          case Broken => (Err(Transport), drained.(response := later))
          case Chunk(bytes) => StreamNext(codec, drained.(buffer := rest + Lossy(bytes), response := later))
  }

  class EventStream {
    const parser: SseParser
    var response: Option<seq<Arrival>>
    var terminalSeen: bool

    function View(): Stream
      reads this, parser
    {
      Stream(parser.buffer, response, terminalSeen)
    }

    constructor (codec: Codec, arrivals: seq<Arrival>)
      ensures fresh(parser) && parser.codec == codec
      ensures View() == Stream("", Some(arrivals), false)
    {
      parser := new SseParser(codec);
      response := Some(arrivals);
      terminalSeen := false;
    }

    method Next() returns (result: Result<Option<Frame>, StreamFault>)
      modifies this, parser
      ensures (result, View()) == StreamNext(parser.codec, old(View()))
    {
      while true
        invariant StreamNext(parser.codec, View()) == StreamNext(parser.codec, old(View()))
        decreases StreamSize(View())
      {
        if terminalSeen {
          return Ok(None);
        }
        result := parser.NextProgressFrame();
        if result.Err? {
          return;
        }
        if result.value.Some? {
          terminalSeen := terminalSeen || IsTerminal(result.value.value.status);
          return;
        }
        if response.None? {
          return Ok(None);
        }
        if response.value == [] {
          response := None;
          return Ok(None);
        }
        var arrival := response.value[0];
        response := Some(response.value[1..]);
        if arrival.Broken? {
          return Err(Transport);
        }
        parser.Feed(arrival.bytes);
      }
    }
  }

  // ---------------------------------------------------------------- the whole text at once

  /** The complete events of a text, and what is left of it. */
  function Events(text: string): seq<string>
    decreases |text|
  {
    match FirstBoundary(text, 0)
    case None => []
    case Some(b) => [text[..b.end]] + Events(text[b.next..])
  }

  function Remainder(text: string): string
    decreases |text|
  {
    match FirstBoundary(text, 0)
    case None => text
    case Some(b) => Remainder(text[b.next..])
  }

  type Item = Result<Frame, StreamFault>

  /** Every frame and every malformed frame of the events, in order. */
  function Items(codec: Codec, events: seq<string>): seq<Item> {
    if events == [] then [] else Handed(ParseEvent(codec, events[0])) + Items(codec, events[1..])
  }

  /** What one result hands to the caller. */
  function Handed(result: Result<Option<Frame>, StreamFault>): seq<Item> {
    match result
    case Ok(None) => []
    case Ok(Some(frame)) => [Ok(frame)]
    case Err(fault) => [Err(fault)]
  }

  /** What repeated calls of the stream hand out until they answer that nothing remains. */
  function Outputs(codec: Codec, st: Stream): seq<Item>
    decreases StreamSize(st), |st.buffer|
  {
    var (result, later) := StreamNext(codec, st);
    if result == Ok(None) then [] else Handed(result) + Outputs(codec, later)
  }

  function UpToTerminal(items: seq<Item>): seq<Item> {
    if items == [] then []
    else if items[0].Ok? && IsTerminal(items[0].value.status) then [items[0]]
    else [items[0]] + UpToTerminal(items[1..])
  }

  /** What a body delivers: the items of its text, with each transport failure where it happened. */
  function Script(codec: Codec, buffer: string, arrivals: seq<Arrival>): seq<Item>
    decreases |arrivals|
  {
    if arrivals == [] then Items(codec, Events(buffer))
    else
      match arrivals[0]
      case Chunk(bytes) => Script(codec, buffer + Lossy(bytes), arrivals[1..])
      case Broken =>
        Items(codec, Events(buffer)) + [Err(Transport)] + Script(codec, Remainder(buffer), arrivals[1..])
  }

  // ---------------------------------------------------------------- chunk independence

  /** A terminator once found is not moved by later text. */
  lemma {:induction false} BoundaryStays(text: string, more: string, from: nat)
    requires from <= |text| && FirstBoundary(text, from).Some?
    ensures FirstBoundary(text + more, from) == FirstBoundary(text, from)
    decreases |text| - from
  {
    if BoundaryAt(text, from).None? {
      BoundaryStays(text, more, from + 1);
    }
  }

  /** Cutting a prefix first, and the rest with what was left of it, cuts the whole. */
  lemma {:induction false} CutInTwo(text: string, more: string)
    ensures Events(text + more) == Events(text) + Events(Remainder(text) + more)
    ensures Remainder(text + more) == Remainder(Remainder(text) + more)
    decreases |text|
  {
    if FirstBoundary(text, 0).Some? {
      var b := FirstBoundary(text, 0).value;
      BoundaryStays(text, more, 0);
      assert (text + more)[..b.end] == text[..b.end];
      assert (text + more)[b.next..] == text[b.next..] + more;
      CutInTwo(text[b.next..], more);
    }
  }

  lemma {:induction false} RemainderHasNoEvent(text: string)
    ensures FirstBoundary(Remainder(text), 0).None? && Events(Remainder(text)) == []
    decreases |text|
  {
    if FirstBoundary(text, 0).Some? { RemainderHasNoEvent(text[FirstBoundary(text, 0).value.next..]); }
  }

  lemma {:induction false} ItemsConcat(codec: Codec, a: seq<string>, b: seq<string>)
    ensures Items(codec, a + b) == Items(codec, a) + Items(codec, b)
    decreases |a|
  {
    if a == [] {
      assert a + b == b;
    } else {
      assert (a + b)[1..] == a[1..] + b;
      ItemsConcat(codec, a[1..], b);
    }
  }

  /** One drain hands out the first item of its buffer. */
  lemma {:induction false} NextFrameIsFirstItem(codec: Codec, buffer: string)
    ensures var (result, rest) := NextFrame(codec, buffer);
      && Items(codec, Events(buffer)) == Handed(result) + Items(codec, Events(rest))
      && Remainder(rest) == Remainder(buffer)
      && (result == Ok(None) ==> rest == Remainder(buffer))
    decreases |buffer|
  {
    if FirstBoundary(buffer, 0).Some? {
      var b := FirstBoundary(buffer, 0).value;
      FirstEventItems(codec, buffer, b);
      if ParseEvent(codec, buffer[..b.end]) == Ok(None) { NextFrameIsFirstItem(codec, buffer[b.next..]); }
    }
  }

  lemma FirstEventItems(codec: Codec, buffer: string, b: Boundary)
    requires FirstBoundary(buffer, 0) == Some(b)
    ensures Items(codec, Events(buffer))
            == Handed(ParseEvent(codec, buffer[..b.end])) + Items(codec, Events(buffer[b.next..]))
  {
    assert Events(buffer)[1..] == Events(buffer[b.next..]);
  }

  lemma RestDrainsBroken(codec: Codec, buffer: string, arrivals: seq<Arrival>)
    requires arrivals != [] && arrivals[0].Broken?
    ensures Script(codec, buffer, arrivals)
            == Items(codec, Events(buffer)) + Script(codec, Remainder(buffer), arrivals)
  {
    var left := Remainder(buffer);
    RemainderHasNoEvent(buffer);
    CutRemainder(buffer);
    BrokenUnfolds(codec, buffer, arrivals);
    BrokenUnfolds(codec, left, arrivals);
    var failure: seq<Item> := [Err(Transport)];
    assert Items(codec, Events(left)) + failure == failure;
    Regroup(Items(codec, Events(buffer)), failure, Script(codec, left, arrivals[1..]));
  }

  lemma {:induction false} CutRemainder(buffer: string)
    ensures Remainder(Remainder(buffer)) == Remainder(buffer)
  {
    RemainderHasNoEvent(buffer);
  }

  lemma BrokenUnfolds(codec: Codec, buffer: string, arrivals: seq<Arrival>)
    requires arrivals != [] && arrivals[0].Broken?
    ensures Script(codec, buffer, arrivals)
            == Items(codec, Events(buffer)) + [Err(Transport)] + Script(codec, Remainder(buffer), arrivals[1..])
  {
  }

  lemma ChunkUnfolds(codec: Codec, buffer: string, arrivals: seq<Arrival>)
    requires arrivals != [] && arrivals[0].Chunk?
    ensures Script(codec, buffer, arrivals) == Script(codec, buffer + Lossy(arrivals[0].bytes), arrivals[1..])
  {
  }

  /** A body's items start with the items of what is already buffered. */
  lemma {:induction false} ScriptDrainsFirst(codec: Codec, buffer: string, arrivals: seq<Arrival>)
    ensures Script(codec, buffer, arrivals)
            == Items(codec, Events(buffer)) + Script(codec, Remainder(buffer), arrivals)
    decreases |arrivals|
  {
    if arrivals == [] {
      RemainderHasNoEvent(buffer);
    } else if arrivals[0].Broken? {
      RestDrainsBroken(codec, buffer, arrivals);
    } else {
      var text, left := Lossy(arrivals[0].bytes), Remainder(buffer);
      ChunkUnfolds(codec, buffer, arrivals);
      ChunkUnfolds(codec, left, arrivals);
      ScriptDrainsFirst(codec, buffer + text, arrivals[1..]);
      ScriptDrainsFirst(codec, left + text, arrivals[1..]);
      ChunkDrains(codec, buffer, text, Script(codec, Remainder(buffer + text), arrivals[1..]));
    }
  }

  lemma ChunkDrains(codec: Codec, buffer: string, text: string, rest: seq<Item>)
    ensures Items(codec, Events(buffer + text)) + rest
            == Items(codec, Events(buffer)) + (Items(codec, Events(Remainder(buffer) + text)) + rest)
    ensures Remainder(buffer + text) == Remainder(Remainder(buffer) + text)
  {
    CutInTwo(buffer, text);
    ItemsConcat(codec, Events(buffer), Events(Remainder(buffer) + text));
    Regroup(Items(codec, Events(buffer)), Items(codec, Events(Remainder(buffer) + text)), rest);
  }

  lemma SameNextSameOutputs(codec: Codec, st: Stream, su: Stream)
    requires StreamNext(codec, st) == StreamNext(codec, su)
    ensures Outputs(codec, st) == Outputs(codec, su)
  {
  }

  /** Nothing buffered is complete: the next arrival decides. */
  lemma NothingBuffered(codec: Codec, buffer: string)
    requires NextFrame(codec, buffer).0 == Ok(None)
    ensures NextFrame(codec, buffer) == (Ok(None), Remainder(buffer)) && Items(codec, Events(buffer)) == []
  {
    NextFrameIsFirstItem(codec, buffer);
    RemainderHasNoEvent(buffer);
  }

  lemma BrokenOutputs(codec: Codec, buffer: string, arrivals: seq<Arrival>)
    requires arrivals != [] && arrivals[0].Broken? && NextFrame(codec, buffer) == (Ok(None), Remainder(buffer))
    ensures Outputs(codec, Stream(buffer, Some(arrivals), false))
            == [Err(Transport)] + Outputs(codec, Stream(Remainder(buffer), Some(arrivals[1..]), false))
  {
  }

  lemma BrokenScript(codec: Codec, buffer: string, arrivals: seq<Arrival>)
    requires arrivals != [] && arrivals[0].Broken? && Items(codec, Events(buffer)) == []
    ensures Script(codec, buffer, arrivals) == [Err(Transport)] + Script(codec, Remainder(buffer), arrivals[1..])
  {
  }

  lemma ChunkOutputs(codec: Codec, buffer: string, arrivals: seq<Arrival>)
    requires arrivals != [] && arrivals[0].Chunk? && NextFrame(codec, buffer) == (Ok(None), Remainder(buffer))
    ensures Outputs(codec, Stream(buffer, Some(arrivals), false))
            == Outputs(codec, Stream(Remainder(buffer) + Lossy(arrivals[0].bytes), Some(arrivals[1..]), false))
  {
    SameNextSameOutputs(codec, Stream(buffer, Some(arrivals), false),
                        Stream(Remainder(buffer) + Lossy(arrivals[0].bytes), Some(arrivals[1..]), false));
  }

  lemma ChunkScript(codec: Codec, buffer: string, arrivals: seq<Arrival>)
    requires arrivals != [] && arrivals[0].Chunk? && Items(codec, Events(buffer)) == []
    ensures Script(codec, buffer, arrivals) == Script(codec, Remainder(buffer) + Lossy(arrivals[0].bytes), arrivals[1..])
  {
    ScriptDrainsFirst(codec, buffer, arrivals);
    assert [] + Script(codec, Remainder(buffer), arrivals) == Script(codec, Remainder(buffer), arrivals);
  }

  /** A buffered item is handed out first. */
  lemma ScriptHandsOutFirst(codec: Codec, buffer: string, arrivals: seq<Arrival>)
    ensures var (result, rest) := NextFrame(codec, buffer);
      Script(codec, buffer, arrivals) == Handed(result) + Script(codec, rest, arrivals)
  {
    var (result, rest) := NextFrame(codec, buffer);
    NextFrameIsFirstItem(codec, buffer);
    ScriptDrainsFirst(codec, buffer, arrivals);
    ScriptDrainsFirst(codec, rest, arrivals);
    Regroup(Handed(result), Items(codec, Events(rest)), Script(codec, Remainder(rest), arrivals));
  }

  lemma Regroup<T>(first: seq<T>, middle: seq<T>, last: seq<T>)
    ensures (first + middle) + last == first + (middle + last)
  {
  }

  lemma OutputsHandOutFirst(codec: Codec, buffer: string, arrivals: seq<Arrival>)
    requires NextFrame(codec, buffer).0 != Ok(None)
    ensures var (result, rest) := NextFrame(codec, buffer);
      Outputs(codec, Stream(buffer, Some(arrivals), false))
      == Handed(result) + if result.Ok? && IsTerminal(result.value.value.status) then []
                          else Outputs(codec, Stream(rest, Some(arrivals), false))
  {
  }

  /** The stream delivers its body's items, every one in order, up to and including the first terminal
      frame, and nothing after it. */
  lemma {:induction false} StreamDeliversScript(codec: Codec, buffer: string, arrivals: seq<Arrival>)
    ensures Outputs(codec, Stream(buffer, Some(arrivals), false)) == UpToTerminal(Script(codec, buffer, arrivals))
    decreases |arrivals|, |buffer|
  {
    if NextFrame(codec, buffer).0 != Ok(None) {
      ScriptHandsOutFirst(codec, buffer, arrivals);
      OutputsHandOutFirst(codec, buffer, arrivals);
      StreamDeliversScript(codec, NextFrame(codec, buffer).1, arrivals);
    } else {
      NothingBuffered(codec, buffer);
      if arrivals != [] && arrivals[0].Broken? {
        BrokenOutputs(codec, buffer, arrivals);
        BrokenScript(codec, buffer, arrivals);
        StreamDeliversScript(codec, Remainder(buffer), arrivals[1..]);
      } else if arrivals != [] {
        ChunkOutputs(codec, buffer, arrivals);
        ChunkScript(codec, buffer, arrivals);
        StreamDeliversScript(codec, Remainder(buffer) + Lossy(arrivals[0].bytes), arrivals[1..]);
      }
    }
  }

  predicate Unbroken(arrivals: seq<Arrival>) {
    forall i | 0 <= i < |arrivals| :: arrivals[i].Chunk?
  }

  function Chunks(arrivals: seq<Arrival>): seq<seq<Byte>>
    requires Unbroken(arrivals)
  {
    if arrivals == [] then [] else [arrivals[0].bytes] + Chunks(arrivals[1..])
  }

  lemma {:induction false} UnbrokenScript(codec: Codec, buffer: string, arrivals: seq<Arrival>)
    requires Unbroken(arrivals)
    ensures Script(codec, buffer, arrivals) == Items(codec, Events(buffer + Decoded(Chunks(arrivals))))
    decreases |arrivals|
  {
    if arrivals == [] {
      assert buffer + Decoded(Chunks(arrivals)) == buffer;
    } else {
      UnbrokenScript(codec, buffer + Lossy(arrivals[0].bytes), arrivals[1..]);
      assert Chunks(arrivals)[1..] == Chunks(arrivals[1..]);
      Regroup(buffer, Lossy(arrivals[0].bytes), Decoded(Chunks(arrivals[1..])));
    }
  }

  /** What an unbroken stream hands out: the frames and frame errors of its decoded text, up to the first
      terminal frame. */
  lemma UnbrokenStream(codec: Codec, arrivals: seq<Arrival>)
    requires Unbroken(arrivals)
    ensures Outputs(codec, Stream("", Some(arrivals), false))
            == UpToTerminal(Items(codec, Events(Decoded(Chunks(arrivals)))))
  {
    assert "" + Decoded(Chunks(arrivals)) == Decoded(Chunks(arrivals));
    StreamDeliversScript(codec, "", arrivals);
    UnbrokenScript(codec, "", arrivals);
  }

  /** Parsing does not depend on chunking at character boundaries: two such splits of the same bytes hand out
      the same frames and frame errors, those of the bytes decoded whole. A split inside a character does
      change the text that is parsed. */
  lemma ChunkingIsInvisible(codec: Codec, a: seq<Arrival>, b: seq<Arrival>)
    requires Unbroken(a) && Unbroken(b) && Whole(Chunks(a)) == Whole(Chunks(b))
    ensures SplitsCleanly(Chunks(a)) ==>
      Outputs(codec, Stream("", Some(a), false)) == UpToTerminal(Items(codec, Events(Lossy(Whole(Chunks(a))))))
    ensures SplitsCleanly(Chunks(a)) && SplitsCleanly(Chunks(b)) ==>
      Outputs(codec, Stream("", Some(a), false)) == Outputs(codec, Stream("", Some(b), false))
    ensures SplitsCleanly(Chunks(a)) <==> Decoded(Chunks(a)) == Lossy(Whole(Chunks(a)))
  {
    ChunksDecodeExactly(Chunks(a));
    ChunksDecodeExactly(Chunks(b));
    UnbrokenStream(codec, a);
    UnbrokenStream(codec, b);
  }

  // ---------------------------------------------------------------- framing

  /** One event as its producer writes it: each line, and the blank line, ends with a line feed that may
      follow a carriage return. */
  datatype Written = Written(lines: seq<string>, crs: seq<bool>, blankReturn: bool)

  predicate Plain(line: string) {
    line != "" && forall i | 0 <= i < |line| :: line[i] != '\n' && line[i] != '\r'
  }

  predicate WellWritten(w: Written) {
    && w.lines != [] && |w.crs| == |w.lines|
    && forall i | 0 <= i < |w.lines| :: Plain(w.lines[i])
  }

  function Return(present: bool): string { if present then "\r" else "" }

  function Body(lines: seq<string>, crs: seq<bool>): string
    requires |lines| == |crs| > 0
  {
    if |lines| == 1 then lines[0] + Return(crs[0])
    else lines[0] + Return(crs[0]) + "\n" + Body(lines[1..], crs[1..])
  }

  function BodyOf(w: Written): string
    requires WellWritten(w)
  {
    Body(w.lines, w.crs)
  }

  function Encode(w: Written): string
    requires WellWritten(w)
  {
    BodyOf(w) + "\n" + Return(w.blankReturn) + "\n"
  }

  predicate AllPlain(lines: seq<string>) { forall i | 0 <= i < |lines| :: Plain(lines[i]) }

  /** No line feed of the text can begin a terminator. */
  predicate Tight(text: string) {
    && text != "" && text[0] != '\n' && text[0] != '\r'
    && forall i | 0 <= i < |text| :: text[i] == '\n' ==>
         i + 1 < |text| && text[i + 1] != '\n' && text[i + 1] != '\r'
  }

  lemma {:induction false} BodyIsTight(lines: seq<string>, crs: seq<bool>)
    requires |lines| == |crs| > 0 && AllPlain(lines)
    ensures Tight(Body(lines, crs))
    decreases |lines|
  {
    assert Plain(lines[0]);
    if |lines| > 1 {
      var head, tail := lines[0] + Return(crs[0]) + "\n", Body(lines[1..], crs[1..]);
      BodyIsTight(lines[1..], crs[1..]);
      var text := head + tail;
      assert Body(lines, crs) == text;
      forall i | 0 <= i < |text| && text[i] == '\n'
        ensures i + 1 < |text| && text[i + 1] != '\n' && text[i + 1] != '\r'
      {
        if i < |head| { assert i == |head| - 1 && text[i + 1] == tail[0]; }
        else { assert text[i] == tail[i - |head|] && text[i + 1] == tail[i - |head| + 1]; }
      }
    }
  }

  lemma {:induction false} BoundaryAfter(text: string, from: nat, end: nat)
    requires from <= end < |text| && BoundaryAt(text, end).Some?
    requires forall i | from <= i < end :: BoundaryAt(text, i).None?
    ensures FirstBoundary(text, from) == BoundaryAt(text, end)
    decreases end - from
  {
    if from < end { BoundaryAfter(text, from + 1, end); }
  }

  /** An encoded event is cut exactly at its blank line. */
  lemma EncodedIsCut(w: Written, more: string)
    requires WellWritten(w)
    ensures Events(Encode(w) + more) == [BodyOf(w)] + Events(more)
    ensures Remainder(Encode(w) + more) == Remainder(more)
  {
    var body, text := BodyOf(w), Encode(w) + more;
    BodyIsTight(w.lines, w.crs);
    forall i | 0 <= i < |body| ensures BoundaryAt(text, i).None? {
      assert text[i] == body[i];
      if body[i] == '\n' { assert text[i + 1] == body[i + 1]; }
    }
    assert text[|body|] == '\n';
    assert BoundaryAt(text, |body|) == Some(Boundary(|body|, |Encode(w)|));
    BoundaryAfter(text, 0, |body|);
    assert text[..|body|] == body && text[|Encode(w)|..] == more;
  }

  lemma {:induction false} LineEndIs(text: string, end: nat)
    requires end <= |text| && (end < |text| ==> text[end] == '\n')
    requires forall i | 0 <= i < end :: text[i] != '\n'
    ensures LineEnd(text) == end
  {
  }

  lemma ReturnDrops(line: string, present: bool)
    requires Plain(line)
    ensures DropReturn(line + Return(present)) == line && DropReturn(line) == line
    ensures forall i | 0 <= i < |line + Return(present)| :: (line + Return(present))[i] != '\n'
  {
    if present { assert (line + "\r")[..|line|] == line; } else { assert line + "" == line; }
    assert line[|line| - 1] != '\r';
  }

  lemma LastLine(line: string, cr: bool)
    requires Plain(line)
    ensures Lines(line + Return(cr)) == [line + Return(cr)]
  {
    ReturnDrops(line, cr);
    LineEndIs(line + Return(cr), |line + Return(cr)|);
  }

  lemma OneMoreLine(line: string, cr: bool, tail: string)
    requires Plain(line)
    ensures Lines(line + Return(cr) + "\n" + tail) == [line] + Lines(tail)
  {
    var head, text := line + Return(cr), line + Return(cr) + "\n" + tail;
    ReturnDrops(line, cr);
    assert forall i | 0 <= i < |head| :: text[i] == head[i];
    LineEndIs(text, |head|);
    assert text[..|head|] == head && text[|head| + 1..] == tail;
  }

  lemma {:induction false} LinesOfBody(lines: seq<string>, crs: seq<bool>)
    requires |lines| == |crs| > 0 && AllPlain(lines)
    ensures var read := Lines(Body(lines, crs));
      |read| == |lines| && forall i | 0 <= i < |lines| :: DropReturn(read[i]) == lines[i]
    decreases |lines|
  {
    ReturnDrops(lines[0], crs[0]);
    if |lines| == 1 {
      LastLine(lines[0], crs[0]);
    } else {
      LinesOfBody(lines[1..], crs[1..]);
      OneMoreLine(lines[0], crs[0], Body(lines[1..], crs[1..]));
    }
  }

  lemma {:induction false} ReadLinesAlike(a: seq<string>, b: seq<string>)
    requires |a| == |b| && forall i | 0 <= i < |a| :: DropReturn(a[i]) == DropReturn(b[i])
    ensures ReadLines(a) == ReadLines(b)
    decreases |a|
  {
    if a != [] { ReadLinesAlike(a[..|a| - 1], b[..|b| - 1]); }
  }

  lemma BodyReadsAsItsLines(w: Written)
    requires WellWritten(w)
    ensures ReadLines(Lines(BodyOf(w))) == ReadLines(w.lines)
  {
    LinesOfBody(w.lines, w.crs);
    forall i | 0 <= i < |w.lines| ensures DropReturn(w.lines[i]) == w.lines[i] { ReturnDrops(w.lines[i], false); }
    ReadLinesAlike(Lines(BodyOf(w)), w.lines);
  }

  function EncodeAll(written: seq<Written>): string
    requires forall i | 0 <= i < |written| :: WellWritten(written[i])
  {
    if written == [] then "" else Encode(written[0]) + EncodeAll(written[1..])
  }

  /** The items of events given by their lines alone. */
  function ItemsOfLines(codec: Codec, events: seq<seq<string>>): seq<Item> {
    if events == [] then [] else Handed(FrameOf(codec, ReadLines(events[0]))) + ItemsOfLines(codec, events[1..])
  }

  function LinesOf(written: seq<Written>): seq<seq<string>> {
    if written == [] then [] else [written[0].lines] + LinesOf(written[1..])
  }

  /** Framing is invisible: whatever mixture of line feeds and carriage returns the events are written
      with, the stream's items are those of the events' lines, and an unfinished event adds nothing. */
  lemma {:induction false} FramingIsInvisible(codec: Codec, written: seq<Written>, unfinished: string)
    requires forall i | 0 <= i < |written| :: WellWritten(written[i])
    requires FirstBoundary(unfinished, 0).None?
    ensures Items(codec, Events(EncodeAll(written) + unfinished)) == ItemsOfLines(codec, LinesOf(written))
    decreases |written|
  {
    if written == [] {
      assert EncodeAll(written) + unfinished == unfinished;
    } else {
      var w, more := written[0], EncodeAll(written[1..]) + unfinished;
      assert EncodeAll(written) + unfinished == Encode(w) + more;
      EncodedIsCut(w, more);
      BodyReadsAsItsLines(w);
      assert ([BodyOf(w)] + Events(more))[1..] == Events(more);
      FramingIsInvisible(codec, written[1..], unfinished);
    }
  }
}
