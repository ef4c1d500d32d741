/** What the lines of one event mean, and that a progress event is read back as it was written. */
module Frames {
  import opened Tables
  import opened Sse

  // ---------------------------------------------------------------- lines

  /** A field line: its name alone, or its name, a colon, at most one space that is skipped, and its value. */
  predicate Spells(raw: string, name: string, value: string) {
    var line := DropReturn(raw);
    && name != "" && ':' !in name
    && ((line == name && value == "")
        || (line == name + ":" + value && (value != "" ==> value[0] != ' '))
        || line == name + ": " + value)
  }

  lemma {:induction false} ColonIs(line: string, i: nat)
    requires i <= |line| && (i < |line| ==> line[i] == ':') && forall k | 0 <= k < i :: line[k] != ':'
    ensures Colon(line) == i
    decreases |line|
  {
    if i > 0 { ColonIs(line[1..], i - 1); }
  }

  lemma SpellingIsRead(raw: string, name: string, value: string)
    requires Spells(raw, name, value)
    ensures var line := DropReturn(raw);
      line != "" && line[0] != ':' && FieldName(line) == name && FieldValue(line) == value
  {
    var line := DropReturn(raw);
    assert line[..|name|] == name;
    forall k | 0 <= k < |name| ensures line[k] != ':' { assert line[k] == name[k]; }
    ColonIs(line, |name|);
    if line == name + ": " + value {
      assert line[|name| + 2..] == value;
    } else if line == name + ":" + value {
      assert line[|name| + 1..] == value;
    }
  }

  lemma NamedLineSpells(raw: string)
    requires DropReturn(raw) != "" && DropReturn(raw)[0] != ':'
    ensures Spells(raw, FieldName(DropReturn(raw)), FieldValue(DropReturn(raw)))
  {
    var line := DropReturn(raw);
    var i := Colon(line);
    var name, value := FieldName(line), FieldValue(line);
    if i < |line| {
      assert line == name + line[i..];
      if i + 1 < |line| && line[i + 1] == ' ' {
        assert line[i..] == ": " + value;
        assert line == name + ": " + value;
      } else {
        assert line[i..] == ":" + value;
        assert line == name + ":" + value;
      }
    } else {
      assert line[..i] == line;
    }
  }

  /** A line that spells one of the three fields that are read. */
  ghost predicate Read(raw: string) {
    exists v :: Spells(raw, "id", v) || Spells(raw, "event", v) || Spells(raw, "data", v)
  }

  /** One line more: the field it spells is taken over, and any other line, comments and blank ones among
      them, changes nothing. */
  lemma OneLineRead(f: Fields, raw: string, v: string)
    ensures Spells(raw, "id", v) ==> ReadLine(f, raw) == f.(id := Some(v))
    ensures Spells(raw, "event", v) ==> ReadLine(f, raw) == f.(name := Some(v))
    ensures Spells(raw, "data", v) ==> ReadLine(f, raw) == f.(data := f.data + [v])
    ensures !Read(raw) ==> ReadLine(f, raw) == f
  {
    if Spells(raw, "id", v) { SpellingIsRead(raw, "id", v); }
    if Spells(raw, "event", v) { SpellingIsRead(raw, "event", v); }
    if Spells(raw, "data", v) { SpellingIsRead(raw, "data", v); }
    if ReadLine(f, raw) != f { NamedLineSpells(raw); }
  }

  /** Line `i` spells the field with this value, and no later line spells the field at all. */
  ghost predicate LastSpelling(lines: seq<string>, name: string, i: nat, v: string) {
    && i < |lines| && Spells(lines[i], name, v)
    && forall k, u | i < k < |lines| :: !Spells(lines[k], name, u)
  }

  /** The last line that spells the identifier decides it, and so for the name of the event. */
  lemma {:induction false} LastSpellingWins(lines: seq<string>, i: nat, v: string)
    ensures LastSpelling(lines, "id", i, v) ==> ReadLines(lines).id == Some(v)
    ensures LastSpelling(lines, "event", i, v) ==> ReadLines(lines).name == Some(v)
    decreases |lines|
  {
    if lines == [] {
    } else {
      var before, last := lines[..|lines| - 1], lines[|lines| - 1];
      if i < |before| { LastSpellingWins(before, i, v); }
      LastLineRead(ReadLines(before), last, v, i == |before|);
    }
  }

  lemma LastLineRead(f: Fields, raw: string, v: string, spelled: bool)
    ensures spelled && Spells(raw, "id", v) ==> ReadLine(f, raw).id == Some(v)
    ensures spelled && Spells(raw, "event", v) ==> ReadLine(f, raw).name == Some(v)
    ensures (forall u :: !Spells(raw, "id", u)) ==> ReadLine(f, raw).id == f.id
    ensures (forall u :: !Spells(raw, "event", u)) ==> ReadLine(f, raw).name == f.name
  {
    OneLineRead(f, raw, v);
    if Read(raw) {
      var u :| Spells(raw, "id", u) || Spells(raw, "event", u) || Spells(raw, "data", u);
      OneLineRead(f, raw, u);
    }
  }

  /** `at` are, in order, the lines that spell data, and these data are what they spell. */
  ghost predicate DataAt(lines: seq<string>, data: seq<string>, at: seq<nat>) {
    && |at| == |data|
    && (forall j, k | 0 <= j < k < |at| :: at[j] < at[k])
    && (forall k | 0 <= k < |at| :: at[k] < |lines| && Spells(lines[at[k]], "data", data[k]))
    && (forall i, v | 0 <= i < |lines| && Spells(lines[i], "data", v) :: i in at)
  }

  lemma DataLineAdds(lines: seq<string>, data: seq<string>, at: seq<nat>, raw: string, v: string)
    requires DataAt(lines, data, at) && Spells(raw, "data", v)
    ensures DataAt(lines + [raw], data + [v], at + [|lines|])
  {
    var more, longer := lines + [raw], at + [|lines|];
    forall i, u | 0 <= i < |more| && Spells(more[i], "data", u) ensures i in longer {
      if i < |lines| { assert Spells(lines[i], "data", u) && i in at; }
      else { assert longer[|at|] == i; }
    }
  }

  lemma OtherLineAddsNone(lines: seq<string>, data: seq<string>, at: seq<nat>, raw: string)
    requires DataAt(lines, data, at) && forall v :: !Spells(raw, "data", v)
    ensures DataAt(lines + [raw], data, at)
  {
    var more := lines + [raw];
    forall i, u | 0 <= i < |more| && Spells(more[i], "data", u) ensures i in at {
      assert i < |lines| && Spells(lines[i], "data", u);
    }
  }

  /** The data of an event are exactly those that its lines spell, in their order. */
  lemma {:induction false} DataAreSpelled(lines: seq<string>) returns (at: seq<nat>)
    ensures DataAt(lines, ReadLines(lines).data, at)
    decreases |lines|
  {
    if lines == [] {
      at := [];
    } else {
      var before, last := lines[..|lines| - 1], lines[|lines| - 1];
      assert before + [last] == lines;
      at := DataAreSpelled(before);
      if v :| Spells(last, "data", v) {
        OneLineRead(ReadLines(before), last, v);
        DataLineAdds(before, ReadLines(before).data, at, last, v);
        at := at + [|before|];
      } else {
        NoDataRead(ReadLines(before), last);
        OtherLineAddsNone(before, ReadLines(before).data, at, last);
      }
    }
  }

  lemma NoDataRead(f: Fields, raw: string)
    requires forall v :: !Spells(raw, "data", v)
    ensures ReadLine(f, raw).data == f.data
  {
    if Read(raw) {
      var u :| Spells(raw, "id", u) || Spells(raw, "event", u) || Spells(raw, "data", u);
      OneLineRead(f, raw, u);
    } else {
      OneLineRead(f, raw, "");
    }
  }

  // ---------------------------------------------------------------- joining

  /** Data lines are joined with one line feed between them, wherever the sequence is cut. */
  lemma {:induction false} JoinedCut(a: seq<string>, b: seq<string>)
    requires a != [] && b != []
    ensures Joined(a + b) == Joined(a) + "\n" + Joined(b)
    decreases |b|
  {
    var before, last := b[..|b| - 1], b[|b| - 1];
    assert (a + b)[..|a + b| - 1] == a + before;
    if |b| == 1 {
      assert a + before == a && (a + b)[|a + b| - 1] == last;
    } else {
      JoinedCut(a, before);
      assert (a + b)[|a + b| - 1] == last;
    }
  }

  // ---------------------------------------------------------------- status words

  function Word(status: Status): string {
    match status
    case Accepted => "accepted"
    case Queued => "queued"
    case Running => "running"
    case Succeeded => "succeeded"
    case PartiallySucceeded => "partially_succeeded"
    case Failed => "failed"
    case Cancelled => "cancelled"
  }

  /** Every status is read from its own word and from no other, and four words end the stream. */
  lemma WordsAreRead(word: string, status: Status)
    ensures ParseStatus(word) == Some(status) <==> word == Word(status)
    ensures IsTerminal(status) <==> Word(status) in {"succeeded", "partially_succeeded", "failed", "cancelled"}
  {
    var words := [Word(Accepted), Word(Queued), Word(Running), Word(Succeeded), Word(PartiallySucceeded), Word(Failed),
                  Word(Status.Cancelled)];
    assert forall i, j | 0 <= i < j < |words| :: |words[i]| != |words[j]| || words[i][0] != words[j][0];
  }

  // ---------------------------------------------------------------- a progress event

  /** The lines of one progress event: identifier, name, and the payload's lines. */
  function ProgressLines(id: string, data: seq<string>): seq<string> {
    ["id: " + id, "event: progress"] + DataLines(data)
  }

  function DataLines(data: seq<string>): seq<string> {
    if data == [] then [] else DataLines(data[..|data| - 1]) + ["data: " + data[|data| - 1]]
  }

  predicate OneLine(text: string) { '\n' !in text && '\r' !in text }

  lemma PlainField(name: string, value: string)
    requires name != "" && ':' !in name && OneLine(name) && OneLine(value)
    ensures Plain(name + ": " + value) && Spells(name + ": " + value, name, value)
  {
    var line := name + ": " + value;
    forall i | 0 <= i < |line| ensures line[i] != '\n' && line[i] != '\r' {
      assert i < |name| ==> line[i] == name[i] && line[i] in name;
      assert i >= |name| + 2 ==> line[i] == value[i - |name| - 2] && line[i] in value;
    }
    assert Plain(line);
    ReturnDrops(line, false);
  }

  lemma ReadOneMore(lines: seq<string>, raw: string)
    ensures ReadLines(lines + [raw]) == ReadLine(ReadLines(lines), raw)
  {
    assert (lines + [raw])[..|lines|] == lines;
  }

  lemma HeaderIsRead(id: string)
    requires OneLine(id)
    ensures ReadLines(["id: " + id, "event: progress"]) == Fields(Some(id), Some("progress"), [])
    ensures AllPlain(["id: " + id, "event: progress"])
  {
    PlainField("id", id);
    PlainField("event", "progress");
    assert "id" + ": " + id == "id: " + id && "event" + ": " + "progress" == "event: progress";
    assert [] + ["id: " + id] == ["id: " + id];
    assert ["id: " + id] + ["event: progress"] == ["id: " + id, "event: progress"];
    ReadOneMore([], "id: " + id);
    ReadOneMore(["id: " + id], "event: progress");
    OneLineRead(NO_FIELDS, "id: " + id, id);
    OneLineRead(Fields(Some(id), None, []), "event: progress", "progress");
  }

  lemma {:induction false} ProgressIsRead(id: string, data: seq<string>)
    requires OneLine(id) && forall k | 0 <= k < |data| :: OneLine(data[k])
    ensures ReadLines(ProgressLines(id, data)) == Fields(Some(id), Some("progress"), data)
    ensures AllPlain(ProgressLines(id, data))
    decreases |data|
  {
    if data == [] {
      HeaderIsRead(id);
      assert ProgressLines(id, data) == ["id: " + id, "event: progress"];
    } else {
      var before, last := data[..|data| - 1], data[|data| - 1];
      assert before + [last] == data;
      assert forall k | 0 <= k < |before| :: before[k] == data[k];
      ProgressIsRead(id, before);
      DataLineIsRead(id, before, last);
    }
  }

  lemma DataLineIsRead(id: string, before: seq<string>, last: string)
    requires OneLine(last)
    ensures ReadLines(ProgressLines(id, before + [last]))
            == ReadLines(ProgressLines(id, before)).(data := ReadLines(ProgressLines(id, before)).data + [last])
    ensures AllPlain(ProgressLines(id, before)) ==> AllPlain(ProgressLines(id, before + [last]))
  {
    PlainField("data", last);
    assert "data" + ": " + last == "data: " + last;
    assert (before + [last])[..|before|] == before;
    assert ProgressLines(id, before + [last]) == ProgressLines(id, before) + ["data: " + last];
    ReadOneMore(ProgressLines(id, before), "data: " + last);
    OneLineRead(ReadLines(ProgressLines(id, before)), "data: " + last, last);
  }

  /** What the payload, the identifier and the status word of a progress event make of it: a frame that says
      the same, or a malformed one when any of them cannot be decoded. */
  predicate SaysTheSame(codec: Codec, id: string, payload: string, item: Result<Option<Frame>, StreamFault>) {
    match codec.json(payload)
    case None => item == Err(MalformedFrame)
    case Some(wire) =>
      if codec.uuid(id).Some? && codec.instant(wire.observedAt).Some? && ParseStatus(wire.status).Some? then
        && item.Ok? && item.value.Some?
        && var frame := item.value.value;
           && frame.event == codec.uuid(id).value && Word(frame.status) == wire.status
           && frame.observedAt == codec.instant(wire.observedAt).value
           && frame.stage == wire.stage && frame.percent == wire.percent && frame.message == wire.message
      else item == Err(MalformedFrame)
  }

  lemma FieldsMakeFrame(codec: Codec, id: string, data: seq<string>)
    requires data != []
    ensures SaysTheSame(codec, id, Joined(data), FrameOf(codec, Fields(Some(id), Some("progress"), data)))
  {
    var wire := codec.json(Joined(data));
    if wire.Some? && ParseStatus(wire.value.status).Some? {
      WordsAreRead(wire.value.status, ParseStatus(wire.value.status).value);
    }
  }

  /** A progress event is read back as it was written, with whatever line endings. */
  lemma ProgressFrameIsReadBack(codec: Codec, w: Written, id: string, data: seq<string>)
    requires OneLine(id) && data != [] && forall k | 0 <= k < |data| :: OneLine(data[k])
    requires w.lines == ProgressLines(id, data) && |w.crs| == |w.lines|
    ensures WellWritten(w) && SaysTheSame(codec, id, Joined(data), ParseEvent(codec, BodyOf(w)))
  {
    ProgressIsRead(id, data);
    assert AllPlain(w.lines);
    BodyReadsAsItsLines(w);
    FieldsMakeFrame(codec, id, data);
  }

  /** An event of another name, or without data, is skipped, whatever it holds. */
  lemma OtherEventsAreSkipped(codec: Codec, text: string)
    requires ReadLines(Lines(text)).name != Some("progress") || ReadLines(Lines(text)).data == []
    ensures ParseEvent(codec, text) == Ok(None)
  {
  }
}
