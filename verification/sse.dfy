/** Server-sent event framing of backend/app/lib/sse.py, against the event-stream
    format of section 9.2.5 ("Parsing an event stream") and the line interpretation of
    section 9.2.6 ("Interpreting an event stream") of the WHATWG HTML Living Standard,
    restricted to LF line endings and the `event` and `data` fields.

    The payload is given as its JSON text; `json.dumps` without `indent` never emits a
    line break (newlines inside strings are escaped), which is what the round trip
    needs. */
module Sse {
  import opened Seqs

  datatype EventType = Translation | Transcription | ErrorEvent

  function TypeName(t: EventType): (s: string)
    ensures s in ["translation", "transcription", "error"]
  {
    match t
    case Translation => "translation"
    case Transcription => "transcription"
    case ErrorEvent => "error"
  }

  function CreateSseResponse(t: EventType, json: string): (r: string)
    // the frame starts with the event field and ends with the blank line that dispatches it
    ensures |r| >= 9 && r[..7] == "event: " && r[|r| - 2..] == "\n\n"
  {
    "event: " + TypeName(t) + "\n" + "data: " + json + "\n\n"
  }

  predicate NoLineBreak(s: string)
  {
    Avoids(s, '\n') && Avoids(s, '\r')
  }

  lemma NoLineBreakJoin(a: string, b: string)
    requires NoLineBreak(a) && NoLineBreak(b)
    ensures NoLineBreak(a + b)
  {
    assert forall i :: |a| <= i < |a + b| ==> (a + b)[i] == b[i - |a|];
  }

  lemma TypeNameNoLineBreak(t: EventType)
    ensures NoLineBreak(TypeName(t))
  {
  }

  /** The framed event is two lines and the blank line that dispatches it. */
  lemma FrameLines(t: EventType, json: string)
    requires NoLineBreak(json)
    ensures Split(CreateSseResponse(t, json), '\n') == ["event: " + TypeName(t), "data: " + json, "", ""]
  {
    var ev, dt := "event: " + TypeName(t), "data: " + json;
    TypeNameNoLineBreak(t);
    NoLineBreakJoin("event: ", TypeName(t));
    NoLineBreakJoin("data: ", json);
    var tail := "" + "\n" + "";
    assert CreateSseResponse(t, json) == ev + "\n" + (dt + "\n" + tail);
    SplitAppend(ev, '\n', dt + "\n" + tail);
    SplitAppend(dt, '\n', tail);
    SplitAppend("", '\n', "");
  }

  // ------------------------------------------------------ the stream parser

  /** A dispatched event: its type and its data. */
  datatype Event = Event(eventType: string, data: string)

  /** The parser's buffers between lines. */
  datatype Parser = Parser(eventType: string, data: string, dispatched: seq<Event>)

  /** The field name is what precedes the first colon; the value follows it, less one
      leading space. A line without a colon is a field with an empty value. */
  function FieldName(line: string): string
  {
    if |line| == 0 || line[0] == ':' then [] else [line[0]] + FieldName(line[1..])
  }

  function FieldValue(line: string): string
  {
    var n := |FieldName(line)|;
    FieldNameLength(line);
    if n == |line| then ""
    else
      var v := line[n + 1..];
      if |v| > 0 && v[0] == ' ' then v[1..] else v
  }

  lemma {:induction false} FieldNameLength(line: string)
    ensures |FieldName(line)| <= |line|
    ensures FieldName(line) == line[..|FieldName(line)|]
    ensures |FieldName(line)| < |line| ==> line[|FieldName(line)|] == ':'
    decreases |line|
  {
    if |line| > 0 && line[0] != ':' {
      FieldNameLength(line[1..]);
    }
  }

  lemma {:induction false} FieldOf(name: string, value: string)
    requires forall i :: 0 <= i < |name| ==> name[i] != ':'
    ensures FieldName(name + ": " + value) == name
    ensures FieldValue(name + ": " + value) == value
    decreases |name|
  {
    var line := name + ": " + value;
    if |name| == 0 {
      assert line[0] == ':';
    } else {
      assert line[1..] == name[1..] + ": " + value;
      FieldOf(name[1..], value);
    }
    FieldNameLength(line);
    assert line[|name| + 1..] == " " + value;
  }

  /** One line: a blank line dispatches (when there is data, without its final line
      feed), a comment is skipped, `event` sets the type and `data` appends a line. */
  function ProcessLine(p: Parser, line: string): Parser
  {
    if |line| == 0 then
      if |p.data| == 0 then Parser("", "", p.dispatched)
      else
        var data := if p.data[|p.data| - 1] == '\n' then p.data[..|p.data| - 1] else p.data;
        Parser("", "", p.dispatched + [Event(if |p.eventType| == 0 then "message" else p.eventType, data)])
    else if line[0] == ':' then p
    else if FieldName(line) == "event" then p.(eventType := FieldValue(line))
    else if FieldName(line) == "data" then p.(data := p.data + FieldValue(line) + "\n")
    else p
  }

  function ProcessLines(p: Parser, lines: seq<string>): Parser
    decreases |lines|
  {
    if |lines| == 0 then p else ProcessLines(ProcessLine(p, lines[0]), lines[1..])
  }

  /** The events of a stream. Only lines ended by a line feed are processed: the text
      after the last one is an incomplete line, discarded at the end of the stream. */
  function Parse(stream: string): seq<Event>
  {
    var pieces := Split(stream, '\n');
    ProcessLines(Parser("", "", []), pieces[..|pieces| - 1]).dispatched
  }

  lemma EventLine(p: Parser, name: string)
    ensures ProcessLine(p, "event: " + name) == p.(eventType := name)
  {
    assert "event: " + name == "event" + ": " + name;
    FieldOf("event", name);
    assert ("event: " + name)[0] == 'e';
  }

  lemma DataLine(p: Parser, value: string)
    ensures ProcessLine(p, "data: " + value) == p.(data := p.data + value + "\n")
  {
    assert "data: " + value == "data" + ": " + value;
    FieldOf("data", value);
    assert ("data: " + value)[0] == 'd';
  }

  lemma DispatchLine(eventType: string, data: string)
    requires |eventType| > 0
    ensures ProcessLine(Parser(eventType, data + "\n", []), "") == Parser("", "", [Event(eventType, data)])
  {
    assert (data + "\n")[..|data|] == data;
  }

  /** The frame is read back as one event of the given type carrying the JSON text. */
  lemma RoundTrip(t: EventType, json: string)
    requires NoLineBreak(json) && |json| > 0
    ensures Parse(CreateSseResponse(t, json)) == [Event(TypeName(t), json)]
  {
    FrameLines(t, json);
    var (l0, l1) := ("event: " + TypeName(t), "data: " + json);
    var lines := [l0, l1, ""];
    assert Split(CreateSseResponse(t, json), '\n')[..3] == lines;
    var p0 := Parser("", "", []);
    EventLine(p0, TypeName(t));
    var p1 := ProcessLine(p0, l0);
    DataLine(p1, json);
    var p2 := ProcessLine(p1, l1);
    assert p2 == Parser(TypeName(t), json + "\n", []);
    DispatchLine(TypeName(t), json);
    var p3 := ProcessLine(p2, "");
    assert ProcessLines(p0, lines) == ProcessLines(p1, lines[1..]);
    assert ProcessLines(p1, lines[1..]) == ProcessLines(p2, lines[1..][1..]);
    assert ProcessLines(p2, lines[1..][1..]) == ProcessLines(p3, lines[1..][1..][1..]);
    assert lines[1..][1..][1..] == [];
  }
}
