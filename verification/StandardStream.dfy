/** The event-stream interpretation of the WHATWG HTML standard, sections 9.2.5 (Parsing an event stream) and 9.2.6
    (Interpreting an event stream), against which the server's printers and the client's parser are compared. The fields
    `id` and `retry` have no effect on what is dispatched and are ignored here. */
module StandardStream {
  import opened EventStream
  import opened NotificationStream
  import opened StreamRoundTrip
  import opened TextSearch

  /** The line so far, whether a carriage return has just ended one, and the standard's two buffers. */
  datatype Reader = Reader(line: string, afterReturn: bool, eventType: string, data: string, events: seq<Notification>)

  const NEW_READER: Reader := Reader("", false, "", "", [])

  function WithoutSpace(value: string): string {
    if value != "" && value[0] == ' ' then value[1..] else value
  }

  function ProcessField(r: Reader, field: string, value: string): Reader {
    if field == "event" then r.(eventType := value)
    else if field == "data" then r.(data := r.data + value + "\n")
    else r
  }

  function DispatchEvent(r: Reader): Reader {
    if r.data == "" then r.(eventType := "")
    else
      var data := if r.data[|r.data| - 1] == '\n' then r.data[..|r.data| - 1] else r.data;
      r.(eventType := "", data := "",
         events := r.events + [Notification(if r.eventType == "" then "message" else r.eventType, data)])
  }

  function ProcessLine(r: Reader, line: string): Reader {
    if line == "" then DispatchEvent(r)
    else if line[0] == ':' then r
    else
      var colon := Find(line, ':', 0);
      if colon < |line| then ProcessField(r, line[..colon], WithoutSpace(line[colon + 1..]))
      else ProcessField(r, line, "")
  }

  /** A line ends with "\n", "\r" or "\r\n". */
  function ReadChar(r: Reader, c: char): Reader {
    if c == '\n' && r.afterReturn then r.(afterReturn := false)
    else if c == '\n' || c == '\r' then ProcessLine(r.(line := "", afterReturn := c == '\r'), r.line)
    else r.(line := r.line + [c], afterReturn := false)
  }

  function Read(r: Reader, text: string): Reader
    decreases |text|
  {
    if text == "" then r else Read(ReadChar(r, text[0]), text[1..])
  }

  // ------------------------------------------------------------ reading printed text

  predicate BetweenLines(r: Reader) {
    r.line == "" && !r.afterReturn
  }

  predicate PlainLine(line: string) {
    '\n' !in line && '\r' !in line
  }

  lemma {:induction false} ReadLine(r: Reader, line: string, rest: string)
    requires !r.afterReturn && PlainLine(line)
    ensures Read(r, line + "\n" + rest) == Read(ProcessLine(r.(line := ""), r.line + line), rest)
    decreases |line|
  {
    var text := line + "\n" + rest;
    if line == "" {
      assert text[0] == '\n' && text[1..] == rest;
      assert r.line + line == r.line;
    } else {
      assert text[0] == line[0] && text[1..] == line[1..] + "\n" + rest;
      assert line[0] in line && forall c | c in line[1..] :: c in line;
      ReadLine(r.(line := r.line + [line[0]]), line[1..], rest);
      assert r.line + [line[0]] + line[1..] == r.line + line;
    }
  }

  /** A field printed with one blank after the colon has the value that was printed. */
  lemma FieldLine(r: Reader, field: string, value: string)
    requires field != "" && ':' !in field
    ensures ProcessLine(r, field + ": " + value) == ProcessField(r, field, value)
  {
    var line := field + ": " + value;
    assert line[0] in field;
    ColonAfterField(field, " " + value);
    assert line == field + ":" + (" " + value);
    assert line[..|field|] == field && line[|field| + 1..] == " " + value;
    assert (" " + value)[1..] == value;
  }

  lemma ColonAfterField(field: string, rest: string)
    requires ':' !in field
    ensures Find(field + ":" + rest, ':', 0) == |field|
  {
    var line := field + ":" + rest;
    assert forall i | 0 <= i < |field| :: line[i] == field[i] && field[i] in field;
    assert line[|field|] == ':';
  }

  function Terminated(lines: seq<string>): string {
    if lines == [] then "" else lines[0] + "\n" + Terminated(lines[1..])
  }

  lemma FirstField(prefix: string, lines: seq<string>, rest: string)
    requires lines != []
    ensures Fields(prefix, lines) + rest == (prefix + lines[0]) + "\n" + (Fields(prefix, lines[1..]) + rest)
  {
  }

  lemma TerminatedFirst(data: string, lines: seq<string>)
    requires lines != []
    ensures (data + lines[0] + "\n") + Terminated(lines[1..]) == data + Terminated(lines)
  {
  }

  lemma ReadDataField(r: Reader, line: string, rest: string)
    requires BetweenLines(r) && PlainLine(line)
    ensures Read(r, ("data: " + line) + "\n" + rest) == Read(r.(data := r.data + line + "\n"), rest)
  {
    ReadLine(r, "data: " + line, rest);
    assert "" + ("data: " + line) == "data" + ": " + line;
    FieldLine(r, "data", line);
  }

  lemma {:induction false} ReadDataFields(r: Reader, lines: seq<string>, rest: string)
    requires BetweenLines(r) && forall l | l in lines :: PlainLine(l)
    ensures Read(r, Fields("data: ", lines) + rest) == Read(r.(data := r.data + Terminated(lines)), rest)
    decreases |lines|
  {
    if lines == [] {
      assert Fields("data: ", lines) + rest == rest && r.data + "" == r.data;
    } else {
      assert lines[0] in lines;
      FirstField("data: ", lines, rest);
      ReadDataField(r, lines[0], Fields("data: ", lines[1..]) + rest);
      ReadDataFields(r.(data := r.data + lines[0] + "\n"), lines[1..], rest);
      TerminatedFirst(r.data, lines);
    }
  }

  lemma {:induction false} ReadCommentFields(r: Reader, lines: seq<string>, rest: string)
    requires BetweenLines(r) && forall l | l in lines :: PlainLine(l)
    ensures Read(r, Fields(": ", lines) + rest) == Read(r, rest)
    decreases |lines|
  {
    if lines == [] {
      assert Fields(": ", lines) + rest == rest;
    } else {
      var tail := Fields(": ", lines[1..]) + rest;
      assert Fields(": ", lines) + rest == ": " + lines[0] + "\n" + tail;
      assert lines[0] in lines && PlainLine(": " + lines[0]);
      ReadLine(r, ": " + lines[0], tail);
      assert ("" + (": " + lines[0]))[0] == ':';
      ReadCommentFields(r, lines[1..], rest);
    }
  }

  /** What the data fields of one event accumulate to is the data and a newline. */
  lemma {:induction false} TerminatedLines(data: string)
    ensures Terminated(Lines(data)) == data + "\n"
    decreases |data|
  {
    var pos := Find(data, '\n', 0);
    if pos < |data| {
      TerminatedLines(data[pos + 1..]);
      assert Lines(data)[1..] == Lines(data[pos + 1..]);
      assert data == data[..pos] + "\n" + data[pos + 1..];
    } else {
      assert Lines(data) == [data] && Terminated([data]) == data + "\n" + Terminated([]);
    }
  }

  lemma {:induction false} PlainLines(text: string)
    requires '\r' !in text
    ensures forall l | l in Lines(text) :: PlainLine(l)
    decreases |text|
  {
    var pos := Find(text, '\n', 0);
    assert forall c | c in text[..pos] :: c in text;
    if pos < |text| {
      assert forall c | c in text[pos + 1..] :: c in text;
      PlainLines(text[pos + 1..]);
    }
  }

  predicate WithoutReturns(item: Item) {
    match item
    case Event(name, data) => PlainLine(name) && '\r' !in data
    case Comment(text) => '\r' !in text
  }

  /** What the standard dispatches for a printed item. */
  function Standard(item: Item): seq<Notification> {
    if item.Comment? then [] else [Notification(if item.name == "" then "message" else item.name, item.data)]
  }

  function StandardAll(items: seq<Item>): seq<Notification> {
    if items == [] then [] else Standard(items[0]) + StandardAll(items[1..])
  }

  predicate Waiting(r: Reader) {
    BetweenLines(r) && r.eventType == "" && r.data == ""
  }

  lemma ReadEventName(r: Reader, name: string, rest: string)
    requires Waiting(r) && PlainLine(name)
    ensures Read(r, (if name == "" then "" else "event: " + name + "\n") + rest) == Read(r.(eventType := name), rest)
  {
    if name == "" {
      assert "" + rest == rest;
    } else {
      assert PlainLine("event: " + name);
      ReadLine(r, "event: " + name, rest);
      assert "" + ("event: " + name) == "event" + ": " + name;
      FieldLine(r, "event", name);
    }
  }

  lemma ReadBlank(r: Reader, rest: string)
    requires BetweenLines(r)
    ensures Read(r, "\n" + rest) == Read(DispatchEvent(r), rest)
  {
    assert "" + "\n" + rest == "\n" + rest;
    ReadLine(r, "", rest);
  }

  lemma ReadEventBody(r: Reader, data: string, rest: string)
    requires BetweenLines(r) && r.data == "" && '\r' !in data
    ensures Read(r, Fields("data: ", Lines(data)) + ("\n" + rest)) == Read(DispatchEvent(r.(data := data + "\n")), rest)
  {
    PlainLines(data);
    ReadDataFields(r, Lines(data), "\n" + rest);
    TerminatedLines(data);
    assert "" + (data + "\n") == data + "\n";
    ReadBlank(r.(data := data + "\n"), rest);
  }

  lemma ReadEvent(r: Reader, name: string, data: string, rest: string)
    requires Waiting(r) && PlainLine(name) && '\r' !in data
    ensures Read(r, EventText(name, data) + rest) == Read(r.(events := r.events + Standard(Event(name, data))), rest)
  {
    var body := Fields("data: ", Lines(data)) + ("\n" + rest);
    assert EventText(name, data) + rest == (if name == "" then "" else "event: " + name + "\n") + body;
    ReadEventName(r, name, body);
    ReadEventBody(r.(eventType := name), data, rest);
  }

  lemma ReadComment(r: Reader, text: string, rest: string)
    requires Waiting(r) && '\r' !in text
    ensures Read(r, CommentText(text) + rest) == Read(r, rest)
  {
    assert CommentText(text) + rest == Fields(": ", Lines(text)) + ("\n" + rest);
    PlainLines(text);
    ReadCommentFields(r, Lines(text), "\n" + rest);
    ReadBlank(r, rest);
  }

  /** By the standard, whatever the server prints without carriage returns comes out verbatim, event by event. */
  lemma {:induction false} StandardReadsPrinted(r: Reader, items: seq<Item>)
    requires Waiting(r) && forall i | i in items :: WithoutReturns(i)
    ensures Read(r, PrintAll(items)) == r.(events := r.events + StandardAll(items))
    decreases |items|
  {
    if items == [] {
      assert r.events + [] == r.events;
    } else {
      var item, rest := items[0], items[1..];
      assert item in items && forall i | i in rest :: i in items;
      match item {
        case Event(name, data) => ReadEvent(r, name, data, PrintAll(rest));
        case Comment(text) =>
          ReadComment(r, text, PrintAll(rest));
          assert r.events + [] == r.events;
      }
      StandardReadsPrinted(r.(events := r.events + Standard(item)), rest);
      EventsAssociate(r.events, Standard(item), StandardAll(rest));
    }
  }

  lemma DeliveredIsStandardIff(name: string, data: string, isObject: string -> bool)
    ensures Delivered(Event(name, data), isObject) == Standard(Event(name, data)) <==>
              name != "" && Trim(name) == name && Survives(data) && isObject(data)
  {
    ReceivedVerbatimIff(data);
    if name != "" {
      DeliveredItemIff(name, data, isObject);
    }
  }

  /** On everything the server is to emit, the client and the standard agree. */
  lemma ClientMatchesStandard(items: seq<Item>, isObject: string -> bool)
    requires forall i | i in items :: Emittable(i, isObject) && WithoutReturns(i)
    ensures Feed(NEW_PARSER, PrintAll(items), isObject).events == Read(NEW_READER, PrintAll(items)).events
  {
    ParsingUndoesPrinting(items, isObject);
    StandardReadsPrinted(NEW_READER, items);
    StandardIsEvents(items, isObject);
  }

  lemma {:induction false} StandardIsEvents(items: seq<Item>, isObject: string -> bool)
    requires forall i | i in items :: Emittable(i, isObject)
    ensures StandardAll(items) == Events(items)
  {
    if items != [] {
      assert items[0] in items;
      StandardIsEvents(items[1..], isObject);
    }
  }
}
