/** The client parses back what the server prints. */
module StreamRoundTrip {
  import opened EventStream
  import opened NotificationStream

  datatype Item = Event(name: string, data: string) | Comment(text: string)

  function Print(item: Item): string {
    match item
    case Event(name, data) => EventText(name, data)
    case Comment(text) => CommentText(text)
  }

  function PrintAll(items: seq<Item>): string {
    if items == [] then "" else Print(items[0]) + PrintAll(items[1..])
  }

  /** What the data lines of one event accumulate to. */
  function DataFrom(data: string, lines: seq<string>): string
    decreases |lines|
  {
    if lines == [] then data else DataFrom(AppendData(data, lines[0]), lines[1..])
  }

  function Received(data: string): string {
    DataFrom("", Lines(data))
  }

  /** The notifications one printed item makes the client deliver. */
  function Delivered(item: Item, isObject: string -> bool): seq<Notification> {
    if item.Comment? then []
    else
      var name, data := Trim(item.name), Received(item.data);
      if (name == "" && data == "") || !isObject(data) then [] else [Notification(name, data)]
  }

  function DeliveredAll(items: seq<Item>, isObject: string -> bool): seq<Notification> {
    if items == [] then [] else Delivered(items[0], isObject) + DeliveredAll(items[1..], isObject)
  }

  predicate OneLineName(item: Item) {
    item.Event? ==> SingleLine(item.name)
  }

  predicate Idle(p: Parser) {
    p.buffer == "" && p.name == "" && p.data == ""
  }

  // ------------------------------------------------------------ trimming

  lemma {:induction false} TrimLeftSpaces(s: string)
    ensures TrimLeft(s) == "" || !IsSpace(TrimLeft(s)[0])
    ensures |TrimLeft(s)| <= |s|
    ensures |TrimLeft(s)| == |s| ==> TrimLeft(s) == s
  {
    if s != "" && IsSpace(s[0]) {
      TrimLeftSpaces(s[1..]);
    }
  }

  lemma {:induction false} TrimLeftPush(s: string, c: char)
    requires IsSpace(c)
    ensures TrimLeft(s + [c]) == if TrimLeft(s) == "" then "" else TrimLeft(s) + [c]
  {
    if s == "" {
      assert (s + [c])[1..] == "";
    } else if IsSpace(s[0]) {
      assert (s + [c])[1..] == s[1..] + [c];
      TrimLeftPush(s[1..], c);
    }
  }

  /** A trailing blank does not matter. */
  lemma TrimPush(s: string, c: char)
    requires IsSpace(c)
    ensures Trim(s + [c]) == Trim(s)
  {
    TrimLeftPush(s, c);
    var t := TrimLeft(s);
    if t != "" {
      assert (t + [c])[..|t + [c]| - 1] == t;
    }
  }

  lemma {:induction false} TrimRightShorter(s: string)
    ensures |TrimRight(s)| <= |s| && (|TrimRight(s)| == |s| ==> TrimRight(s) == s)
  {
    if s != "" && IsSpace(s[|s| - 1]) {
      TrimRightShorter(s[..|s| - 1]);
    }
  }

  lemma TrimShorter(s: string)
    ensures |Trim(s)| <= |s| && (|Trim(s)| == |s| ==> Trim(s) == s)
  {
    TrimLeftSpaces(s);
    TrimRightShorter(TrimLeft(s));
  }

  /** The blank after the colon and the carriage return that is chopped off the line are trimmed anyway. */
  lemma FieldValueTrims(value: string, prefix: string)
    requires |prefix| >= 1 && prefix[|prefix| - 1] == ' '
    ensures var line := ChopReturn(prefix + value);
            |line| >= |prefix| && line[..|prefix|] == prefix && Trim(line[|prefix| - 1..]) == Trim(value)
  {
    var full := prefix + value;
    if value != "" && value[|value| - 1] == '\r' {
      var v := value[..|value| - 1];
      assert full[|full| - 1] == '\r' && full[..|full| - 1] == prefix + v;
      assert (prefix + v)[|prefix| - 1..] == [' '] + v;
      assert ([' '] + v)[1..] == v;
      assert value == v + ['\r'];
      TrimPush(v, '\r');
    } else {
      assert full[|full| - 1] != '\r';
      assert full[|prefix| - 1..] == [' '] + value;
      assert ([' '] + value)[1..] == value;
    }
  }

  lemma {:induction false} TrimRightEnds(s: string)
    ensures TrimRight(s) <= s && (TrimRight(s) == "" || !IsSpace(TrimRight(s)[|TrimRight(s)| - 1]))
  {
    if s != "" && IsSpace(s[|s| - 1]) {
      TrimRightEnds(s[..|s| - 1]);
    }
  }

  lemma {:induction false} TrimKeepsSingle(s: string)
    requires SingleLine(s)
    ensures SingleLine(Trim(s))
  {
    TrimLeftPart(s);
    TrimRightEnds(TrimLeft(s));
    forall c | c in Trim(s) ensures c != '\n' {
      var k :| 0 <= k < |Trim(s)| && Trim(s)[k] == c;
      assert TrimLeft(s)[k] == c;
    }
  }

  lemma {:induction false} TrimLeftPart(s: string)
    ensures forall c | c in TrimLeft(s) :: c in s
  {
    if s != "" && IsSpace(s[0]) {
      TrimLeftPart(s[1..]);
    }
  }

  /** Space, tab, newline, vertical tab, form feed, carriage return. */
  const BLANKS := " \t\n\U{0B}\U{0C}\r"

  predicate AllBlank(text: string) {
    forall c | c in text :: c in BLANKS
  }

  lemma {:induction false} TrimLeftCuts(s: string) returns (front: string)
    ensures AllBlank(front) && s == front + TrimLeft(s)
  {
    front := "";
    if s != "" && IsSpace(s[0]) {
      var f := TrimLeftCuts(s[1..]);
      front := [s[0]] + f;
    }
  }

  lemma {:induction false} TrimRightCuts(s: string) returns (back: string)
    ensures AllBlank(back) && s == TrimRight(s) + back
  {
    back := "";
    if s != "" && IsSpace(s[|s| - 1]) {
      var b := TrimRightCuts(s[..|s| - 1]);
      back := b + [s[|s| - 1]];
      assert s == s[..|s| - 1] + [s[|s| - 1]];
    }
  }

  /** Trimming takes blanks off both ends, all of them and nothing else. */
  lemma TrimCutsBlanks(s: string) returns (front: string, back: string)
    ensures AllBlank(front) && AllBlank(back) && s == front + Trim(s) + back
    ensures Trim(s) != "" ==> Trim(s)[0] !in BLANKS && Trim(s)[|Trim(s)| - 1] !in BLANKS
  {
    front := TrimLeftCuts(s);
    back := TrimRightCuts(TrimLeft(s));
    TrimLeftSpaces(s);
    TrimRightEnds(TrimLeft(s));
    if Trim(s) != "" {
      assert Trim(s)[0] == TrimLeft(s)[0];
      NotBlank(Trim(s)[0]);
      NotBlank(Trim(s)[|Trim(s)| - 1]);
    }
  }

  lemma NotBlank(c: char)
    requires !IsSpace(c)
    ensures c !in BLANKS
  {
  }

  // ------------------------------------------------------------ feeding printed text

  lemma ConsumeEventLine(p: Parser, name: string, isObject: string -> bool)
    ensures ConsumeLine(p, ChopReturn("event: " + name), isObject) == p.(name := Trim(name))
  {
    FieldValueTrims(name, "event: ");
    var line := ChopReturn("event: " + name);
    assert line[0] == 'e' && line[..6] == "event: "[..6] == "event:";
  }

  lemma ConsumeDataLine(p: Parser, line: string, isObject: string -> bool)
    ensures ConsumeLine(p, ChopReturn("data: " + line), isObject) == p.(data := AppendData(p.data, line))
  {
    FieldValueTrims(line, "data: ");
    var chopped := ChopReturn("data: " + line);
    assert chopped[0] == 'd' && chopped[..5] == "data: "[..5] == "data:";
  }

  lemma {:induction false} FeedDataFields(p: Parser, lines: seq<string>, rest: string, isObject: string -> bool)
    requires p.buffer == "" && forall l | l in lines :: SingleLine(l)
    ensures Feed(p, Fields("data: ", lines) + rest, isObject)
            == Feed(p.(data := DataFrom(p.data, lines)), rest, isObject)
    decreases |lines|
  {
    if lines == [] {
      assert Fields("data: ", lines) + rest == rest;
    } else {
      var tail := Fields("data: ", lines[1..]) + rest;
      assert Fields("data: ", lines) + rest == "data: " + lines[0] + "\n" + tail;
      assert lines[0] in lines;
      FeedLine(p, "data: " + lines[0], tail, isObject);
      ConsumeDataLine(p, lines[0], isObject);
      FeedDataFields(p.(data := AppendData(p.data, lines[0])), lines[1..], rest, isObject);
    }
  }

  lemma {:induction false} FeedCommentFields(p: Parser, lines: seq<string>, rest: string, isObject: string -> bool)
    requires p.buffer == "" && forall l | l in lines :: SingleLine(l)
    ensures Feed(p, Fields(": ", lines) + rest, isObject) == Feed(p, rest, isObject)
    decreases |lines|
  {
    if lines == [] {
      assert Fields(": ", lines) + rest == rest;
    } else {
      var tail := Fields(": ", lines[1..]) + rest;
      assert Fields(": ", lines) + rest == ": " + lines[0] + "\n" + tail;
      assert lines[0] in lines;
      FeedLine(p, ": " + lines[0], tail, isObject);
      FeedCommentFields(p, lines[1..], rest, isObject);
    }
  }

  lemma FeedEventBody(p: Parser, data: string, rest: string, isObject: string -> bool)
    requires p.buffer == "" && p.data == ""
    ensures Feed(p, Fields("data: ", Lines(data)) + ("\n" + rest), isObject)
            == Feed(Dispatch(p.(data := Received(data)), isObject), rest, isObject)
  {
    FeedDataFields(p, Lines(data), "\n" + rest, isObject);
  }

  lemma FeedEventName(p: Parser, name: string, rest: string, isObject: string -> bool)
    requires Idle(p) && SingleLine(name)
    ensures Feed(p, (if name == "" then "" else "event: " + name + "\n") + rest, isObject)
            == Feed(p.(name := Trim(name)), rest, isObject)
  {
    if name == "" {
      assert "" + rest == rest;
    } else {
      FeedLine(p, "event: " + name, rest, isObject);
      ConsumeEventLine(p, name, isObject);
    }
  }

  lemma FeedEvent(p: Parser, name: string, data: string, rest: string, isObject: string -> bool)
    requires Idle(p) && SingleLine(name)
    ensures Feed(p, EventText(name, data) + rest, isObject)
            == Feed(p.(events := p.events + Delivered(Event(name, data), isObject)), rest, isObject)
  {
    var body := Fields("data: ", Lines(data)) + ("\n" + rest);
    assert EventText(name, data) + rest == (if name == "" then "" else "event: " + name + "\n") + body;
    FeedEventName(p, name, body, isObject);
    FeedEventBody(p.(name := Trim(name)), data, rest, isObject);
    DispatchDelivers(p, name, data, isObject);
  }

  lemma DispatchDelivers(p: Parser, name: string, data: string, isObject: string -> bool)
    requires Idle(p)
    ensures Dispatch(p.(name := Trim(name), data := Received(data)), isObject)
            == p.(events := p.events + Delivered(Event(name, data), isObject))
  {
  }

  lemma FeedComment(p: Parser, text: string, rest: string, isObject: string -> bool)
    requires Idle(p)
    ensures Feed(p, CommentText(text) + rest, isObject) == Feed(p, rest, isObject)
  {
    assert CommentText(text) + rest == Fields(": ", Lines(text)) + ("\n" + rest);
    FeedCommentFields(p, Lines(text), "\n" + rest, isObject);
  }

  lemma FeedItem(p: Parser, item: Item, rest: string, isObject: string -> bool)
    requires Idle(p) && OneLineName(item)
    ensures Feed(p, Print(item) + rest, isObject)
            == Feed(p.(events := p.events + Delivered(item, isObject)), rest, isObject)
  {
    match item {
      case Event(name, data) => FeedEvent(p, name, data, rest, isObject);
      case Comment(text) =>
        FeedComment(p, text, rest, isObject);
        assert p.events + [] == p.events;
    }
  }

  /** Any printed sequence of events with single-line names, and of comments, is delivered item by item, and
      the parser is left idle. */
  lemma {:induction false} FeedPrinted(p: Parser, items: seq<Item>, isObject: string -> bool)
    requires Idle(p) && forall i | i in items :: OneLineName(i)
    ensures Feed(p, PrintAll(items), isObject) == p.(events := p.events + DeliveredAll(items, isObject))
    decreases |items|
  {
    if items == [] {
      assert p.events + [] == p.events;
    } else {
      var item, rest, d := items[0], items[1..], Delivered(items[0], isObject);
      assert item in items && forall i | i in rest :: i in items;
      FeedItem(p, item, PrintAll(rest), isObject);
      FeedPrinted(p.(events := p.events + d), rest, isObject);
      EventsAssociate(p.events, d, DeliveredAll(rest, isObject));
    }
  }

  lemma EventsAssociate(a: seq<Notification>, b: seq<Notification>, c: seq<Notification>)
    ensures a + (b + c) == a + b + c
  {
  }

  // ------------------------------------------------------------ which data survive

  /** The data do not begin with an empty line (the client drops those), and trimming changes no line. */
  predicate Survives(data: string) {
    (data == "" || data[0] != '\n') && forall l | l in Lines(data) :: Trim(l) == l
  }

  /** With something accumulated, each line adds a newline and its trimmed text. */
  lemma {:induction false} DataFromSize(data: string, lines: seq<string>)
    requires |lines| >= 1 && data != ""
    ensures |DataFrom(data, lines)| <= |data| + 1 + |JoinLines(lines)|
    ensures DataFrom(data, lines) == data + "\n" + JoinLines(lines) <==> forall l | l in lines :: Trim(l) == l
    ensures |DataFrom(data, lines)| == |data| + 1 + |JoinLines(lines)| ==> forall l | l in lines :: Trim(l) == l
    decreases |lines|
  {
    var head := lines[0];
    var data' := AppendData(data, head);
    TrimShorter(head);
    if |lines| == 1 {
      assert DataFrom(data, lines) == data';
    } else {
      assert DataFrom(data, lines) == DataFrom(data', lines[1..]);
      DataFromSize(data', lines[1..]);
      if Trim(head) == head {
        assert data' + "\n" + JoinLines(lines[1..]) == data + "\n" + JoinLines(lines);
      }
      assert forall l :: l in lines <==> l == head || l in lines[1..];
    }
  }

  lemma {:induction false} ReceivedVerbatimIff(data: string)
    ensures Received(data) == data <==> Survives(data)
  {
    var lines := Lines(data);
    var head := lines[0];
    JoinUndoesLines(data);
    TrimShorter(head);
    if |lines| == 1 {
      assert DataFrom("", lines) == Trim(head);
    } else {
      assert DataFrom("", lines) == DataFrom(Trim(head), lines[1..]);
      if Trim(head) == "" {
        DataFromEmptySize(lines[1..]);
      } else {
        DataFromSize(Trim(head), lines[1..]);
        assert forall l :: l in lines <==> l == head || l in lines[1..];
      }
    }
  }

  /** With nothing accumulated no newline is added. */
  lemma {:induction false} DataFromEmptySize(lines: seq<string>)
    requires |lines| >= 1
    ensures |DataFrom("", lines)| <= |JoinLines(lines)|
    decreases |lines|
  {
    TrimShorter(lines[0]);
    if |lines| > 1 {
      if Trim(lines[0]) == "" {
        DataFromEmptySize(lines[1..]);
      } else {
        DataFromSize(Trim(lines[0]), lines[1..]);
      }
    }
  }

  lemma DeliveredItemIff(name: string, data: string, isObject: string -> bool)
    ensures Delivered(Event(name, data), isObject) == [Notification(name, data)]
            <==> Trim(name) == name && Survives(data) && isObject(data) && (name != "" || data != "")
  {
    ReceivedVerbatimIff(data);
  }

  /** No newline in the line read so far, in the event name, or in the name of an event delivered. */
  predicate OneLineNames(p: Parser) {
    SingleLine(p.buffer) && SingleLine(p.name) && forall e | e in p.events :: SingleLine(e.name)
  }

  lemma LineKeepsNames(p: Parser, line: string, isObject: string -> bool)
    requires OneLineNames(p) && SingleLine(line)
    ensures OneLineNames(ConsumeLine(p, line, isObject))
  {
    if "event:" <= line {
      assert forall c | c in line[6..] :: c in line;
      TrimKeepsSingle(line[6..]);
    }
  }

  lemma {:induction false} FeedKeepsNames(p: Parser, bytes: string, isObject: string -> bool)
    requires OneLineNames(p)
    ensures OneLineNames(Feed(p, bytes, isObject))
    decreases |bytes|
  {
    if bytes != "" {
      var line := ChopReturn(p.buffer);
      assert forall c | c in line :: c in p.buffer;
      LineKeepsNames(p.(buffer := ""), line, isObject);
      FeedKeepsNames(FeedByte(p, bytes[0], isObject), bytes[1..], isObject);
    }
  }

  /** For every name and data, an event comes out as it went in exactly if its name is one line and trimmed, its data
      survive and are a JSON object, and it is not wholly empty. */
  lemma DeliveredVerbatimIff(name: string, data: string, isObject: string -> bool)
    ensures Feed(NEW_PARSER, EventText(name, data), isObject).events == [Notification(name, data)] <==>
              && SingleLine(name) && Trim(name) == name
              && Survives(data) && isObject(data) && (name != "" || data != "")
  {
    if SingleLine(name) {
      assert EventText(name, data) + "" == EventText(name, data);
      FeedEvent(NEW_PARSER, name, data, "", isObject);
      DeliveredItemIff(name, data, isObject);
    } else {
      FeedKeepsNames(NEW_PARSER, EventText(name, data), isObject);
      assert [Notification(name, data)][0] in [Notification(name, data)];
    }
  }

  // ------------------------------------------------------------ round trip

  predicate Emittable(item: Item, isObject: string -> bool) {
    item.Event? ==> item.name != "" && SingleLine(item.name) && Trim(item.name) == item.name
                    && Survives(item.data) && isObject(item.data)
  }

  function Events(items: seq<Item>): seq<Notification> {
    if items == [] then []
    else (if items[0].Event? then [Notification(items[0].name, items[0].data)] else []) + Events(items[1..])
  }

  lemma {:induction false} EmittableDelivered(items: seq<Item>, isObject: string -> bool)
    requires forall i | i in items :: Emittable(i, isObject)
    ensures DeliveredAll(items, isObject) == Events(items)
  {
    if items != [] {
      assert items[0] in items;
      if items[0].Event? {
        DeliveredItemIff(items[0].name, items[0].data, isObject);
      }
      EmittableDelivered(items[1..], isObject);
    }
  }

  /** Parsing undoes printing. */
  lemma ParsingUndoesPrinting(items: seq<Item>, isObject: string -> bool)
    requires forall i | i in items :: Emittable(i, isObject)
    ensures Feed(NEW_PARSER, PrintAll(items), isObject) == Parser("", "", "", Events(items))
  {
    FeedPrinted(NEW_PARSER, items, isObject);
    EmittableDelivered(items, isObject);
  }
}
