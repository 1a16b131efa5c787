/** The client's incremental parser of the event stream. Characters stand for bytes; whether a text is a JSON
    object is a parameter. */
module NotificationStream {
  import opened EventStream
  import opened TextSearch

  datatype Notification = Notification(name: string, payload: string)

  datatype Parser = Parser(buffer: string, name: string, data: string, events: seq<Notification>)

  const NEW_PARSER: Parser := Parser("", "", "", [])

  predicate IsSpace(c: char) {
    c == ' ' || '\t' <= c <= '\r'
  }

  function TrimLeft(s: string): string {
    if s != "" && IsSpace(s[0]) then TrimLeft(s[1..]) else s
  }

  function TrimRight(s: string): string {
    if s != "" && IsSpace(s[|s| - 1]) then TrimRight(s[..|s| - 1]) else s
  }

  function Trim(s: string): string {
    TrimRight(TrimLeft(s))
  }

  function ChopReturn(line: string): string {
    if line != "" && line[|line| - 1] == '\r' then line[..|line| - 1] else line
  }

  function AppendData(data: string, line: string): string {
    if data == "" then Trim(line) else data + "\n" + Trim(line)
  }

  function Dispatch(p: Parser, isObject: string -> bool): Parser {
    if p.name == "" && p.data == "" then p
    else if !isObject(p.data) then p.(name := "", data := "")
    else p.(name := "", data := "", events := p.events + [Notification(p.name, p.data)])
  }

  function ConsumeLine(p: Parser, line: string, isObject: string -> bool): Parser {
    if line == "" then Dispatch(p, isObject)
    else if line[0] == ':' then p
    else if "event:" <= line then p.(name := Trim(line[6..]))
    else if "data:" <= line then p.(data := AppendData(p.data, line[5..]))
    else p
  }

  /** The parser as a byte automaton: the reference the chunked code is measured against. */
  function FeedByte(p: Parser, c: char, isObject: string -> bool): Parser {
    if c == '\n' then ConsumeLine(p.(buffer := ""), ChopReturn(p.buffer), isObject)
    else p.(buffer := p.buffer + [c])
  }

  function Feed(p: Parser, bytes: string, isObject: string -> bool): Parser
    decreases |bytes|
  {
    if bytes == "" then p else Feed(FeedByte(p, bytes[0], isObject), bytes[1..], isObject)
  }

  // ------------------------------------------------------------ the client

  class NotificationStreamClient {
    const isObject: string -> bool
    var buffer: string
    var currentName: string
    var currentData: string
    var delivered: seq<Notification>

    function Value(): Parser
      reads this
    {
      Parser(buffer, currentName, currentData, delivered)
    }

    constructor (isObject: string -> bool)
      ensures this.isObject == isObject && Value() == NEW_PARSER
    {
      this.isObject := isObject;
      buffer, currentName, currentData, delivered := "", "", "", [];
    }

    method DispatchCurrentEvent()
      modifies this`currentName, this`currentData, this`delivered
      ensures Value() == Dispatch(old(Value()), isObject)
      ensures currentName == "" && currentData == ""
      ensures delivered == old(delivered) +
                if (old(currentName) != "" || old(currentData) != "") && isObject(old(currentData))
                then [Notification(old(currentName), old(currentData))] else []
    {
      if currentName == "" && currentData == "" {
        return;
      }
      if isObject(currentData) {
        delivered := delivered + [Notification(currentName, currentData)];
      }
      currentName := "";
      currentData := "";
    }

    method ConsumeOneLine(line: string)
      modifies this`currentName, this`currentData, this`delivered
      ensures Value() == ConsumeLine(old(Value()), line, isObject)
      ensures line != "" ==> delivered == old(delivered)
      ensures "event:" <= line ==> currentName == Trim(line[6..]) && currentData == old(currentData)
      ensures "data:" <= line ==>
                && currentName == old(currentName)
                && currentData == (if old(currentData) == "" then "" else old(currentData) + "\n") + Trim(line[5..])
      ensures line != "" && !("event:" <= line) && !("data:" <= line) ==> Value() == old(Value())
    {
      if line == "" {
        DispatchCurrentEvent();
      } else if line[0] == ':' {
      } else if "event:" <= line {
        currentName := Trim(line[6..]);
      } else if "data:" <= line {
        if currentData != "" {
          currentData := currentData + "\n";
        }
        currentData := currentData + Trim(line[5..]);
      }
    }

    /** Any chunk leaves the state that its bytes, one by one, lead to. */
    method ConsumeAvailableBytes(chunk: string)
      requires SingleLine(buffer)
      modifies this
      ensures SingleLine(buffer)
      ensures Value() == Feed(old(Value()), chunk, isObject)
    {
      ghost var start := Value();
      FeedBuffered(start, chunk, isObject);
      buffer := buffer + chunk;
      while true
        invariant Feed(start, chunk, isObject) == Feed(Value().(buffer := ""), buffer, isObject)
        decreases |buffer|
      {
        var newline := Find(buffer, '\n', 0);
        if newline == |buffer| {
          FeedLineFree(Value().(buffer := ""), buffer, isObject);
          break;
        }
        var line := buffer[..newline];
        assert buffer == line + "\n" + buffer[newline + 1..];
        FeedLine(Value().(buffer := ""), line, buffer[newline + 1..], isObject);
        buffer := buffer[newline + 1..];
        if line != "" && line[|line| - 1] == '\r' {
          line := line[..|line| - 1];
        }
        ConsumeOneLine(line);
      }
    }
  }

  // ------------------------------------------------------------ chunking

  lemma {:induction false} FeedConcat(p: Parser, a: string, b: string, isObject: string -> bool)
    ensures Feed(p, a + b, isObject) == Feed(Feed(p, a, isObject), b, isObject)
    decreases |a|
  {
    if a == "" {
      assert a + b == b;
    } else {
      assert (a + b)[1..] == a[1..] + b;
      FeedConcat(FeedByte(p, a[0], isObject), a[1..], b, isObject);
    }
  }

  lemma {:induction false} FeedLineFree(p: Parser, text: string, isObject: string -> bool)
    requires SingleLine(text)
    ensures Feed(p, text, isObject) == p.(buffer := p.buffer + text)
    decreases |text|
  {
    if text == "" {
      assert p.buffer + text == p.buffer;
    } else {
      FeedLineFree(p.(buffer := p.buffer + [text[0]]), text[1..], isObject);
      assert p.buffer + [text[0]] + text[1..] == p.buffer + text;
    }
  }

  /** A buffered text may as well be fed again. */
  lemma FeedBuffered(p: Parser, chunk: string, isObject: string -> bool)
    requires SingleLine(p.buffer)
    ensures Feed(p, chunk, isObject) == Feed(p.(buffer := ""), p.buffer + chunk, isObject)
  {
    FeedConcat(p.(buffer := ""), p.buffer, chunk, isObject);
    FeedLineFree(p.(buffer := ""), p.buffer, isObject);
    assert "" + p.buffer == p.buffer;
  }

  lemma FeedLine(p: Parser, line: string, rest: string, isObject: string -> bool)
    requires p.buffer == "" && SingleLine(line)
    ensures Feed(p, line + "\n" + rest, isObject) == Feed(ConsumeLine(p, ChopReturn(line), isObject), rest, isObject)
  {
    assert line + "\n" + rest == line + ("\n" + rest);
    FeedConcat(p, line, "\n" + rest, isObject);
    FeedLineFree(p, line, isObject);
    assert "" + line == line;
    FeedNewline(p.(buffer := line), rest, isObject);
  }

  lemma FeedNewline(p: Parser, rest: string, isObject: string -> bool)
    ensures Feed(p, "\n" + rest, isObject)
            == Feed(ConsumeLine(p.(buffer := ""), ChopReturn(p.buffer), isObject), rest, isObject)
  {
    assert ("\n" + rest)[1..] == rest;
  }

  function Concat(chunks: seq<string>): string {
    if chunks == [] then "" else chunks[0] + Concat(chunks[1..])
  }

  function FeedChunks(p: Parser, chunks: seq<string>, isObject: string -> bool): Parser
    decreases |chunks|
  {
    if chunks == [] then p else FeedChunks(Feed(p, chunks[0], isObject), chunks[1..], isObject)
  }

  /** Chunk invariance: however a text is split, the events delivered and the state left are those of one feed
      of the whole text. */
  lemma {:induction false} ChunkInvariance(p: Parser, chunks: seq<string>, isObject: string -> bool)
    ensures FeedChunks(p, chunks, isObject) == Feed(p, Concat(chunks), isObject)
    decreases |chunks|
  {
    if chunks != [] {
      FeedConcat(p, chunks[0], Concat(chunks[1..]), isObject);
      ChunkInvariance(Feed(p, chunks[0], isObject), chunks[1..], isObject);
    }
  }

  /** Events once delivered stay the first ones. */
  lemma {:induction false} FeedOnlyAdds(p: Parser, bytes: string, isObject: string -> bool)
    ensures p.events <= Feed(p, bytes, isObject).events
    decreases |bytes|
  {
    if bytes != "" {
      FeedOnlyAdds(FeedByte(p, bytes[0], isObject), bytes[1..], isObject);
    }
  }

  lemma PrefixDeliversPrefix(p: Parser, a: string, b: string, isObject: string -> bool)
    requires a <= b
    ensures Feed(p, a, isObject).events <= Feed(p, b, isObject).events
  {
    assert b == a + b[|a|..];
    FeedConcat(p, a, b[|a|..], isObject);
    FeedOnlyAdds(Feed(p, a, isObject), b[|a|..], isObject);
  }
}
