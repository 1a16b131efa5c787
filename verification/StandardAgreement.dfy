/** When exactly the client and the WHATWG HTML standard read the same from one printed event, carriage returns in the
    data included. To the standard a carriage return ends a line; to the client it is a blank, trimmed at the ends of a
    line and kept inside it. */
module StandardAgreement {
  import opened EventStream
  import opened NotificationStream
  import opened StandardStream
  import opened StreamRoundTrip
  import opened TextSearch

  /** A line up to its first carriage return, and from there on. */
  function Head(line: string): string {
    line[..Find(line, '\r', 0)]
  }

  function Tail(line: string): string {
    line[Find(line, '\r', 0)..]
  }

  predicate Blank(s: string) {
    forall c | c in s :: IsSpace(c)
  }

  /** Two carriage returns in a row: to the standard, an empty line. */
  predicate Doubled(s: string) {
    |s| >= 2 && ((s[0] == '\r' && s[1] == '\r') || Doubled(s[1..]))
  }

  function Heads(lines: seq<string>): (heads: seq<string>)
    ensures |heads| == |lines| && forall i | 0 <= i < |lines| :: heads[i] == Head(lines[i])
  {
    seq(|lines|, i requires 0 <= i < |lines| => Head(lines[i]))
  }

  function Trims(lines: seq<string>): (trims: seq<string>)
    ensures |trims| == |lines| && forall i | 0 <= i < |lines| :: trims[i] == Trim(lines[i])
  {
    seq(|lines|, i requires 0 <= i < |lines| => Trim(lines[i]))
  }

  /** The data without what stands behind the first carriage return of each line. */
  function Stripped(data: string): string {
    JoinLines(Heads(Lines(data)))
  }

  /** Behind the first carriage return of a line there are only blanks, and only in the last line two returns in a row. */
  predicate Quiet(data: string) {
    var lines := Lines(data);
    && (forall i | 0 <= i < |lines| :: Blank(Tail(lines[i])))
    && (forall i | 0 <= i < |lines| - 1 :: !Doubled(Tail(lines[i])))
  }

  // ------------------------------------------------------------ trimming

  lemma HeadAndTail(line: string)
    ensures line == Head(line) + Tail(line) && '\r' !in Head(line)
    ensures Tail(line) == "" || Tail(line)[0] == '\r'
    ensures '\r' !in line ==> Head(line) == line && Tail(line) == ""
    ensures SingleLine(line) ==> PlainLine(Head(line)) && SingleLine(Tail(line))
  {
    var pos := Find(line, '\r', 0);
    assert forall c | c in Head(line) :: c in line;
    assert forall c | c in Tail(line) :: c in line;
    assert pos < |line| ==> line[pos] in line;
  }

  lemma {:induction false} TrimBlankTail(head: string, tail: string)
    requires Blank(tail)
    ensures Trim(head + tail) == Trim(head)
    decreases |tail|
  {
    if tail == "" {
      assert head + tail == head;
    } else {
      var n := |tail| - 1;
      assert forall c | c in tail[..n] :: c in tail;
      TrimBlankTail(head, tail[..n]);
      assert tail[n] in tail;
      TrimPush(head + tail[..n], tail[n]);
      assert head + tail == head + tail[..n] + [tail[n]];
    }
  }

  lemma {:induction false} TrimRightKeeps(s: string, p: nat)
    requires p < |s| && !IsSpace(s[p])
    ensures |TrimRight(s)| > p
  {
    if IsSpace(s[|s| - 1]) {
      TrimRightKeeps(s[..|s| - 1], p);
    }
  }

  lemma {:induction false} TrimLeftEmpty(s: string)
    ensures TrimLeft(s) == "" ==> Blank(s)
  {
    if s != "" && IsSpace(s[0]) {
      TrimLeftEmpty(s[1..]);
      assert s == [s[0]] + s[1..];
    }
  }

  lemma TrimNotBlank(s: string)
    requires !Blank(s)
    ensures Trim(s) != ""
  {
    TrimLeftEmpty(s);
    TrimLeftSpaces(s);
    TrimRightKeeps(TrimLeft(s), 0);
  }

  lemma TrimIdempotent(s: string)
    ensures Trim(Trim(s)) == Trim(s)
  {
    TrimLeftSpaces(s);
    TrimRightEnds(TrimLeft(s));
    var t := Trim(s);
    if t != "" {
      assert t[0] == TrimLeft(s)[0];
      assert TrimLeft(t) == t && TrimRight(t) == t;
    }
  }

  /** With something behind the carriage return the client's line is not what stands before it. */
  lemma HeadIsNotTrim(line: string)
    requires !Blank(Tail(line))
    ensures Trim(line) != "" && Trim(line) != Head(line)
  {
    HeadAndTail(line);
    var h, t := Head(line), Tail(line);
    var p :| 0 <= p < |t| && !IsSpace(t[p]);
    assert line[|h| + p] == t[p] && line[|h| + p] in line;
    TrimNotBlank(line);
    if Trim(line) == h {
      TrimLeftSpaces(line);
      TrimRightEnds(TrimLeft(line));
      assert h[0] == TrimLeft(line)[0] && !IsSpace(h[0]);
      assert h[0] == line[0];
      assert TrimLeft(line) == line;
      TrimRightKeeps(line, |h| + p);
    }
  }

  // ------------------------------------------------------------ lines of a text

  lemma {:induction false} TerminatedConcat(a: seq<string>, b: seq<string>)
    ensures Terminated(a + b) == Terminated(a) + Terminated(b)
  {
    if a == [] {
      assert a + b == b;
    } else {
      assert (a + b)[1..] == a[1..] + b;
      TerminatedConcat(a[1..], b);
      assert a[0] + "\n" + (Terminated(a[1..]) + Terminated(b)) == a[0] + "\n" + Terminated(a[1..]) + Terminated(b);
    }
  }

  lemma {:induction false} FieldsConcat(prefix: string, a: seq<string>, b: seq<string>)
    ensures Fields(prefix, a + b) == Fields(prefix, a) + Fields(prefix, b)
  {
    if a == [] {
      assert a + b == b;
    } else {
      assert (a + b)[1..] == a[1..] + b;
      FieldsConcat(prefix, a[1..], b);
      assert prefix + a[0] + "\n" + (Fields(prefix, a[1..]) + Fields(prefix, b))
             == prefix + a[0] + "\n" + Fields(prefix, a[1..]) + Fields(prefix, b);
    }
  }

  lemma {:induction false} TerminatedJoin(lines: seq<string>)
    requires lines != []
    ensures Terminated(lines) == JoinLines(lines) + "\n"
  {
    if |lines| == 1 {
      assert Terminated(lines) == lines[0] + "\n" + Terminated([]);
    } else {
      TerminatedJoin(lines[1..]);
      assert lines[0] + "\n" + (JoinLines(lines[1..]) + "\n") == lines[0] + "\n" + JoinLines(lines[1..]) + "\n";
    }
  }

  lemma {:induction false} LinesOfJoin(lines: seq<string>)
    requires lines != [] && forall l | l in lines :: SingleLine(l)
    ensures Lines(JoinLines(lines)) == lines
  {
    var text := JoinLines(lines);
    assert lines[0] in lines;
    if |lines| == 1 {
      assert Lines(text) == [text];
    } else {
      LinesOfJoin(lines[1..]);
      assert forall i | 0 <= i < |lines[0]| :: text[i] == lines[0][i] && lines[0][i] in lines[0];
      assert text[|lines[0]|] == '\n';
      assert text[..|lines[0]|] == lines[0] && text[|lines[0]| + 1..] == JoinLines(lines[1..]);
      assert Find(text, '\n', 0) == |lines[0]|;
    }
  }

  lemma FirstTerminated(line: string, rest: string)
    requires SingleLine(line)
    ensures Find(line + "\n" + rest, '\n', 0) == |line|
  {
    var text := line + "\n" + rest;
    assert forall i | 0 <= i < |line| :: text[i] == line[i] && line[i] in line;
    assert text[|line|] == '\n';
  }

  /** A text of whole lines that begins another one has that one's first lines. */
  lemma {:induction false} TerminatedPrefix(a: seq<string>, b: seq<string>)
    requires (forall l | l in a :: SingleLine(l)) && forall l | l in b :: SingleLine(l)
    ensures Terminated(a) <= Terminated(b) ==> a <= b
  {
    if a != [] && b != [] && Terminated(a) <= Terminated(b) {
      var s, t := Terminated(a), Terminated(b);
      assert s == a[0] + "\n" + Terminated(a[1..]);
      assert t == b[0] + "\n" + Terminated(b[1..]);
      assert a[0] in a && b[0] in b;
      FirstTerminated(a[0], Terminated(a[1..]));
      FirstTerminated(b[0], Terminated(b[1..]));
      assert t[|a[0]|] == s[|a[0]|] == '\n';
      assert forall i | 0 <= i < |a[0]| :: t[i] == s[i] == a[0][i] && a[0][i] in a[0];
      assert |a[0]| == |b[0]|;
      assert a[0] == s[..|a[0]|] == t[..|a[0]|] == b[0];
      assert Terminated(a[1..]) == s[|a[0]| + 1..] && Terminated(b[1..]) == t[|a[0]| + 1..];
      TerminatedPrefix(a[1..], b[1..]);
      assert a == [a[0]] + a[1..] && b == [b[0]] + b[1..];
    }
  }

  // ------------------------------------------------------------ the standard on quiet lines

  lemma {:induction false} ReadConcat(r: Reader, a: string, b: string)
    ensures Read(r, a + b) == Read(Read(r, a), b)
    decreases |a|
  {
    if a == "" {
      assert a + b == b;
    } else {
      assert (a + b)[1..] == a[1..] + b;
      ReadConcat(ReadChar(r, a[0]), a[1..], b);
    }
  }

  /** A line that is ended by a carriage return. */
  lemma {:induction false} ReadReturnedLine(r: Reader, line: string, rest: string)
    requires !r.afterReturn && PlainLine(line)
    ensures Read(r, line + "\r" + rest) == Read(ProcessLine(r.(line := "", afterReturn := true), r.line + line), rest)
    decreases |line|
  {
    var text := line + "\r" + rest;
    if line == "" {
      assert text[0] == '\r' && text[1..] == rest;
      assert r.line + line == r.line;
    } else {
      assert text[0] == line[0] && text[1..] == line[1..] + "\r" + rest;
      assert line[0] in line && forall c | c in line[1..] :: c in line;
      ReadReturnedLine(r.(line := r.line + [line[0]]), line[1..], rest);
      assert r.line + [line[0]] + line[1..] == r.line + line;
    }
  }

  lemma BlankLineIgnored(r: Reader, line: string)
    requires line != "" && Blank(line)
    ensures ProcessLine(r, line) == r
  {
    assert forall i | 0 <= i < |line| :: line[i] in line;
  }

  predicate InBlankTail(r: Reader) {
    if r.afterReturn then r.line == "" else r.line != "" && Blank(r.line)
  }

  function AfterTail(r: Reader, tail: string): Reader {
    var r0 := r.(line := "", afterReturn := false);
    if Doubled((if r.afterReturn then "\r" else "") + tail) then DispatchEvent(r0) else r0
  }

  /** Blanks behind a carriage return are ignored, except that two returns in a row dispatch. */
  lemma {:induction false} ReadBlankTail(r: Reader, tail: string, rest: string)
    requires InBlankTail(r) && Blank(tail) && SingleLine(tail)
    ensures Read(r, tail + "\n" + rest) == Read(AfterTail(r, tail), rest)
    decreases |tail|
  {
    var text := tail + "\n" + rest;
    if r.line != "" {
      BlankLineIgnored(r.(line := "", afterReturn := false), r.line);
      BlankLineIgnored(r.(line := "", afterReturn := true), r.line);
    }
    if tail == "" {
      assert text[0] == '\n' && text[1..] == rest;
      assert AfterTail(r, tail) == r.(line := "", afterReturn := false);
    } else {
      var c, next := tail[0], ReadChar(r, tail[0]);
      assert c in tail && forall d | d in tail[1..] :: d in tail;
      assert text[0] == c && text[1..] == tail[1..] + "\n" + rest;
      AfterTailStep(r, tail);
      ReadBlankTail(next, tail[1..], rest);
    }
  }

  lemma AfterReturnStep(r: Reader, tail: string)
    requires InBlankTail(r) && tail != "" && tail[0] == '\r'
    ensures var next := ReadChar(r, '\r'); InBlankTail(next) && AfterTail(next, tail[1..]) == AfterTail(r, tail)
  {
    assert tail == "\r" + tail[1..];
    if r.afterReturn {
      var s := "\r" + tail;
      assert s[0] == '\r' && s[1] == '\r';
    } else {
      BlankLineIgnored(r.(line := "", afterReturn := true), r.line);
      assert "" + tail == tail;
    }
  }

  lemma AfterBlankStep(r: Reader, c: char, rest: string)
    requires InBlankTail(r) && IsSpace(c) && c != '\r' && c != '\n'
    ensures var next := ReadChar(r, c); InBlankTail(next) && AfterTail(next, rest) == AfterTail(r, [c] + rest)
  {
    assert forall d | d in r.line + [c] :: d in r.line || d == c;
    assert "" + rest == rest && "" + ([c] + rest) == [c] + rest;
    DoubledBehind(c, rest);
    if r.afterReturn {
      var s := "\r" + ([c] + rest);
      assert s[0] == '\r' && s[1] == c && s[1..] == [c] + rest;
    }
  }

  lemma AfterTailStep(r: Reader, tail: string)
    requires InBlankTail(r) && tail != "" && Blank(tail) && SingleLine(tail)
    ensures var next := ReadChar(r, tail[0]); InBlankTail(next) && AfterTail(next, tail[1..]) == AfterTail(r, tail)
  {
    assert tail[0] in tail && tail == [tail[0]] + tail[1..];
    if tail[0] == '\r' {
      AfterReturnStep(r, tail);
    } else {
      AfterBlankStep(r, tail[0], tail[1..]);
    }
  }

  lemma DoubledBehind(c: char, s: string)
    requires c != '\r'
    ensures Doubled([c] + s) <==> Doubled(s)
  {
    assert ([c] + s)[1..] == s;
  }

  function AfterLine(r: Reader, line: string): Reader {
    var r1 := r.(data := r.data + Head(line) + "\n");
    if Doubled(Tail(line)) then DispatchEvent(r1) else r1
  }

  lemma ReadHead(r: Reader, head: string, rest: string)
    requires BetweenLines(r) && PlainLine(head)
    ensures Read(r, ("data: " + head) + "\r" + rest)
            == Read(r.(data := r.data + head + "\n", afterReturn := true), rest)
  {
    ReadReturnedLine(r, "data: " + head, rest);
    assert "" + ("data: " + head) == "data" + ": " + head;
    FieldLine(r.(afterReturn := true), "data", head);
  }

  lemma SplitAtReturn(prefix: string, head: string, tail: string, end: string, rest: string)
    ensures (prefix + (head + ("\r" + tail))) + end + rest == (prefix + head) + "\r" + (tail + end + rest)
  {
  }

  lemma ReadQuietLine(r: Reader, line: string, rest: string)
    requires BetweenLines(r) && SingleLine(line) && Blank(Tail(line))
    ensures Read(r, ("data: " + line) + "\n" + rest) == Read(AfterLine(r, line), rest)
  {
    HeadAndTail(line);
    var h, t := Head(line), Tail(line);
    if t == "" {
      assert line == h;
      ReadDataField(r, line, rest);
    } else {
      var u := t[1..];
      assert t == "\r" + u && forall c | c in u :: c in t;
      SplitAtReturn("data: ", h, u, "\n", rest);
      ReadHead(r, h, u + "\n" + rest);
      ReadBlankTail(r.(data := r.data + h + "\n", afterReturn := true), u, rest);
    }
  }

  lemma {:induction false} ReadQuietLines(r: Reader, lines: seq<string>, rest: string)
    requires BetweenLines(r) && forall l | l in lines :: SingleLine(l) && Blank(Tail(l)) && !Doubled(Tail(l))
    ensures Read(r, Fields("data: ", lines) + rest) == Read(r.(data := r.data + Terminated(Heads(lines))), rest)
    decreases |lines|
  {
    if lines == [] {
      assert Fields("data: ", lines) + rest == rest && r.data + "" == r.data;
    } else {
      assert lines[0] in lines;
      FirstField("data: ", lines, rest);
      ReadQuietLine(r, lines[0], Fields("data: ", lines[1..]) + rest);
      ReadQuietLines(AfterLine(r, lines[0]), lines[1..], rest);
      assert Heads(lines)[1..] == Heads(lines[1..]);
      TerminatedFirst(r.data, Heads(lines));
    }
  }

  // ------------------------------------------------------------ quiet data

  function TypeName(name: string): string {
    if name == "" then "message" else name
  }

  /** The text of an event is its name line, the fields of some lines, then the rest. */
  lemma ReadUpTo(name: string, data: string, k: nat)
    requires PlainLine(name) && k <= |Lines(data)|
    ensures var lines := Lines(data);
            Read(NEW_READER, EventText(name, data))
            == Read(NEW_READER.(eventType := name), Fields("data: ", lines[..k]) + (Fields("data: ", lines[k..]) + "\n"))
  {
    var lines := Lines(data);
    assert lines == lines[..k] + lines[k..];
    FieldsConcat("data: ", lines[..k], lines[k..]);
    var body := Fields("data: ", lines[..k]) + (Fields("data: ", lines[k..]) + "\n");
    assert EventText(name, data) == (if name == "" then "" else "event: " + name + "\n") + body;
    ReadEventName(NEW_READER, name, body);
  }

  lemma OneField(line: string)
    ensures Fields("data: ", [line]) + "\n" == ("data: " + line) + "\n" + "\n"
  {
    assert [line][1..] == [] && Fields("data: ", []) == "";
  }

  /** The last line and the empty one behind it dispatch once, two returns in a row or not. */
  lemma ReadLastLine(r: Reader, line: string)
    requires BetweenLines(r) && SingleLine(line) && Blank(Tail(line))
    ensures Read(r, Fields("data: ", [line]) + "\n") == DispatchEvent(r.(data := r.data + Head(line) + "\n"))
  {
    OneField(line);
    ReadQuietLine(r, line, "\n");
    assert "\n" + "" == "\n";
    ReadBlank(AfterLine(r, line), "");
  }

  lemma QuietDispatches(name: string, data: string)
    requires PlainLine(name) && Quiet(data)
    ensures Read(NEW_READER, EventText(name, data)) == DispatchEvent(BeforeLine(name, Lines(data), |Lines(data)|))
  {
    var lines := Lines(data);
    var n := |lines| - 1;
    ReadUpToLine(name, data, n);
    assert lines[n] in lines && lines[n..] == [lines[n]];
    ReadLastLine(BeforeLine(name, lines, n), lines[n]);
    LastLine(lines);
    assert lines[..n + 1] == lines;
  }

  lemma QuietIsStripped(name: string, data: string)
    requires PlainLine(name) && Quiet(data)
    ensures Read(NEW_READER, EventText(name, data)).events == [Notification(TypeName(name), Stripped(data))]
  {
    var lines := Lines(data);
    QuietDispatches(name, data);
    assert lines[..|lines|] == lines;
    TerminatedJoin(Heads(lines));
  }

  lemma LastLine(lines: seq<string>)
    requires lines != []
    ensures var n := |lines| - 1;
            Terminated(Heads(lines)) == Terminated(Heads(lines[..n])) + Head(lines[n]) + "\n"
  {
    var n := |lines| - 1;
    assert Heads(lines) == Heads(lines[..n]) + [Head(lines[n])];
    TerminatedConcat(Heads(lines[..n]), [Head(lines[n])]);
    assert Terminated([Head(lines[n])]) == Head(lines[n]) + "\n" + Terminated([]);
  }

  lemma {:induction false} DataFromTrims(data: string, a: seq<string>, b: seq<string>)
    requires |a| == |b| && forall i | 0 <= i < |a| :: Trim(a[i]) == Trim(b[i])
    ensures DataFrom(data, a) == DataFrom(data, b)
    decreases |a|
  {
    if a != [] {
      DataFromTrims(AppendData(data, a[0]), a[1..], b[1..]);
    }
  }

  /** The client takes quiet data for the stripped ones. */
  lemma QuietReceived(data: string)
    requires Quiet(data)
    ensures Received(data) == Received(Stripped(data))
  {
    var lines := Lines(data);
    forall i | 0 <= i < |lines| ensures Trim(lines[i]) == Trim(Heads(lines)[i]) {
      HeadAndTail(lines[i]);
      TrimBlankTail(Head(lines[i]), Tail(lines[i]));
    }
    DataFromTrims("", lines, Heads(lines));
    HeadsSingle(lines);
    LinesOfJoin(Heads(lines));
  }

  lemma HeadsSingle(lines: seq<string>)
    requires forall l | l in lines :: SingleLine(l)
    ensures forall l | l in Heads(lines) :: SingleLine(l)
  {
    forall l | l in Heads(lines) ensures SingleLine(l) {
      var i :| 0 <= i < |lines| && Heads(lines)[i] == l;
      assert lines[i] in lines;
      HeadAndTail(lines[i]);
    }
  }

  // ------------------------------------------------------------ data that are not quiet

  /** More than `n` events have been dispatched, or the next dispatch makes it so. */
  predicate Owes(r: Reader, n: nat) {
    && |r.events| >= n && (r.data != "" || |r.events| > n) && (r.afterReturn ==> r.line == "")
  }

  lemma {:induction false} ReadKeepsOwing(r: Reader, text: string, n: nat)
    requires Owes(r, n)
    ensures Owes(Read(r, text), n)
    decreases |text|
  {
    if text != "" {
      ReadKeepsOwing(ReadChar(r, text[0]), text[1..], n);
    }
  }

  lemma FinalBlankDispatches(r: Reader, text: string, n: nat)
    requires Owes(r, n)
    ensures |Read(r, text + "\n\n").events| > n
  {
    assert text + "\n\n" == text + ("\n" + "\n");
    ReadConcat(r, text, "\n" + "\n");
    ReadKeepsOwing(r, text, n);
    var s := Read(r, text);
    var t := ReadChar(s, '\n');
    assert ("\n" + "\n")[1..] == "\n" && "\n"[1..] == "";
    assert Read(s, "\n" + "\n") == Read(t, "\n") == ReadChar(t, '\n');
    ReadKeepsOwing(s, "\n", n);
    assert Read(s, "\n") == t;
    assert BetweenLines(t);
  }

  /** What follows the first data field of a printed event ends with two newlines. */
  lemma {:induction false} FieldsEnd(lines: seq<string>) returns (text: string)
    requires lines != []
    ensures Fields("data: ", lines) == ("data: " + lines[0]) + text + "\n"
  {
    if |lines| == 1 {
      text := "";
      assert Fields("data: ", lines[1..]) == "";
      assert ("data: " + lines[0]) + "" + "\n" == "data: " + lines[0] + "\n" + "";
    } else {
      var more := FieldsEnd(lines[1..]);
      text := "\n" + ("data: " + lines[1] + more);
      assert "data: " + lines[0] + "\n" + (("data: " + lines[1]) + more + "\n")
             == ("data: " + lines[0]) + text + "\n";
    }
  }

  lemma SplitBeforeMore(prefix: string, head: string, tail: string, more: string)
    ensures (prefix + (head + ("\r" + tail))) + more + "\n" + "\n" == (prefix + head) + "\r" + (tail + more + "\n\n")
  {
  }

  /** The first data field of what is still to be read gives the data buffer the line's head. */
  lemma ReadFirstHead(r: Reader, lines: seq<string>) returns (next: Reader, text: string)
    requires BetweenLines(r) && lines != [] && SingleLine(lines[0])
    ensures next.data == r.data + Head(lines[0]) + "\n" && next.line == "" && next.events == r.events
    ensures Tail(lines[0]) != "" ==> Read(r, Fields("data: ", lines) + "\n") == Read(next, text + "\n\n")
    ensures Tail(lines[0]) == "" ==> Read(r, Fields("data: ", lines) + "\n") == Read(next, text + "\n")
    ensures Tail(lines[0]) == "" ==> text == Fields("data: ", lines[1..]) && BetweenLines(next)
  {
    HeadAndTail(lines[0]);
    var h, t := Head(lines[0]), Tail(lines[0]);
    if t == "" {
      text := Fields("data: ", lines[1..]);
      next := r.(data := r.data + h + "\n");
      FirstField("data: ", lines, "\n");
      ReadDataField(r, h, text + "\n");
    } else {
      var more := FieldsEnd(lines);
      text := t[1..] + more;
      next := r.(data := r.data + h + "\n", afterReturn := true);
      assert lines[0] == h + ("\r" + t[1..]);
      SplitBeforeMore("data: ", h, t[1..], more);
      ReadHead(r, h, text + "\n\n");
    }
  }

  /** Whatever the lines hold, at least one event is dispatched for them. */
  lemma {:induction false} AtLeastOne(r: Reader, lines: seq<string>)
    requires BetweenLines(r) && lines != [] && forall l | l in lines :: SingleLine(l)
    ensures |Read(r, Fields("data: ", lines) + "\n").events| > |r.events|
    decreases |lines|
  {
    assert lines[0] in lines;
    var next, text := ReadFirstHead(r, lines);
    if Tail(lines[0]) != "" {
      FinalBlankDispatches(next, text, |r.events|);
    } else if |lines| == 1 {
      assert text + "\n" == "\n" + "";
      ReadBlank(next, "");
    } else {
      assert Owes(next, |r.events|);
      var more := FieldsEnd(lines[1..]);
      assert text + "\n" == ("data: " + lines[1] + more) + "\n\n";
      FinalBlankDispatches(next, "data: " + lines[1] + more, |r.events|);
    }
  }

  /** The first payload, once there is one, begins with `start`, a newline put behind it; until then the data do. */
  predicate BeginsWith(r: Reader, start: string) {
    && (r.data == "" || r.data[|r.data| - 1] == '\n')
    && if r.events == [] then r.data != "" && start <= r.data else start <= r.events[0].payload + "\n"
  }

  lemma CharKeepsBeginning(r: Reader, c: char, start: string)
    requires BeginsWith(r, start)
    ensures BeginsWith(ReadChar(r, c), start)
  {
    if r.events == [] {
      assert r.data[..|r.data| - 1] + "\n" == r.data;
    }
  }

  lemma {:induction false} ReadKeepsBeginning(r: Reader, text: string, start: string)
    requires BeginsWith(r, start)
    ensures BeginsWith(Read(r, text), start)
    decreases |text|
  {
    if text != "" {
      CharKeepsBeginning(r, text[0], start);
      ReadKeepsBeginning(ReadChar(r, text[0]), text[1..], start);
    }
  }

  /** The lines before number `i` are quiet: they have put their heads into the data buffer and nothing else. */
  function BeforeLine(name: string, lines: seq<string>, i: nat): Reader
    requires i <= |lines|
  {
    NEW_READER.(eventType := name, data := Terminated(Heads(lines[..i])))
  }

  lemma ReadUpToLine(name: string, data: string, i: nat)
    requires PlainLine(name) && i <= |Lines(data)|
    requires forall j | 0 <= j < i :: Blank(Tail(Lines(data)[j])) && !Doubled(Tail(Lines(data)[j]))
    ensures Read(NEW_READER, EventText(name, data))
            == Read(BeforeLine(name, Lines(data), i), Fields("data: ", Lines(data)[i..]) + "\n")
  {
    var lines := Lines(data);
    ReadUpTo(name, data, i);
    QuietBefore(lines, i);
    ReadQuietLines(NEW_READER.(eventType := name), lines[..i], Fields("data: ", lines[i..]) + "\n");
    assert "" + Terminated(Heads(lines[..i])) == Terminated(Heads(lines[..i]));
  }

  lemma PayloadBeginsWithHead(r: Reader, lines: seq<string>)
    requires BetweenLines(r) && r.events == [] && lines != [] && SingleLine(lines[0]) && Tail(lines[0]) != ""
    ensures var events := Read(r, Fields("data: ", lines) + "\n").events;
            events != [] && r.data + Head(lines[0]) + "\n" <= events[0].payload + "\n"
  {
    var next, text := ReadFirstHead(r, lines);
    FinalBlankDispatches(next, text, 0);
    ReadKeepsBeginning(next, text + "\n\n", next.data);
  }

  /** When something stands behind the return of line `i`, the standard's first payload has the heads up to it. */
  lemma FirstPayloadHasHeads(name: string, data: string, i: nat)
    requires PlainLine(name) && i < |Lines(data)| && Tail(Lines(data)[i]) != ""
    requires forall j | 0 <= j < i :: Blank(Tail(Lines(data)[j])) && !Doubled(Tail(Lines(data)[j]))
    ensures var events := Read(NEW_READER, EventText(name, data)).events;
            events != [] && Terminated(Heads(Lines(data)[..i + 1])) <= events[0].payload + "\n"
  {
    var lines := Lines(data);
    assert lines[i] in lines;
    ReadUpToLine(name, data, i);
    PayloadBeginsWithHead(BeforeLine(name, lines, i), lines[i..]);
    LastLine(lines[..i + 1]);
    assert lines[..i + 1][..i] == lines[..i];
  }

  lemma QuietBefore(lines: seq<string>, i: nat)
    requires i <= |lines| && forall l | l in lines :: SingleLine(l)
    requires forall j | 0 <= j < i :: Blank(Tail(lines[j])) && !Doubled(Tail(lines[j]))
    ensures forall l | l in lines[..i] :: SingleLine(l) && Blank(Tail(l)) && !Doubled(Tail(l))
  {
    forall l | l in lines[..i] ensures SingleLine(l) && Blank(Tail(l)) && !Doubled(Tail(l)) {
      var j :| 0 <= j < i && lines[j] == l;
      assert lines[j] in lines;
    }
  }

  lemma {:induction false} DataFromTerminated(data: string, lines: seq<string>)
    requires data != ""
    ensures DataFrom(data, lines) + "\n" == data + "\n" + Terminated(Trims(lines))
    decreases |lines|
  {
    if lines == [] {
      assert Terminated(Trims(lines)) == "";
    } else {
      var more := data + "\n" + Trim(lines[0]);
      DataFromTerminated(more, lines[1..]);
      TrimsOfRest(lines);
      assert more + "\n" + Terminated(Trims(lines[1..])) == data + "\n" + Terminated(Trims(lines));
    }
  }

  lemma TrimsOfRest(lines: seq<string>)
    requires lines != []
    ensures Trims(lines)[1..] == Trims(lines[1..])
  {
    forall i | 0 <= i < |lines| - 1 ensures Trims(lines)[1..][i] == Trims(lines[1..])[i] {
    }
  }

  /** The client drops the lines that are blank before the first one that is not, and keeps all from there on. */
  lemma {:induction false} ReceivedLines(lines: seq<string>, i: nat) returns (d: nat)
    requires i < |lines| && Trim(lines[i]) != ""
    ensures d <= i && Trim(lines[d]) != "" && forall j | 0 <= j < d :: Trim(lines[j]) == ""
    ensures DataFrom("", lines) + "\n" == Terminated(Trims(lines[d..]))
    decreases |lines|
  {
    if Trim(lines[0]) == "" {
      var e := ReceivedLines(lines[1..], i - 1);
      d := e + 1;
      assert lines[1..][e..] == lines[d..];
      assert forall j | 0 < j < d :: lines[j] == lines[1..][j - 1];
    } else {
      d := 0;
      DataFromTerminated(Trim(lines[0]), lines[1..]);
      assert lines[0..] == lines;
      TrimsOfRest(lines);
    }
  }

  lemma HeadsDiffer(lines: seq<string>, i: nat, d: nat)
    requires i < |lines| && d <= i && !Blank(Tail(lines[i])) && Trim(lines[d]) != ""
    requires forall j | 0 <= j < i :: Blank(Tail(lines[j]))
    requires forall j | 0 <= j < d :: Trim(lines[j]) == ""
    ensures !(Heads(lines[..i + 1]) <= Trims(lines[d..]))
  {
    var heads, trims := Heads(lines[..i + 1]), Trims(lines[d..]);
    if d == 0 {
      HeadIsNotTrim(lines[i]);
      assert heads[i] != trims[i];
    } else {
      HeadAndTail(lines[0]);
      TrimBlankTail(Head(lines[0]), Tail(lines[0]));
      TrimIdempotent(lines[d]);
      assert Trim(heads[0]) != Trim(trims[0]);
    }
  }

  /** What the client receives does not begin with the heads up to a line that has something behind its return. */
  lemma ReceivedHasOtherLines(data: string, i: nat)
    requires i < |Lines(data)| && !Blank(Tail(Lines(data)[i]))
    requires forall j | 0 <= j < i :: Blank(Tail(Lines(data)[j]))
    ensures !(Terminated(Heads(Lines(data)[..i + 1])) <= Received(data) + "\n")
  {
    var lines := Lines(data);
    HeadIsNotTrim(lines[i]);
    var d := ReceivedLines(lines, i);
    HeadsDiffer(lines, i, d);
    HeadsSingle(lines[..i + 1]);
    TrimsSingle(lines[d..]);
    TerminatedPrefix(Heads(lines[..i + 1]), Trims(lines[d..]));
  }

  lemma TrimsSingle(lines: seq<string>)
    requires forall l | l in lines :: SingleLine(l)
    ensures forall l | l in Trims(lines) :: SingleLine(l)
  {
    forall l | l in Trims(lines) ensures SingleLine(l) {
      var k :| 0 <= k < |lines| && Trims(lines)[k] == l;
      assert lines[k] in lines;
      TrimKeepsSingle(lines[k]);
    }
  }

  /** Two returns in a row before the last line: more than one event. */
  lemma DoubledGivesTwo(name: string, data: string, i: nat)
    requires PlainLine(name) && i < |Lines(data)| - 1
    requires forall j | 0 <= j < i :: Blank(Tail(Lines(data)[j])) && !Doubled(Tail(Lines(data)[j]))
    requires Blank(Tail(Lines(data)[i])) && Doubled(Tail(Lines(data)[i]))
    ensures |Read(NEW_READER, EventText(name, data)).events| >= 2
  {
    var lines := Lines(data);
    var r1 := BeforeLine(name, lines, i);
    ReadUpToLine(name, data, i);
    assert lines[i] in lines && lines[i..][1..] == lines[i + 1..];
    FirstField("data: ", lines[i..], "\n");
    ReadQuietLine(r1, lines[i], Fields("data: ", lines[i + 1..]) + "\n");
    assert forall l | l in lines[i + 1..] :: l in lines;
    AtLeastOne(AfterLine(r1, lines[i]), lines[i + 1..]);
  }

  /** The first line that is not quiet. */
  lemma {:induction false} FirstNoise(lines: seq<string>, k: nat) returns (i: nat)
    requires k <= |lines| && forall j | 0 <= j < k :: Blank(Tail(lines[j])) && !Doubled(Tail(lines[j]))
    requires || (exists j :: 0 <= j < |lines| && !Blank(Tail(lines[j])))
             || exists j :: 0 <= j < |lines| - 1 && Doubled(Tail(lines[j]))
    ensures i < |lines| && forall j | 0 <= j < i :: Blank(Tail(lines[j])) && !Doubled(Tail(lines[j]))
    ensures !Blank(Tail(lines[i])) || (i < |lines| - 1 && Doubled(Tail(lines[i])))
    decreases |lines| - k
  {
    if !Blank(Tail(lines[k])) || (k < |lines| - 1 && Doubled(Tail(lines[k]))) {
      i := k;
    } else {
      i := FirstNoise(lines, k + 1);
    }
  }

  /** On data that are not quiet the two readers never agree. */
  lemma NoiseDisagrees(name: string, data: string, isObject: string -> bool)
    requires PlainLine(name) && !Quiet(data)
    ensures Delivered(Event(name, data), isObject) != Read(NEW_READER, EventText(name, data)).events
  {
    var i := FirstNoise(Lines(data), 0);
    if Blank(Tail(Lines(data)[i])) {
      DoubledGivesTwo(name, data, i);
    } else {
      FirstPayloadHasHeads(name, data, i);
      ReceivedHasOtherLines(data, i);
    }
  }

  // ------------------------------------------------------------ the exact condition

  /** For one printed event with a one-line name without carriage returns, whatever its data: the client and the standard
      dispatch the same exactly if the name is not empty and trimmed, the data are quiet, and the data without what
      stands behind their carriage returns survive the client's trimming and are a JSON object. */
  lemma ClientAgreesIff(name: string, data: string, isObject: string -> bool)
    requires PlainLine(name)
    ensures Feed(NEW_PARSER, EventText(name, data), isObject).events == Read(NEW_READER, EventText(name, data)).events <==>
              && name != "" && Trim(name) == name
              && Quiet(data) && Survives(Stripped(data)) && isObject(Stripped(data))
  {
    assert EventText(name, data) + "" == EventText(name, data);
    FeedEvent(NEW_PARSER, name, data, "", isObject);
    if Quiet(data) {
      QuietIsStripped(name, data);
      QuietReceived(data);
      DeliveredIsStandardIff(name, Stripped(data), isObject);
    } else {
      NoiseDisagrees(name, data, isObject);
    }
  }

  lemma WithoutReturnsIsQuiet(data: string)
    requires '\r' !in data
    ensures Quiet(data) && Stripped(data) == data
  {
    var lines := Lines(data);
    PlainLines(data);
    forall i | 0 <= i < |lines| ensures Head(lines[i]) == lines[i] && Tail(lines[i]) == "" {
      assert lines[i] in lines;
      HeadAndTail(lines[i]);
    }
    assert Heads(lines) == lines;
    JoinUndoesLines(data);
  }

  /** Without carriage returns in the data: exactly if the name is not empty and trimmed and the data survive trimming and
      are a JSON object. */
  lemma ClientAgreesIffPlain(name: string, data: string, isObject: string -> bool)
    requires WithoutReturns(Event(name, data))
    ensures Feed(NEW_PARSER, EventText(name, data), isObject).events == Read(NEW_READER, EventText(name, data)).events <==>
              name != "" && Trim(name) == name && Survives(data) && isObject(data)
  {
    WithoutReturnsIsQuiet(data);
    ClientAgreesIff(name, data, isObject);
  }

  /** A carriage return between the braces of an object is legal JSON, and the two readers differ on it. */
  lemma ReturnInsideObject(name: string, isObject: string -> bool)
    requires PlainLine(name)
    ensures Feed(NEW_PARSER, EventText(name, "{\r}"), isObject).events != Read(NEW_READER, EventText(name, "{\r}")).events
  {
    var data := "{\r}";
    assert Find(data, '\n', 0) == 3 && Lines(data) == [data];
    assert Find(data, '\r', 0) == 1 && Tail(data) == "\r}";
    assert '}' in Tail(data) && !IsSpace('}');
    ClientAgreesIff(name, data, isObject);
  }
}
