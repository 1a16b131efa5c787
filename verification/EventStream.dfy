/** The text of server-sent events. Characters stand for bytes. */
module EventStream {

  import opened TextSearch

  predicate SingleLine(text: string) {
    '\n' !in text
  }

  /** The pieces between newlines; there is always at least one. */
  function Lines(text: string): (lines: seq<string>)
    ensures |lines| >= 1
    ensures forall l | l in lines :: SingleLine(l)
    decreases |text|
  {
    var pos := Find(text, '\n', 0);
    if pos == |text| then [text] else [text[..pos]] + Lines(text[pos + 1..])
  }

  function JoinLines(lines: seq<string>): string
    requires |lines| >= 1
  {
    if |lines| == 1 then lines[0] else lines[0] + "\n" + JoinLines(lines[1..])
  }

  lemma {:induction false} JoinUndoesLines(text: string)
    ensures JoinLines(Lines(text)) == text
    decreases |text|
  {
    var pos := Find(text, '\n', 0);
    if pos < |text| {
      JoinUndoesLines(text[pos + 1..]);
      assert Lines(text)[1..] == Lines(text[pos + 1..]);
      assert text == text[..pos] + "\n" + text[pos + 1..];
    }
  }

  /** Every line prefixed and ended. */
  function Fields(prefix: string, lines: seq<string>): string {
    if lines == [] then "" else prefix + lines[0] + "\n" + Fields(prefix, lines[1..])
  }

  function EventText(name: string, data: string): string {
    (if name == "" then "" else "event: " + name + "\n") + Fields("data: ", Lines(data)) + "\n"
  }

  function CommentText(comment: string): string {
    Fields(": ", Lines(comment)) + "\n"
  }

  // ------------------------------------------------------------ the printers

  function Newlines(text: string): nat {
    if text == "" then 0 else (if text[0] == '\n' then 1 else 0) + Newlines(text[1..])
  }

  /** The counting loop of both printers: the size to reserve, `perLine` for every further line. */
  method ReserveSize(text: string, base: nat, perLine: nat) returns (size: nat)
    ensures size == base + perLine * Newlines(text)
  {
    size := base;
    for i := 0 to |text|
      invariant size == base + perLine * Newlines(text[..i])
    {
      NewlinesPush(text[..i], text[i]);
      assert text[..i + 1] == text[..i] + [text[i]];
      if text[i] == '\n' {
        Distribute(perLine, Newlines(text[..i]));
        size := size + perLine;
      }
    }
    assert text[..|text|] == text;
  }

  /** The splitting loop of both printers: appends one field per line, then an empty line. */
  method AppendFields(before: string, prefix: string, text: string) returns (result: string)
    ensures result == before + Fields(prefix, Lines(text)) + "\n"
  {
    result := before;
    var start := 0;
    ghost var whole := before + Fields(prefix, Lines(text));
    assert text[0..] == text;
    while true
      invariant start <= |text|
      invariant whole == result + Fields(prefix, Lines(text[start..]))
      decreases |text| - start
    {
      var pos := Find(text, '\n', start);
      FieldsStep(prefix, text, start);
      if pos == |text| {
        Reassociate(result, prefix, text[start..], "\n", "");
        result := result + prefix;
        result := result + text[start..] + "\n\n";
        return;
      }
      Reassociate(result, prefix, text[start..pos], "\n", Fields(prefix, Lines(text[pos + 1..])));
      result := result + prefix;
      result := result + text[start..pos] + "\n";
      start := pos + 1;
    }
  }

  /** `buildEvent`, with the size it reserves for its result. */
  method BuildEvent(name: string, data: string) returns (result: string, reserved: nat)
    ensures result == EventText(name, data)
    ensures |result| == reserved - 8
  {
    reserved := |data| + 8;
    if name != "" {
      reserved := reserved + |name| + 8;
    }
    reserved := ReserveSize(data, reserved, 6);
    reserved := reserved + 8;
    result := if name == "" then "" else "event: " + name + "\n";
    result := AppendFields(result, "data: ", data);
    FieldsSize("data: ", data);
  }

  /** `buildComment`, with the size it reserves for its result. */
  method BuildComment(comment: string) returns (result: string, reserved: nat)
    ensures result == CommentText(comment)
    ensures |result| == reserved - 4
  {
    reserved := ReserveSize(comment, |comment| + 4, 2);
    reserved := reserved + 4;
    result := AppendFields("", ": ", comment);
    FieldsSize(": ", comment);
  }

  // ------------------------------------------------------------ auxiliary facts

  lemma {:induction false} NewlinesPush(text: string, c: char)
    ensures Newlines(text + [c]) == Newlines(text) + if c == '\n' then 1 else 0
  {
    if text != "" {
      assert (text + [c])[1..] == text[1..] + [c];
      NewlinesPush(text[1..], c);
    }
  }

  lemma {:induction false} NewlinesConcat(a: string, b: string)
    ensures Newlines(a + b) == Newlines(a) + Newlines(b)
  {
    if a == "" {
      assert a + b == b;
    } else {
      assert (a + b)[1..] == a[1..] + b;
      NewlinesConcat(a[1..], b);
    }
  }

  lemma {:induction false} NewlinesNone(text: string)
    requires SingleLine(text)
    ensures Newlines(text) == 0
  {
    if text != "" {
      NewlinesNone(text[1..]);
    }
  }

  lemma Reassociate(a: string, b: string, c: string, d: string, e: string)
    ensures a + (b + c + d + e) == a + b + c + d + e
  {
  }

  lemma Distribute(a: int, n: int)
    ensures a * (n + 1) == a * n + a
  {
  }

  /** Searching a suffix from 0 finds what searching the text from `start` finds. */
  lemma {:induction false} FindInSuffix(text: string, start: nat)
    requires start <= |text|
    ensures Find(text[start..], '\n', 0) == Find(text, '\n', start) - start
  {
    var p, q := Find(text[start..], '\n', 0), Find(text, '\n', start);
    assert p < |text| - start ==> text[start + p] == '\n';
    assert q < |text| ==> text[start..][q - start] == '\n';
  }

  /** The field of the line that begins at `start`, then the fields of what follows it. */
  lemma FieldsStep(prefix: string, text: string, start: nat)
    requires start <= |text|
    ensures var pos := Find(text, '\n', start);
            Fields(prefix, Lines(text[start..])) ==
            if pos == |text| then prefix + text[start..] + "\n"
            else prefix + text[start..pos] + "\n" + Fields(prefix, Lines(text[pos + 1..]))
  {
    var pos := Find(text, '\n', start);
    FindInSuffix(text, start);
    var suffix := text[start..];
    if pos == |text| {
      assert Lines(suffix) == [suffix];
    } else {
      assert suffix[..pos - start] == text[start..pos] && suffix[pos - start + 1..] == text[pos + 1..];
      assert Lines(suffix) == [text[start..pos]] + Lines(text[pos + 1..]);
    }
  }

  /** A field line costs its prefix: the newline that ends it replaces one of the text. */
  lemma {:induction false} FieldsSize(prefix: string, text: string)
    ensures |Fields(prefix, Lines(text))| == |text| + 1 + |prefix| * (Newlines(text) + 1)
    decreases |text|
  {
    var pos := Find(text, '\n', 0);
    FieldsStep(prefix, text, 0);
    assert text[0..] == text;
    if pos == |text| {
      NewlinesNone(text);
    } else {
      var line, rest := text[0..pos], text[pos + 1..];
      FieldsSize(prefix, rest);
      NewlinesAt(text, pos);
      Distribute(|prefix|, Newlines(rest) + 1);
      assert |Fields(prefix, Lines(text))| == |prefix| + pos + 1 + |Fields(prefix, Lines(rest))|;
    }
  }

  lemma NewlinesAt(text: string, pos: nat)
    requires pos < |text| && text[pos] == '\n' && SingleLine(text[..pos])
    ensures Newlines(text) == 1 + Newlines(text[pos + 1..])
  {
    assert text == text[..pos] + text[pos..];
    NewlinesConcat(text[..pos], text[pos..]);
    NewlinesNone(text[..pos]);
    assert text[pos..][1..] == text[pos + 1..];
  }
}
