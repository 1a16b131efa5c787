/** The lookup of one parameter in a request target. */
module QueryString {
  import opened Outcomes
  import opened TextSearch

  /** The pieces between separators; there is always at least one. */
  function Split(text: string, sep: char): (pieces: seq<string>)
    ensures |pieces| >= 1
    decreases |text|
  {
    var pos := Find(text, sep, 0);
    if pos == |text| then [text] else [text[..pos]] + Split(text[pos + 1..], sep)
  }

  function KeyOf(pair: string): string {
    pair[..Find(pair, '=', 0)]
  }

  function ValueOf(pair: string): string {
    if Find(pair, '=', 0) == |pair| then "" else pair[Find(pair, '=', 0) + 1..]
  }

  /** The value of the first pair with the key. */
  function FirstValue(pairs: seq<string>, key: string): Option<string> {
    if pairs == [] then None
    else if KeyOf(pairs[0]) == key then Some(ValueOf(pairs[0]))
    else FirstValue(pairs[1..], key)
  }

  function QueryOf(target: string): string {
    if Find(target, '?', 0) == |target| then "" else target[Find(target, '?', 0) + 1..]
  }

  /** The pairs the loop looks at: it stops before an empty last one. */
  function Considered(query: string): seq<string> {
    var pieces := Split(query, '&');
    if pieces[|pieces| - 1] == "" then pieces[..|pieces| - 1] else pieces
  }

  method GetQueryParam(target: string, key: string) returns (value: Option<string>)
    ensures value == FirstValue(Considered(QueryOf(target)), key)
    ensures '?' !in target ==> value == None
  {
    var queryPos := Find(target, '?', 0);
    if queryPos == |target| || queryPos + 1 >= |target| {
      assert QueryOf(target) == "";
      return None;
    }
    var query := target[queryPos + 1..];
    ghost var wanted := FirstValue(Considered(query), key);
    assert query == QueryOf(target);
    while query != ""
      invariant FirstValue(Considered(query), key) == wanted
      decreases |query|
    {
      var ampPos := Find(query, '&', 0);
      var pair := query[..ampPos];
      var eqPos := Find(pair, '=', 0);
      LoopStep(query, key, pair, ampPos, eqPos);
      if pair[..eqPos] == key {
        if eqPos == |pair| {
          return Some("");
        }
        return Some(pair[eqPos + 1..]);
      }
      if ampPos == |query| {
        return None;
      }
      query := query[ampPos + 1..];
    }
    return None;
  }

  lemma LoopStep(query: string, key: string, pair: string, amp: nat, eq: nat)
    requires query != "" && amp == Find(query, '&', 0) && pair == query[..amp] && eq == Find(pair, '=', 0)
    ensures pair[..eq] == key && eq == |pair| ==> FirstValue(Considered(query), key) == Some("")
    ensures pair[..eq] == key && eq < |pair| ==> FirstValue(Considered(query), key) == Some(pair[eq + 1..])
    ensures pair[..eq] != key && amp == |query| ==> FirstValue(Considered(query), key) == None
    ensures pair[..eq] != key && amp < |query| ==>
              FirstValue(Considered(query), key) == FirstValue(Considered(query[amp + 1..]), key)
  {
    ConsideredStep(query, key);
  }

  /** One pass of the loop: the first pair, then the rest. */
  lemma ConsideredStep(query: string, key: string)
    requires query != ""
    ensures var amp := Find(query, '&', 0);
            FirstValue(Considered(query), key)
            == if KeyOf(query[..amp]) == key then Some(ValueOf(query[..amp]))
               else if amp == |query| then None
               else FirstValue(Considered(query[amp + 1..]), key)
  {
    var amp := Find(query, '&', 0);
    var pieces := Split(query, '&');
    if amp < |query| {
      var rest := Split(query[amp + 1..], '&');
      assert pieces == [query[..amp]] + rest;
      assert Considered(query) == [query[..amp]] + Considered(query[amp + 1..]);
      assert Considered(query)[1..] == Considered(query[amp + 1..]);
    } else {
      assert pieces == [query] && query[..amp] == query;
    }
  }

  lemma {:induction false} FirstValueAppend(pairs: seq<string>, last: string, key: string)
    ensures FirstValue(pairs + [last], key)
            == if FirstValue(pairs, key).Some? then FirstValue(pairs, key) else FirstValue([last], key)
  {
    if pairs != [] {
      assert (pairs + [last])[1..] == pairs[1..] + [last];
      FirstValueAppend(pairs[1..], last, key);
    }
  }

  lemma {:induction false} FirstValueNone(pairs: seq<string>, key: string)
    ensures FirstValue(pairs, key).None? <==> forall i | 0 <= i < |pairs| :: KeyOf(pairs[i]) != key
  {
    if pairs != [] {
      FirstValueNone(pairs[1..], key);
      assert pairs == [pairs[0]] + pairs[1..];
    }
  }

  /** The loop finds what a split on '&' and the first '=' finds, for every target and key, unless the key is empty, the
      query ends in an empty pair and no pair before that has an empty key; so always for a key that is not empty. */
  lemma LoopMatchesSplitIff(target: string, key: string)
    ensures var pieces := Split(QueryOf(target), '&');
            FirstValue(Considered(QueryOf(target)), key) == FirstValue(pieces, key) <==>
              !(key == "" && pieces[|pieces| - 1] == "" && forall i | 0 <= i < |pieces| - 1 :: KeyOf(pieces[i]) != "")
  {
    var pieces := Split(QueryOf(target), '&');
    var n := |pieces| - 1;
    FirstValueNone(pieces[..n], key);
    if pieces[n] == "" {
      FirstValueAppend(pieces[..n], "", key);
      assert pieces == pieces[..n] + [""];
      assert FirstValue([""], key) == if key == "" then Some("") else None;
    }
  }

  // ------------------------------------------------------------ building a query

  /** A key with a value, or a key alone, which is written without "=". */
  datatype Param = Param(key: string, value: Option<string>)

  function Pair(p: Param): string {
    if p.value.Some? then p.key + "=" + p.value.value else p.key
  }

  function Render(params: seq<Param>): string {
    if params == [] then ""
    else if |params| == 1 then Pair(params[0])
    else Pair(params[0]) + "&" + Render(params[1..])
  }

  /** The key contains neither separator and the value no '&'; a pair is not wholly empty. */
  predicate Plain(p: Param) {
    && '&' !in p.key && '=' !in p.key && Pair(p) != ""
    && (p.value.Some? ==> '&' !in p.value.value)
  }

  function FirstParam(params: seq<Param>, key: string): Option<string> {
    if params == [] then None
    else if params[0].key == key then Some(if params[0].value.Some? then params[0].value.value else "")
    else FirstParam(params[1..], key)
  }

  lemma FindIn(before: string, c: char, after: string)
    requires c !in before
    ensures Find(before + [c] + after, c, 0) == |before|
  {
    var text := before + [c] + after;
    assert forall i | 0 <= i < |before| :: text[i] == before[i] && before[i] in before;
    assert text[|before|] == c;
  }

  lemma PairSplits(p: Param)
    requires Plain(p)
    ensures KeyOf(Pair(p)) == p.key && '&' !in Pair(p)
    ensures ValueOf(Pair(p)) == if p.value.Some? then p.value.value else ""
  {
    if p.value.Some? {
      assert Pair(p) == p.key + ['='] + p.value.value;
      FindIn(p.key, '=', p.value.value);
    }
  }

  lemma {:induction false} LookupInRendered(params: seq<Param>, key: string)
    requires forall p | p in params :: Plain(p)
    ensures FirstValue(Considered(Render(params)), key) == FirstParam(params, key)
  {
    if params != [] {
      var first := Pair(params[0]);
      PairSplits(params[0]);
      ConsideredStep(Render(params), key);
      if |params| == 1 {
        assert Find(first, '&', 0) == |first| && first[..|first|] == first;
      } else {
        assert Render(params) == first + ['&'] + Render(params[1..]);
        FindIn(first, '&', Render(params[1..]));
        assert Render(params)[..|first|] == first && Render(params)[|first| + 1..] == Render(params[1..]);
        LookupInRendered(params[1..], key);
      }
    }
  }

  /** Looking a key up in a target built from separator-free pairs gives the key's first value, "" for a key alone. */
  lemma LookupInTarget(path: string, params: seq<Param>, key: string)
    requires '?' !in path && forall p | p in params :: Plain(p)
    ensures FirstValue(Considered(QueryOf(path + "?" + Render(params))), key) == FirstParam(params, key)
  {
    var target := path + ['?'] + Render(params);
    FindIn(path, '?', Render(params));
    assert path + "?" + Render(params) == target;
    assert QueryOf(target) == Render(params);
    LookupInRendered(params, key);
  }
}
