/** Hexadecimal codecs: access tokens with their store, and the paths of stored files. A shift by four bits is a division
    by 16, a mask with 15 a remainder, and combining two nibbles an addition. */
module HexCodecs {
  import opened Outcomes
  import opened Runs

  newtype byte = x: int | 0 <= x < 256

  const TOKEN_SIZE := 16

  /** `uint8_t(-1)`. */
  const INVALID: byte := 255

  function Digit(n: int): (c: char)
    requires 0 <= n < 16
  {
    "0123456789abcdef"[n]
  }

  function DecodeHexChar(c: char): byte {
    if '0' <= c <= '9' then (c as int - '0' as int) as byte
    else if 'a' <= c <= 'f' then (10 + (c as int - 'a' as int)) as byte
    else if 'A' <= c <= 'F' then (10 + (c as int - 'A' as int)) as byte
    else INVALID
  }

  function LowerCaseChar(c: char): char {
    if 'A' <= c <= 'F' then (c as int - 'A' as int + 'a' as int) as char else c
  }

  lemma DigitRoundTrip(n: int, c: char)
    ensures 0 <= n < 16 ==> DecodeHexChar(Digit(n)) as int == n
    ensures DecodeHexChar(c) != INVALID ==> DecodeHexChar(c) < 16 && Digit(DecodeHexChar(c) as int) == LowerCaseChar(c)
    ensures DecodeHexChar(c) == DecodeHexChar(LowerCaseChar(c))
  {
  }

  /** The digits in positional notation to base 16, in either case, by their ASCII codes. */
  function Numeral(digits: string): int {
    if digits == "" then 0
    else
      var code := digits[|digits| - 1] as int;
      16 * Numeral(digits[..|digits| - 1]) + (if code < 58 then code - 48 else if code < 71 then code - 55 else code - 87)
  }

  lemma DigitNumeral(c: char)
    ensures DecodeHexChar(c) != INVALID <==> c in "0123456789abcdefABCDEF"
    ensures DecodeHexChar(c) != INVALID ==> Numeral([c]) == DecodeHexChar(c) as int
  {
    assert [c][..0] == "";
  }

  lemma DigitIsNumeral(n: int)
    requires 0 <= n < 16
    ensures Numeral([Digit(n)]) == n
  {
    DigitRoundTrip(n, '0');
    DigitNumeral(Digit(n));
  }

  lemma TwoDigits(high: char, low: char)
    ensures Numeral([high, low]) == 16 * Numeral([high]) + Numeral([low])
  {
    assert [high, low][..1] == [high] && [low][..0] == "";
  }

  // ------------------------------------------------------------ tokens

  function Nibble(token: seq<byte>, i: int): (n: int)
    requires 0 <= i < 2 * |token|
    ensures 0 <= n < 16
  {
    if i % 2 == 0 then token[i / 2] as int / 16 else token[i / 2] as int % 16
  }

  function HexText(token: seq<byte>): (text: string)
    ensures |text| == 2 * |token|
  {
    seq(2 * |token|, i requires 0 <= i < 2 * |token| => Digit(Nibble(token, i)))
  }

  predicate IsHex(text: string) {
    forall i | 0 <= i < |text| :: DecodeHexChar(text[i]) != INVALID
  }

  function LowerCase(text: string): (lower: string)
    ensures |lower| == |text|
  {
    seq(|text|, i requires 0 <= i < |text| => LowerCaseChar(text[i]))
  }

  /** What the parser is to give for a text: a token whose text is the lower-cased one. There is only one, as
      `HexTextInjective` shows. */
  ghost predicate Parses(text: string, token: Option<seq<byte>>) {
    && (token.Some? <==> |text| == 2 * TOKEN_SIZE && IsHex(text))
    && (token.Some? ==> |token.value| == TOKEN_SIZE && HexText(token.value) == LowerCase(text))
  }

  method ParseHex(hex: string) returns (token: Option<seq<byte>>)
    ensures Parses(hex, token)
  {
    if |hex| != TOKEN_SIZE * 2 {
      return None;
    }
    var bytes := new byte[TOKEN_SIZE];
    var i := 0;
    while i < TOKEN_SIZE
      invariant 0 <= i <= TOKEN_SIZE
      invariant forall k | 0 <= k < 2 * i :: DecodeHexChar(hex[k]) != INVALID
      invariant forall k | 0 <= k < 2 * i :: Digit(Nibble(bytes[..], k)) == LowerCaseChar(hex[k])
    {
      var hi := DecodeHexChar(hex[2 * i]);
      var lo := DecodeHexChar(hex[2 * i + 1]);
      if hi == INVALID || lo == INVALID {
        return None;
      }
      DigitRoundTrip(0, hex[2 * i]);
      DigitRoundTrip(0, hex[2 * i + 1]);
      ghost var before := bytes[..];
      bytes[i] := (hi as int * 16 + lo as int) as byte;
      assert bytes[..][i] as int / 16 == hi as int && bytes[..][i] as int % 16 == lo as int;
      forall k | 0 <= k < 2 * i ensures Nibble(bytes[..], k) == Nibble(before, k) {
        assert bytes[..][k / 2] == before[k / 2];
      }
      i := i + 1;
    }
    return Some(bytes[..]);
  }

  method ToHex(token: seq<byte>) returns (text: string)
    requires |token| == TOKEN_SIZE
    ensures text == HexText(token)
  {
    var result := new char[TOKEN_SIZE * 2];
    var i := 0;
    while i < TOKEN_SIZE
      invariant 0 <= i <= TOKEN_SIZE
      invariant result[..2 * i] == HexText(token)[..2 * i]
    {
      var value := token[i] as int;
      result[2 * i] := Digit(value / 16);
      result[2 * i + 1] := Digit(value % 16);
      assert HexText(token)[2 * i] == Digit(Nibble(token, 2 * i)) && HexText(token)[2 * i + 1] == Digit(Nibble(token, 2 * i + 1));
      i := i + 1;
    }
    text := result[..];
  }

  /** The text of a token determines it, and is itself made of lower-case digits: parsing it gives the token back. */
  lemma HexTextInjective(a: seq<byte>, b: seq<byte>)
    requires HexText(a) == HexText(b)
    ensures a == b
  {
    assert |a| == |b|;
    forall i | 0 <= i < |a| ensures a[i] == b[i] {
      assert HexText(a)[2 * i] == Digit(Nibble(a, 2 * i)) && HexText(b)[2 * i] == Digit(Nibble(b, 2 * i));
      assert HexText(a)[2 * i + 1] == Digit(Nibble(a, 2 * i + 1)) && HexText(b)[2 * i + 1] == Digit(Nibble(b, 2 * i + 1));
      DigitRoundTrip(Nibble(a, 2 * i), '0');
      DigitRoundTrip(Nibble(b, 2 * i), '0');
      DigitRoundTrip(Nibble(a, 2 * i + 1), '0');
      DigitRoundTrip(Nibble(b, 2 * i + 1), '0');
    }
  }

  lemma HexTextIsLowerHex(token: seq<byte>)
    ensures IsHex(HexText(token)) && LowerCase(HexText(token)) == HexText(token)
  {
    forall i | 0 <= i < 2 * |token|
      ensures DecodeHexChar(HexText(token)[i]) != INVALID && LowerCaseChar(HexText(token)[i]) == HexText(token)[i]
    {
      DigitRoundTrip(Nibble(token, i), '0');
    }
  }

  /** The digits at 2i and 2i + 1, read to base 16, are byte i. */
  lemma TextSpellsBytes(token: seq<byte>, i: nat)
    requires i < |token|
    ensures Numeral(HexText(token)[2 * i..2 * i + 2]) == token[i] as int
  {
    var text := HexText(token);
    assert text[2 * i] == Digit(Nibble(token, 2 * i)) && text[2 * i + 1] == Digit(Nibble(token, 2 * i + 1));
    assert text[2 * i..2 * i + 2] == [text[2 * i], text[2 * i + 1]];
    TwoDigits(text[2 * i], text[2 * i + 1]);
    DigitIsNumeral(Nibble(token, 2 * i));
    DigitIsNumeral(Nibble(token, 2 * i + 1));
  }

  /** What is parsed are exactly the texts of 32 hexadecimal digits in either case, and byte i of the token is the value of
      digits 2i and 2i + 1. */
  lemma ParsedBytes(text: string, token: Option<seq<byte>>)
    requires Parses(text, token)
    ensures token.Some? <==> |text| == 32 && forall c | c in text :: c in "0123456789abcdefABCDEF"
    ensures token.Some? ==> forall i | 0 <= i < 16 :: token.value[i] as int == Numeral(text[2 * i..2 * i + 2])
  {
    HexDigitsOnly(text);
    if token.Some? {
      forall i | 0 <= i < 16 ensures token.value[i] as int == Numeral(text[2 * i..2 * i + 2]) {
        TextSpellsBytes(token.value, i);
        SameValue(text, i);
      }
    }
  }

  lemma HexDigitsOnly(text: string)
    ensures IsHex(text) <==> forall c | c in text :: c in "0123456789abcdefABCDEF"
  {
    forall i | 0 <= i < |text| ensures DecodeHexChar(text[i]) != INVALID <==> text[i] in "0123456789abcdefABCDEF" {
      DigitNumeral(text[i]);
    }
  }

  lemma SameValue(text: string, i: nat)
    requires IsHex(text) && 2 * i + 2 <= |text|
    ensures Numeral(LowerCase(text)[2 * i..2 * i + 2]) == Numeral(text[2 * i..2 * i + 2])
  {
    var lower := LowerCase(text);
    LowerCaseSameValue(text[2 * i]);
    LowerCaseSameValue(text[2 * i + 1]);
    TwoDigits(text[2 * i], text[2 * i + 1]);
    TwoDigits(lower[2 * i], lower[2 * i + 1]);
    assert text[2 * i..2 * i + 2] == [text[2 * i], text[2 * i + 1]];
    assert lower[2 * i..2 * i + 2] == [lower[2 * i], lower[2 * i + 1]];
  }

  lemma LowerCaseSameValue(c: char)
    requires DecodeHexChar(c) != INVALID
    ensures Numeral([LowerCaseChar(c)]) == Numeral([c])
  {
    DigitRoundTrip(0, c);
    DigitNumeral(c);
    DigitNumeral(LowerCaseChar(c));
  }

  /** Parsing undoes printing. */
  lemma ParsingUndoesPrinting(token: seq<byte>, parsed: Option<seq<byte>>)
    requires |token| == TOKEN_SIZE && Parses(HexText(token), parsed)
    ensures parsed == Some(token)
  {
    HexTextIsLowerHex(token);
    HexTextInjective(parsed.value, token);
  }

  /** Two texts stand for one token exactly if they differ in case only. */
  lemma SameTokenIff(text1: string, text2: string, token1: seq<byte>, token2: seq<byte>)
    requires Parses(text1, Some(token1)) && Parses(text2, Some(token2))
    ensures token1 == token2 <==> LowerCase(text1) == LowerCase(text2)
  {
    if LowerCase(text1) == LowerCase(text2) {
      HexTextInjective(token1, token2);
    }
  }

  // ------------------------------------------------------------ the token store

  /** Issued with random bytes, revoked by text; a text that does not parse does nothing. */
  datatype StoreStep = Issue(token: seq<byte>, userId: int) | Revoke(text: string)

  type Tokens = map<seq<byte>, int>

  /** The tokens a text stands for: at most one. */
  predicate Denotes(text: string, token: seq<byte>) {
    |text| == 2 * TOKEN_SIZE && |token| == TOKEN_SIZE && HexText(token) == LowerCase(text) && IsHex(text)
  }

  ghost predicate Resolves(tokens: Tokens, text: string, userId: int) {
    exists t | t in tokens :: Denotes(text, t) && tokens[t] == userId
  }

  function StoreNext(tokens: Tokens, step: StoreStep): Tokens {
    match step
    case Issue(token, userId) => tokens[token := userId]
    case Revoke(text) => map t | t in tokens && !Denotes(text, t) :: tokens[t]
  }

  /** An issued token resolves to its user, in any case of its letters, through every run in which its text is not
      revoked and the same bytes are not drawn again; and once its text is revoked, it resolves to nobody. */
  lemma ResolvesUntilRevoked(tokens: Tokens, token: seq<byte>, userId: int, steps: seq<StoreStep>, text: string)
    requires |token| == TOKEN_SIZE && Denotes(text, token)
    requires forall i | 0 <= i < |steps| ::
               !(steps[i].Issue? && steps[i].token == token) && !(steps[i].Revoke? && Denotes(steps[i].text, token))
    ensures var e := Run(StoreNext, StoreNext(tokens, Issue(token, userId)), steps);
            && (forall u :: Resolves(e, text, u) <==> u == userId)
            && (forall u :: !Resolves(StoreNext(e, Revoke(text)), text, u))
  {
    var s := StoreNext(tokens, Issue(token, userId));
    StaysIssued(s, token, userId, steps);
    var e := Run(StoreNext, s, steps);
    forall t | t in e && Denotes(text, t) ensures t == token {
      HexTextInjective(t, token);
    }
  }

  lemma {:induction false} StaysIssued(tokens: Tokens, token: seq<byte>, userId: int, steps: seq<StoreStep>)
    requires token in tokens && tokens[token] == userId
    requires forall i | 0 <= i < |steps| ::
               !(steps[i].Issue? && steps[i].token == token) && !(steps[i].Revoke? && Denotes(steps[i].text, token))
    ensures token in Run(StoreNext, tokens, steps) && Run(StoreNext, tokens, steps)[token] == userId
    decreases |steps|
  {
    if steps != [] {
      var rest := steps[1..];
      assert forall i | 0 <= i < |rest| :: rest[i] == steps[i + 1];
      StaysIssued(StoreNext(tokens, steps[0]), token, userId, rest);
    }
  }

  class AuthTokenStore {
    var tokenToUserId: map<seq<byte>, int>

    constructor ()
      ensures tokenToUserId == map[]
    {
      tokenToUserId := map[];
    }

    method IssueToken(random: seq<byte>, userId: int) returns (text: string)
      requires |random| == TOKEN_SIZE
      modifies this
      ensures tokenToUserId == StoreNext(old(tokenToUserId), Issue(random, userId)) && Denotes(text, random)
    {
      tokenToUserId := tokenToUserId[random := userId];
      text := ToHex(random);
      HexTextIsLowerHex(random);
    }

    method ResolveUserId(text: string) returns (userId: Option<int>)
      ensures userId.Some? ==> Resolves(tokenToUserId, text, userId.value)
      ensures userId.None? ==> forall u :: !Resolves(tokenToUserId, text, u)
    {
      var token := ParseHex(text);
      if token.None? {
        return None;
      }
      forall t | t in tokenToUserId && Denotes(text, t) ensures t == token.value {
        HexTextInjective(t, token.value);
      }
      if token.value !in tokenToUserId {
        return None;
      }
      return Some(tokenToUserId[token.value]);
    }

    method RevokeToken(text: string)
      modifies this
      ensures tokenToUserId == StoreNext(old(tokenToUserId), Revoke(text))
    {
      var token := ParseHex(text);
      if token.None? {
        return;
      }
      forall t | t in tokenToUserId && Denotes(text, t) ensures t == token.value {
        HexTextInjective(t, token.value);
      }
      tokenToUserId := tokenToUserId - {token.value};
    }
  }

  // ------------------------------------------------------------ file paths

  const BUFFER_SIZE := 124

  type UInt64 = n: int | 0 <= n < 0x1_0000_0000_0000_0000

  /** The last `n` hexadecimal digits of a number. */
  function HexDigits(value: int, n: nat): (text: string)
    requires value >= 0
    ensures |text| == n
  {
    if n == 0 then "" else HexDigits(value / 16, n - 1) + [Digit(value % 16)]
  }

  function Pow16(n: nat): (p: int)
    ensures p > 0
  {
    if n == 0 then 1 else 16 * Pow16(n - 1)
  }

  /** The digits, read to base 16, are the number. */
  lemma {:induction false} DigitsSpellNumber(value: int, n: nat)
    requires 0 <= value < Pow16(n)
    ensures Numeral(HexDigits(value, n)) == value
  {
    if n > 0 {
      var text := HexDigits(value, n);
      DigitsSpellNumber(value / 16, n - 1);
      assert text[..n - 1] == HexDigits(value / 16, n - 1) && text[n - 1] == Digit(value % 16);
      assert Numeral(text) == 16 * Numeral(text[..n - 1]) + Numeral([text[n - 1]]) by {
        assert [text[n - 1]][..0] == "";
      }
      DigitIsNumeral(value % 16);
    }
  }

  /** The buffer with the digits after the prefix, and a terminating zero. */
  function PathBuffer(buffer: seq<char>, prefixLen: nat, value: UInt64): seq<char>
    requires prefixLen + 17 <= |buffer|
  {
    buffer[..prefixLen] + HexDigits(value, 16) + ['\0'] + buffer[prefixLen + 17..]
  }

  lemma Assembled(buffer: seq<char>, prefixLen: nat)
    requires prefixLen + 17 <= |buffer|
    ensures buffer == buffer[..prefixLen] + buffer[prefixLen..prefixLen + 16] + [buffer[prefixLen + 16]]
                      + buffer[prefixLen + 17..]
  {
  }

  /** The sixteen digits behind the prefix spell the number; before and behind them the buffer is as it was, but for the
      terminating zero. */
  lemma PathBufferSpellsNumber(buffer: seq<char>, prefixLen: nat, value: UInt64)
    requires prefixLen + 17 <= |buffer|
    ensures var path := PathBuffer(buffer, prefixLen, value);
            && |path| == |buffer| && Numeral(path[prefixLen..prefixLen + 16]) == value
            && path[..prefixLen] == buffer[..prefixLen] && path[prefixLen + 16] == '\0'
            && path[prefixLen + 17..] == buffer[prefixLen + 17..]
  {
    assert PathBuffer(buffer, prefixLen, value)[prefixLen..prefixLen + 16] == HexDigits(value, 16);
    assert Pow16(4) == 0x1_0000 && Pow16(8) == 0x1_0000_0000 && Pow16(12) == 0x1_0000_0000_0000;
    assert Pow16(16) == 0x1_0000_0000_0000_0000;
    DigitsSpellNumber(value, 16);
  }

  /** Different numbers fill the buffer differently. */
  lemma PathBufferInjective(buffer: seq<char>, prefixLen: nat, a: UInt64, b: UInt64)
    requires prefixLen + 17 <= |buffer| && PathBuffer(buffer, prefixLen, a) == PathBuffer(buffer, prefixLen, b)
    ensures a == b
  {
    PathBufferSpellsNumber(buffer, prefixLen, a);
    PathBufferSpellsNumber(buffer, prefixLen, b);
  }

  /** The text up to the first zero, as the operating system reads the buffer. */
  function CString(buffer: seq<char>): string {
    if buffer == [] || buffer[0] == '\0' then "" else [buffer[0]] + CString(buffer[1..])
  }

  lemma {:induction false} CStringStops(text: string, rest: seq<char>)
    requires '\0' !in text
    ensures CString(text + ['\0'] + rest) == text
  {
    var buffer := text + ['\0'] + rest;
    if text != "" {
      assert buffer[0] == text[0] && buffer[0] in text;
      assert buffer[1..] == text[1..] + ['\0'] + rest;
      CStringStops(text[1..], rest);
    }
  }

  lemma {:induction false} DigitsAreNotZero(value: int, n: nat)
    requires value >= 0
    ensures '\0' !in HexDigits(value, n)
  {
    if n > 0 {
      DigitsAreNotZero(value / 16, n - 1);
      DigitRoundTrip(value % 16, '\0');
    }
  }

  /** The buffer with a prefix set, zero after it. */
  function PrefixBuffer(prefix: string): seq<char>
    requires |prefix| <= BUFFER_SIZE
  {
    prefix + seq(BUFFER_SIZE - |prefix|, _ => '\0')
  }

  function PathOf(prefix: string, value: UInt64): string
    requires |prefix| + 17 <= BUFFER_SIZE
  {
    CString(PathBuffer(PrefixBuffer(prefix), |prefix|, value))
  }

  /** A prefix without a zero: the path is the prefix and sixteen digits; with one, it is cut there for every number. */
  lemma PathText(prefix: string, value: UInt64)
    requires |prefix| + 17 <= BUFFER_SIZE
    ensures '\0' !in prefix ==> PathOf(prefix, value) == prefix + HexDigits(value, 16)
    ensures forall i | 0 <= i < |prefix| && prefix[i] == '\0' && '\0' !in prefix[..i] :: PathOf(prefix, value) == prefix[..i]
  {
    var buffer := PrefixBuffer(prefix);
    var path := PathBuffer(buffer, |prefix|, value);
    assert buffer[..|prefix|] == prefix;
    if '\0' !in prefix {
      DigitsAreNotZero(value, 16);
      assert path == (prefix + HexDigits(value, 16)) + ['\0'] + buffer[|prefix| + 17..];
      CStringStops(prefix + HexDigits(value, 16), buffer[|prefix| + 17..]);
    }
    forall i | 0 <= i < |prefix| && prefix[i] == '\0' && '\0' !in prefix[..i] ensures PathOf(prefix, value) == prefix[..i] {
      assert path == prefix[..i] + ['\0'] + path[i + 1..];
      CStringStops(prefix[..i], path[i + 1..]);
    }
  }

  lemma {:induction false} FirstZero(text: string) returns (i: nat)
    requires '\0' in text
    ensures i < |text| && text[i] == '\0' && '\0' !in text[..i]
  {
    if text[0] == '\0' {
      i := 0;
    } else {
      var j := FirstZero(text[1..]);
      i := j + 1;
      assert text[..i] == [text[0]] + text[1..][..j];
    }
  }

  /** Different ids get different paths exactly if the configured prefix has no zero character. */
  lemma PathsDistinctIff(prefix: string)
    requires |prefix| + 17 <= BUFFER_SIZE
    ensures (forall a: UInt64, b: UInt64 :: PathOf(prefix, a) == PathOf(prefix, b) ==> a == b) <==> '\0' !in prefix
  {
    if '\0' in prefix {
      var i := FirstZero(prefix);
      PathText(prefix, 0);
      PathText(prefix, 1);
      assert PathOf(prefix, 0) == PathOf(prefix, 1);
    } else {
      forall a: UInt64, b: UInt64 | PathOf(prefix, a) == PathOf(prefix, b) ensures a == b {
        PathText(prefix, a);
        PathText(prefix, b);
        assert (prefix + HexDigits(a, 16))[|prefix|..] == HexDigits(a, 16);
        assert (prefix + HexDigits(b, 16))[|prefix|..] == HexDigits(b, 16);
        PathBufferInjective(PrefixBuffer(prefix), |prefix|, a, b);
      }
    }
  }

  class FileStorage {
    const pathBuf: array<char>
    var prefixLen: nat

    constructor ()
      ensures fresh(pathBuf) && pathBuf.Length == BUFFER_SIZE && prefixLen == 0
    {
      pathBuf := new char[BUFFER_SIZE](_ => '\0');
      prefixLen := 0;
    }

    /** False stands for the exception: the prefix is too long. */
    method InitializePrefix(prefix: string) returns (ok: bool)
      requires pathBuf.Length == BUFFER_SIZE
      modifies this, pathBuf
      ensures ok <==> |prefix| + 17 <= BUFFER_SIZE
      ensures ok ==> prefixLen == |prefix| && pathBuf[..] == PrefixBuffer(prefix)
      ensures ok ==> pathBuf[..|prefix|] == prefix && forall i | |prefix| <= i < BUFFER_SIZE :: pathBuf[i] == '\0'
      ensures !ok ==> prefixLen == old(prefixLen) && pathBuf[..] == old(pathBuf[..])
    {
      if |prefix| + 16 + 1 > pathBuf.Length {
        return false;
      }
      forall i | 0 <= i < pathBuf.Length {
        pathBuf[i] := '\0';
      }
      forall i | 0 <= i < |prefix| {
        pathBuf[i] := prefix[i];
      }
      prefixLen := |prefix|;
      ok := true;
    }

    method FillAsciiHex(value: UInt64) returns (result: array<char>)
      requires pathBuf.Length == BUFFER_SIZE && prefixLen + 17 <= BUFFER_SIZE
      ensures fresh(result) && result[..] == PathBuffer(pathBuf[..], prefixLen, value)
    {
      result := new char[BUFFER_SIZE];
      forall i | 0 <= i < BUFFER_SIZE {
        result[i] := pathBuf[i];
      }
      ghost var start := pathBuf[..];
      var v: int := value;
      var i := 15;
      while i >= 0
        invariant -1 <= i <= 15 && v >= 0
        invariant result[..prefixLen] == start[..prefixLen] && result[prefixLen + 16..] == start[prefixLen + 16..]
        invariant HexDigits(value, 16) == HexDigits(v, i + 1) + result[prefixLen + i + 1..prefixLen + 16]
        decreases i
      {
        ghost var tail := result[prefixLen + i + 1..prefixLen + 16];
        result[prefixLen + i] := Digit(v % 16);
        assert result[prefixLen + i..prefixLen + 16] == [Digit(v % 16)] + tail;
        v := v / 16;
        i := i - 1;
      }
      assert HexDigits(value, 16) == result[prefixLen..prefixLen + 16];
      result[prefixLen + 16] := '\0';
      assert result[prefixLen + 17..] == start[prefixLen + 17..];
      Assembled(result[..], prefixLen);
    }
  }
}
