/**
  A decoder for canonical JSON text, used to show that the printer loses nothing but
  object key order and undefined fields.
 */
module JsonDecoder {
  import opened Wrappers
  import opened CanonicalJson

  function HexValue(u: CodeUnit): (r: Option<nat>)
    ensures r.Some? ==> r.value < 16
  {
    if ZERO <= u <= NINE then Some(u - ZERO)
    else if LOWER_A <= u <= LOWER_F then Some(u - LOWER_A + 10)
    else None
  }

  function SimpleEscape(u: CodeUnit): Option<CodeUnit> {
    if u == LOWER_B then Some(BACKSPACE)
    else if u == LOWER_T then Some(TAB)
    else if u == LOWER_N then Some(LINE_FEED)
    else if u == LOWER_F then Some(FORM_FEED)
    else if u == LOWER_R then Some(CARRIAGE_RETURN)
    else if u == QUOTE then Some(QUOTE)
    else if u == BACKSLASH then Some(BACKSLASH)
    else None
  }

  /** Reads one code unit of a string body, escaped or not. */
  function DecodeUnit(t: Text): (r: Option<(CodeUnit, Text)>)
    requires t != []
    ensures r.Some? ==> |r.value.1| < |t|
  {
    if t[0] != BACKSLASH then Some((t[0], t[1..]))
    else if |t| < 2 then None
    else if t[1] == LOWER_U then
      if |t| < 6 then None
      else
        match (HexValue(t[2]), HexValue(t[3]), HexValue(t[4]), HexValue(t[5]))
        case (Some(a), Some(b), Some(c), Some(d)) => Some((a * 0x1000 + b * 0x100 + c * 0x10 + d, t[6..]))
        case _ => None
    else
      match SimpleEscape(t[1])
      case Some(u) => Some((u, t[2..]))
      case None => None
  }

  /** Reads a string body up to and including its closing quote. */
  function DecodeString(t: Text): (r: Option<(Text, Text)>)
    ensures r.Some? ==> |r.value.1| < |t|
    decreases |t|
  {
    if t == [] then None
    else if t[0] == QUOTE then Some(([], t[1..]))
    else
      match DecodeUnit(t)
      case None => None
      case Some((u, rest)) =>
        match DecodeString(rest)
        case None => None
        case Some((s, after)) => Some(([u] + s, after))
  }

  function NumberLength(t: Text): (n: nat)
    ensures n <= |t|
    ensures forall i :: 0 <= i < n ==> IsNumberUnit(t[i])
    ensures n == |t| || !IsNumberUnit(t[n])
  {
    if t == [] || !IsNumberUnit(t[0]) then 0 else 1 + NumberLength(t[1..])
  }

  function Decode(t: Text): (r: Option<(Json, Text)>)
    ensures r.Some? ==> |r.value.1| < |t|
    decreases |t|, 0
  {
    if t == [] then None
    else if t[0] == QUOTE then
      match DecodeString(t[1..])
      case Some((s, rest)) => Some((String(s), rest))
      case None => None
    else if t[0] == OPEN_BRACKET then
      if |t| >= 2 && t[1] == CLOSE_BRACKET then Some((Array([]), t[2..]))
      else
        match DecodeItems(t[1..])
        case Some((items, rest)) => Some((Array(items), rest))
        case None => None
    else if t[0] == OPEN_BRACE then
      if |t| >= 2 && t[1] == CLOSE_BRACE then Some((Object([]), t[2..]))
      else
        match DecodeMembers(t[1..])
        case Some((fields, rest)) => Some((Object(fields), rest))
        case None => None
    else if NULL_TEXT <= t then Some((Null, t[4..]))
    else if TRUE_TEXT <= t then Some((Bool(true), t[4..]))
    else if FALSE_TEXT <= t then Some((Bool(false), t[5..]))
    else
      var n := NumberLength(t);
      if n == 0 then None else Some((Number(t[..n]), t[n..]))
  }

  function DecodeItems(t: Text): (r: Option<(seq<Json>, Text)>)
    ensures r.Some? ==> |r.value.1| < |t|
    decreases |t|, 1
  {
    match Decode(t)
    case None => None
    case Some((v, rest)) =>
      if rest == [] then None
      else if rest[0] == CLOSE_BRACKET then Some(([v], rest[1..]))
      else if rest[0] != COMMA then None
      else
        match DecodeItems(rest[1..])
        case None => None
        case Some((vs, after)) => Some(([v] + vs, after))
  }

  function DecodeMembers(t: Text): (r: Option<(seq<Field>, Text)>)
    ensures r.Some? ==> |r.value.1| < |t|
    decreases |t|, 1
  {
    if t == [] || t[0] != QUOTE then None
    else
      match DecodeString(t[1..])
      case None => None
      case Some((key, afterKey)) =>
        if afterKey == [] || afterKey[0] != COLON then None
        else
          match Decode(afterKey[1..])
          case None => None
          case Some((v, rest)) =>
            if rest == [] then None
            else if rest[0] == CLOSE_BRACE then Some(([Field(key, v)], rest[1..]))
            else if rest[0] != COMMA then None
            else
              match DecodeMembers(rest[1..])
              case None => None
              case Some((fields, after)) => Some(([Field(key, v)] + fields, after))
  }

  // ---------------------------------------------------------------- strings

  lemma HexRoundTrip(n: nat)
    requires n < 16
    ensures HexValue(HexDigit(n)) == Some(n)
  {
  }

  lemma HexDigitsOf(u: CodeUnit)
    ensures u / 0x1000 * 0x1000 + u / 0x100 % 16 * 0x100 + u / 0x10 % 16 * 0x10 + u % 16 == u
  {
    assert u / 0x100 == u / 0x1000 * 16 + u / 0x100 % 16;
    assert u / 0x10 == u / 0x100 * 16 + u / 0x10 % 16;
  }

  lemma DecodeUnicodeEscape(u: CodeUnit, rest: Text)
    ensures DecodeUnit(UnicodeEscape(u) + rest) == Some((u, rest))
  {
    var e := UnicodeEscape(u);
    var t := e + rest;
    assert t[6..] == rest;
    assert t[0] == BACKSLASH && t[1] == LOWER_U;
    HexRoundTrip(u / 0x1000);
    HexRoundTrip(u / 0x100 % 16);
    HexRoundTrip(u / 0x10 % 16);
    HexRoundTrip(u % 16);
    assert t[2] == HexDigit(u / 0x1000) && t[3] == HexDigit(u / 0x100 % 16);
    assert t[4] == HexDigit(u / 0x10 % 16) && t[5] == HexDigit(u % 16);
    HexDigitsOf(u);
  }

  lemma DecodeEscapeUnit(u: CodeUnit, rest: Text)
    ensures EscapeUnit(u)[0] != QUOTE
    ensures DecodeUnit(EscapeUnit(u) + rest) == Some((u, rest))
  {
    var e := EscapeUnit(u);
    if |e| == 1 {
      assert ([u] + rest)[1..] == rest;
    } else if |e| == 2 {
      var t := e + rest;
      assert t[0] == BACKSLASH && t[1] == e[1] && t[2..] == rest;
    } else {
      DecodeUnicodeEscape(u, rest);
    }
  }

  /** Only control characters, quotes, backslashes and lone surrogates are escaped, and seven of them in two characters. */
  lemma EscapesWhatMustBe(u: CodeUnit)
    ensures EscapeUnit(u) == [u] <==> u >= 0x20 && u != QUOTE && u != BACKSLASH && !(0xD800 <= u < 0xE000)
    ensures |EscapeUnit(u)| == 2 <==> u in {BACKSPACE, TAB, LINE_FEED, FORM_FEED, CARRIAGE_RETURN, QUOTE, BACKSLASH}
    ensures |EscapeUnit(u)| in {1, 2, 6}
  {
  }

  lemma Regroup(a: Text, b: Text, c: Text, d: Text)
    ensures a + b + c + d == a + (b + c + d)
  {
  }

  lemma SplitPair(a: CodeUnit, b: CodeUnit, tail: Text)
    ensures [a, b] + tail == [a] + ([b] + tail)
  {
  }

  lemma EscapePair(s: Text, rest: Text)
    requires |s| >= 2 && IsHighSurrogate(s[0]) && IsLowSurrogate(s[1])
    ensures Escape(s) + [QUOTE] + rest == [s[0]] + ([s[1]] + (Escape(s[2..]) + [QUOTE] + rest))
  {
    var tail := Escape(s[2..]);
    assert Escape(s) == [s[0], s[1]] + tail;
    Regroup([s[0], s[1]], tail, [QUOTE], rest);
    SplitPair(s[0], s[1], tail + [QUOTE] + rest);
  }

  lemma EscapeOne(s: Text, rest: Text)
    requires s != [] && !(|s| >= 2 && IsHighSurrogate(s[0]) && IsLowSurrogate(s[1]))
    ensures Escape(s) + [QUOTE] + rest == EscapeUnit(s[0]) + (Escape(s[1..]) + [QUOTE] + rest)
  {
    assert Escape(s) == EscapeUnit(s[0]) + Escape(s[1..]);
    Regroup(EscapeUnit(s[0]), Escape(s[1..]), [QUOTE], rest);
  }

  lemma DecodePlainUnit(u: CodeUnit, tail: Text, s: Text, after: Text)
    requires u != QUOTE && u != BACKSLASH
    requires DecodeString(tail) == Some((s, after))
    ensures DecodeString([u] + tail) == Some(([u] + s, after))
  {
    assert ([u] + tail)[1..] == tail;
  }

  lemma DecodeEscapedUnit(u: CodeUnit, tail: Text, s: Text, after: Text)
    requires DecodeString(tail) == Some((s, after))
    ensures DecodeString(EscapeUnit(u) + tail) == Some(([u] + s, after))
  {
    DecodeEscapeUnit(u, tail);
    var t := EscapeUnit(u) + tail;
    assert t != [] && t[0] == EscapeUnit(u)[0];
  }

  lemma DecodeEnd(rest: Text)
    ensures DecodeString(Escape([]) + [QUOTE] + rest) == Some(([], rest))
  {
    assert Escape([]) + [QUOTE] + rest == [QUOTE] + rest;
    assert ([QUOTE] + rest)[1..] == rest;
  }

  /** Decoding a quoted string gives the string back and leaves the rest of the text. */
  lemma {:induction false} DecodeEscape(s: Text, rest: Text)
    ensures DecodeString(Escape(s) + [QUOTE] + rest) == Some((s, rest))
  {
    hide DecodeString, Escape, EscapeUnit;
    if s == [] {
      DecodeEnd(rest);
    } else if |s| >= 2 && IsHighSurrogate(s[0]) && IsLowSurrogate(s[1]) {
      var tail := Escape(s[2..]) + [QUOTE] + rest;
      DecodeEscape(s[2..], rest);
      DecodePlainUnit(s[1], tail, s[2..], rest);
      DecodePlainUnit(s[0], [s[1]] + tail, [s[1]] + s[2..], rest);
      EscapePair(s, rest);
      assert s == [s[0]] + ([s[1]] + s[2..]);
    } else {
      DecodeEscape(s[1..], rest);
      DecodeEscapedUnit(s[0], Escape(s[1..]) + [QUOTE] + rest, s[1..], rest);
      EscapeOne(s, rest);
      assert s == [s[0]] + s[1..];
    }
  }
}
