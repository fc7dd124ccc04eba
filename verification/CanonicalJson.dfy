/**
  The canonical JSON printer behind every audit hash and every prefix comparison, and a
  decoder that inverts it.

  Text is a sequence of UTF-16 code units, because that is what the printer sorts and
  escapes. A number is represented by its ECMAScript rendering.
 */
module CanonicalJson {
  type CodeUnit = n: nat | n < 0x1_0000
  type Text = seq<CodeUnit>

  const BACKSPACE: CodeUnit := 8
  const TAB: CodeUnit := 9
  const LINE_FEED: CodeUnit := 10
  const FORM_FEED: CodeUnit := 12
  const CARRIAGE_RETURN: CodeUnit := 13
  const QUOTE: CodeUnit := 34
  const PLUS: CodeUnit := 43
  const COMMA: CodeUnit := 44
  const MINUS: CodeUnit := 45
  const DOT: CodeUnit := 46
  const ZERO: CodeUnit := 48
  const NINE: CodeUnit := 57
  const COLON: CodeUnit := 58
  const OPEN_BRACKET: CodeUnit := 91
  const BACKSLASH: CodeUnit := 92
  const CLOSE_BRACKET: CodeUnit := 93
  const LOWER_A: CodeUnit := 97
  const LOWER_B: CodeUnit := 98
  const LOWER_E: CodeUnit := 101
  const LOWER_F: CodeUnit := 102
  const LOWER_N: CodeUnit := 110
  const LOWER_R: CodeUnit := 114
  const LOWER_T: CodeUnit := 116
  const LOWER_U: CodeUnit := 117
  const OPEN_BRACE: CodeUnit := 123
  const CLOSE_BRACE: CodeUnit := 125

  const NULL_TEXT: Text := [110, 117, 108, 108]
  const TRUE_TEXT: Text := [116, 114, 117, 101]
  const FALSE_TEXT: Text := [102, 97, 108, 115, 101]

  datatype Field = Field(key: Text, value: Json)

  /** A JavaScript value as the printer sees it. Fields are in insertion order. */
  datatype Json =
    | Undefined
    | Null
    | Bool(b: bool)
    | Number(literal: Text)
    | String(text: Text)
    | Array(items: seq<Json>)
    | Object(fields: seq<Field>)

  // ---------------------------------------------------------------- domain

  predicate IsNumberUnit(u: CodeUnit) {
    ZERO <= u <= NINE || u == MINUS || u == PLUS || u == DOT || u == LOWER_E
  }

  predicate IsNumberLiteral(l: Text) {
    && l != []
    && (ZERO <= l[0] <= NINE || l[0] == MINUS)
    && forall i :: 0 <= i < |l| ==> IsNumberUnit(l[i])
  }

  ghost predicate DistinctKeys(fields: seq<Field>) {
    forall i, j :: 0 <= i < j < |fields| ==> fields[i].key != fields[j].key
  }

  /** The values the printer promises to handle: no undefined outside an object field. */
  ghost predicate Valid(v: Json) {
    match v
    case Undefined => false
    case Null => true
    case Bool(_) => true
    case Number(l) => IsNumberLiteral(l)
    case String(_) => true
    case Array(items) => forall i :: 0 <= i < |items| ==> Valid(items[i])
    case Object(fields) =>
      && DistinctKeys(fields)
      && forall i :: 0 <= i < |fields| ==> fields[i].value.Undefined? || Valid(fields[i].value)
  }

  // ---------------------------------------------------------------- objects

  /** Property read: `undefined` when the key is missing. */
  function Get(fields: seq<Field>, key: Text): (r: Json)
    ensures r.Undefined? || exists i :: 0 <= i < |fields| && fields[i] == Field(key, r)
  {
    if fields == [] then Undefined
    else if fields[0].key == key then
      assert fields[0] == Field(key, fields[0].value);
      fields[0].value
    else
      var r := Get(fields[1..], key);
      assert r.Undefined? || exists i :: 0 <= i < |fields[1..]| && fields[1..][i] == fields[i + 1] == Field(key, r);
      r
  }

  function KeysOf(fields: seq<Field>): (ks: seq<Text>)
    ensures |ks| == |fields|
    ensures forall i :: 0 <= i < |fields| ==> ks[i] == fields[i].key
  {
    seq(|fields|, i requires 0 <= i < |fields| => fields[i].key)
  }

  /** Order of two strings by UTF-16 code units, the default order of Array.prototype.sort. */
  predicate Less(a: Text, b: Text) {
    if b == [] then false
    else if a == [] then true
    else a[0] < b[0] || (a[0] == b[0] && Less(a[1..], b[1..]))
  }

  function InsertKey(key: Text, ks: seq<Text>): (r: seq<Text>)
    ensures forall x :: x in r <==> x == key || x in ks
  {
    if ks == [] || !Less(ks[0], key) then [key] + ks
    else
      var rest := InsertKey(key, ks[1..]);
      assert forall x :: x in ks <==> x == ks[0] || x in ks[1..];
      [ks[0]] + rest
  }

  function SortKeys(ks: seq<Text>): (r: seq<Text>)
    ensures forall x :: x in r <==> x in ks
  {
    if ks == [] then []
    else
      assert forall x :: x in ks <==> x == ks[0] || x in ks[1..];
      InsertKey(ks[0], SortKeys(ks[1..]))
  }

  function DropUndefined(fields: seq<Field>, ks: seq<Text>): (r: seq<Text>)
    ensures forall x :: x in r <==> x in ks && !Get(fields, x).Undefined?
  {
    if ks == [] then []
    else
      assert forall x :: x in ks <==> x == ks[0] || x in ks[1..];
      var rest := DropUndefined(fields, ks[1..]);
      if Get(fields, ks[0]).Undefined? then rest else [ks[0]] + rest
  }

  /** The keys that are printed, in the order they are printed. */
  function LiveKeys(fields: seq<Field>): (r: seq<Text>)
    ensures forall x :: x in r <==> x in KeysOf(fields) && !Get(fields, x).Undefined?
  {
    DropUndefined(fields, SortKeys(KeysOf(fields)))
  }

  // ---------------------------------------------------------------- printer

  predicate IsHighSurrogate(u: CodeUnit) { 0xD800 <= u < 0xDC00 }
  predicate IsLowSurrogate(u: CodeUnit) { 0xDC00 <= u < 0xE000 }

  function HexDigit(n: nat): (r: CodeUnit)
    requires n < 16
    ensures r < 128
  {
    if n < 10 then ZERO + n else LOWER_A + (n - 10)
  }

  function UnicodeEscape(u: CodeUnit): (r: Text)
    ensures |r| == 6
  {
    [BACKSLASH, LOWER_U, HexDigit(u / 0x1000), HexDigit(u / 0x100 % 16), HexDigit(u / 0x10 % 16), HexDigit(u % 16)]
  }

  function EscapeUnit(u: CodeUnit): (r: Text)
    ensures r != []
  {
    if u == BACKSPACE then [BACKSLASH, LOWER_B]
    else if u == TAB then [BACKSLASH, LOWER_T]
    else if u == LINE_FEED then [BACKSLASH, LOWER_N]
    else if u == FORM_FEED then [BACKSLASH, LOWER_F]
    else if u == CARRIAGE_RETURN then [BACKSLASH, LOWER_R]
    else if u == QUOTE then [BACKSLASH, QUOTE]
    else if u == BACKSLASH then [BACKSLASH, BACKSLASH]
    else if u < 0x20 || IsHighSurrogate(u) || IsLowSurrogate(u) then UnicodeEscape(u)
    else [u]
  }

  /** Section 7 of RFC 8259; a surrogate pair is copied, a lone surrogate is escaped. */
  function Escape(s: Text): Text {
    if s == [] then []
    else if |s| >= 2 && IsHighSurrogate(s[0]) && IsLowSurrogate(s[1]) then [s[0], s[1]] + Escape(s[2..])
    else EscapeUnit(s[0]) + Escape(s[1..])
  }

  function Quoted(s: Text): Text {
    [QUOTE] + Escape(s) + [QUOTE]
  }

  /** `stableStringify`. A top-level `undefined` prints as nothing. */
  function Print(v: Json): Text
    decreases v, 0
  {
    match v
    case Undefined => []
    case Null => NULL_TEXT
    case Bool(b) => if b then TRUE_TEXT else FALSE_TEXT
    case Number(l) => l
    case String(s) => Quoted(s)
    case Array(items) => [OPEN_BRACKET] + PrintItems(items) + [CLOSE_BRACKET]
    case Object(fields) => [OPEN_BRACE] + PrintMembers(fields, LiveKeys(fields)) + [CLOSE_BRACE]
  }

  function PrintItems(items: seq<Json>): Text
    decreases items, 0
  {
    if items == [] then []
    else if |items| == 1 then Print(items[0])
    else Print(items[0]) + [COMMA] + PrintItems(items[1..])
  }

  function PrintMembers(fields: seq<Field>, ks: seq<Text>): Text
    requires forall k :: k in ks ==> !Get(fields, k).Undefined?
    decreases fields, |ks|
  {
    if ks == [] then []
    else
      var member := Quoted(ks[0]) + [COLON] + Print(Get(fields, ks[0]));
      if |ks| == 1 then member else member + [COMMA] + PrintMembers(fields, ks[1..])
  }
}
