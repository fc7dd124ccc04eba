/**
  When two values have the same canonical text: exactly when they are equal up to object
  key order and undefined fields.
 */
module JsonEquivalence {
  import opened Wrappers
  import opened CanonicalJson
  import opened JsonDecoder

  // ---------------------------------------------------------------- equivalence

  ghost function LiveKeySet(fields: seq<Field>): set<Text> {
    set i | 0 <= i < |fields| && !Get(fields, fields[i].key).Undefined? :: fields[i].key
  }

  /** Equality up to the order of object keys and the presence of undefined fields. */
  ghost predicate Equivalent(a: Json, b: Json) {
    match (a, b)
    case (Array(xs), Array(ys)) =>
      |xs| == |ys| && forall i :: 0 <= i < |xs| ==> Equivalent(xs[i], ys[i])
    case (Object(f), Object(g)) =>
      && LiveKeySet(f) == LiveKeySet(g)
      && forall k :: k in LiveKeySet(f) ==> Equivalent(Get(f, k), Get(g, k))
    case _ => a == b
  }

  // ---------------------------------------------------------------- canonical form

  /** The canonical representative: live fields only, in key order. */
  function Norm(v: Json): Json
    decreases v, 0
  {
    match v
    case Array(items) => Array(NormItems(items))
    case Object(fields) => Object(NormMembers(fields, LiveKeys(fields)))
    case _ => v
  }

  function NormItems(items: seq<Json>): (r: seq<Json>)
    ensures |r| == |items|
    ensures forall i :: 0 <= i < |items| ==> r[i] == Norm(items[i])
    decreases items, 0
  {
    if items == [] then [] else [Norm(items[0])] + NormItems(items[1..])
  }

  function NormMembers(fields: seq<Field>, ks: seq<Text>): (r: seq<Field>)
    requires forall k :: k in ks ==> !Get(fields, k).Undefined?
    ensures |r| == |ks|
    ensures forall i :: 0 <= i < |ks| ==> r[i] == Field(ks[i], Norm(Get(fields, ks[i])))
    decreases fields, |ks|
  {
    if ks == [] then []
    else [Field(ks[0], Norm(Get(fields, ks[0])))] + NormMembers(fields, ks[1..])
  }

  // ---------------------------------------------------------------- key order

  lemma {:induction false} LessTotal(a: Text, b: Text)
    ensures Less(a, b) || Less(b, a) || a == b
    ensures !(Less(a, b) && Less(b, a))
    ensures a == b ==> !Less(a, b)
  {
    if a != [] && b != [] {
      LessTotal(a[1..], b[1..]);
      if a[0] == b[0] && a[1..] == b[1..] {
        assert a == [a[0]] + a[1..] && b == [b[0]] + b[1..];
      }
    }
  }

  lemma {:induction false} LessTransitive(a: Text, b: Text, c: Text)
    requires Less(a, b) && Less(b, c)
    ensures Less(a, c)
  {
    if a != [] && b[0] == a[0] && c[0] == b[0] {
      LessTransitive(a[1..], b[1..], c[1..]);
    }
  }

  ghost predicate StrictlySorted(ks: seq<Text>) {
    forall i, j :: 0 <= i < j < |ks| ==> Less(ks[i], ks[j])
  }

  lemma {:induction false} InsertKeySorted(key: Text, ks: seq<Text>)
    requires StrictlySorted(ks) && key !in ks
    ensures StrictlySorted(InsertKey(key, ks))
  {
    if ks != [] {
      LessTotal(ks[0], key);
      if Less(ks[0], key) {
        InsertKeySorted(key, ks[1..]);
        var rest := InsertKey(key, ks[1..]);
        forall j | 0 <= j < |rest|
          ensures Less(ks[0], rest[j])
        {
          assert rest[j] in rest;
        }
      } else {
        forall j | 1 <= j < |ks|
          ensures Less(key, ks[j])
        {
          LessTransitive(key, ks[0], ks[j]);
        }
      }
    }
  }

  lemma {:induction false} SortKeysSorted(ks: seq<Text>)
    requires forall i, j :: 0 <= i < j < |ks| ==> ks[i] != ks[j]
    ensures StrictlySorted(SortKeys(ks))
  {
    if ks != [] {
      SortKeysSorted(ks[1..]);
      InsertKeySorted(ks[0], SortKeys(ks[1..]));
    }
  }

  lemma {:induction false} DropUndefinedSorted(fields: seq<Field>, ks: seq<Text>)
    requires StrictlySorted(ks)
    ensures StrictlySorted(DropUndefined(fields, ks))
  {
    if ks != [] {
      DropUndefinedSorted(fields, ks[1..]);
      var rest := DropUndefined(fields, ks[1..]);
      forall j | 0 <= j < |rest|
        ensures Less(ks[0], rest[j])
      {
        assert rest[j] in rest;
      }
    }
  }

  lemma LiveKeysSorted(fields: seq<Field>)
    requires DistinctKeys(fields)
    ensures StrictlySorted(LiveKeys(fields))
  {
    SortKeysSorted(KeysOf(fields));
    DropUndefinedSorted(fields, SortKeys(KeysOf(fields)));
  }

  /** `a` comes before `b`: it is a proper beginning of it, or has the smaller code unit where they first differ. */
  ghost predicate ComesBefore(a: Text, b: Text, n: nat) {
    && n <= |a| && n < |b| && a[..n] == b[..n]
    && (n == |a| || a[n] < b[n])
  }

  ghost predicate Precedes(a: Text, b: Text) {
    exists n: nat :: ComesBefore(a, b, n)
  }

  lemma {:induction false} LessIff(a: Text, b: Text)
    ensures Less(a, b) <==> Precedes(a, b)
  {
    if a != [] && b != [] && a[0] == b[0] {
      LessIff(a[1..], b[1..]);
      if Less(a[1..], b[1..]) {
        var n: nat :| ComesBefore(a[1..], b[1..], n);
        assert a[..n + 1] == [a[0]] + a[1..][..n] && b[..n + 1] == [b[0]] + b[1..][..n];
        assert ComesBefore(a, b, n + 1);
      }
      forall n: nat | ComesBefore(a, b, n)
        ensures Less(a[1..], b[1..])
      {
        assert n > 0;
        assert a[1..][..n - 1] == a[..n][1..] && b[1..][..n - 1] == b[..n][1..];
        assert ComesBefore(a[1..], b[1..], n - 1);
      }
    } else if b != [] {
      if Less(a, b) {
        assert ComesBefore(a, b, 0);
      }
      forall n: nat | ComesBefore(a, b, n)
        ensures Less(a, b)
      {
        assert n == 0;
      }
    }
  }

  /** The members of a normal form are the defined fields, once each, in increasing order of their keys' code units. */
  lemma NormalFormIsOrdered(fields: seq<Field>)
    requires DistinctKeys(fields)
    ensures var members := Norm(Object(fields)).fields;
      && (forall k :: k in KeysOf(members) <==> k in KeysOf(fields) && !Get(fields, k).Undefined?)
      && forall i, j :: 0 <= i < j < |members| ==> Precedes(members[i].key, members[j].key)
  {
    var ks := LiveKeys(fields);
    var members := Norm(Object(fields)).fields;
    LiveKeysSorted(fields);
    assert KeysOf(members) == ks;
    hide Precedes, Less;
    forall i, j | 0 <= i < j < |members|
      ensures Precedes(members[i].key, members[j].key)
    {
      LessIff(ks[i], ks[j]);
    }
  }

  /** A strictly sorted sequence is determined by its elements. */
  lemma {:induction false} SortedUnique(a: seq<Text>, b: seq<Text>)
    requires StrictlySorted(a) && StrictlySorted(b)
    requires forall x :: x in a <==> x in b
    ensures a == b
  {
    assert a != [] ==> a[0] in a;
    assert b != [] ==> b[0] in b;
    if a != [] && b != [] {
      LessTotal(a[0], b[0]);
      assert a[0] == b[0];
      forall x
        ensures x in a[1..] <==> x in b[1..]
      {
        LessTotal(a[0], a[0]);
        assert x in a <==> x == a[0] || x in a[1..];
        assert x in b <==> x == b[0] || x in b[1..];
        assert a[0] !in a[1..];
        assert b[0] !in b[1..];
      }
      SortedUnique(a[1..], b[1..]);
    }
  }

  lemma LiveKeysAreLiveKeySet(fields: seq<Field>)
    ensures forall k :: k in LiveKeys(fields) <==> k in LiveKeySet(fields)
  {
    var ks := KeysOf(fields);
    forall k
      ensures k in LiveKeys(fields) <==> k in LiveKeySet(fields)
    {
      if k in ks {
        var i :| 0 <= i < |ks| && ks[i] == k;
        assert fields[i].key == k;
      }
    }
  }

  // ---------------------------------------------------------------- decoding

  /** The text that follows a value cannot be read as more of a number. */
  predicate Delimited(rest: Text) {
    rest == [] || !IsNumberUnit(rest[0])
  }

  lemma GetValid(fields: seq<Field>, key: Text)
    requires Valid(Object(fields)) && !Get(fields, key).Undefined?
    ensures Valid(Get(fields, key))
  {
  }

  lemma PrintStart(v: Json)
    requires Valid(v)
    ensures Print(v) != []
    ensures Print(v)[0] != CLOSE_BRACKET && Print(v)[0] != CLOSE_BRACE
  {
  }

  lemma DecodeNumber(l: Text, rest: Text)
    requires IsNumberLiteral(l) && Delimited(rest)
    ensures Decode(l + rest) == Some((Number(l), rest))
  {
    var t := l + rest;
    var n := NumberLength(t);
    assert t[0] == l[0];
    assert forall i :: 0 <= i < |l| ==> IsNumberUnit(t[i]);
    assert n >= |l|;
    assert |l| < |t| ==> t[|l|] == rest[0];
    assert t[..n] == l && t[n..] == rest;
  }

  lemma DecodeLiterals(rest: Text)
    ensures Decode(NULL_TEXT + rest) == Some((Null, rest))
    ensures Decode(TRUE_TEXT + rest) == Some((Bool(true), rest))
    ensures Decode(FALSE_TEXT + rest) == Some((Bool(false), rest))
  {
    assert (NULL_TEXT + rest)[4..] == rest;
    assert (TRUE_TEXT + rest)[4..] == rest;
    assert (FALSE_TEXT + rest)[5..] == rest;
    assert (TRUE_TEXT + rest)[0] == 116;
    assert (FALSE_TEXT + rest)[0] == 102;
    assert (NULL_TEXT + rest)[0] == 110;
  }

  lemma DecodeQuoted(s: Text, rest: Text)
    ensures Decode(Quoted(s) + rest) == Some((String(s), rest))
  {
    var t := Quoted(s) + rest;
    assert t[1..] == Escape(s) + [QUOTE] + rest;
    DecodeEscape(s, rest);
  }

  /** Decoding canonical text gives the canonical form of the value that was printed. */
  lemma {:induction false} DecodePrint(v: Json, rest: Text)
    requires Valid(v) && Delimited(rest)
    ensures Decode(Print(v) + rest) == Some((Norm(v), rest))
    decreases v, 0
  {
    match v
    case Null => DecodeLiterals(rest);
    case Bool(_) => DecodeLiterals(rest);
    case Number(l) => DecodeNumber(l, rest);
    case String(s) => DecodeQuoted(s, rest);
    case Array(items) => DecodePrintArray(items, rest);
    case Object(fields) => DecodePrintObject(fields, rest);
  }

  lemma {:induction false} DecodePrintArray(items: seq<Json>, rest: Text)
    requires Valid(Array(items))
    ensures Decode(Print(Array(items)) + rest) == Some((Norm(Array(items)), rest))
    decreases items, 1
  {
    var t := Print(Array(items)) + rest;
    if items == [] {
      assert t == [OPEN_BRACKET, CLOSE_BRACKET] + rest;
      assert t[2..] == rest;
    } else {
      var body := PrintItems(items) + [CLOSE_BRACKET] + rest;
      assert t[1..] == body;
      PrintStart(items[0]);
      assert body[0] == Print(items[0])[0];
      DecodePrintItems(items, rest);
    }
  }

  lemma DecodeItemsStep(t: Text, v: Json, tail: Text, vs: seq<Json>, after: Text)
    requires Decode(t) == Some((v, [COMMA] + tail))
    requires DecodeItems(tail) == Some((vs, after))
    ensures DecodeItems(t) == Some(([v] + vs, after))
  {
    assert ([COMMA] + tail)[1..] == tail;
  }

  lemma DecodeItemsLast(t: Text, v: Json, after: Text)
    requires Decode(t) == Some((v, [CLOSE_BRACKET] + after))
    ensures DecodeItems(t) == Some(([v], after))
  {
    assert ([CLOSE_BRACKET] + after)[1..] == after;
  }

  lemma RegroupItem(a: Text, b: Text, c: Text, d: Text, e: Text)
    ensures a + b + c + d + e == a + (b + (c + d + e))
    ensures c + d + e == c + (d + e)
  {
  }

  lemma {:induction false} DecodePrintItems(items: seq<Json>, rest: Text)
    requires items != [] && Valid(Array(items))
    ensures DecodeItems(PrintItems(items) + [CLOSE_BRACKET] + rest) == Some((NormItems(items), rest))
    decreases items, 0
  {
    var t := PrintItems(items) + [CLOSE_BRACKET] + rest;
    if |items| == 1 {
      var after := [CLOSE_BRACKET] + rest;
      assert PrintItems(items) == Print(items[0]) && NormItems(items) == [Norm(items[0])];
      RegroupItem([], [], Print(items[0]), [CLOSE_BRACKET], rest);
      DecodePrint(items[0], after);
      DecodeItemsLast(t, Norm(items[0]), rest);
    } else {
      var tail := PrintItems(items[1..]) + [CLOSE_BRACKET] + rest;
      assert PrintItems(items) == Print(items[0]) + [COMMA] + PrintItems(items[1..]);
      RegroupItem(Print(items[0]), [COMMA], PrintItems(items[1..]), [CLOSE_BRACKET], rest);
      DecodePrint(items[0], [COMMA] + tail);
      DecodePrintItems(items[1..], rest);
      DecodeItemsStep(t, Norm(items[0]), tail, NormItems(items[1..]), rest);
    }
  }

  lemma {:induction false} DecodePrintObject(fields: seq<Field>, rest: Text)
    requires Valid(Object(fields))
    ensures Decode(Print(Object(fields)) + rest) == Some((Norm(Object(fields)), rest))
    decreases fields, |LiveKeys(fields)| + 1
  {
    var ks := LiveKeys(fields);
    if ks == [] {
      DecodeEmptyObject(rest);
    } else {
      PrintMembersStart(fields, ks);
      DecodePrintMembers(fields, ks, rest);
      DecodeObjectText(PrintMembers(fields, ks), NormMembers(fields, ks), rest);
    }
  }

  lemma PrintMembersStart(fields: seq<Field>, ks: seq<Text>)
    requires ks != [] && forall k :: k in ks ==> !Get(fields, k).Undefined?
    ensures PrintMembers(fields, ks) != [] && PrintMembers(fields, ks)[0] == QUOTE
  {
    assert Quoted(ks[0])[0] == QUOTE;
  }

  lemma DecodeEmptyObject(rest: Text)
    ensures Decode([OPEN_BRACE] + [] + [CLOSE_BRACE] + rest) == Some((Object([]), rest))
  {
    var t := [OPEN_BRACE] + [] + [CLOSE_BRACE] + rest;
    assert t == [OPEN_BRACE, CLOSE_BRACE] + rest;
    assert t[2..] == rest;
  }

  lemma DecodeObjectText(members: Text, fields: seq<Field>, rest: Text)
    requires members != [] && members[0] == QUOTE
    requires DecodeMembers(members + [CLOSE_BRACE] + rest) == Some((fields, rest))
    ensures Decode([OPEN_BRACE] + members + [CLOSE_BRACE] + rest) == Some((Object(fields), rest))
  {
    var body := members + [CLOSE_BRACE] + rest;
    assert body[0] == QUOTE;
    DecodeObjectBody(body, fields, rest);
    Regroup([OPEN_BRACE], members, [CLOSE_BRACE], rest);
  }

  lemma DecodeObjectBody(body: Text, fields: seq<Field>, rest: Text)
    requires body != [] && body[0] == QUOTE
    requires DecodeMembers(body) == Some((fields, rest))
    ensures Decode([OPEN_BRACE] + body) == Some((Object(fields), rest))
  {
    assert ([OPEN_BRACE] + body)[1..] == body;
  }

  lemma DecodeMembersStart(key: Text, valueText: Text)
    ensures DecodeString((Quoted(key) + [COLON] + valueText)[1..]) == Some((key, [COLON] + valueText))
    ensures ([COLON] + valueText)[1..] == valueText
  {
    assert (Quoted(key) + [COLON] + valueText)[1..] == Escape(key) + [QUOTE] + ([COLON] + valueText);
    DecodeEscape(key, [COLON] + valueText);
  }

  lemma DecodeMembersStep(key: Text, valueText: Text, v: Json, tail: Text, fs: seq<Field>, after: Text)
    requires Decode(valueText) == Some((v, [COMMA] + tail))
    requires DecodeMembers(tail) == Some((fs, after))
    ensures DecodeMembers(Quoted(key) + [COLON] + valueText) == Some(([Field(key, v)] + fs, after))
  {
    DecodeMembersStart(key, valueText);
    assert ([COMMA] + tail)[1..] == tail;
  }

  lemma DecodeMembersLast(key: Text, valueText: Text, v: Json, after: Text)
    requires Decode(valueText) == Some((v, [CLOSE_BRACE] + after))
    ensures DecodeMembers(Quoted(key) + [COLON] + valueText) == Some(([Field(key, v)], after))
  {
    DecodeMembersStart(key, valueText);
    assert ([CLOSE_BRACE] + after)[1..] == after;
  }

  lemma PrintLastMember(fields: seq<Field>, ks: seq<Text>, rest: Text)
    requires |ks| == 1 && !Get(fields, ks[0]).Undefined?
    ensures PrintMembers(fields, ks) + [CLOSE_BRACE] + rest
         == Quoted(ks[0]) + [COLON] + (Print(Get(fields, ks[0])) + ([CLOSE_BRACE] + rest))
    ensures NormMembers(fields, ks) == [Field(ks[0], Norm(Get(fields, ks[0])))]
  {
  }

  lemma RegroupMember(a: Text, b: Text, c: Text, d: Text, e: Text, f: Text)
    ensures a + b + c + d + e + f == a + (b + (c + (d + e + f)))
  {
  }

  lemma PrintFirstMember(fields: seq<Field>, ks: seq<Text>, rest: Text)
    requires |ks| > 1 && forall k :: k in ks ==> !Get(fields, k).Undefined?
    ensures PrintMembers(fields, ks) + [CLOSE_BRACE] + rest
         == Quoted(ks[0]) + [COLON]
            + (Print(Get(fields, ks[0])) + ([COMMA] + (PrintMembers(fields, ks[1..]) + [CLOSE_BRACE] + rest)))
  {
    var member := Quoted(ks[0]) + [COLON];
    var valueText := Print(Get(fields, ks[0]));
    assert PrintMembers(fields, ks) == member + valueText + [COMMA] + PrintMembers(fields, ks[1..]);
    RegroupMember(member, valueText, [COMMA], PrintMembers(fields, ks[1..]), [CLOSE_BRACE], rest);
  }

  lemma {:induction false} DecodePrintMembers(fields: seq<Field>, ks: seq<Text>, rest: Text)
    requires ks != [] && Valid(Object(fields))
    requires forall k :: k in ks ==> !Get(fields, k).Undefined?
    ensures DecodeMembers(PrintMembers(fields, ks) + [CLOSE_BRACE] + rest) == Some((NormMembers(fields, ks), rest))
    decreases fields, |ks|
  {
    var v := Get(fields, ks[0]);
    GetValid(fields, ks[0]);
    if |ks| == 1 {
      var after := [CLOSE_BRACE] + rest;
      PrintLastMember(fields, ks, rest);
      DecodePrint(v, after);
      DecodeMembersLast(ks[0], Print(v) + after, Norm(v), rest);
    } else {
      var tail := PrintMembers(fields, ks[1..]) + [CLOSE_BRACE] + rest;
      PrintFirstMember(fields, ks, rest);
      DecodePrint(v, [COMMA] + tail);
      DecodePrintMembers(fields, ks[1..], rest);
      DecodeMembersStep(ks[0], Print(v) + ([COMMA] + tail), Norm(v), tail, NormMembers(fields, ks[1..]), rest);
    }
  }

  // ---------------------------------------------------------------- canonical form

  lemma LiveKeysAgree(f: seq<Field>, g: seq<Field>)
    requires DistinctKeys(f) && DistinctKeys(g)
    ensures LiveKeySet(f) == LiveKeySet(g) <==> LiveKeys(f) == LiveKeys(g)
  {
    LiveKeysAreLiveKeySet(f);
    LiveKeysAreLiveKeySet(g);
    LiveKeysSorted(f);
    LiveKeysSorted(g);
    if LiveKeySet(f) == LiveKeySet(g) {
      SortedUnique(LiveKeys(f), LiveKeys(g));
    }
  }

  lemma NormKeysAgree(f: seq<Field>, g: seq<Field>, ks: seq<Text>, ls: seq<Text>)
    requires forall k :: k in ks ==> !Get(f, k).Undefined?
    requires forall k :: k in ls ==> !Get(g, k).Undefined?
    requires NormMembers(f, ks) == NormMembers(g, ls)
    ensures ks == ls
  {
    var nf, ng := NormMembers(f, ks), NormMembers(g, ls);
    assert forall i :: 0 <= i < |ks| ==> ks[i] == nf[i].key == ng[i].key == ls[i];
  }

  /** The canonical form is a complete invariant of equivalence. */
  lemma {:induction false} NormDecidesEquivalence(a: Json, b: Json)
    requires Valid(a) && Valid(b)
    ensures Equivalent(a, b) <==> Norm(a) == Norm(b)
    decreases a
  {
    match (a, b)
    case (Array(xs), Array(ys)) =>
      if |xs| == |ys| {
        forall i | 0 <= i < |xs|
          ensures Equivalent(xs[i], ys[i]) <==> Norm(xs[i]) == Norm(ys[i])
        {
          NormDecidesEquivalence(xs[i], ys[i]);
        }
        if Norm(a) == Norm(b) {
          assert forall i :: 0 <= i < |xs| ==> NormItems(xs)[i] == NormItems(ys)[i];
        }
      }
    case (Object(f), Object(g)) =>
      NormDecidesObjects(f, g);
    case _ =>
  }

  lemma {:induction false} NormDecidesObjects(f: seq<Field>, g: seq<Field>)
    requires Valid(Object(f)) && Valid(Object(g))
    ensures Equivalent(Object(f), Object(g)) <==> Norm(Object(f)) == Norm(Object(g))
    decreases f, 1
  {
    var ks, ls := LiveKeys(f), LiveKeys(g);
    var nf, ng := NormMembers(f, ks), NormMembers(g, ls);
    LiveKeysAgree(f, g);
    LiveKeysAreLiveKeySet(f);
    if nf == ng {
      NormKeysAgree(f, g, ks, ls);
    }
    if ks == ls {
      forall k | k in ks
        ensures Equivalent(Get(f, k), Get(g, k)) <==> Norm(Get(f, k)) == Norm(Get(g, k))
      {
        GetValid(f, k);
        GetValid(g, k);
        NormDecidesEquivalence(Get(f, k), Get(g, k));
      }
      if nf == ng {
        forall k | k in ks
          ensures Norm(Get(f, k)) == Norm(Get(g, k))
        {
          var i :| 0 <= i < |ks| && ks[i] == k;
          assert nf[i] == ng[i];
        }
      }
    }
  }

  lemma {:induction false} NormDecidesPrint(a: Json, b: Json)
    requires Valid(a) && Valid(b) && Norm(a) == Norm(b)
    ensures Print(a) == Print(b)
    decreases a, 0
  {
    match (a, b)
    case (Array(xs), Array(ys)) => NormDecidesItems(xs, ys);
    case (Object(f), Object(g)) =>
      var ks, ls := LiveKeys(f), LiveKeys(g);
      var nf, ng := NormMembers(f, ks), NormMembers(g, ls);
      assert nf == ng;
      NormKeysAgree(f, g, ks, ls);
      NormDecidesMembers(f, g, ks);
    case _ =>
  }

  lemma {:induction false} NormDecidesItems(xs: seq<Json>, ys: seq<Json>)
    requires Valid(Array(xs)) && Valid(Array(ys)) && NormItems(xs) == NormItems(ys)
    ensures PrintItems(xs) == PrintItems(ys)
    decreases xs, 0
  {
    assert |xs| == |ys|;
    if xs != [] {
      assert Norm(xs[0]) == NormItems(xs)[0] == Norm(ys[0]);
      NormDecidesPrint(xs[0], ys[0]);
      assert NormItems(xs[1..]) == NormItems(xs)[1..];
      assert NormItems(ys[1..]) == NormItems(ys)[1..];
      NormDecidesItems(xs[1..], ys[1..]);
    }
  }

  lemma {:induction false} NormDecidesMembers(f: seq<Field>, g: seq<Field>, ks: seq<Text>)
    requires Valid(Object(f)) && Valid(Object(g))
    requires forall k :: k in ks ==> !Get(f, k).Undefined? && !Get(g, k).Undefined?
    requires NormMembers(f, ks) == NormMembers(g, ks)
    ensures PrintMembers(f, ks) == PrintMembers(g, ks)
    decreases f, |ks|
  {
    if ks != [] {
      GetValid(f, ks[0]);
      GetValid(g, ks[0]);
      assert NormMembers(f, ks)[0] == NormMembers(g, ks)[0];
      NormDecidesPrint(Get(f, ks[0]), Get(g, ks[0]));
      assert NormMembers(f, ks[1..]) == NormMembers(f, ks)[1..];
      assert NormMembers(g, ks[1..]) == NormMembers(g, ks)[1..];
      NormDecidesMembers(f, g, ks[1..]);
    }
  }

  /**
    Main result: two values have the same canonical text if and only if they are equal up
    to object key order and undefined fields.
   */
  lemma PrintDecidesEquivalence(a: Json, b: Json)
    requires Valid(a) && Valid(b)
    ensures Print(a) == Print(b) <==> Equivalent(a, b)
  {
    NormDecidesEquivalence(a, b);
    if Print(a) == Print(b) {
      DecodePrint(a, []);
      DecodePrint(b, []);
      assert Print(a) + [] == Print(b) + [];
    }
    if Norm(a) == Norm(b) {
      NormDecidesPrint(a, b);
    }
  }
}
