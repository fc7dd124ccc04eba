/**
  The two documents references point into: OpenAPI component schemas, addressed by name,
  and any JSON document, addressed by JSON Pointer (RFC 6901).
 */
module RefDocuments {
  import opened Wrappers
  import opened RefExpansion

  // ---------------------------------------------------------------- OpenAPI component schemas

  const SCHEMA_PREFIX: string := "#/components/schemas/"

  function SchemaTargets(schemas: seq<Entry>): map<string, Value> {
    if schemas == [] then map[]
    else
      var rest := SchemaTargets(schemas[1..]);
      var name := SCHEMA_PREFIX + schemas[0].key;
      if schemas[0].value.Record? then rest[name := schemas[0].value] else rest - {name}
  }

  /** `resolveLocalSchemaRefs` on a document with these component schemas. */
  function ResolveLocalSchemaRefs(schemas: seq<Entry>, v: Value): Expanded {
    Expand(SchemaResolver(schemas), v, {})
  }

  function SchemaResolver(schemas: seq<Entry>): Resolver {
    Resolver(SchemaTargets(schemas), true)
  }

  /** A reference can be followed exactly when it has the prefix and names a record. */
  lemma {:induction false} SchemaTargetOf(schemas: seq<Entry>, ref: string)
    ensures ref in SchemaTargets(schemas) <==>
      SCHEMA_PREFIX <= ref && Get(schemas, ref[|SCHEMA_PREFIX|..]).Record?
    ensures ref in SchemaTargets(schemas) ==> SchemaTargets(schemas)[ref] == Get(schemas, ref[|SCHEMA_PREFIX|..])
    ensures ref in SchemaTargets(schemas) ==> SchemaTargets(schemas)[ref].Record?
  {
    if schemas != [] {
      SchemaTargetOf(schemas[1..], ref);
      var name := SCHEMA_PREFIX + schemas[0].key;
      if SCHEMA_PREFIX <= ref {
        assert ref == SCHEMA_PREFIX + ref[|SCHEMA_PREFIX|..];
        assert name[|SCHEMA_PREFIX|..] == schemas[0].key;
        assert ref == name <==> ref[|SCHEMA_PREFIX|..] == schemas[0].key;
      }
    }
  }

  // ---------------------------------------------------------------- JSON Pointer segments

  const TILDE: char := '~'
  const SLASH: char := '/'

  /** Every tilde that is followed by the digit is replaced, together with the digit, from left to right. */
  function ReplaceTilde(s: string, digit: char, with: char): string {
    if s == [] then []
    else if |s| >= 2 && s[0] == TILDE && s[1] == digit then [with] + ReplaceTilde(s[2..], digit, with)
    else [s[0]] + ReplaceTilde(s[1..], digit, with)
  }

  function DecodeSegment(s: string): string {
    ReplaceTilde(ReplaceTilde(s, '1', SLASH), '0', TILDE)
  }

  /** Section 4 of RFC 6901: `~` is written `~0` and `/` is written `~1`. */
  function EncodeSegment(s: string): string {
    if s == [] then []
    else (if s[0] == TILDE then "~0" else if s[0] == SLASH then "~1" else [s[0]]) + EncodeSegment(s[1..])
  }

  /** Only `~` is still escaped. */
  function EscapeTildes(s: string): string {
    if s == [] then [] else (if s[0] == TILDE then "~0" else [s[0]]) + EscapeTildes(s[1..])
  }

  lemma {:induction false} DecodeSlashes(s: string)
    ensures ReplaceTilde(EncodeSegment(s), '1', SLASH) == EscapeTildes(s)
  {
    if s != [] {
      DecodeSlashes(s[1..]);
      var tail := EncodeSegment(s[1..]);
      if s[0] == TILDE {
        assert ("~0" + tail)[1..] == "0" + tail;
        assert ("0" + tail)[1..] == tail;
        assert ReplaceTilde("0" + tail, '1', SLASH) == "0" + ReplaceTilde(tail, '1', SLASH);
      } else if s[0] == SLASH {
        assert ("~1" + tail)[2..] == tail;
      } else {
        assert ([s[0]] + tail)[1..] == tail;
      }
    }
  }

  lemma {:induction false} DecodeTildes(s: string)
    ensures ReplaceTilde(EscapeTildes(s), '0', TILDE) == s
  {
    if s != [] {
      DecodeTildes(s[1..]);
      var tail := EscapeTildes(s[1..]);
      if s[0] == TILDE {
        assert ("~0" + tail)[2..] == tail;
      } else {
        assert ([s[0]] + tail)[1..] == tail;
      }
    }
  }

  /** Decoding a segment inverts escaping it. */
  lemma DecodeInvertsEncode(s: string)
    ensures DecodeSegment(EncodeSegment(s)) == s
  {
    DecodeSlashes(s);
    DecodeTildes(s);
  }

  function Split(s: string): (r: seq<string>)
    ensures r != []
  {
    if s == [] then [""]
    else if s[0] == SLASH then [""] + Split(s[1..])
    else
      var rest := Split(s[1..]);
      [[s[0]] + rest[0]] + rest[1..]
  }

  /** `#/` and the escaped keys with slashes between them. */
  function PointerTo(keys: seq<string>): string
    requires keys != []
  {
    "#/" + JoinEncoded(keys)
  }

  function JoinEncoded(keys: seq<string>): string
    requires keys != []
  {
    if |keys| == 1 then EncodeSegment(keys[0]) else EncodeSegment(keys[0]) + [SLASH] + JoinEncoded(keys[1..])
  }

  lemma {:induction false} EncodedHasNoSlash(s: string)
    ensures SLASH !in EncodeSegment(s)
  {
    if s != [] {
      EncodedHasNoSlash(s[1..]);
    }
  }

  lemma {:induction false} SplitHead(head: string, tail: string)
    requires SLASH !in head
    ensures Split(head) == [head]
    ensures Split(head + [SLASH] + tail) == [head] + Split(tail)
  {
    if head == [] {
      assert (head + [SLASH] + tail) == [SLASH] + tail;
    } else {
      SplitHead(head[1..], tail);
      assert (head + [SLASH] + tail)[1..] == head[1..] + [SLASH] + tail;
      assert [head[0]] + head[1..] == head;
    }
  }

  lemma {:induction false} SplitJoined(keys: seq<string>)
    requires keys != []
    ensures |Split(JoinEncoded(keys))| == |keys|
    ensures forall i :: 0 <= i < |keys| ==> DecodeSegment(Split(JoinEncoded(keys))[i]) == keys[i]
  {
    EncodedHasNoSlash(keys[0]);
    DecodeInvertsEncode(keys[0]);
    if |keys| == 1 {
      SplitHead(EncodeSegment(keys[0]), "");
    } else {
      SplitHead(EncodeSegment(keys[0]), JoinEncoded(keys[1..]));
      SplitJoined(keys[1..]);
    }
  }

  // ---------------------------------------------------------------- following a pointer

  /** Property by property; anything but a record on the way is an error. */
  function Follow(v: Value, segments: seq<string>): Option<Value>
    decreases |segments|
  {
    if segments == [] then Some(v)
    else if !v.Record? then None
    else Follow(Get(v.entries, DecodeSegment(segments[0])), segments[1..])
  }

  predicate IsLocal(ref: string) {
    |ref| >= 2 && ref[0] == '#' && ref[1] == SLASH
  }

  function Walk(document: Value, ref: string): Option<Value> {
    if IsLocal(ref) then Follow(document, Split(ref[2..])) else None
  }

  /** The pointer loop of the script. */
  method WalkPointer(document: Value, ref: string) returns (r: Option<Value>)
    ensures r == Walk(document, ref)
  {
    if !IsLocal(ref) {
      return None;
    }
    var resolved := document;
    var segments := Split(ref[2..]);
    for i := 0 to |segments|
      invariant Follow(resolved, segments[i..]) == Follow(document, segments)
    {
      assert segments[i..][1..] == segments[i + 1..];
      if !resolved.Record? {
        return None;
      }
      resolved := Get(resolved.entries, DecodeSegment(segments[i]));
    }
    return Some(resolved);
  }

  function FollowKeys(v: Value, keys: seq<string>): Option<Value>
    decreases |keys|
  {
    if keys == [] then Some(v)
    else if !v.Record? then None
    else FollowKeys(Get(v.entries, keys[0]), keys[1..])
  }

  lemma {:induction false} FollowDecoded(v: Value, segments: seq<string>, keys: seq<string>)
    requires |segments| == |keys| && forall i :: 0 <= i < |keys| ==> DecodeSegment(segments[i]) == keys[i]
    ensures Follow(v, segments) == FollowKeys(v, keys)
    decreases |keys|
  {
    if keys != [] && v.Record? {
      FollowDecoded(Get(v.entries, keys[0]), segments[1..], keys[1..]);
    }
  }

  /** A pointer written for a list of keys leads where those keys lead. */
  lemma PointerLeadsToKeys(document: Value, keys: seq<string>)
    requires keys != []
    ensures Walk(document, PointerTo(keys)) == FollowKeys(document, keys)
  {
    var ref := PointerTo(keys);
    assert ref[2..] == JoinEncoded(keys);
    SplitJoined(keys);
    FollowDecoded(document, Split(JoinEncoded(keys)), keys);
  }

  // ---------------------------------------------------------------- references of a document

  /** Every string that occurs as the value of a `$ref` property. */
  function RefStrings(v: Value): set<string>
    decreases v, 1
  {
    match v
    case List(items) => RefStringsOfItems(items)
    case Record(entries) => RefStringsOfEntries(entries)
    case _ => {}
  }

  function RefStringsOfItems(items: seq<Value>): set<string>
    decreases items, 0
  {
    if items == [] then {} else RefStrings(items[0]) + RefStringsOfItems(items[1..])
  }

  function RefStringsOfEntries(entries: seq<Entry>): set<string>
    decreases entries, 0
  {
    if entries == [] then {}
    else
      RefStrings(entries[0].value)
        + (if entries[0].key == REF && entries[0].value.Text? then {entries[0].value.text} else {})
        + RefStringsOfEntries(entries[1..])
  }

  function DocumentTargets(document: Value, v: Value): map<string, Value> {
    map ref | ref in RefStrings(document) + RefStrings(v) && Walk(document, ref).Some? :: Walk(document, ref).value
  }

  /** `resolveLocalRefs` on a value of a document. */
  function ResolveLocalRefs(document: Value, v: Value): Expanded {
    Expand(DocumentResolver(document, v), v, {})
  }

  function DocumentResolver(document: Value, v: Value): Resolver {
    Resolver(DocumentTargets(document, v), false)
  }

  lemma {:induction false} GetRefStrings(entries: seq<Entry>, key: string)
    ensures RefStrings(Get(entries, key)) <= RefStringsOfEntries(entries)
    ensures Get(entries, REF).Text? ==> Get(entries, REF).text in RefStringsOfEntries(entries)
  {
    if entries != [] {
      GetRefStrings(entries[1..], key);
    }
  }

  lemma {:induction false} FollowRefStrings(v: Value, segments: seq<string>)
    requires Follow(v, segments).Some?
    ensures RefStrings(Follow(v, segments).value) <= RefStrings(v)
    decreases |segments|
  {
    if segments != [] {
      GetRefStrings(v.entries, DecodeSegment(segments[0]));
      FollowRefStrings(Get(v.entries, DecodeSegment(segments[0])), segments[1..]);
    }
  }

  /**
    Expansion never meets a reference outside the finite set it started with: what a
    reference leads to only holds references that already occur in the document.
   */
  lemma TargetsAreClosed(document: Value, v: Value, ref: string)
    requires ref in DocumentTargets(document, v)
    ensures RefStrings(DocumentTargets(document, v)[ref]) <= RefStrings(document)
  {
    FollowRefStrings(document, Split(ref[2..]));
  }

  /** A reference that occurs can be followed exactly when its pointer leads somewhere. */
  lemma DocumentTargetOf(document: Value, v: Value, entries: seq<Entry>)
    requires RefStrings(Record(entries)) <= RefStrings(document) + RefStrings(v)
    requires Get(entries, REF).Text?
    ensures var ref := Get(entries, REF).text;
      && (ref in DocumentTargets(document, v) <==> Walk(document, ref).Some?)
      && (ref in DocumentTargets(document, v) ==> Walk(document, ref) == Some(DocumentTargets(document, v)[ref]))
  {
    GetRefStrings(entries, REF);
  }

  // ---------------------------------------------------------------- pointer chains

  /** What the documentation script takes for a reference does not depend on any document. */
  const DOCS: Resolver := Resolver(map[], false)

  /** Pointers that lead through the document one to the next, each met where the one before it leads. */
  ghost predicate IsPointerChain(document: Value, v: Value, path: seq<string>)
    decreases |path|
  {
    path == []
    || (Meets(DOCS, v, path[0])
        && Walk(document, path[0]).Some?
        && IsPointerChain(document, Walk(document, path[0]).value, path[1..]))
  }

  /** Where a chain leads: what its last pointer points to. */
  function PointerEnd(document: Value, v: Value, path: seq<string>): Value {
    if path == [] then v
    else
      match Walk(document, path[|path| - 1])
      case Some(w) => w
      case None => v
  }

  /** A chain from `v` ends in a pointer it already went through. */
  ghost predicate PointerReturns(document: Value, v: Value, path: seq<string>, ref: string) {
    IsPointerChain(document, v, path) && path != [] && path[|path| - 1] == ref && ref in path[..|path| - 1]
  }

  /** A chain from `v` meets a pointer that leads nowhere. */
  ghost predicate Dangles(document: Value, v: Value, path: seq<string>, ref: string) {
    IsPointerChain(document, v, path) && Meets(DOCS, PointerEnd(document, v, path), ref) && Walk(document, ref).None?
  }

  lemma {:induction false} MeetsInDocs(rs: Resolver, v: Value, ref: string)
    requires !rs.openApi
    ensures Meets(rs, v, ref) <==> Meets(DOCS, v, ref)
  {
    match v
    case List(items) =>
      forall i | 0 <= i < |items|
        ensures Meets(rs, items[i], ref) <==> Meets(DOCS, items[i], ref)
      {
        MeetsInDocs(rs, items[i], ref);
      }
    case Record(entries) =>
      forall i | 0 <= i < |entries|
        ensures Meets(rs, entries[i].value, ref) <==> Meets(DOCS, entries[i].value, ref)
      {
        MeetsInDocs(rs, entries[i].value, ref);
      }
    case _ =>
  }

  lemma {:induction false} ItemRefStrings(items: seq<Value>, i: nat)
    requires i < |items|
    ensures RefStrings(items[i]) <= RefStringsOfItems(items)
  {
    if i > 0 {
      ItemRefStrings(items[1..], i - 1);
    }
  }

  lemma {:induction false} EntryRefStrings(entries: seq<Entry>, i: nat)
    requires i < |entries|
    ensures RefStrings(entries[i].value) <= RefStringsOfEntries(entries)
  {
    if i > 0 {
      EntryRefStrings(entries[1..], i - 1);
    }
  }

  /** Every reference a value meets occurs in it. */
  lemma {:induction false} MetIsRefString(v: Value, ref: string)
    requires Meets(DOCS, v, ref)
    ensures ref in RefStrings(v)
  {
    match v
    case List(items) =>
      var i :| 0 <= i < |items| && Meets(DOCS, items[i], ref);
      MetIsRefString(items[i], ref);
      ItemRefStrings(items, i);
    case Record(entries) =>
      if IsReference(DOCS, entries) {
        GetRefStrings(entries, REF);
      } else {
        var i :| 0 <= i < |entries| && Meets(DOCS, entries[i].value, ref);
        MetIsRefString(entries[i].value, ref);
        EntryRefStrings(entries, i);
      }
  }

  /** A value is broken exactly when it meets a reference that cannot be followed. */
  lemma {:induction false} BrokenIffMeetsUnknown(rs: Resolver, v: Value)
    requires !rs.openApi
    ensures Broken(rs, v) <==> exists ref :: Meets(rs, v, ref) && ref !in rs.targets
  {
    match v
    case List(items) =>
      forall i | 0 <= i < |items|
        ensures Broken(rs, items[i]) <==> exists ref :: Meets(rs, items[i], ref) && ref !in rs.targets
      {
        BrokenIffMeetsUnknown(rs, items[i]);
      }
    case Record(entries) =>
      if IsReference(rs, entries) {
        assert Meets(rs, v, Get(entries, REF).text);
      } else {
        forall i | 0 <= i < |entries|
          ensures Broken(rs, entries[i].value) <==> exists ref :: Meets(rs, entries[i].value, ref) && ref !in rs.targets
        {
          BrokenIffMeetsUnknown(rs, entries[i].value);
        }
      }
    case _ =>
  }

  /** Every reference that a value met on a chain meets is among those the expansion of `v` knows, if its pointer leads anywhere. */
  lemma MetIsKnown(document: Value, v: Value, w: Value, ref: string)
    requires RefStrings(w) <= RefStrings(document) + RefStrings(v) && Meets(DOCS, w, ref)
    ensures ref in DocumentTargets(document, v) <==> Walk(document, ref).Some?
    ensures ref in DocumentTargets(document, v) ==> Walk(document, ref) == Some(DocumentTargets(document, v)[ref])
  {
    MetIsRefString(w, ref);
  }

  /** So the chains of the expansion are the pointer chains of the document. */
  lemma {:induction false} ChainsArePointerChains(document: Value, v: Value, w: Value, path: seq<string>)
    requires RefStrings(w) <= RefStrings(document) + RefStrings(v)
    ensures IsChain(DocumentResolver(document, v), w, path) <==> IsPointerChain(document, w, path)
    decreases |path|
  {
    hide Meets, Walk, DocumentTargets;
    var rs := DocumentResolver(document, v);
    if path != [] {
      MeetsInDocs(rs, w, path[0]);
      if Meets(DOCS, w, path[0]) {
        MetIsKnown(document, v, w, path[0]);
        if path[0] in rs.targets {
          TargetsAreClosed(document, v, path[0]);
          ChainsArePointerChains(document, v, rs.targets[path[0]], path[1..]);
        }
      }
    }
  }

  /** They lead to the same value, which only holds references of the document or of `v`. */
  lemma ChainEndIsPointerEnd(document: Value, v: Value, path: seq<string>)
    requires IsChain(DocumentResolver(document, v), v, path)
    ensures ChainEnd(DocumentResolver(document, v), v, path) == PointerEnd(document, v, path)
    ensures RefStrings(PointerEnd(document, v, path)) <= RefStrings(document) + RefStrings(v)
  {
    hide IsChain, Meets, Walk, RefStrings;
    if path != [] {
      ChainInTargets(DocumentResolver(document, v), v, path, |path| - 1);
      TargetsAreClosed(document, v, path[|path| - 1]);
    }
  }

  /** A chain ends in a broken value exactly when a pointer met there leads nowhere. */
  lemma BrokenIffDangles(document: Value, v: Value, path: seq<string>)
    requires IsChain(DocumentResolver(document, v), v, path)
    ensures Broken(DocumentResolver(document, v), ChainEnd(DocumentResolver(document, v), v, path))
      <==> exists ref :: Dangles(document, v, path, ref)
  {
    hide Meets, Walk, DocumentTargets, Broken, PointerEnd, ChainEnd, IsChain, IsPointerChain;
    var rs := DocumentResolver(document, v);
    ChainEndIsPointerEnd(document, v, path);
    ChainsArePointerChains(document, v, v, path);
    var end := PointerEnd(document, v, path);
    BrokenIffMeetsUnknown(rs, end);
    forall ref
      ensures Meets(rs, end, ref) && ref !in rs.targets <==> Dangles(document, v, path, ref)
    {
      MeetsInDocs(rs, end, ref);
      if Meets(DOCS, end, ref) {
        MetIsKnown(document, v, end, ref);
      }
    }
  }

  lemma AcyclicIffNoPointerReturns(document: Value, v: Value)
    ensures Acyclic(DocumentResolver(document, v), v) <==> forall path, ref :: !PointerReturns(document, v, path, ref)
    ensures forall path, ref :: ReturnsTo(DocumentResolver(document, v), v, path, ref) <==> PointerReturns(document, v, path, ref)
  {
    forall path, ref
      ensures ReturnsTo(DocumentResolver(document, v), v, path, ref) <==> PointerReturns(document, v, path, ref)
    {
      ChainsArePointerChains(document, v, v, path);
    }
  }

  lemma DefinedIffNothingDangles(document: Value, v: Value)
    ensures FullyDefined(DocumentResolver(document, v), v) <==> forall path, ref :: !Dangles(document, v, path, ref)
  {
    hide Broken, ChainEnd, IsChain, IsPointerChain;
    var rs := DocumentResolver(document, v);
    forall path | IsChain(rs, v, path)
      ensures Broken(rs, ChainEnd(rs, v, path)) <==> exists ref :: Dangles(document, v, path, ref)
    {
      BrokenIffDangles(document, v, path);
    }
    forall path, ref | Dangles(document, v, path, ref)
      ensures IsChain(rs, v, path)
    {
      ChainsArePointerChains(document, v, v, path);
    }
  }

  /** A value without references is one that meets none. */
  lemma {:induction false} RefFreeIffMeetsNothing(v: Value)
    ensures RefFree(DOCS, v) <==> forall ref :: !Meets(DOCS, v, ref)
  {
    match v
    case List(items) =>
      if i :| 0 <= i < |items| && !RefFree(DOCS, items[i]) {
        RefFreeIffMeetsNothing(items[i]);
        var ref :| Meets(DOCS, items[i], ref);
        assert Meets(DOCS, v, ref);
      } else {
        forall i, ref | 0 <= i < |items|
          ensures !Meets(DOCS, items[i], ref)
        {
          RefFreeIffMeetsNothing(items[i]);
        }
      }
    case Record(entries) =>
      if IsReference(DOCS, entries) {
        assert Meets(DOCS, v, Get(entries, REF).text);
      } else if i :| 0 <= i < |entries| && !RefFree(DOCS, entries[i].value) {
        RefFreeIffMeetsNothing(entries[i].value);
        var ref :| Meets(DOCS, entries[i].value, ref);
        assert Meets(DOCS, v, ref);
      } else {
        forall i, ref | 0 <= i < |entries|
          ensures !Meets(DOCS, entries[i].value, ref)
        {
          RefFreeIffMeetsNothing(entries[i].value);
        }
      }
    case _ =>
  }

  lemma {:induction false} RefFreeInDocs(rs: Resolver, v: Value)
    requires !rs.openApi
    ensures RefFree(rs, v) <==> RefFree(DOCS, v)
  {
    match v
    case List(items) =>
      forall i | 0 <= i < |items|
        ensures RefFree(rs, items[i]) <==> RefFree(DOCS, items[i])
      {
        RefFreeInDocs(rs, items[i]);
      }
    case Record(entries) =>
      forall i | 0 <= i < |entries|
        ensures RefFree(rs, entries[i].value) <==> RefFree(DOCS, entries[i].value)
      {
        RefFreeInDocs(rs, entries[i].value);
      }
    case _ =>
  }

  // ---------------------------------------------------------------- main results for the two scripts

  /**
    OpenAPI: success means a finite unfolding, which is exactly what acyclic and fully defined
    schemas have, and the result holds no reference.
   */
  lemma SchemaExpansion(schemas: seq<Entry>, v: Value)
    ensures ResolveLocalSchemaRefs(schemas, v).Ok? <==>
      Acyclic(SchemaResolver(schemas), v) && FullyDefined(SchemaResolver(schemas), v)
    ensures ResolveLocalSchemaRefs(schemas, v).Ok? <==> exists fuel: nat :: Unfold(SchemaResolver(schemas), v, fuel).Some?
    ensures ResolveLocalSchemaRefs(schemas, v).Ok? ==>
      RefFree(SchemaResolver(schemas), ResolveLocalSchemaRefs(schemas, v).value)
  {
    var rs := SchemaResolver(schemas);
    forall name | name in rs.targets
      ensures rs.targets[name].Record?
    {
      SchemaTargetOf(schemas, name);
    }
    hide Acyclic, FullyDefined;
    ExpandIffAcyclic(rs, v);
    ExpandIffUnfoldingEnds(rs, v);
    if Expand(rs, v, {}).Ok? {
      var fuel: nat :| Unfold(rs, v, fuel).Some?;
      OpenApiResultIsRefFree(rs, v, fuel);
    }
  }

  /**
    Documentation: success means that no pointer chain from the value returns to itself and
    every pointer met on the way leads somewhere in the document. A circular error names a
    pointer some chain really returns to, and the other error means that some pointer dangles.
   */
  lemma DocumentExpansion(document: Value, v: Value)
    ensures var r := ResolveLocalRefs(document, v);
      && (r.Ok? <==> (forall path, ref :: !PointerReturns(document, v, path, ref)) && forall path, ref :: !Dangles(document, v, path, ref))
      && (r.Err? && r.error.Circular? ==> exists path :: PointerReturns(document, v, path, r.error.ref))
      && (r.Err? && r.error.Unresolvable? ==> exists path, ref :: Dangles(document, v, path, ref))
  {
    hide Acyclic, FullyDefined, ReturnsTo, PointerReturns, Dangles, Expand;
    var rs := DocumentResolver(document, v);
    ExpandIffAcyclic(rs, v);
    AcyclicIffNoPointerReturns(document, v);
    DefinedIffNothingDangles(document, v);
  }

  /** Documentation: the result meets no reference exactly when the value is clean in its document. */
  lemma DocumentResultIsRefFreeIffClean(document: Value, v: Value)
    requires ResolveLocalRefs(document, v).Ok?
    ensures var rs := DocumentResolver(document, v);
      (forall ref :: !Meets(DOCS, ResolveLocalRefs(document, v).value, ref)) <==> Clean(rs, v, Fuel(rs, {}))
  {
    hide Clean, RefFree, Unfold, Expand, Fuel, Meets, DocumentTargets;
    var rs := DocumentResolver(document, v);
    ExpandIsUnfold(rs, v, {});
    DocsResultIsRefFreeIffClean(rs, v, Fuel(rs, {}));
    RefFreeInDocs(rs, ResolveLocalRefs(document, v).value);
    RefFreeIffMeetsNothing(ResolveLocalRefs(document, v).value);
  }

  /** Documentation: a `$ref` property that holds a record can expand into a new reference. */
  lemma DocsResultCanHoldReference()
    ensures var document := Record([Entry("a", Text("#/b"))]);
      var v := Record([Entry(REF, Record([Entry(REF, Text("#/a"))]))]);
      ResolveLocalRefs(document, v) == Ok(Record([Entry(REF, Text("#/b"))]))
  {
    var document := Record([Entry("a", Text("#/b"))]);
    var inner := Record([Entry(REF, Text("#/a"))]);
    var v := Record([Entry(REF, inner)]);
    assert "#/a"[2..] == "a";
    assert Split("a") == ["a"] by {
      assert "a"[1..] == "";
      assert ['a'] + "" == "a";
    }
    assert DecodeSegment("a") == "a" by {
      assert "a"[1..] == "";
    }
    assert Walk(document, "#/a") == Some(Text("#/b"));
    assert "#/a" in RefStrings(inner);
    assert RefStrings(inner) <= RefStrings(v);
    var rs := Resolver(DocumentTargets(document, v), false);
    assert rs.targets["#/a"] == Text("#/b");
    assert Expand(rs, inner, {}) == Ok(Text("#/b"));
    var entries := [Entry(REF, inner)];
    assert !IsReference(rs, entries);
    assert entries[1..] == [] && [Entry(REF, Text("#/b"))] + [] == [Entry(REF, Text("#/b"))];
    assert ExpandEntries(rs, entries, [], {}) == Ok([]);
    assert ExpandEntries(rs, entries, entries, {}) == Ok([Entry(REF, Text("#/b"))]);
  }
}
