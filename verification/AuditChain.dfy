/**
  The hash-chained audit log: recording, verification and tamper evidence.

  SHA-256 is an arbitrary function `hash` from text to text. Nothing assumes it injective:
  where two different texts could share a hash, the lemma hands back the collision.
 */
module AuditChain {
  import opened Wrappers
  import opened CanonicalJson
  import opened JsonEquivalence

  type HashFunction = Text -> Text

  datatype AuditEvent = AuditEvent(
    eventId: Text,
    eventType: Text,
    occurredAt: Text,
    actor: Text,
    subjectId: Option<Text>,
    resourceId: Option<Text>,
    correlationId: Text,
    policyVersion: Option<Text>,
    relationshipVersion: Option<Text>,
    payloadHash: Text,
    previousEventHash: Option<Text>,
    payload: Json)

  datatype AuditEventInput = AuditEventInput(
    eventType: Text,
    actor: Text,
    subjectId: Option<Text>,
    resourceId: Option<Text>,
    correlationId: Text,
    policyVersion: Option<Text>,
    relationshipVersion: Option<Text>,
    payload: Json)

  type Log = seq<AuditEvent>

  // ---------------------------------------------------------------- hashing

  function UnitOf(c: char): CodeUnit {
    if c as int < 0x1_0000 then c as int else 0
  }

  function Ascii(s: string): (t: Text)
    ensures |t| == |s|
    ensures forall i :: 0 <= i < |s| ==> t[i] == UnitOf(s[i])
  {
    seq(|s|, i requires 0 <= i < |s| => UnitOf(s[i]))
  }

  function OptionalText(o: Option<Text>): Json {
    match o
    case None => Undefined
    case Some(t) => String(t)
  }

  /** The event as the record that is printed and hashed. */
  function EventFields(e: AuditEvent): seq<Field> {
    [ Field(Ascii("eventId"), String(e.eventId)),
      Field(Ascii("eventType"), String(e.eventType)),
      Field(Ascii("occurredAt"), String(e.occurredAt)),
      Field(Ascii("actor"), String(e.actor)),
      Field(Ascii("subjectId"), OptionalText(e.subjectId)),
      Field(Ascii("resourceId"), OptionalText(e.resourceId)),
      Field(Ascii("correlationId"), String(e.correlationId)),
      Field(Ascii("policyVersion"), OptionalText(e.policyVersion)),
      Field(Ascii("relationshipVersion"), OptionalText(e.relationshipVersion)),
      Field(Ascii("payloadHash"), String(e.payloadHash)),
      Field(Ascii("previousEventHash"), OptionalText(e.previousEventHash)),
      Field(Ascii("payload"), e.payload) ]
  }

  function EventText(e: AuditEvent): Text {
    Print(Object(EventFields(e)))
  }

  function HashReference(hash: HashFunction, text: Text): Text {
    Ascii("sha256:") + hash(text)
  }

  function EventHash(hash: HashFunction, e: AuditEvent): Text {
    HashReference(hash, EventText(e))
  }

  function PayloadHash(hash: HashFunction, payload: Json): Text {
    HashReference(hash, Print(payload))
  }

  /** Hash of the event before position `i`, or nothing for the first event. */
  function PreviousHash(hash: HashFunction, events: Log, i: nat): Option<Text>
    requires i <= |events|
  {
    if i == 0 then None else Some(EventHash(hash, events[i - 1]))
  }

  // ---------------------------------------------------------------- recording

  /** The input extended by the time and the previous hash: what an event id is hashed from. */
  function IdFields(input: AuditEventInput, occurredAt: Text, previousEventHash: Option<Text>): seq<Field> {
    [ Field(Ascii("eventType"), String(input.eventType)),
      Field(Ascii("actor"), String(input.actor)),
      Field(Ascii("subjectId"), OptionalText(input.subjectId)),
      Field(Ascii("resourceId"), OptionalText(input.resourceId)),
      Field(Ascii("correlationId"), String(input.correlationId)),
      Field(Ascii("policyVersion"), OptionalText(input.policyVersion)),
      Field(Ascii("relationshipVersion"), OptionalText(input.relationshipVersion)),
      Field(Ascii("payload"), input.payload),
      Field(Ascii("occurredAt"), String(occurredAt)),
      Field(Ascii("previousEventHash"), OptionalText(previousEventHash)) ]
  }

  function Truncate(t: Text, n: nat): Text {
    if |t| <= n then t else t[..n]
  }

  function NewEvent(hash: HashFunction, log: Log, input: AuditEventInput, occurredAt: Text): AuditEvent {
    var previous := PreviousHash(hash, log, |log|);
    AuditEvent(
      Ascii("evt:") + Truncate(hash(Print(Object(IdFields(input, occurredAt, previous)))), 24),
      input.eventType, occurredAt, input.actor, input.subjectId, input.resourceId, input.correlationId,
      input.policyVersion, input.relationshipVersion,
      PayloadHash(hash, input.payload), previous, input.payload)
  }

  class AuditRecorder {
    const hash: HashFunction
    var events: Log

    constructor (hash: HashFunction, seedEvents: Log)
      ensures this.hash == hash && events == seedEvents
    {
      this.hash := hash;
      events := seedEvents;
    }

    method Record(input: AuditEventInput, occurredAt: Text) returns (event: AuditEvent)
      modifies this
      ensures event == NewEvent(hash, old(events), input, occurredAt)
      ensures events == old(events) + [event]
    {
      var previousEventHash: Option<Text> := None;
      if |events| > 0 {
        previousEventHash := Some(EventHash(hash, events[|events| - 1]));
      }
      var payloadHash := PayloadHash(hash, input.payload);
      var id := Ascii("evt:") + Truncate(hash(Print(Object(IdFields(input, occurredAt, previousEventHash)))), 24);
      event := AuditEvent(id, input.eventType, occurredAt, input.actor, input.subjectId, input.resourceId,
        input.correlationId, input.policyVersion, input.relationshipVersion, payloadHash, previousEventHash, input.payload);
      events := events + [event];
    }

    method List() returns (copy: Log)
      ensures copy == events
    {
      copy := events;
    }
  }

  // ---------------------------------------------------------------- verification

  ghost predicate PayloadIntact(hash: HashFunction, events: Log, i: nat)
    requires i < |events|
  {
    events[i].payloadHash == PayloadHash(hash, events[i].payload)
  }

  ghost predicate LinkIntact(hash: HashFunction, events: Log, i: nat)
    requires i < |events|
  {
    events[i].previousEventHash == PreviousHash(hash, events, i)
  }

  /** The chain is whole: every payload matches its hash and every event names its predecessor. */
  ghost predicate Verified(hash: HashFunction, events: Log) {
    forall i :: 0 <= i < |events| ==> PayloadIntact(hash, events, i) && LinkIntact(hash, events, i)
  }

  datatype FindingCode = PayloadHashMismatch | PreviousEventHashMismatch

  datatype Finding = Finding(code: FindingCode, eventId: Text, expected: Text, actual: Text)

  datatype Report = Report(
    verified: bool,
    eventCount: nat,
    firstEventId: Option<Text>,
    lastEventId: Option<Text>,
    firstEventHash: Option<Text>,
    lastEventHash: Option<Text>,
    findings: seq<Finding>)

  function OrNone(o: Option<Text>): Text {
    match o
    case Some(t) => t
    case None => Ascii("<none>")
  }

  /** Finding `f` is what a violation at position `i` is reported as. */
  ghost predicate Reports(hash: HashFunction, events: Log, i: nat, f: Finding)
    requires i < |events|
  {
    match f.code
    case PayloadHashMismatch =>
      && !PayloadIntact(hash, events, i)
      && f == Finding(PayloadHashMismatch, events[i].eventId, PayloadHash(hash, events[i].payload), events[i].payloadHash)
    case PreviousEventHashMismatch =>
      && !LinkIntact(hash, events, i)
      && f == Finding(PreviousEventHashMismatch, events[i].eventId,
                      OrNone(PreviousHash(hash, events, i)), OrNone(events[i].previousEventHash))
  }

  /**
    Verification: the status says whether the chain is whole, and a finding is listed
    exactly when it reports a violation at some position.
   */
  method VerifyAuditChain(hash: HashFunction, events: Log) returns (report: Report)
    ensures report.verified <==> Verified(hash, events)
    ensures forall f :: f in report.findings <==> exists i :: 0 <= i < |events| && Reports(hash, events, i, f)
    ensures report.eventCount == |events|
    ensures events == [] ==> report.firstEventId == report.lastEventId == report.firstEventHash == report.lastEventHash == None
    ensures events != [] ==>
      && report.firstEventId == Some(events[0].eventId)
      && report.lastEventId == Some(events[|events| - 1].eventId)
      && report.firstEventHash == Some(EventHash(hash, events[0]))
      && report.lastEventHash == Some(EventHash(hash, events[|events| - 1]))
  {
    hide EventText, PayloadHash;
    var findings: seq<Finding> := [];
    for index := 0 to |events|
      invariant forall f :: f in findings <==> exists i :: 0 <= i < index && Reports(hash, events, i, f)
      invariant findings == [] <==> forall i :: 0 <= i < index ==> PayloadIntact(hash, events, i) && LinkIntact(hash, events, i)
    {
      var event := events[index];
      var before := findings;
      var expectedPayloadHash := PayloadHash(hash, event.payload);
      if event.payloadHash != expectedPayloadHash {
        findings := findings + [Finding(PayloadHashMismatch, event.eventId, expectedPayloadHash, event.payloadHash)];
      }
      var expectedPreviousHash := PreviousHash(hash, events, index);
      if event.previousEventHash != expectedPreviousHash {
        findings := findings + [Finding(PreviousEventHashMismatch, event.eventId, OrNone(expectedPreviousHash), OrNone(event.previousEventHash))];
      }
      assert forall f :: f in findings <==> f in before || Reports(hash, events, index, f);
      assert findings == [] <==> before == [] && PayloadIntact(hash, events, index) && LinkIntact(hash, events, index);
    }
    report := Report(
      |findings| == 0,
      |events|,
      if events == [] then None else Some(events[0].eventId),
      if events == [] then None else Some(events[|events| - 1].eventId),
      if events == [] then None else Some(EventHash(hash, events[0])),
      if events == [] then None else Some(EventHash(hash, events[|events| - 1])),
      findings);
  }

  // ---------------------------------------------------------------- what the recorder produces

  datatype Entry = Entry(input: AuditEventInput, occurredAt: Text)

  /** The log after recording a sequence of entries. */
  function RecordAll(hash: HashFunction, seed: Log, entries: seq<Entry>): Log
    decreases |entries|
  {
    if entries == [] then seed
    else RecordAll(hash, seed + [NewEvent(hash, seed, entries[0].input, entries[0].occurredAt)], entries[1..])
  }

  lemma RecordKeepsVerified(hash: HashFunction, log: Log, input: AuditEventInput, occurredAt: Text)
    requires Verified(hash, log)
    ensures Verified(hash, log + [NewEvent(hash, log, input, occurredAt)])
  {
    hide EventText, PayloadHash, IdFields;
    var longer := log + [NewEvent(hash, log, input, occurredAt)];
    forall i | 0 <= i < |longer|
      ensures PayloadIntact(hash, longer, i) && LinkIntact(hash, longer, i)
    {
      if i < |log| {
        assert PayloadIntact(hash, log, i) && LinkIntact(hash, log, i);
      }
    }
  }

  lemma PrefixVerified(hash: HashFunction, log: Log, n: nat)
    requires Verified(hash, log) && n <= |log|
    ensures Verified(hash, log[..n])
  {
    forall i | 0 <= i < n
      ensures PayloadIntact(hash, log[..n], i) && LinkIntact(hash, log[..n], i)
    {
      assert PayloadIntact(hash, log, i) && LinkIntact(hash, log, i);
    }
  }

  /** Every recorded log verifies, and so does each of its prefixes. */
  lemma {:induction false} RecordedLogVerifies(hash: HashFunction, seed: Log, entries: seq<Entry>, n: nat)
    requires Verified(hash, seed) && n <= |RecordAll(hash, seed, entries)|
    ensures seed <= RecordAll(hash, seed, entries)
    ensures Verified(hash, RecordAll(hash, seed, entries)[..n])
    decreases |entries|
  {
    if entries == [] {
      PrefixVerified(hash, seed, n);
    } else {
      RecordKeepsVerified(hash, seed, entries[0].input, entries[0].occurredAt);
      RecordedLogVerifies(hash, seed + [NewEvent(hash, seed, entries[0].input, entries[0].occurredAt)], entries[1..], n);
    }
  }

  /** What an event was recorded from, read back from the event. */
  function EntryOf(e: AuditEvent): Entry {
    Entry(AuditEventInput(e.eventType, e.actor, e.subjectId, e.resourceId, e.correlationId, e.policyVersion,
                          e.relationshipVersion, e.payload),
          e.occurredAt)
  }

  lemma EntryOfNewEvent(hash: HashFunction, log: Log, entry: Entry)
    ensures EntryOf(NewEvent(hash, log, entry.input, entry.occurredAt)) == entry
  {
    hide PreviousHash, PayloadHash, IdFields, Print, Truncate, Ascii;
  }

  /** A recorded log is the seed and one event for each entry, in order, from which the entry can be read back. */
  lemma {:induction false} RecordedLogHoldsEntries(hash: HashFunction, seed: Log, entries: seq<Entry>)
    ensures var log := RecordAll(hash, seed, entries);
      && |log| == |seed| + |entries| && seed <= log
      && forall i :: 0 <= i < |entries| ==> EntryOf(log[|seed| + i]) == entries[i]
    decreases |entries|
  {
    hide NewEvent, EntryOf;
    if entries != [] {
      var event := NewEvent(hash, seed, entries[0].input, entries[0].occurredAt);
      EntryOfNewEvent(hash, seed, entries[0]);
      RecordedLogHoldsEntries(hash, seed + [event], entries[1..]);
      var log := RecordAll(hash, seed, entries);
      assert log[|seed|] == event;
      forall i | 1 <= i < |entries|
        ensures EntryOf(log[|seed| + i]) == entries[i]
      {
        assert entries[1..][i - 1] == entries[i];
      }
    }
  }

  // ---------------------------------------------------------------- event text determines the event

  ghost predicate ValidEvent(e: AuditEvent) {
    Valid(e.payload)
  }

  ghost predicate ValidLog(log: Log) {
    forall i :: 0 <= i < |log| ==> ValidEvent(log[i])
  }

  /** Equal in every field; payloads up to key order and undefined fields. */
  ghost predicate SameEvent(a: AuditEvent, b: AuditEvent) {
    a.(payload := Null) == b.(payload := Null) && Equivalent(a.payload, b.payload)
  }

  ghost predicate SameLog(a: Log, b: Log) {
    |a| == |b| && forall i :: 0 <= i < |a| ==> SameEvent(a[i], b[i])
  }

  lemma EventKeysDistinct(e: AuditEvent)
    ensures DistinctKeys(EventFields(e))
  {
    var fields := EventFields(e);
    forall i, j | 0 <= i < j < |fields|
      ensures fields[i].key != fields[j].key
    {
      var a, b := fields[i].key, fields[j].key;
      if |a| == |b| {
        assert a[0] != b[0];
      }
    }
  }

  lemma {:induction false} GetAt(fields: seq<Field>, i: nat)
    requires DistinctKeys(fields) && i < |fields|
    ensures Get(fields, fields[i].key) == fields[i].value
  {
    if i > 0 {
      assert fields[0].key != fields[i].key;
      GetAt(fields[1..], i - 1);
    }
  }

  /** Records with the same keys in the same order are equivalent field by field. */
  lemma EquivalentFieldwise(f: seq<Field>, g: seq<Field>)
    requires DistinctKeys(f) && DistinctKeys(g) && |f| == |g|
    requires forall i :: 0 <= i < |f| ==> f[i].key == g[i].key
    ensures Equivalent(Object(f), Object(g)) <==> forall i :: 0 <= i < |f| ==> Equivalent(f[i].value, g[i].value)
  {
    hide Get;
    forall i | 0 <= i < |f|
      ensures Get(f, f[i].key) == f[i].value && Get(g, f[i].key) == g[i].value
      ensures f[i].key in LiveKeySet(f) <==> !f[i].value.Undefined?
      ensures f[i].key in LiveKeySet(g) <==> !g[i].value.Undefined?
    {
      GetAt(f, i);
      GetAt(g, i);
    }
    if forall i :: 0 <= i < |f| ==> Equivalent(f[i].value, g[i].value) {
      assert LiveKeySet(f) == LiveKeySet(g);
    }
  }

  lemma EquivalentTexts(a: Text, b: Text)
    ensures Equivalent(String(a), String(b)) <==> a == b
  {
  }

  lemma EquivalentOptionalTexts(a: Option<Text>, b: Option<Text>)
    ensures Equivalent(OptionalText(a), OptionalText(b)) <==> a == b
  {
  }

  lemma FieldsOfEvent(e: AuditEvent)
    ensures var f := EventFields(e);
      && f[0].value == String(e.eventId) && f[1].value == String(e.eventType)
      && f[2].value == String(e.occurredAt) && f[3].value == String(e.actor)
      && f[4].value == OptionalText(e.subjectId) && f[5].value == OptionalText(e.resourceId)
      && f[6].value == String(e.correlationId) && f[7].value == OptionalText(e.policyVersion)
      && f[8].value == OptionalText(e.relationshipVersion) && f[9].value == String(e.payloadHash)
      && f[10].value == OptionalText(e.previousEventHash) && f[11].value == e.payload
  {
    hide Ascii, OptionalText;
  }

  lemma SameEventFieldwise(a: AuditEvent, b: AuditEvent)
    ensures SameEvent(a, b) <==>
      forall i :: 0 <= i < 12 ==> Equivalent(EventFields(a)[i].value, EventFields(b)[i].value)
  {
    FieldsOfEvent(a);
    FieldsOfEvent(b);
    hide EventFields, OptionalText, Equivalent;
    EquivalentTexts(a.eventId, b.eventId);
    EquivalentTexts(a.eventType, b.eventType);
    EquivalentTexts(a.occurredAt, b.occurredAt);
    EquivalentTexts(a.actor, b.actor);
    EquivalentOptionalTexts(a.subjectId, b.subjectId);
    EquivalentOptionalTexts(a.resourceId, b.resourceId);
    EquivalentTexts(a.correlationId, b.correlationId);
    EquivalentOptionalTexts(a.policyVersion, b.policyVersion);
    EquivalentOptionalTexts(a.relationshipVersion, b.relationshipVersion);
    EquivalentTexts(a.payloadHash, b.payloadHash);
    EquivalentOptionalTexts(a.previousEventHash, b.previousEventHash);
  }

  lemma EventFieldsValid(e: AuditEvent)
    requires ValidEvent(e)
    ensures Valid(Object(EventFields(e)))
  {
    hide Ascii;
    EventKeysDistinct(e);
  }

  /** Two events print the same exactly when they are the same event. */
  lemma EventTextDecidesEvent(a: AuditEvent, b: AuditEvent)
    requires ValidEvent(a) && ValidEvent(b)
    ensures EventText(a) == EventText(b) <==> SameEvent(a, b)
  {
    hide Ascii, OptionalText, Print, Equivalent, Valid;
    var f, g := EventFields(a), EventFields(b);
    EventFieldsValid(a);
    EventFieldsValid(b);
    EventKeysDistinct(a);
    EventKeysDistinct(b);
    PrintDecidesEquivalence(Object(f), Object(g));
    assert forall i :: 0 <= i < 12 ==> f[i].key == g[i].key;
    EquivalentFieldwise(f, g);
    SameEventFieldwise(a, b);
  }

  // ---------------------------------------------------------------- the event id determines the entry

  function IdText(entry: Entry, previousEventHash: Option<Text>): Text {
    Print(Object(IdFields(entry.input, entry.occurredAt, previousEventHash)))
  }

  /** Equal in every field; payloads up to key order and undefined fields. */
  ghost predicate SameEntry(x: Entry, y: Entry) {
    && x.(input := x.input.(payload := Null)) == y.(input := y.input.(payload := Null))
    && Equivalent(x.input.payload, y.input.payload)
  }

  lemma IdKeysDistinct(x: Entry, p: Option<Text>)
    ensures DistinctKeys(IdFields(x.input, x.occurredAt, p))
  {
    var fields := IdFields(x.input, x.occurredAt, p);
    forall i, j | 0 <= i < j < |fields|
      ensures fields[i].key != fields[j].key
    {
      var a, b := fields[i].key, fields[j].key;
      if |a| == |b| {
        assert a[0] != b[0];
      }
    }
  }

  lemma FieldsOfId(x: Entry, p: Option<Text>)
    ensures var f := IdFields(x.input, x.occurredAt, p);
      && f[0].value == String(x.input.eventType) && f[1].value == String(x.input.actor)
      && f[2].value == OptionalText(x.input.subjectId) && f[3].value == OptionalText(x.input.resourceId)
      && f[4].value == String(x.input.correlationId) && f[5].value == OptionalText(x.input.policyVersion)
      && f[6].value == OptionalText(x.input.relationshipVersion) && f[7].value == x.input.payload
      && f[8].value == String(x.occurredAt) && f[9].value == OptionalText(p)
  {
    hide Ascii, OptionalText;
  }

  lemma SameEntryFieldwise(x: Entry, p: Option<Text>, y: Entry, q: Option<Text>)
    ensures SameEntry(x, y) && p == q <==>
      forall i :: 0 <= i < 10 ==>
        Equivalent(IdFields(x.input, x.occurredAt, p)[i].value, IdFields(y.input, y.occurredAt, q)[i].value)
  {
    FieldsOfId(x, p);
    FieldsOfId(y, q);
    hide IdFields, OptionalText, Equivalent;
    EquivalentTexts(x.input.eventType, y.input.eventType);
    EquivalentTexts(x.input.actor, y.input.actor);
    EquivalentOptionalTexts(x.input.subjectId, y.input.subjectId);
    EquivalentOptionalTexts(x.input.resourceId, y.input.resourceId);
    EquivalentTexts(x.input.correlationId, y.input.correlationId);
    EquivalentOptionalTexts(x.input.policyVersion, y.input.policyVersion);
    EquivalentOptionalTexts(x.input.relationshipVersion, y.input.relationshipVersion);
    EquivalentTexts(x.occurredAt, y.occurredAt);
    EquivalentOptionalTexts(p, q);
  }

  lemma IdFieldsValid(x: Entry, p: Option<Text>)
    requires Valid(x.input.payload)
    ensures Valid(Object(IdFields(x.input, x.occurredAt, p)))
  {
    hide Ascii;
    IdKeysDistinct(x, p);
  }

  lemma IdKeysAgree(x: Entry, p: Option<Text>, y: Entry, q: Option<Text>)
    ensures |IdFields(x.input, x.occurredAt, p)| == |IdFields(y.input, y.occurredAt, q)| == 10
    ensures forall i :: 0 <= i < 10 ==> IdFields(x.input, x.occurredAt, p)[i].key == IdFields(y.input, y.occurredAt, q)[i].key
  {
    hide Ascii, OptionalText;
  }

  /** What an event id is hashed from decides the entry, its time and the event it follows. */
  lemma IdTextDecidesEntry(x: Entry, p: Option<Text>, y: Entry, q: Option<Text>)
    requires Valid(x.input.payload) && Valid(y.input.payload)
    ensures IdText(x, p) == IdText(y, q) <==> SameEntry(x, y) && p == q
  {
    IdKeysDistinct(x, p);
    IdKeysDistinct(y, q);
    IdFieldsValid(x, p);
    IdFieldsValid(y, q);
    IdKeysAgree(x, p, y, q);
    hide IdFields, Print, Equivalent, Valid, SameEntry, DistinctKeys;
    var f, g := IdFields(x.input, x.occurredAt, p), IdFields(y.input, y.occurredAt, q);
    PrintDecidesEquivalence(Object(f), Object(g));
    EquivalentFieldwise(f, g);
    SameEntryFieldwise(x, p, y, q);
  }

  /** Two different texts whose hashes agree as far as an event id goes. */
  ghost predicate IdCollision(hash: HashFunction, x: Text, y: Text) {
    x != y && Truncate(hash(x), 24) == Truncate(hash(y), 24)
  }

  /** Recorded events have one id exactly when they record the same entry after the same event, or their id texts collide. */
  lemma EventIdDecidesEntry(hash: HashFunction, a: Log, x: Entry, b: Log, y: Entry)
    requires Valid(x.input.payload) && Valid(y.input.payload)
    ensures var p, q := PreviousHash(hash, a, |a|), PreviousHash(hash, b, |b|);
      NewEvent(hash, a, x.input, x.occurredAt).eventId == NewEvent(hash, b, y.input, y.occurredAt).eventId <==>
        (SameEntry(x, y) && p == q) || IdCollision(hash, IdText(x, p), IdText(y, q))
  {
    hide EventText, IdFields, Print, SameEntry;
    var p, q := PreviousHash(hash, a, |a|), PreviousHash(hash, b, |b|);
    IdTextDecidesEntry(x, p, y, q);
    var prefix := Ascii("evt:");
    var e, f := NewEvent(hash, a, x.input, x.occurredAt), NewEvent(hash, b, y.input, y.occurredAt);
    assert e.eventId[|prefix|..] == Truncate(hash(IdText(x, p)), 24);
    assert f.eventId[|prefix|..] == Truncate(hash(IdText(y, q)), 24);
  }

  // ---------------------------------------------------------------- tamper evidence

  /** Two different texts with the same hash. */
  ghost predicate Collision(hash: HashFunction, x: Text, y: Text) {
    x != y && hash(x) == hash(y)
  }

  lemma EqualHashes(hash: HashFunction, x: Text, y: Text)
    requires HashReference(hash, x) == HashReference(hash, y)
    ensures x == y || Collision(hash, x, y)
  {
    var prefix := Ascii("sha256:");
    assert HashReference(hash, x)[|prefix|..] == hash(x);
    assert HashReference(hash, y)[|prefix|..] == hash(y);
  }

  /** Some event of one log and some event of the other have different texts with one hash. */
  ghost predicate LogsCollide(hash: HashFunction, a: Log, b: Log) {
    exists i, j :: 0 <= i < |a| && 0 <= j < |b| && Collision(hash, EventText(a[i]), EventText(b[j]))
  }

  lemma PrefixesCollide(hash: HashFunction, a: Log, b: Log, m: nat, n: nat)
    requires m <= |a| && n <= |b|
    ensures LogsCollide(hash, a[..m], b[..n]) ==> LogsCollide(hash, a, b)
  {
    hide EventText, Collision;
    if LogsCollide(hash, a[..m], b[..n]) {
      var i, j :| 0 <= i < m && 0 <= j < n && Collision(hash, EventText(a[..m][i]), EventText(b[..n][j]));
      assert Collision(hash, EventText(a[i]), EventText(b[j]));
    }
  }

  lemma SameEventSamePrevious(a: AuditEvent, b: AuditEvent)
    requires SameEvent(a, b)
    ensures a.previousEventHash == b.previousEventHash
  {
    hide Equivalent;
    assert a.(payload := Null).previousEventHash == b.(payload := Null).previousEventHash;
  }

  lemma SameLogOneMore(a: Log, b: Log)
    requires a != [] && b != [] && SameLog(a[..|a| - 1], b[..|b| - 1]) && SameEvent(a[|a| - 1], b[|b| - 1])
    ensures SameLog(a, b)
  {
    hide SameEvent;
    forall i | 0 <= i < |a|
      ensures SameEvent(a[i], b[i])
    {
      if i < |a| - 1 {
        assert SameEvent(a[..|a| - 1][i], b[..|b| - 1][i]);
      }
    }
  }

  /**
    Tamper evidence, with no length assumption: two logs that both verify and end in the
    same event hash are the same log, or two of their own events exhibit a hash collision.
   */
  lemma {:induction false} TamperEvidence(hash: HashFunction, a: Log, b: Log)
    requires a != [] && b != [] && ValidLog(a) && ValidLog(b)
    requires Verified(hash, a) && Verified(hash, b)
    requires EventHash(hash, a[|a| - 1]) == EventHash(hash, b[|b| - 1])
    ensures SameLog(a, b) || LogsCollide(hash, a, b)
    decreases |a|
  {
    hide EventText, HashReference, SameEvent, SameLog, LogsCollide, PayloadIntact;
    var m, n := |a| - 1, |b| - 1;
    EqualHashes(hash, EventText(a[m]), EventText(b[n]));
    if !Collision(hash, EventText(a[m]), EventText(b[n])) {
      EventTextDecidesEvent(a[m], b[n]);
      assert LinkIntact(hash, a, m) && LinkIntact(hash, b, n);
      SameEventSamePrevious(a[m], b[n]);
      if m > 0 && n > 0 {
        PrefixVerified(hash, a, m);
        PrefixVerified(hash, b, n);
        TamperEvidence(hash, a[..m], b[..n]);
        PrefixesCollide(hash, a, b, m, n);
        if SameLog(a[..m], b[..n]) {
          SameLogOneMore(a, b);
        }
      } else if m == 0 && n == 0 {
        OneEventLogs(a, b);
      }
    } else {
      assert LogsCollide(hash, a, b) by {
        EventsCollide(hash, a, b, m, n);
      }
    }
  }

  lemma OneEventLogs(a: Log, b: Log)
    requires |a| == |b| == 1 && SameEvent(a[0], b[0])
    ensures SameLog(a, b)
  {
  }

  lemma EventsCollide(hash: HashFunction, a: Log, b: Log, i: nat, j: nat)
    requires i < |a| && j < |b| && Collision(hash, EventText(a[i]), EventText(b[j]))
    ensures LogsCollide(hash, a, b)
  {
  }

  /** With an injective hash, the last event hash of a verified log determines the whole log. */
  lemma LastHashDeterminesLog(hash: HashFunction, a: Log, b: Log)
    requires forall x, y :: hash(x) == hash(y) ==> x == y
    requires a != [] && b != [] && ValidLog(a) && ValidLog(b)
    requires Verified(hash, a) && Verified(hash, b)
    ensures EventHash(hash, a[|a| - 1]) == EventHash(hash, b[|b| - 1]) ==> SameLog(a, b)
  {
    if EventHash(hash, a[|a| - 1]) == EventHash(hash, b[|b| - 1]) {
      TamperEvidence(hash, a, b);
    }
  }
}
