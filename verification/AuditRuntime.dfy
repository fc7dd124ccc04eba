/**
  Where audit events go at run time and how a restart rebuilds the log.

  Every event enters the in-memory log, is offered to an append-only audit repository and,
  on some steps, is part of a state snapshot. Either durable write may throw, before or
  after it took effect, and a crash may follow any step. A durable copy may come back
  re-encoded, so copies are compared by their canonical text, as the program does.
 */
module AuditRuntime {
  import opened Wrappers
  import opened CanonicalJson
  import opened JsonEquivalence
  import opened AuditChain

  const MAX_PERSISTENCE_DEGRADATIONS: nat := 20

  /** What survives a crash. */
  class DurableStorage {
    var repository: Log
    var snapshot: Option<Log>

    constructor ()
      ensures repository == [] && snapshot == None
    {
      repository, snapshot := [], None;
    }
  }

  /** What the audit repository does when an event is offered to it. */
  datatype AppendOutcome =
    | ListThrew
    | AppendThrew
    | Appended(copy: AuditEvent)
    | AppendedThenThrew(copy: AuditEvent)

  /** What the state repository does when a snapshot is written. */
  datatype WriteOutcome =
    | WriteThrew
    | Written(copy: Log)
    | WrittenThenThrew(copy: Log)

  datatype Component = AuditComponent | StateComponent
  datatype Reason = RepositoryMismatch | RepositoryError

  datatype Degradation = Degradation(component: Component, occurredAt: Text, reason: Reason)

  function PushDegradation(ds: seq<Degradation>, d: Degradation): seq<Degradation> {
    (if |ds| >= MAX_PERSISTENCE_DEGRADATIONS then ds[1..] else ds) + [d]
  }

  // ---------------------------------------------------------------- comparison by text

  /** `b` starts with `a`, event by event in canonical text. */
  predicate StartsWith(b: Log, a: Log) {
    |a| <= |b| && forall i :: 0 <= i < |a| ==> EventText(a[i]) == EventText(b[i])
  }

  predicate RepositoryMatches(stored: Log, expected: Log) {
    |stored| == |expected| && forall i :: 0 <= i < |stored| ==> EventText(stored[i]) == EventText(expected[i])
  }

  // ---------------------------------------------------------------- the protocol, as a transition system

  datatype AuditState = AuditState(fallback: Log, log: Log, repository: Log, snapshot: Option<Log>)

  /** The events a restart finds in the snapshot, or in the configured seed when there is none. */
  function StoredEvents(fallback: Log, snapshot: Option<Log>): Log {
    match snapshot
    case Some(l) => l
    case None => fallback
  }

  function Stored(s: AuditState): Log {
    StoredEvents(s.fallback, s.snapshot)
  }

  ghost function Recover(hash: HashFunction, stored: Log, repository: Log): Log {
    if |repository| <= |stored| || !StartsWith(repository, stored) then stored
    else if Verified(hash, repository) then repository
    else stored
  }

  function AppendEffect(repository: Log, prior: Log, outcome: AppendOutcome): Log {
    if outcome.ListThrew? || !RepositoryMatches(repository, prior) || outcome.AppendThrew? then repository
    else repository + [outcome.copy]
  }

  function WriteEffect(snapshot: Option<Log>, outcome: WriteOutcome): Option<Log> {
    if outcome.WriteThrew? then snapshot else Some(outcome.copy)
  }

  datatype Step =
    | Record(input: AuditEventInput, occurredAt: Text, persistState: bool, append: AppendOutcome, write: WriteOutcome)
    | Persist(write: WriteOutcome)
    | Restart

  ghost function Next(hash: HashFunction, s: AuditState, step: Step): AuditState {
    match step
    case Record(input, occurredAt, persistState, append, write) =>
      var event := NewEvent(hash, s.log, input, occurredAt);
      s.(log := s.log + [event],
         repository := AppendEffect(s.repository, s.log, append),
         snapshot := if persistState then WriteEffect(s.snapshot, write) else s.snapshot)
    case Persist(write) => s.(snapshot := WriteEffect(s.snapshot, write))
    case Restart => s.(log := Recover(hash, Stored(s), s.repository))
  }

  /** A durable copy is the thing that was written, up to its canonical text. */
  ghost predicate FaithfulAppend(event: AuditEvent, outcome: AppendOutcome) {
    outcome.Appended? || outcome.AppendedThenThrew? ==>
      ValidEvent(outcome.copy) && EventText(outcome.copy) == EventText(event)
  }

  ghost predicate FaithfulWrite(log: Log, outcome: WriteOutcome) {
    !outcome.WriteThrew? ==> ValidLog(outcome.copy) && RepositoryMatches(outcome.copy, log)
  }

  ghost predicate Allowed(hash: HashFunction, s: AuditState, step: Step) {
    match step
    case Record(input, occurredAt, persistState, append, write) =>
      var event := NewEvent(hash, s.log, input, occurredAt);
      && Valid(input.payload)
      && FaithfulAppend(event, append)
      && FaithfulWrite(s.log + [event], write)
    case Persist(write) => FaithfulWrite(s.log, write)
    case Restart => true
  }

  ghost function Run(hash: HashFunction, s: AuditState, steps: seq<Step>): AuditState
    decreases |steps|
  {
    if steps == [] then s else Run(hash, Next(hash, s, steps[0]), steps[1..])
  }

  ghost predicate RunAllowed(hash: HashFunction, s: AuditState, steps: seq<Step>)
    decreases |steps|
  {
    steps == [] || (Allowed(hash, s, steps[0]) && RunAllowed(hash, Next(hash, s, steps[0]), steps[1..]))
  }

  // ---------------------------------------------------------------- the running program

  class Runtime {
    const hash: HashFunction
    const fallback: Log
    const durable: DurableStorage
    const recorder: AuditRecorder
    var storeEvents: Log
    var degradations: seq<Degradation>

    ghost predicate Valid()
      reads this, recorder
    {
      && recorder.hash == hash
      && recorder.events == storeEvents
      && |degradations| <= MAX_PERSISTENCE_DEGRADATIONS
    }

    ghost function State(): AuditState
      reads this, durable
    {
      AuditState(fallback, storeEvents, durable.repository, durable.snapshot)
    }

    /** Startup: the restart step of the transition system. */
    constructor (hash: HashFunction, fallback: Log, durable: DurableStorage)
      ensures Valid() && fresh(recorder)
      ensures this.hash == hash && this.fallback == fallback && this.durable == durable && degradations == []
      ensures unchanged(durable)
      ensures State() == Next(hash, old(AuditState(fallback, [], durable.repository, durable.snapshot)), Restart)
    {
      this.hash, this.fallback, this.durable, degradations := hash, fallback, durable, [];
      var auditEvents := RecoverAppendOnlyAuditEvents(hash, StoredEvents(fallback, durable.snapshot), durable.repository);
      storeEvents := auditEvents;
      recorder := new AuditRecorder(hash, auditEvents);
    }

    method RecordPersistenceDegradation(d: Degradation)
      modifies this`degradations
      ensures degradations == PushDegradation(old(degradations), d)
    {
      if |degradations| >= MAX_PERSISTENCE_DEGRADATIONS {
        degradations := degradations[1..];
      }
      degradations := degradations + [d];
    }

    /** Offers an event to the repository. A failure or a mismatch leaves a degradation receipt. */
    method AppendAuditEvent(event: AuditEvent, expectedPriorEvents: Log, outcome: AppendOutcome)
      requires |degradations| <= MAX_PERSISTENCE_DEGRADATIONS
      modifies this`degradations, durable`repository
      ensures durable.repository == AppendEffect(old(durable.repository), expectedPriorEvents, outcome)
      ensures |degradations| <= MAX_PERSISTENCE_DEGRADATIONS
      ensures var mismatch := !outcome.ListThrew? && !RepositoryMatches(old(durable.repository), expectedPriorEvents);
        degradations ==
          if outcome.Appended? && !mismatch then old(degradations)
          else PushDegradation(old(degradations),
            Degradation(AuditComponent, event.occurredAt, if mismatch then RepositoryMismatch else RepositoryError))
    {
      var failed := outcome.ListThrew?;
      if !failed {
        if !RepositoryMatches(durable.repository, expectedPriorEvents) {
          RecordPersistenceDegradation(Degradation(AuditComponent, event.occurredAt, RepositoryMismatch));
          return;
        }
        match outcome {
          case Appended(copy) => durable.repository := durable.repository + [copy];
          case AppendedThenThrew(copy) => durable.repository := durable.repository + [copy]; failed := true;
          case AppendThrew => failed := true;
        }
      }
      if failed {
        RecordPersistenceDegradation(Degradation(AuditComponent, event.occurredAt, RepositoryError));
      }
    }

    method PersistStoreSnapshot(storedAt: Text, outcome: WriteOutcome)
      requires |degradations| <= MAX_PERSISTENCE_DEGRADATIONS
      modifies this`degradations, durable`snapshot
      ensures durable.snapshot == WriteEffect(old(durable.snapshot), outcome)
      ensures !outcome.WriteThrew? ==> durable.snapshot == Some(outcome.copy)
      ensures degradations ==
        if outcome.Written? then old(degradations)
        else PushDegradation(old(degradations), Degradation(StateComponent, storedAt, RepositoryError))
      ensures |degradations| <= MAX_PERSISTENCE_DEGRADATIONS
    {
      match outcome {
        case Written(copy) => durable.snapshot := Some(copy);
        case WrittenThenThrew(copy) =>
          durable.snapshot := Some(copy);
          RecordPersistenceDegradation(Degradation(StateComponent, storedAt, RepositoryError));
        case WriteThrew =>
          RecordPersistenceDegradation(Degradation(StateComponent, storedAt, RepositoryError));
      }
    }

    /** The application path: record, store, append, and snapshot when asked to. */
    method RecordAudit(input: AuditEventInput, occurredAt: Text, persistState: bool, append: AppendOutcome, write: WriteOutcome)
      returns (event: AuditEvent)
      requires Valid()
      modifies this, recorder, durable
      ensures Valid()
      ensures event == NewEvent(hash, old(storeEvents), input, occurredAt)
      ensures State() == Next(hash, old(State()), Record(input, occurredAt, persistState, append, write))
    {
      event := recorder.Record(input, occurredAt);
      var priorStoreAuditEvents := storeEvents;
      storeEvents := storeEvents + [event];
      AppendAuditEvent(event, priorStoreAuditEvents, append);
      if persistState {
        PersistStoreSnapshot(event.occurredAt, write);
      }
    }

    /** The decision-engine path: the event is in the store before the callback runs. */
    method RecordDecisionAudit(input: AuditEventInput, occurredAt: Text, append: AppendOutcome, write: WriteOutcome)
      returns (event: AuditEvent)
      requires Valid()
      modifies this, recorder, durable
      ensures Valid()
      ensures event == NewEvent(hash, old(storeEvents), input, occurredAt)
      ensures State() == Next(hash, old(State()), Record(input, occurredAt, true, append, write))
    {
      event := recorder.Record(input, occurredAt);
      storeEvents := storeEvents + [event];
      var priorStoreAuditEvents := storeEvents[..|storeEvents| - 1];
      assert priorStoreAuditEvents == old(storeEvents);
      AppendAuditEvent(event, priorStoreAuditEvents, append);
      PersistStoreSnapshot(event.occurredAt, write);
    }

    method PersistAppState(storedAt: Text, write: WriteOutcome)
      requires Valid()
      modifies this, durable
      ensures Valid()
      ensures State() == Next(hash, old(State()), Persist(write))
    {
      PersistStoreSnapshot(storedAt, write);
    }
  }

  method RecoverAppendOnlyAuditEvents(hash: HashFunction, storedEvents: Log, repositoryEvents: Log) returns (recovered: Log)
    ensures recovered == Recover(hash, storedEvents, repositoryEvents)
  {
    if |repositoryEvents| <= |storedEvents| || !StartsWith(repositoryEvents, storedEvents) {
      return storedEvents;
    }
    var report := VerifyAuditChain(hash, repositoryEvents);
    return if report.verified then repositoryEvents else storedEvents;
  }

  // ---------------------------------------------------------------- invariant

  /** Both durable copies are prefixes of the in-memory log, which is a whole chain. */
  ghost predicate Inv(hash: HashFunction, s: AuditState) {
    && Verified(hash, s.log) && ValidLog(s.log)
    && ValidLog(s.repository) && StartsWith(s.log, s.repository)
    && ValidLog(Stored(s)) && StartsWith(s.log, Stored(s))
  }

  /** A first start: nothing durable yet. */
  ghost predicate Initial(hash: HashFunction, s: AuditState) {
    s.snapshot == None && s.repository == [] && s.log == s.fallback && Verified(hash, s.fallback) && ValidLog(s.fallback)
  }

  /** The longer of the two durable copies. */
  function Durable(s: AuditState): Log {
    if |s.repository| > |Stored(s)| then s.repository else Stored(s)
  }

  lemma EqualTextKeepsChain(hash: HashFunction, a: Log, b: Log, i: nat)
    requires ValidLog(a) && ValidLog(b) && StartsWith(b, a) && i < |a|
    requires PayloadIntact(hash, b, i) && LinkIntact(hash, b, i)
    ensures PayloadIntact(hash, a, i) && LinkIntact(hash, a, i)
  {
    hide EventText;
    EventTextDecidesEvent(a[i], b[i]);
    PrintDecidesEquivalence(a[i].payload, b[i].payload);
    var x, y := a[i].(payload := Null), b[i].(payload := Null);
    assert x.payloadHash == a[i].payloadHash && y.payloadHash == b[i].payloadHash;
    assert x.previousEventHash == a[i].previousEventHash && y.previousEventHash == b[i].previousEventHash;
  }

  /** A log with the same texts as a prefix of a whole chain is itself a whole chain. */
  lemma PrefixOfChainVerified(hash: HashFunction, a: Log, b: Log)
    requires ValidLog(a) && ValidLog(b) && StartsWith(b, a) && Verified(hash, b)
    ensures Verified(hash, a)
  {
    hide EventText;
    forall i | 0 <= i < |a|
      ensures PayloadIntact(hash, a, i) && LinkIntact(hash, a, i)
    {
      assert PayloadIntact(hash, b, i) && LinkIntact(hash, b, i);
      EqualTextKeepsChain(hash, a, b, i);
    }
  }

  /** Under the invariant a restart recovers exactly the longer durable copy. */
  lemma RestartRecoversLonger(hash: HashFunction, s: AuditState)
    requires Inv(hash, s)
    ensures Next(hash, s, Restart).log == Durable(s)
  {
    hide EventText;
    PrefixOfChainVerified(hash, s.repository, s.log);
  }

  lemma NewEventValid(hash: HashFunction, log: Log, input: AuditEventInput, occurredAt: Text)
    requires Valid(input.payload)
    ensures ValidEvent(NewEvent(hash, log, input, occurredAt))
  {
  }

  lemma StepKeepsInv(hash: HashFunction, s: AuditState, step: Step)
    requires Inv(hash, s) && Allowed(hash, s, step)
    ensures Inv(hash, Next(hash, s, step))
  {
    hide EventText, NewEvent, Valid, PayloadIntact, LinkIntact;
    match step
    case Record(input, occurredAt, persistState, append, write) =>
      NewEventValid(hash, s.log, input, occurredAt);
      RecordKeepsVerified(hash, s.log, input, occurredAt);
    case Persist(write) =>
    case Restart =>
      RestartRecoversLonger(hash, s);
      PrefixOfChainVerified(hash, s.repository, s.log);
      PrefixOfChainVerified(hash, Stored(s), s.log);
  }

  lemma StepKeepsDurable(hash: HashFunction, s: AuditState, step: Step)
    requires Inv(hash, s) && Allowed(hash, s, step)
    ensures StartsWith(Durable(Next(hash, s, step)), Durable(s))
  {
    hide EventText, NewEvent, Valid, PayloadIntact, LinkIntact;
    if step.Record? {
      var event := NewEvent(hash, s.log, step.input, step.occurredAt);
      assert (s.log + [event])[..|s.log|] == s.log;
    }
  }

  lemma DurableInLog(hash: HashFunction, s: AuditState)
    requires Inv(hash, s)
    ensures StartsWith(s.log, Durable(s))
  {
  }

  /**
    Crash safety over every run: whatever writes fail and however often the program
    restarts, both durable copies stay prefixes of the log, and every event that was ever
    durable is still in the log and still durable.
   */
  lemma {:induction false} NoDurableEventIsLost(hash: HashFunction, s: AuditState, steps: seq<Step>)
    requires Inv(hash, s) && RunAllowed(hash, s, steps)
    ensures Inv(hash, Run(hash, s, steps))
    ensures StartsWith(Run(hash, s, steps).log, Durable(s))
    ensures StartsWith(Durable(Run(hash, s, steps)), Durable(s))
    decreases |steps|
  {
    hide EventText, Next, Inv, Allowed;
    DurableInLog(hash, s);
    if steps != [] {
      StepKeepsInv(hash, s, steps[0]);
      StepKeepsDurable(hash, s, steps[0]);
      NoDurableEventIsLost(hash, Next(hash, s, steps[0]), steps[1..]);
    }
  }

  lemma InitialInv(hash: HashFunction, s: AuditState)
    requires Initial(hash, s)
    ensures Inv(hash, s)
  {
  }

  // ---------------------------------------------------------------- when an event becomes durable

  /** The step writes a snapshot, and the write takes effect. */
  predicate WritesSnapshot(step: Step) {
    match step
    case Record(_, _, persistState, _, write) => persistState && !write.WriteThrew?
    case Persist(write) => !write.WriteThrew?
    case Restart => false
  }

  /** The step appends to a repository that is in step with the log, and the append takes effect. */
  predicate AppendsInStep(s: AuditState, step: Step) {
    step.Record? && (step.append.Appended? || step.append.AppendedThenThrew?) && |s.repository| == |s.log|
  }

  /** A snapshot that is written is the whole log of that moment, whatever snapshot there was; no other step touches it. */
  lemma WrittenSnapshotIsWholeLog(hash: HashFunction, s: AuditState, step: Step)
    requires Allowed(hash, s, step)
    ensures var t := Next(hash, s, step);
      if WritesSnapshot(step) then t.snapshot.Some? && RepositoryMatches(t.snapshot.value, t.log) else t.snapshot == s.snapshot
  {
    hide EventText, NewEvent, Valid;
  }

  /** An append in step leaves the repository matching the whole log; no other step touches it. */
  lemma AppendedRepositoryIsWholeLog(hash: HashFunction, s: AuditState, step: Step)
    requires Inv(hash, s) && Allowed(hash, s, step)
    ensures var t := Next(hash, s, step);
      if AppendsInStep(s, step) then RepositoryMatches(t.repository, t.log) else t.repository == s.repository
  {
    hide EventText, NewEvent, Valid, Verified;
  }

  /**
    An event is durable at once exactly when the snapshot it is part of was written or its
    append was in step: then the durable copy is the whole log, and a restart recovers all of it.
   */
  lemma DurableAtOnceIff(hash: HashFunction, s: AuditState, step: Step)
    requires Inv(hash, s) && Allowed(hash, s, step) && step.Record?
    ensures var t := Next(hash, s, step);
      && (RepositoryMatches(Durable(t), t.log) <==> WritesSnapshot(step) || AppendsInStep(s, step))
      && (RepositoryMatches(Durable(t), t.log) ==> RepositoryMatches(Next(hash, t, Restart).log, t.log))
  {
    StepKeepsInv(hash, s, step);
    WrittenSnapshotIsWholeLog(hash, s, step);
    AppendedRepositoryIsWholeLog(hash, s, step);
    RestartRecoversLonger(hash, Next(hash, s, step));
    hide EventText, NewEvent, Verified, ValidLog, Allowed, AppendEffect, WriteEffect;
  }

  lemma MatchedStarts(a: Log, b: Log, c: Log)
    requires StartsWith(a, b) && RepositoryMatches(b, c)
    ensures StartsWith(a, c)
  {
    hide EventText;
  }

  /** What a step made durable is never lost: in every later run the log and the durable copy start with the whole log of that step. */
  lemma WrittenLogSurvives(hash: HashFunction, s: AuditState, step: Step, steps: seq<Step>)
    requires Inv(hash, s) && Allowed(hash, s, step) && (WritesSnapshot(step) || AppendsInStep(s, step))
    requires RunAllowed(hash, Next(hash, s, step), steps)
    ensures var t := Next(hash, s, step);
      StartsWith(Run(hash, t, steps).log, t.log) && StartsWith(Durable(Run(hash, t, steps)), t.log)
  {
    var t := Next(hash, s, step);
    StepKeepsInv(hash, s, step);
    WrittenSnapshotIsWholeLog(hash, s, step);
    AppendedRepositoryIsWholeLog(hash, s, step);
    NoDurableEventIsLost(hash, t, steps);
    hide StartsWith, Next, Verified, ValidLog, Allowed, Run, RunAllowed;
    assert RepositoryMatches(Durable(t), t.log) by {
      hide EventText;
    }
    hide Durable;
    MatchedStarts(Run(hash, t, steps).log, Durable(t), t.log);
    MatchedStarts(Durable(Run(hash, t, steps)), Durable(t), t.log);
  }

  // ---------------------------------------------------------------- when the repository grows

  /** An event reaches the repository exactly when the repository is in step with the log. */
  lemma AppendedIffInStep(hash: HashFunction, s: AuditState, step: Step)
    requires Inv(hash, s) && step.Record? && (step.append.Appended? || step.append.AppendedThenThrew?)
    ensures |Next(hash, s, step).repository| == |s.repository| + 1 <==> |s.repository| == |s.log|
    ensures |s.repository| != |s.log| ==> Next(hash, s, step).repository == s.repository
  {
  }

  /** Once the repository is behind the snapshot it never grows again, restarts included. */
  lemma {:induction false} LaggingRepositoryIsFrozen(hash: HashFunction, s: AuditState, steps: seq<Step>)
    requires Inv(hash, s) && RunAllowed(hash, s, steps)
    requires |s.repository| < |Stored(s)|
    ensures Run(hash, s, steps).repository == s.repository
    decreases |steps|
  {
    hide EventText, NewEvent, Valid, Verified;
    if steps != [] {
      StepKeepsInv(hash, s, steps[0]);
      LaggingRepositoryIsFrozen(hash, Next(hash, s, steps[0]), steps[1..]);
    }
  }

  /** No run, whatever succeeds in it, changes the repository. */
  ghost predicate Frozen(hash: HashFunction, s: AuditState) {
    forall steps :: RunAllowed(hash, s, steps) ==> Run(hash, s, steps).repository == s.repository
  }

  /** An event with nothing in it. */
  const SOME_INPUT: AuditEventInput := AuditEventInput([], [], None, None, [], None, None, Object([]))

  /** A repository that is not behind the snapshot matches the log after a restart, so the next append takes effect. */
  lemma RestartThenAppendGrows(hash: HashFunction, s: AuditState) returns (steps: seq<Step>)
    requires Inv(hash, s) && |s.repository| >= |Stored(s)|
    ensures RunAllowed(hash, s, steps)
    ensures |Run(hash, s, steps).repository| == |s.repository| + 1
  {
    hide EventText, NewEvent, Verified;
    var s1 := Next(hash, s, Restart);
    RestartRecoversLonger(hash, s);
    var event := NewEvent(hash, s1.log, SOME_INPUT, []);
    NewEventValid(hash, s1.log, SOME_INPUT, []);
    var append := Record(SOME_INPUT, [], false, Appended(event), WriteThrew);
    assert RepositoryMatches(s1.repository, s1.log);
    assert Allowed(hash, s1, append);
    steps := [Restart, append];
    assert steps[1..] == [append] && [append][1..] == [];
    assert Run(hash, s, steps) == Run(hash, s1, [append]) == Next(hash, s1, append);
    assert RunAllowed(hash, Next(hash, s1, append), []);
    assert RunAllowed(hash, s1, [append]);
  }

  /** The repository is frozen for good exactly when it is shorter than the snapshot. */
  lemma FrozenIffLagging(hash: HashFunction, s: AuditState)
    requires Inv(hash, s)
    ensures Frozen(hash, s) <==> |s.repository| < |Stored(s)|
  {
    hide Inv, Run, RunAllowed;
    if |s.repository| < |Stored(s)| {
      forall steps | RunAllowed(hash, s, steps)
        ensures Run(hash, s, steps).repository == s.repository
      {
        LaggingRepositoryIsFrozen(hash, s, steps);
      }
    } else {
      var steps := RestartThenAppendGrows(hash, s);
      assert Run(hash, s, steps).repository != s.repository;
    }
  }

  /** One failed append with a snapshot that succeeds is enough: from a first start the repository is frozen after one event. */
  lemma OneFailedAppendFreezes(hash: HashFunction, s: AuditState, input: AuditEventInput, occurredAt: Text)
    requires Initial(hash, s) && Valid(input.payload)
    ensures var log := s.log + [NewEvent(hash, s.log, input, occurredAt)];
      var step := Record(input, occurredAt, true, AppendThrew, Written(log));
      Allowed(hash, s, step) && Inv(hash, Next(hash, s, step)) && Frozen(hash, Next(hash, s, step))
  {
    hide EventText, Verified, Frozen;
    var event := NewEvent(hash, s.log, input, occurredAt);
    var log := s.log + [event];
    var step := Record(input, occurredAt, true, AppendThrew, Written(log));
    NewEventValid(hash, s.log, input, occurredAt);
    InitialInv(hash, s);
    assert Allowed(hash, s, step);
    StepKeepsInv(hash, s, step);
    FrozenIffLagging(hash, Next(hash, s, step));
  }

  // ---------------------------------------------------------------- recovery from an arbitrary repository

  /**
    Recovery with any repository content, corrupted or not: the result extends the
    snapshot's log, is one of the two copies, and is a whole chain whenever the snapshot's is.
   */
  lemma RecoveryIsSafe(hash: HashFunction, stored: Log, repository: Log)
    ensures StartsWith(Recover(hash, stored, repository), stored)
    ensures Verified(hash, stored) ==> Verified(hash, Recover(hash, stored, repository))
    ensures Recover(hash, stored, repository) != stored ==>
      Recover(hash, stored, repository) == repository && Verified(hash, repository) && |repository| > |stored|
  {
  }
}
