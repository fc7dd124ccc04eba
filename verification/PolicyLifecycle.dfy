/**
  The life of a policy: created as a draft, validated, published, rolled back, with every
  call but validation made under an idempotency key.
 */
module PolicyLifecycle {
  import opened Wrappers
  import opened IdempotencyTable

  datatype Draft = Draft(name: string, model: string)

  datatype Status = DraftStatus | Validated | Published | RolledBack

  datatype Summary = Summary(id: string, version: string, status: Status, createdAt: string, publishedAt: Option<string>)

  datatype Policy = Policy(draft: Draft, summary: Summary, valid: Option<bool>)

  /** Twelve hexadecimal digits. */
  type ShortHash = h: string | |h| == 12 && forall c :: c in h ==> IsHexDigit(c) witness "000000000000"

  /** Lower-casing, the shortened hash of a draft and the deterministic model check. */
  datatype Environment = Environment(lower: string -> string, shortHash: Draft -> ShortHash, validModel: string -> bool)

  /** `records` is the table of idempotency scopes and the summary each one first gave. */
  datatype State = State(policies: map<string, Policy>, records: Table<Summary>)

  datatype Refusal = NotFound | NotValidated | ValidationFailed | NotPublished | VersionNotFound

  type Outcome = Result<Summary, Refusal>

  // ---------------------------------------------------------------- policy ids

  predicate IsHexDigit(c: char) {
    '0' <= c <= '9' || 'a' <= c <= 'f'
  }

  predicate IsSlugChar(c: char) {
    'a' <= c <= 'z' || '0' <= c <= '9'
  }

  function SkipOther(s: string): (r: string)
    ensures |r| <= |s|
  {
    if s != [] && !IsSlugChar(s[0]) then SkipOther(s[1..]) else s
  }

  /** Every run of other characters becomes one dash. */
  function Dashed(s: string): (r: string)
    ensures forall c :: c in r ==> IsSlugChar(c) || c == '-'
    decreases |s|
  {
    if s == [] then []
    else if IsSlugChar(s[0]) then [s[0]] + Dashed(s[1..])
    else ['-'] + Dashed(SkipOther(s[1..]))
  }

  /** A dash at either end is dropped, and an empty slug is called a draft. */
  function Slugify(lowered: string): (r: string)
    ensures r != [] && forall c :: c in r ==> IsSlugChar(c) || c == '-'
  {
    var dashed := Dashed(lowered);
    var start := if dashed != [] && dashed[0] == '-' then dashed[1..] else dashed;
    var slug := if start != [] && start[|start| - 1] == '-' then start[..|start| - 1] else start;
    if slug == [] then "draft" else slug
  }

  function PolicyId(env: Environment, draft: Draft): string {
    "policy:" + Slugify(env.lower(draft.name)) + ":" + env.shortHash(draft)
  }

  function Colons(s: string): nat {
    if s == [] then 0 else (if s[0] == ':' then 1 else 0) + Colons(s[1..])
  }

  lemma {:induction false} ColonsConcat(a: string, b: string)
    ensures Colons(a + b) == Colons(a) + Colons(b)
  {
    if a == [] {
      assert a + b == b;
    } else {
      assert (a + b)[1..] == a[1..] + b;
      ColonsConcat(a[1..], b);
    }
  }

  lemma {:induction false} NoColons(s: string)
    requires ':' !in s
    ensures Colons(s) == 0
  {
    if s != [] {
      NoColons(s[1..]);
    }
  }

  /** Slug and hash hold no colon, so every policy id holds exactly two. */
  lemma PolicyIdHasTwoColons(env: Environment, draft: Draft)
    ensures Colons(PolicyId(env, draft)) == 2
  {
    var slug, hash := Slugify(env.lower(draft.name)), env.shortHash(draft);
    NoColons(slug);
    NoColons(hash);
    NoColons("policy");
    ColonsConcat("policy", ":");
    assert "policy:" == "policy" + ":";
    ColonsConcat("policy:", slug);
    ColonsConcat("policy:" + slug, ":");
    ColonsConcat("policy:" + slug + ":", hash);
  }

  function DraftVersion(id: string): string {
    id + ":draft"
  }

  function PublishedVersion(id: string): string {
    id + ":published"
  }

  lemma VersionsDiffer(id: string)
    ensures DraftVersion(id) != PublishedVersion(id)
  {
    assert |DraftVersion(id)| == |id| + 6 && |PublishedVersion(id)| == |id| + 10;
  }

  function CreateScope(key: string): string {
    "create:" + key
  }

  function PublishScope(id: string, key: string): string {
    "publish:" + id + ":" + key
  }

  function RollbackScope(id: string, key: string): string {
    "rollback:" + id + ":" + key
  }

  function Remember(s: State, scope: string, policy: Policy): State {
    State(s.policies[policy.summary.id := policy], Put(s.records, Row(scope, None, policy.summary)))
  }

  // ---------------------------------------------------------------- the four operations

  function Create(env: Environment, s: State, draft: Draft, key: string, now: string): (State, Summary) {
    match FindById(s.records, CreateScope(key))
    case Some(row) => (s, row.record)
    case None =>
      var id := PolicyId(env, draft);
      var summary := Summary(id, DraftVersion(id), DraftStatus, now, None);
      (Remember(s, CreateScope(key), Policy(draft, summary, None)), summary)
  }

  function Validate(env: Environment, s: State, id: string): (State, Result<bool, Refusal>) {
    if id !in s.policies then (s, Err(NotFound))
    else
      var existing := s.policies[id];
      var valid := env.validModel(existing.draft.model);
      var status :=
        if valid && existing.summary.status in {DraftStatus, RolledBack, Validated} then Validated
        else if !valid && existing.summary.status == Validated then DraftStatus
        else existing.summary.status;
      (s.(policies := s.policies[existing.summary.id := Policy(existing.draft, existing.summary.(status := status), Some(valid))]), Ok(valid))
  }

  function Publish(env: Environment, s: State, id: string, key: string, now: string): (State, Outcome) {
    match FindById(s.records, PublishScope(id, key))
    case Some(row) => (s, Ok(row.record))
    case None =>
      if id !in s.policies then (s, Err(NotFound))
      else
        var prior := s.policies[id];
        if prior.summary.status != Validated then (s, Err(NotValidated))
        else if !env.validModel(prior.draft.model) then
          (s.(policies := s.policies[prior.summary.id := Policy(prior.draft, prior.summary.(status := DraftStatus), Some(false))]),
           Err(ValidationFailed))
        else
          var summary := Summary(id, PublishedVersion(id), Published, prior.summary.createdAt, Some(now));
          (Remember(s, PublishScope(id, key), Policy(prior.draft, summary, Some(true))), Ok(summary))
  }

  /** The first remembered summary of the policy with the wanted version, when that is not the current one. */
  function FindVersion(records: Table<Summary>, id: string, target: string, current: string): (r: Option<Summary>)
    ensures r.Some? ==> r.value.id == id && r.value.version == target && target != current
    ensures r.None? ==> target == current || forall row :: row in records ==> row.record.id != id || row.record.version != target
  {
    if records == [] then None
    else
      var summary := records[0].record;
      if summary.id == id && summary.version == target && summary.version != current then Some(summary)
      else FindVersion(records[1..], id, target, current)
  }

  function Rollback(env: Environment, s: State, id: string, target: string, key: string): (State, Outcome) {
    match FindById(s.records, RollbackScope(id, key))
    case Some(row) => (s, Ok(row.record))
    case None =>
      if id !in s.policies then (s, Err(NotFound))
      else
        var prior := s.policies[id];
        if prior.summary.status != Published then (s, Err(NotPublished))
        else
          match FindVersion(s.records, id, target, prior.summary.version)
          case None => (s, Err(VersionNotFound))
          case Some(found) =>
            var summary := Summary(id, found.version, RolledBack, prior.summary.createdAt, prior.summary.publishedAt);
            (Remember(s, RollbackScope(id, key), Policy(prior.draft, summary, prior.valid)), Ok(summary))
  }

  // ---------------------------------------------------------------- runs

  datatype Step =
    | CreateStep(draft: Draft, key: string, now: string)
    | ValidateStep(id: string)
    | PublishStep(id: string, key: string, now: string)
    | RollbackStep(id: string, target: string, key: string)

  function Next(env: Environment, s: State, step: Step): State {
    match step
    case CreateStep(draft, key, now) => Create(env, s, draft, key, now).0
    case ValidateStep(id) => Validate(env, s, id).0
    case PublishStep(id, key, now) => Publish(env, s, id, key, now).0
    case RollbackStep(id, target, key) => Rollback(env, s, id, target, key).0
  }

  function Run(env: Environment, s: State, steps: seq<Step>): State
    decreases |steps|
  {
    if steps == [] then s else Run(env, Next(env, s, steps[0]), steps[1..])
  }

  const EMPTY: State := State(map[], [])

  // ---------------------------------------------------------------- the invariant

  predicate PolicyOk(env: Environment, id: string, p: Policy) {
    && p.summary.id == id
    && (p.summary.status in {Validated, Published} ==> env.validModel(p.draft.model))
    && (p.summary.status == Published <==> p.summary.version == PublishedVersion(id))
    && p.summary.version in {DraftVersion(id), PublishedVersion(id)}
  }

  /** The draft version of the policy is still remembered. */
  predicate DraftRemembered(records: Table<Summary>, id: string) {
    exists i :: 0 <= i < |records| && records[i].record.id == id && records[i].record.version == DraftVersion(id)
  }

  predicate RecordOk(s: Summary) {
    s.version in {DraftVersion(s.id), PublishedVersion(s.id)}
  }

  /** A scope was written by a call for the policy its summary names. */
  ghost predicate ScopeOk(scope: string, id: string) {
    || (exists key :: scope == CreateScope(key))
    || (exists key :: scope == PublishScope(id, key))
    || (exists key :: scope == RollbackScope(id, key))
  }

  ghost predicate Inv(env: Environment, s: State) {
    && (forall id :: id in s.policies ==>
          PolicyOk(env, id, s.policies[id]) && DraftRemembered(s.records, id) && Colons(id) == 2)
    && (forall row :: row in s.records ==>
          RecordOk(row.record) && row.record.id in s.policies && ScopeOk(row.id, row.record.id))
  }

  lemma {:induction false} PutRemembers(records: Table<Summary>, row: Row<Summary>, id: string)
    requires FindById(records, row.id).None?
    ensures Put(records, row) == records + [row]
    ensures DraftRemembered(records, id) ==> DraftRemembered(records + [row], id)
  {
    if records != [] {
      assert FindById(records[1..], row.id).None?;
      PutRemembers(records[1..], row, id);
      assert records == [records[0]] + records[1..];
    }
    if DraftRemembered(records, id) {
      var i :| 0 <= i < |records| && records[i].record.id == id && records[i].record.version == DraftVersion(id);
      assert (records + [row])[i] == records[i];
    }
  }

  lemma RememberKeepsInv(env: Environment, s: State, scope: string, p: Policy)
    requires Inv(env, s) && FindById(s.records, scope).None?
    requires PolicyOk(env, p.summary.id, p)
    requires p.summary.version == DraftVersion(p.summary.id) || p.summary.id in s.policies
    requires Colons(p.summary.id) == 2 && ScopeOk(scope, p.summary.id)
    ensures Inv(env, Remember(s, scope, p))
  {
    hide PolicyOk, DraftVersion, PublishedVersion, Colons, ScopeOk, DraftRemembered;
    var row := Row(scope, None, p.summary);
    var s' := Remember(s, scope, p);
    PutRemembers(s.records, row, p.summary.id);
    assert PolicyOk(env, p.summary.id, p) ==> RecordOk(p.summary) by {
      PolicyOkMeansRecordOk(env, p);
    }
    forall id | id in s'.policies
      ensures PolicyOk(env, id, s'.policies[id]) && DraftRemembered(s'.records, id)
    {
      PutRemembers(s.records, row, id);
      if p.summary.version == DraftVersion(p.summary.id) {
        JustRemembered(s.records, row, p.summary.id);
      }
    }
  }

  lemma JustRemembered(records: Table<Summary>, row: Row<Summary>, id: string)
    requires row.record.id == id && row.record.version == DraftVersion(id)
    ensures DraftRemembered(records + [row], id)
  {
    assert (records + [row])[|records|] == row;
  }

  lemma PolicyOkMeansRecordOk(env: Environment, p: Policy)
    requires PolicyOk(env, p.summary.id, p)
    ensures RecordOk(p.summary)
  {
  }

  lemma StepKeepsInv(env: Environment, s: State, step: Step)
    requires Inv(env, s)
    ensures Inv(env, Next(env, s, step))
  {
    hide DraftVersion, PublishedVersion, DraftRemembered, Colons, PolicyId, PublishScope, CreateScope, RollbackScope;
    match step
    case CreateStep(draft, key, now) =>
      VersionsDiffer(PolicyId(env, draft));
      PolicyIdHasTwoColons(env, draft);
      if FindById(s.records, CreateScope(key)).None? {
        var id := PolicyId(env, draft);
        RememberKeepsInv(env, s, CreateScope(key), Policy(draft, Summary(id, DraftVersion(id), DraftStatus, now, None), None));
      }
    case ValidateStep(id) =>
    case PublishStep(id, key, now) =>
      if FindById(s.records, PublishScope(id, key)).None? && id in s.policies && s.policies[id].summary.status == Validated {
        RememberKeepsInv(env, s, PublishScope(id, key), Publish(env, s, id, key, now).0.policies[id]);
      }
    case RollbackStep(id, target, key) =>
      VersionsDiffer(id);
      if Rollback(env, s, id, target, key).1.Ok? && FindById(s.records, RollbackScope(id, key)).None? {
        FoundIsRemembered(s.records, id, target, s.policies[id].summary.version);
        RememberKeepsInv(env, s, RollbackScope(id, key), Rollback(env, s, id, target, key).0.policies[id]);
      }
  }

  /**
    From no policies at all: a validated or published policy has a valid model, the published
    version and the published status go together, and publishing never finds a model invalid.
   */
  lemma {:induction false} EveryRunKeepsInv(env: Environment, s: State, steps: seq<Step>)
    requires Inv(env, s)
    ensures Inv(env, Run(env, s, steps))
    ensures forall id, key, now :: Publish(env, Run(env, s, steps), id, key, now).1 != Err(ValidationFailed)
    decreases |steps|
  {
    hide Next;
    if steps != [] {
      StepKeepsInv(env, s, steps[0]);
      EveryRunKeepsInv(env, Next(env, s, steps[0]), steps[1..]);
    }
  }

  lemma EmptyInv(env: Environment)
    ensures Inv(env, EMPTY)
  {
  }

  /** A published policy can always be rolled back to its draft version, under any new key, and to nothing else. */
  lemma RollbackIff(env: Environment, s: State, id: string, target: string, key: string)
    requires Inv(env, s) && id in s.policies && s.policies[id].summary.status == Published
    requires FindById(s.records, RollbackScope(id, key)).None?
    ensures Rollback(env, s, id, target, key).1.Ok? <==> target == DraftVersion(id)
    ensures target == DraftVersion(id) ==>
      var s' := Rollback(env, s, id, target, key).0;
      var before := s.policies[id];
      s'.policies == s.policies[id := before.(summary := before.summary.(version := DraftVersion(id), status := RolledBack))]
    ensures target != DraftVersion(id) ==> Rollback(env, s, id, target, key) == (s, Err(VersionNotFound))
  {
    VersionsDiffer(id);
    hide DraftVersion, PublishedVersion;
    var found := FindVersion(s.records, id, target, s.policies[id].summary.version);
    var i :| 0 <= i < |s.records| && s.records[i].record.id == id && s.records[i].record.version == DraftVersion(id);
    assert s.records[i] in s.records;
    if found.Some? {
      FoundIsRemembered(s.records, id, target, s.policies[id].summary.version);
    }
  }

  /**
    A stored policy is published under a new key exactly when it is validated, and otherwise
    refused without a change. Publishing keeps its draft and its time of creation, and no
    other policy changes.
   */
  lemma PublishIff(env: Environment, s: State, id: string, key: string, now: string)
    requires Inv(env, s) && id in s.policies && FindById(s.records, PublishScope(id, key)).None?
    ensures var (s', r) := Publish(env, s, id, key, now);
      var before := s.policies[id];
      if before.summary.status == Validated then
        && r == Ok(before.summary.(version := PublishedVersion(id), status := Published, publishedAt := Some(now)))
        && s'.policies == s.policies[id := Policy(before.draft, r.value, Some(true))]
        && FindById(s'.records, PublishScope(id, key)) == Some(Row(PublishScope(id, key), None, r.value))
      else r == Err(NotValidated) && s' == s
  {
    hide PublishScope, DraftVersion, PublishedVersion, ScopeOk, DraftRemembered;
    var r := Publish(env, s, id, key, now).1;
    if r.Ok? {
      FindByIdAfterPut(s.records, Row(PublishScope(id, key), None, r.value), PublishScope(id, key));
    }
  }

  /**
    Validating a stored policy records the model check. A policy that is not published becomes
    validated exactly when its model is valid and otherwise keeps its status; a published one
    stays published. Nothing else changes.
   */
  lemma ValidateChangesStatus(env: Environment, s: State, id: string)
    requires Inv(env, s) && id in s.policies
    ensures var (s', r) := Validate(env, s, id);
      var before := s.policies[id];
      var valid := env.validModel(before.draft.model);
      && r == Ok(valid)
      && s' == s.(policies := s.policies[id := s'.policies[id]])
      && s'.policies[id].draft == before.draft && s'.policies[id].valid == Some(valid)
      && s'.policies[id].summary == before.summary.(status := s'.policies[id].summary.status)
      && (s'.policies[id].summary.status == Validated <==> valid && before.summary.status != Published)
      && (!valid || before.summary.status == Published ==> s'.policies[id].summary.status == before.summary.status)
  {
    hide ScopeOk, DraftRemembered, RecordOk, DraftVersion, PublishedVersion;
  }

  /** A new key stores the draft under its id, as a draft whose model nobody checked, whatever was there before. */
  lemma CreateStoresDraft(env: Environment, s: State, draft: Draft, key: string, now: string)
    requires FindById(s.records, CreateScope(key)).None?
    ensures var (s', summary) := Create(env, s, draft, key, now);
      var id := PolicyId(env, draft);
      && s'.policies == s.policies[id := Policy(draft, summary, None)]
      && summary == Summary(id, DraftVersion(id), DraftStatus, now, None)
      && FindById(s'.records, CreateScope(key)) == Some(Row(CreateScope(key), None, summary))
  {
    hide CreateScope, PolicyId, DraftVersion;
    FindByIdAfterPut(s.records, Row(CreateScope(key), None, Create(env, s, draft, key, now).1), CreateScope(key));
  }

  lemma {:induction false} FoundIsRemembered(records: Table<Summary>, id: string, target: string, current: string)
    requires FindVersion(records, id, target, current).Some?
    ensures exists row :: row in records && row.record == FindVersion(records, id, target, current).value
  {
    var summary := records[0].record;
    if summary.id == id && summary.version == target && summary.version != current {
      assert records[0] in records;
    } else {
      FoundIsRemembered(records[1..], id, target, current);
      var row :| row in records[1..] && row.record == FindVersion(records, id, target, current).value;
      assert row in records;
    }
  }

  // ---------------------------------------------------------------- every publication was validated

  /** The policy is there and validated. */
  predicate IsValidated(s: State, id: string) {
    id in s.policies && s.policies[id].summary.status == Validated
  }

  /** The step stores the policy anew: a new create of it, or a publication or rollback of it that is not a replay. */
  predicate Replaces(env: Environment, s: State, step: Step, id: string) {
    match step
    case CreateStep(draft, key, _) => PolicyId(env, draft) == id && FindById(s.records, CreateScope(key)).None?
    case ValidateStep(_) => false
    case PublishStep(i, key, now) => i == id && FindById(s.records, PublishScope(id, key)).None? && Publish(env, s, id, key, now).1.Ok?
    case RollbackStep(i, target, key) => i == id && FindById(s.records, RollbackScope(id, key)).None? && Rollback(env, s, id, target, key).1.Ok?
  }

  /** A policy becomes validated only by a validate call that finds its model valid, and stays so only with its draft and while nothing stores it anew. */
  lemma ValidatedAfterStep(env: Environment, s: State, step: Step, id: string)
    requires Inv(env, s) && IsValidated(Next(env, s, step), id)
    ensures !Replaces(env, s, step, id)
    ensures id in s.policies && Next(env, s, step).policies[id].draft == s.policies[id].draft
    ensures IsValidated(s, id) || (step == ValidateStep(id) && Validate(env, s, id).1 == Ok(true))
  {
    hide PublishScope, CreateScope, RollbackScope, PolicyId, DraftVersion, PublishedVersion, ScopeOk, DraftRemembered, Put, FindVersion;
  }

  lemma {:induction false} RunOneMore(env: Environment, s: State, steps: seq<Step>, n: nat)
    requires n < |steps|
    ensures Run(env, s, steps[..n + 1]) == Next(env, Run(env, s, steps[..n]), steps[n])
    decreases n
  {
    hide Next;
    assert steps[..n + 1][0] == steps[0] && steps[..n + 1][1..] == steps[1..][..n];
    if n == 0 {
      assert steps[..0] == [] && steps[1..][..0] == [];
    } else {
      assert steps[..n][1..] == steps[1..][..n - 1];
      RunOneMore(env, Next(env, s, steps[0]), steps[1..], n - 1);
    }
  }

  /** The state of a run from no policies after its first `n` steps. */
  function At(env: Environment, steps: seq<Step>, n: nat): State
    requires n <= |steps|
  {
    Run(env, EMPTY, steps[..n])
  }

  lemma AtNext(env: Environment, steps: seq<Step>, n: nat)
    requires n < |steps|
    ensures At(env, steps, n + 1) == Next(env, At(env, steps, n), steps[n])
    ensures Inv(env, At(env, steps, n))
  {
    RunOneMore(env, EMPTY, steps, n);
    EmptyInv(env);
    EveryRunKeepsInv(env, EMPTY, steps[..n]);
  }

  /** Validated at step `m` of a run, and the very draft that was validated then stays so up to point `n`. */
  ghost predicate ValidatedSince(env: Environment, steps: seq<Step>, m: nat, n: nat, id: string)
    requires m < n <= |steps|
  {
    && steps[m] == ValidateStep(id)
    && Validate(env, At(env, steps, m), id).1 == Ok(true)
    && (forall k :: m < k <= n ==> IsValidated(At(env, steps, k), id))
    && (forall k :: m < k < n ==> !Replaces(env, At(env, steps, k), steps[k], id))
    && At(env, steps, m).policies[id].draft == At(env, steps, n).policies[id].draft
  }

  /** One step back from a point where the policy is validated. */
  lemma ValidatedBefore(env: Environment, steps: seq<Step>, n: nat, id: string)
    requires n <= |steps| && IsValidated(At(env, steps, n), id)
    ensures n > 0
    ensures var before := At(env, steps, n - 1);
      && !Replaces(env, before, steps[n - 1], id)
      && id in before.policies && before.policies[id].draft == At(env, steps, n).policies[id].draft
      && (IsValidated(before, id) || (steps[n - 1] == ValidateStep(id) && Validate(env, before, id).1 == Ok(true)))
  {
    hide Next, Inv, Replaces, Validate;
    assert steps[..0] == [];
    if n > 0 {
      AtNext(env, steps, n - 1);
      ValidatedAfterStep(env, At(env, steps, n - 1), steps[n - 1], id);
    }
  }

  lemma {:induction false} ValidatedWasValidated(env: Environment, steps: seq<Step>, n: nat, id: string) returns (m: nat)
    requires n <= |steps| && IsValidated(At(env, steps, n), id)
    ensures m < n && ValidatedSince(env, steps, m, n, id)
  {
    hide At, Replaces, Validate;
    ValidatedBefore(env, steps, n, id);
    if IsValidated(At(env, steps, n - 1), id) {
      m := ValidatedWasValidated(env, steps, n - 1, id);
    } else {
      m := n - 1;
    }
  }

  /**
    Over every run from no policies: a publication that is not a replay follows a validate call
    that found the model valid, and between the two nothing created, published or rolled back
    that policy, so that what is published is the draft that was validated.
   */
  lemma PublicationFollowsValidation(env: Environment, steps: seq<Step>, n: nat)
    requires n < |steps| && steps[n].PublishStep?
    requires Replaces(env, At(env, steps, n), steps[n], steps[n].id)
    ensures exists m :: 0 <= m < n && ValidatedSince(env, steps, m, n, steps[n].id)
    ensures var id := steps[n].id;
      && id in At(env, steps, n).policies && id in At(env, steps, n + 1).policies
      && At(env, steps, n + 1).policies[id].draft == At(env, steps, n).policies[id].draft
  {
    var PublishStep(id, key, now) := steps[n];
    AtNext(env, steps, n);
    hide At, Inv, ValidatedSince, PublishScope;
    PublishIff(env, At(env, steps, n), id, key, now);
    var m := ValidatedWasValidated(env, steps, n, id);
  }

  // ---------------------------------------------------------------- idempotency

  /** A remembered scope is never rewritten. */
  lemma StepKeepsScope(env: Environment, s: State, step: Step, scope: string)
    requires FindById(s.records, scope).Some?
    ensures FindById(Next(env, s, step).records, scope) == FindById(s.records, scope)
  {
    hide PolicyId, DraftVersion, PublishedVersion, PublishScope, CreateScope, RollbackScope, FindVersion;
    match step
    case CreateStep(draft, key, now) =>
      FindByIdAfterPut(s.records, Row(CreateScope(key), None, Create(env, s, draft, key, now).1), scope);
    case ValidateStep(_) =>
    case PublishStep(id, key, now) =>
      var r := Publish(env, s, id, key, now).1;
      if r.Ok? {
        FindByIdAfterPut(s.records, Row(PublishScope(id, key), None, r.value), scope);
      }
    case RollbackStep(id, target, key) =>
      var r := Rollback(env, s, id, target, key).1;
      if r.Ok? {
        FindByIdAfterPut(s.records, Row(RollbackScope(id, key), None, r.value), scope);
      }
  }

  lemma {:induction false} RunKeepsScope(env: Environment, s: State, steps: seq<Step>, scope: string)
    requires FindById(s.records, scope).Some?
    ensures FindById(Run(env, s, steps).records, scope) == FindById(s.records, scope)
    decreases |steps|
  {
    hide Next;
    if steps != [] {
      StepKeepsScope(env, s, steps[0], scope);
      RunKeepsScope(env, Next(env, s, steps[0]), steps[1..], scope);
    }
  }

  /** The first summary of a key is returned for ever, whatever draft, and changes nothing. */
  lemma CreateIsReplayed(env: Environment, s: State, first: Draft, key: string, now: string, steps: seq<Step>, later: Draft, secondTime: string)
    ensures var (s1, summary) := Create(env, s, first, key, now);
      var s2 := Run(env, s1, steps);
      Create(env, s2, later, key, secondTime) == (s2, summary)
  {
    var (s1, summary) := Create(env, s, first, key, now);
    FindByIdAfterPut(s.records, Row(CreateScope(key), None, summary), CreateScope(key));
    RunKeepsScope(env, s1, steps, CreateScope(key));
  }

  lemma PublishIsReplayed(env: Environment, s: State, id: string, key: string, now: string, steps: seq<Step>, secondTime: string)
    requires Publish(env, s, id, key, now).1.Ok?
    ensures var (s1, r) := Publish(env, s, id, key, now);
      var s2 := Run(env, s1, steps);
      Publish(env, s2, id, key, secondTime) == (s2, r)
  {
    var (s1, r) := Publish(env, s, id, key, now);
    FindByIdAfterPut(s.records, Row(PublishScope(id, key), None, r.value), PublishScope(id, key));
    RunKeepsScope(env, s1, steps, PublishScope(id, key));
  }

  lemma RollbackIsReplayed(env: Environment, s: State, id: string, target: string, key: string, steps: seq<Step>, other: string)
    requires Rollback(env, s, id, target, key).1.Ok?
    ensures var (s1, r) := Rollback(env, s, id, target, key);
      var s2 := Run(env, s1, steps);
      Rollback(env, s2, id, other, key) == (s2, r)
  {
    var (s1, r) := Rollback(env, s, id, target, key);
    FindByIdAfterPut(s.records, Row(RollbackScope(id, key), None, r.value), RollbackScope(id, key));
    RunKeepsScope(env, s1, steps, RollbackScope(id, key));
  }

  // ---------------------------------------------------------------- whose scope it is

  /** Scopes of one kind are equal exactly when id and key read the same once joined by a colon. */
  lemma ScopesAreShared(id: string, key: string, id': string, key': string)
    ensures PublishScope(id, key) == PublishScope(id', key') <==> id + ":" + key == id' + ":" + key'
    ensures RollbackScope(id, key) == RollbackScope(id', key') <==> id + ":" + key == id' + ":" + key'
  {
    var x, x' := id + ":" + key, id' + ":" + key';
    assert PublishScope(id, key) == "publish:" + x && PublishScope(id', key') == "publish:" + x';
    assert PublishScope(id, key)[8..] == x && PublishScope(id', key')[8..] == x';
    assert RollbackScope(id, key) == "rollback:" + x && RollbackScope(id', key') == "rollback:" + x';
    assert RollbackScope(id, key)[9..] == x && RollbackScope(id', key')[9..] == x';
  }

  /** With as many colons in both ids the joined text tells them apart. */
  lemma JoinedIdIsShorter(id: string, key: string, id': string, key': string)
    requires id + ":" + key == id' + ":" + key' && |id| < |id'|
    ensures Colons(id) < Colons(id')
  {
    var x := id + ":" + key;
    assert x == id' + ":" + key';
    assert id' == x[..|id'|] && x[|id|] == ':' && id == x[..|id|];
    var rest := id'[|id| + 1..];
    assert id' == id + ":" + rest;
    ColonsConcat(id, ":");
    ColonsConcat(id + ":", rest);
  }

  lemma SameColonsSameCall(id: string, key: string, id': string, key': string)
    requires Colons(id) == Colons(id') && id + ":" + key == id' + ":" + key'
    ensures id == id' && key == key'
  {
    if |id| < |id'| {
      JoinedIdIsShorter(id, key, id', key');
    } else if |id'| < |id| {
      JoinedIdIsShorter(id', key', id, key);
    } else {
      var x := id + ":" + key;
      assert x == id' + ":" + key';
      assert id == x[..|id|] && id' == x[..|id|];
      assert key == x[|id| + 1..] && key' == x[|id| + 1..];
    }
  }

  /** In every reachable store, two calls for stored policies never share a scope. */
  lemma StoredPoliciesShareNoScope(env: Environment, s: State, id: string, key: string, id': string, key': string)
    requires Inv(env, s) && id in s.policies && id' in s.policies
    ensures PublishScope(id, key) == PublishScope(id', key') ==> id == id' && key == key'
    ensures RollbackScope(id, key) == RollbackScope(id', key') ==> id == id' && key == key'
  {
    hide PublishScope, RollbackScope, Colons;
    ScopesAreShared(id, key, id', key');
    if id + ":" + key == id' + ":" + key' {
      SameColonsSameCall(id, key, id', key');
    }
  }

  lemma KindsDiffer(id: string, key: string, id': string, key': string)
    ensures PublishScope(id, key) != CreateScope(key') && PublishScope(id, key) != RollbackScope(id', key')
    ensures RollbackScope(id, key) != CreateScope(key')
  {
    assert PublishScope(id, key)[0] == 'p' && CreateScope(key')[0] == 'c' && RollbackScope(id', key')[0] == 'r';
  }

  /** What a publish scope holds was published by a stored policy, under the same joined text. */
  lemma PublishScopeHasOwner(env: Environment, s: State, id: string, key: string) returns (ownKey: string)
    requires Inv(env, s) && FindById(s.records, PublishScope(id, key)).Some?
    ensures var owner := FindById(s.records, PublishScope(id, key)).value.record.id;
      owner in s.policies && owner + ":" + ownKey == id + ":" + key
  {
    hide PublishScope, RollbackScope, CreateScope, Colons, PolicyOk, DraftRemembered, RecordOk;
    var row := FindById(s.records, PublishScope(id, key)).value;
    forall k
      ensures PublishScope(id, key) != CreateScope(k) && PublishScope(id, key) != RollbackScope(row.record.id, k)
    {
      KindsDiffer(id, key, row.record.id, k);
    }
    ownKey :| row.id == PublishScope(row.record.id, ownKey);
    ScopesAreShared(row.record.id, ownKey, id, key);
  }

  /** The same for a rollback scope. */
  lemma RollbackScopeHasOwner(env: Environment, s: State, id: string, key: string) returns (ownKey: string)
    requires Inv(env, s) && FindById(s.records, RollbackScope(id, key)).Some?
    ensures var owner := FindById(s.records, RollbackScope(id, key)).value.record.id;
      owner in s.policies && owner + ":" + ownKey == id + ":" + key
  {
    hide PublishScope, RollbackScope, CreateScope, Colons, PolicyOk, DraftRemembered, RecordOk;
    var row := FindById(s.records, RollbackScope(id, key)).value;
    forall k
      ensures RollbackScope(id, key) != CreateScope(k) && RollbackScope(id, key) != PublishScope(row.record.id, k)
    {
      KindsDiffer(id, key, "", k);
      KindsDiffer(row.record.id, k, id, key);
    }
    ownKey :| row.id == RollbackScope(row.record.id, ownKey);
    ScopesAreShared(row.record.id, ownKey, id, key);
  }

  /** A stored policy is only ever answered with its own summary. */
  lemma StoredPolicyGetsItsOwn(env: Environment, s: State, id: string, key: string, now: string, target: string)
    requires Inv(env, s) && id in s.policies
    ensures var r := Publish(env, s, id, key, now).1;
      r.Ok? ==> r.value.id == id && r.value.version in {DraftVersion(id), PublishedVersion(id)}
    ensures var r := Rollback(env, s, id, target, key).1;
      r.Ok? ==> r.value.id == id && r.value.version in {DraftVersion(id), PublishedVersion(id)}
  {
    hide PublishScope, RollbackScope, Colons, DraftVersion, PublishedVersion, ScopeOk;
    if FindById(s.records, PublishScope(id, key)).Some? {
      var ownKey := PublishScopeHasOwner(env, s, id, key);
      SameColonsSameCall(FindById(s.records, PublishScope(id, key)).value.record.id, ownKey, id, key);
    }
    if FindById(s.records, RollbackScope(id, key)).Some? {
      var ownKey := RollbackScopeHasOwner(env, s, id, key);
      SameColonsSameCall(FindById(s.records, RollbackScope(id, key)).value.record.id, ownKey, id, key);
    } else if Rollback(env, s, id, target, key).1.Ok? {
      FoundIsRemembered(s.records, id, target, s.policies[id].summary.version);
    }
  }

  /** The key under which policy `id` was published. */
  ghost predicate PublishedUnder(s: State, id: string, key: string) {
    id in s.policies && FindById(s.records, PublishScope(id, key)).Some?
  }

  /** The key under which policy `id` was rolled back. */
  ghost predicate RolledBackUnder(s: State, id: string, key: string) {
    id in s.policies && FindById(s.records, RollbackScope(id, key)).Some?
  }

  /** The two calls read the same once id and key are joined. */
  predicate ReadTheSame(id: string, key: string, id': string, key': string) {
    id + ":" + key == id' + ":" + key'
  }

  /**
    A publish call for an id the store does not hold is answered, instead of refused, exactly
    when some stored policy was published under a key that makes the two calls read the same;
    it then gets that policy's summary. Nothing changes either way.
   */
  lemma UnknownPolicyIsAnsweredIff(env: Environment, s: State, id: string, key: string, now: string)
    requires Inv(env, s) && id !in s.policies
    ensures var (s', r) := Publish(env, s, id, key, now);
      && s' == s
      && (r.Ok? <==> exists owner, ownKey :: PublishedUnder(s, owner, ownKey) && ReadTheSame(owner, ownKey, id, key))
      && (r.Ok? ==> r.value.id in s.policies && r.value.id != id)
      && (r.Err? ==> r.error == NotFound)
  {
    hide PublishScope, RollbackScope, CreateScope, Colons;
    var found := FindById(s.records, PublishScope(id, key));
    if found.Some? {
      var ownKey := PublishScopeHasOwner(env, s, id, key);
      ScopesAreShared(found.value.record.id, ownKey, id, key);
      assert PublishedUnder(s, found.value.record.id, ownKey) && ReadTheSame(found.value.record.id, ownKey, id, key);
    }
    forall owner, ownKey | PublishedUnder(s, owner, ownKey) && ReadTheSame(owner, ownKey, id, key)
      ensures found.Some?
    {
      ScopesAreShared(owner, ownKey, id, key);
    }
  }

  /** The same for a rollback call. */
  lemma UnknownPolicyIsRolledBackIff(env: Environment, s: State, id: string, target: string, key: string)
    requires Inv(env, s) && id !in s.policies
    ensures var (s', r) := Rollback(env, s, id, target, key);
      && s' == s
      && (r.Ok? <==> exists owner, ownKey :: RolledBackUnder(s, owner, ownKey) && ReadTheSame(owner, ownKey, id, key))
      && (r.Ok? ==> r.value.id in s.policies && r.value.id != id)
      && (r.Err? ==> r.error == NotFound)
  {
    hide PublishScope, RollbackScope, CreateScope, Colons;
    var found := FindById(s.records, RollbackScope(id, key));
    if found.Some? {
      var ownKey := RollbackScopeHasOwner(env, s, id, key);
      ScopesAreShared(found.value.record.id, ownKey, id, key);
      assert RolledBackUnder(s, found.value.record.id, ownKey) && ReadTheSame(found.value.record.id, ownKey, id, key);
    }
    forall owner, ownKey | RolledBackUnder(s, owner, ownKey) && ReadTheSame(owner, ownKey, id, key)
      ensures found.Some?
    {
      ScopesAreShared(owner, ownKey, id, key);
    }
  }

  const CREATE_KEY: string := "create-1"

  /** A fresh store with one policy, created, validated and published. */
  function OnePublished(env: Environment, draft: Draft, key: string): (State, Outcome) {
    var s1 := Create(env, EMPTY, draft, CREATE_KEY, "t").0;
    Publish(env, Validate(env, s1, PolicyId(env, draft)).0, PolicyId(env, draft), key, "t")
  }

  lemma OnePublishedHolds(env: Environment, draft: Draft, key: string)
    requires env.validModel(draft.model)
    ensures var (s, r) := OnePublished(env, draft, key);
      && r.Ok? && r.value.id == PolicyId(env, draft)
      && s.policies.Keys == {PolicyId(env, draft)}
      && FindById(s.records, PublishScope(PolicyId(env, draft), key)).Some?
  {
    var id := PolicyId(env, draft);
    var s1 := Create(env, EMPTY, draft, CREATE_KEY, "t").0;
    assert s1.policies[id].summary.status == DraftStatus && s1.policies[id].draft == draft;
    var s2 := Validate(env, s1, id).0;
    assert s2.policies[id].summary.status == Validated && s2.policies.Keys == {id};
    hide PublishScope, CreateScope, PolicyId;
    KindsDiffer(id, key, "", CREATE_KEY);
    assert FindById(s2.records, PublishScope(id, key)).None?;
    FindByIdAfterPut(s2.records, Row(PublishScope(id, key), None, OnePublished(env, draft, key).1.value), PublishScope(id, key));
  }

  /** It does happen, for every other id that makes the calls read the same. */
  lemma KeyReadAsId(env: Environment, draft: Draft, ownKey: string, id: string, key: string)
    requires env.validModel(draft.model)
    requires ReadTheSame(PolicyId(env, draft), ownKey, id, key) && id != PolicyId(env, draft)
    ensures var s := OnePublished(env, draft, ownKey).0;
      && id !in s.policies
      && Publish(env, s, id, key, "t").1.Ok?
      && Publish(env, s, id, key, "t").1.value.id == PolicyId(env, draft)
  {
    hide PublishScope, OnePublished, PolicyId, Inv, Publish, ReadTheSame;
    OnePublishedHolds(env, draft, ownKey);
    OnePublishedIsReachable(env, draft, ownKey);
    UnknownPolicyIsAnsweredIff(env, OnePublished(env, draft, ownKey).0, id, key, "t");
    assert PublishedUnder(OnePublished(env, draft, ownKey).0, PolicyId(env, draft), ownKey);
  }

  lemma Rejoined(id: string, x: string, key: string)
    ensures ReadTheSame(id, x + ":" + key, id + ":" + x, key)
    ensures id + ":" + x != id
  {
    assert id + ":" + (x + ":" + key) == id + ":" + x + ":" + key;
    assert |id + ":" + x| > |id|;
  }

  const STORED_ID: string := "policy:a:0123456789ab"
  const KEY: string := "publish-1"

  function ExampleEnvironment(): Environment {
    Environment(name => name, draft => "0123456789ab", model => true)
  }

  lemma ExampleId()
    ensures PolicyId(ExampleEnvironment(), Draft("a", "model")) == STORED_ID
  {
    assert Slugify("a") == "a" by {
      assert "a"[1..] == "";
      assert Dashed("a") == ['a'] + "" == "a";
    }
    assert "policy:" + "a" + ":" + "0123456789ab" == "policy:a:0123456789ab";
  }

  /** One such pair: `policy:a:0123456789ab` was published under `x:publish-1`, and the id `policy:a:0123456789ab:x` is published under `publish-1`. */
  lemma UnknownPolicyIsAnswered()
    ensures var env := ExampleEnvironment();
      var s := OnePublished(env, Draft("a", "model"), "x:" + KEY).0;
      var id := STORED_ID + ":x";
      && id !in s.policies
      && Publish(env, s, id, KEY, "t").1.Ok?
      && Publish(env, s, id, KEY, "t").1.value.id == STORED_ID
  {
    ExampleId();
    hide OnePublished, PolicyId, Publish, ReadTheSame;
    Rejoined(STORED_ID, "x", KEY);
    assert "x" + ":" == "x:";
    assert STORED_ID + ":" + "x" == STORED_ID + ":x";
    KeyReadAsId(ExampleEnvironment(), Draft("a", "model"), "x:" + KEY, STORED_ID + ":x", KEY);
  }

  lemma OnePublishedIsReachable(env: Environment, draft: Draft, key: string)
    ensures Inv(env, OnePublished(env, draft, key).0)
  {
    hide Inv;
    var id := PolicyId(env, draft);
    EmptyInv(env);
    StepKeepsInv(env, EMPTY, CreateStep(draft, CREATE_KEY, "t"));
    var s1 := Next(env, EMPTY, CreateStep(draft, CREATE_KEY, "t"));
    StepKeepsInv(env, s1, ValidateStep(id));
    StepKeepsInv(env, Next(env, s1, ValidateStep(id)), PublishStep(id, key, "t"));
  }

  // ---------------------------------------------------------------- the running program

  class PolicyStore {
    const env: Environment
    var policies: map<string, Policy>
    var records: Table<Summary>

    ghost predicate Valid()
      reads this
    {
      Inv(env, Contents())
    }

    constructor (env: Environment)
      ensures Valid() && this.env == env && Contents() == EMPTY
    {
      this.env, policies, records := env, map[], [];
    }

    ghost function Contents(): State
      reads this
    {
      State(policies, records)
    }

    /** The first summary of a key is remembered; a call that does not create changes nothing. */
    method CreatePolicy(draft: Draft, key: string, now: string) returns (summary: Summary)
      requires Valid()
      modifies this
      ensures Valid() && summary.id in policies
      ensures FindById(records, CreateScope(key)) == Some(Row(CreateScope(key), None, summary))
        || (old(FindById(records, CreateScope(key))).Some? && Contents() == old(Contents()))
      ensures (Contents(), summary) == Create(env, old(Contents()), draft, key, now)
    {
      StepKeepsInv(env, Contents(), CreateStep(draft, key, now));
      hide Inv, CreateScope;
      var existing := FindById(records, CreateScope(key));
      if existing.Some? {
        return existing.value.record;
      }
      var id := PolicyId(env, draft);
      summary := Summary(id, DraftVersion(id), DraftStatus, now, None);
      policies := policies[id := Policy(draft, summary, None)];
      records := Put(records, Row(CreateScope(key), None, summary));
    }

    method ValidatePolicy(id: string) returns (r: Result<bool, Refusal>)
      requires Valid()
      modifies `policies
      ensures Valid()
      ensures r == if id !in old(policies) then Err(NotFound) else Ok(env.validModel(old(policies)[id].draft.model))
      ensures r == Ok(true) ==> policies[id].summary.status in {Validated, Published}
      ensures (Contents(), r) == Validate(env, old(Contents()), id)
    {
      StepKeepsInv(env, Contents(), ValidateStep(id));
      if id !in policies {
        return Err(NotFound);
      }
      var existing := policies[id];
      var valid := env.validModel(existing.draft.model);
      var summary := existing.summary;
      if valid && summary.status in {DraftStatus, RolledBack, Validated} {
        summary := summary.(status := Validated);
      } else if !valid && summary.status == Validated {
        summary := summary.(status := DraftStatus);
      }
      policies := policies[summary.id := Policy(existing.draft, summary, Some(valid))];
      return Ok(valid);
    }

    /** What is published has a valid model; a stored policy gets its own summary, and the same one for ever. */
    method PublishPolicy(id: string, key: string, now: string) returns (r: Outcome)
      requires Valid()
      modifies this
      ensures Valid()
      ensures r.Ok? && id in policies ==> r.value.id == id && r.value.version in {DraftVersion(id), PublishedVersion(id)}
      ensures r.Ok? && Contents() != old(Contents()) ==>
        old(IsValidated(Contents(), id)) &&
        id in policies && policies[id].summary == r.value && r.value.status == Published && env.validModel(policies[id].draft.model)
      ensures (Contents(), r) == Publish(env, old(Contents()), id, key, now)
    {
      hide Inv;
      StepKeepsInv(env, Contents(), PublishStep(id, key, now));
      if id in policies {
        StoredPolicyGetsItsOwn(env, Contents(), id, key, now, "");
      }
      hide PublishScope, DraftVersion, PublishedVersion;
      var scope := PublishScope(id, key);
      var existing := FindById(records, scope);
      if existing.Some? {
        return Ok(existing.value.record);
      }
      if id !in policies {
        return Err(NotFound);
      }
      var prior := policies[id];
      if prior.summary.status != Validated {
        return Err(NotValidated);
      }
      if !env.validModel(prior.draft.model) {
        policies := policies[prior.summary.id := Policy(prior.draft, prior.summary.(status := DraftStatus), Some(false))];
        return Err(ValidationFailed);
      }
      var summary := Summary(id, PublishedVersion(id), Published, prior.summary.createdAt, Some(now));
      policies := policies[id := Policy(prior.draft, summary, Some(true))];
      records := Put(records, Row(scope, None, summary));
      return Ok(summary);
    }

    /** A published policy goes back to its draft version under a new key, and nowhere else; a stored policy gets its own summary. */
    method RollbackPolicy(id: string, target: string, key: string) returns (r: Outcome)
      requires Valid()
      modifies this
      ensures Valid()
      ensures old(id in policies && policies[id].summary.status == Published && FindById(records, RollbackScope(id, key)).None?) ==>
        (r.Ok? <==> target == DraftVersion(id))
      ensures r.Ok? && id in policies ==> r.value.id == id && r.value.version in {DraftVersion(id), PublishedVersion(id)}
      ensures (Contents(), r) == Rollback(env, old(Contents()), id, target, key)
    {
      hide Inv, RollbackScope, DraftVersion, PublishedVersion;
      StepKeepsInv(env, Contents(), RollbackStep(id, target, key));
      if id in policies {
        StoredPolicyGetsItsOwn(env, Contents(), id, key, "", target);
        if policies[id].summary.status == Published && FindById(records, RollbackScope(id, key)).None? {
          RollbackIff(env, Contents(), id, target, key);
        }
      }
      var scope := RollbackScope(id, key);
      var existing := FindById(records, scope);
      if existing.Some? {
        return Ok(existing.value.record);
      }
      if id !in policies {
        return Err(NotFound);
      }
      var prior := policies[id];
      if prior.summary.status != Published {
        return Err(NotPublished);
      }
      var found := FindVersion(records, id, target, prior.summary.version);
      if found.None? {
        return Err(VersionNotFound);
      }
      var summary := Summary(id, found.value.version, RolledBack, prior.summary.createdAt, prior.summary.publishedAt);
      policies := policies[id := Policy(prior.draft, summary, prior.valid)];
      records := Put(records, Row(scope, None, summary));
      return Ok(summary);
    }
  }
}
