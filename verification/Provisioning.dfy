/**
  Provisioning plans and jobs: creating them under idempotency keys, and running enforcement
  jobs against a connector that may answer anything or throw. One call is one step.
 */
module Provisioning {
  import opened Wrappers
  import opened Enforcement
  import opened IdempotencyTable

  datatype JobStatus = JobCompleted | JobFailed
  datatype ResultStatus = ActionSkipped | ActionApplied | ActionFailed

  datatype ActionResult = ActionResult(actionId: string, operation: string, status: ResultStatus, dryRun: bool)

  datatype Job = Job(
    id: string,
    planId: string,
    connectorId: string,
    mode: Mode,
    status: JobStatus,
    approverId: string,
    idempotencyKey: string,
    results: seq<ActionResult>,
    verified: bool,
    approval: Option<Approval>,
    control: Option<Control>,
    startedAt: string,
    completedAt: string)

  /** One call of a connector's apply operation, with what the program knew when it made it. */
  datatype ApplyCall = ApplyCall(key: string, plan: Plan, connector: Connector, report: Report, approval: Approval, control: Control, now: string)

  datatype State = State(
    connectors: map<string, Connector>,
    reports: map<string, Report>,
    plans: Table<Plan>,
    jobs: Table<Job>,
    applies: seq<ApplyCall>)

  /** An empty key is no key. */
  function Truthy(key: Option<string>): Option<string> {
    if key == Some("") then None else key
  }

  function PlanRow(p: Plan): Row<Plan> {
    Row(p.id, Truthy(p.idempotencyKey), p)
  }

  function JobRow(j: Job): Row<Job> {
    Row(j.id, Some(j.idempotencyKey), j)
  }

  // ---------------------------------------------------------------- plans

  datatype PlanRequest =
    | ForDecision(subjectId: string, resourceId: string, action: string)
    | ForRevocation(nativeGrantId: string)

  datatype PlanCall = PlanCall(connectorId: string, request: PlanRequest, options: Options, key: Option<string>)

  datatype PlanReply = PlanThrew | PlanReturned(plan: Plan)

  predicate Revokes(a: Action, nativeGrantId: string) {
    a.operation == "revoke" && a.nativeGrantId == Some(nativeGrantId)
  }

  predicate FitsRequest(p: Plan, request: PlanRequest) {
    match request
    case ForDecision(subjectId, resourceId, action) =>
      p.subjectId == subjectId && p.resourceId == resourceId && p.action == action
    case ForRevocation(nativeGrantId) =>
      exists i :: 0 <= i < |p.actions| && Revokes(p.actions[i], nativeGrantId)
  }

  function NormalizeApprovalForReplay(a: Option<Approval>, request: PlanRequest): Option<Approval> {
    if a.Some? && request.ForRevocation? then Some(a.value.(approvedAt := "idempotency-replay-normalized")) else a
  }

  predicate PlanMatches(p: Plan, call: PlanCall) {
    && p.connectorId == call.connectorId
    && FitsRequest(p, call.request)
    && p.mode == ValueOr(call.options.mode, DryRun)
    && NormalizeApprovalForReplay(p.approval, call.request) == NormalizeApprovalForReplay(call.options.approval, call.request)
    && p.control == call.options.control
    && p.readinessReportId == call.options.readinessReportId
  }

  function ExistingPlan(s: State, key: Option<string>): Option<Row<Plan>> {
    match Truthy(key)
    case Some(k) => FindByKey(s.plans, k)
    case None => None
  }

  /** The plan a call stores, when it gets that far. */
  function PreparedPlan(env: Environment, s: State, call: PlanCall, reply: PlanReply, now: string): Result<Plan, Refusal>
    requires call.connectorId in s.connectors
  {
    match reply
    case PlanThrew => Err(ConnectorFailed)
    case PlanReturned(p) =>
      match PrepareProvisioningPlanForExecution(env, s.reports, s.connectors[call.connectorId],
                                                p.(connectorId := call.connectorId), call.options, now)
      case Ok(prepared) => Ok(prepared.(idempotencyKey := call.key))
      case Err(e) => Err(e)
  }

  function CreatePlan(env: Environment, s: State, call: PlanCall, reply: PlanReply, now: string): (State, Result<Plan, Refusal>) {
    if call.connectorId !in s.connectors then (s, Err(UnknownConnector))
    else
      match ExistingPlan(s, call.key)
      case Some(row) => (s, if PlanMatches(row.record, call) then Ok(row.record) else Err(KeyReused))
      case None =>
        match PreparedPlan(env, s, call, reply, now)
        case Err(e) => (s, Err(e))
        case Ok(plan) => (s.(plans := Put(s.plans, PlanRow(plan))), Ok(plan))
  }

  // ---------------------------------------------------------------- jobs

  datatype JobCall = JobCall(
    planId: string,
    approverId: string,
    key: string,
    mode: Option<Mode>,
    approval: Option<Approval>,
    control: Option<Control>)

  datatype ApplyReply = ApplyThrew | ApplyReturned(applied: bool)
  datatype VerifyReply = VerifyThrew | VerifyReturned(verified: bool)
  datatype JobReply = JobReply(apply: ApplyReply, verify: VerifyReply)

  datatype Clock = Clock(startedAt: string, guardNow: string, completedAt: string)

  function Results(actions: seq<Action>, status: ResultStatus, dryRun: bool): seq<ActionResult> {
    seq(|actions|, i requires 0 <= i < |actions| => ActionResult(actions[i].actionId, actions[i].operation, status, dryRun))
  }

  function DryRunJob(env: Environment, plan: Plan, call: JobCall, verified: bool, clock: Clock): Job {
    Job(env.jobId(call.planId, call.key), plan.id, plan.connectorId, DryRun, JobCompleted, call.approverId, call.key,
        Results(plan.actions, ActionSkipped, true), verified, None, None, clock.startedAt, clock.completedAt)
  }

  function EnforcementJob(env: Environment, plan: Plan, call: JobCall, completed: bool, verified: bool, clock: Clock): Job {
    Job(env.jobId(call.planId, call.key), plan.id, plan.connectorId, Enforce,
        if completed then JobCompleted else JobFailed, call.approverId, call.key,
        Results(plan.actions, if completed then ActionApplied else ActionFailed, false), verified,
        OrElse(call.approval, plan.approval), OrElse(call.control, plan.control), clock.startedAt, clock.completedAt)
  }

  /** The three guards of an enforcement job. */
  function EnforcementRefusal(env: Environment, s: State, c: Connector, plan: Plan, call: JobCall, now: string): Option<Refusal> {
    var approval := OrElse(call.approval, plan.approval);
    var control := OrElse(call.control, plan.control);
    var mismatch := AssertJobControlsMatchPlan(plan, call.approval, call.control);
    if mismatch.Some? then mismatch
    else
      var allowed := AssertControlledEnforcementAllowed(env, c, approval, control, Some(call.approverId), now);
      if allowed.Some? then allowed
      else AssertEnforcementReadiness(env, s.reports, c, plan.connectorId, plan.readinessReportId, approval, control)
  }

  function TheApplyCall(env: Environment, s: State, c: Connector, plan: Plan, call: JobCall, now: string): ApplyCall
    requires EnforcementRefusal(env, s, c, plan, call, now) == None
  {
    ApplyCall(call.key, plan, c, s.reports[plan.readinessReportId.value], OrElse(call.approval, plan.approval).value,
              OrElse(call.control, plan.control).value, now)
  }

  function ExecuteEnforcementJob(env: Environment, s: State, c: Connector, plan: Plan, call: JobCall, reply: JobReply, clock: Clock):
      (State, Result<Option<Job>, Refusal>) {
    var refusal := EnforcementRefusal(env, s, c, plan, call, clock.guardNow);
    if refusal.Some? then (s, Err(refusal.value))
    else
      var s1 := s.(applies := s.applies + [TheApplyCall(env, s, c, plan, call, clock.guardNow)]);
      if reply.apply.ApplyThrew? || reply.verify.VerifyThrew? then (s1, Err(ConnectorFailed))
      else
        var completed := reply.apply.applied && reply.verify.verified;
        var updated := plan.(status := if completed then Applied else Failed, updatedAt := Some(clock.completedAt));
        var job := EnforcementJob(env, plan, call, completed, reply.verify.verified, clock);
        (s1.(plans := Put(s.plans, PlanRow(updated)), jobs := Put(s.jobs, JobRow(job))), Ok(Some(job)))
  }

  function CreateJob(env: Environment, s: State, call: JobCall, reply: JobReply, clock: Clock): (State, Result<Option<Job>, Refusal>) {
    match FindByKey(s.jobs, call.key)
    case Some(row) =>
      (s, if row.record.planId == call.planId && row.record.approverId == call.approverId then Ok(Some(row.record)) else Err(KeyReused))
    case None =>
      match FindById(s.plans, call.planId)
      case None => (s, Ok(None))
      case Some(row) =>
        var plan := row.record;
        if plan.connectorId !in s.connectors then (s, Err(UnknownConnector))
        else if ValueOr(call.mode, plan.mode) != plan.mode then (s, Err(ModeMismatch))
        else if plan.mode == Enforce then ExecuteEnforcementJob(env, s, s.connectors[plan.connectorId], plan, call, reply, clock)
        else if reply.verify.VerifyThrew? then (s, Err(ConnectorFailed))
        else
          var job := DryRunJob(env, plan, call, reply.verify.verified, clock);
          (s.(jobs := Put(s.jobs, JobRow(job))), Ok(Some(job)))
  }

  // ---------------------------------------------------------------- runs

  datatype Step =
    | Register(connectors: map<string, Connector>)
    | CheckReadiness(connectorId: string, control: Control, pattern: Option<string>, reportId: string, probe: Probe)
    | PlanStep(planCall: PlanCall, planReply: PlanReply, now: string)
    | JobStep(jobCall: JobCall, jobReply: JobReply, clock: Clock)

  /** Recording a report throws when its id is taken. */
  function Check(s: State, connectorId: string, control: Control, pattern: Option<string>, reportId: string, probe: Probe):
      (State, Result<Report, Refusal>) {
    if connectorId !in s.connectors then (s, Err(UnknownConnector))
    else
      var r := ReadinessReport(reportId, connectorId, s.connectors[connectorId], control, pattern, probe);
      if reportId in s.reports then (s, Err(AlreadyRecorded)) else (s.(reports := s.reports[reportId := r]), Ok(r))
  }

  function Next(env: Environment, s: State, step: Step): State {
    match step
    case Register(connectors) => s.(connectors := connectors)
    case CheckReadiness(connectorId, control, pattern, reportId, probe) => Check(s, connectorId, control, pattern, reportId, probe).0
    case PlanStep(call, reply, now) => CreatePlan(env, s, call, reply, now).0
    case JobStep(call, reply, clock) => CreateJob(env, s, call, reply, clock).0
  }

  function Run(env: Environment, s: State, steps: seq<Step>): State
    decreases |steps|
  {
    if steps == [] then s else Run(env, Next(env, s, steps[0]), steps[1..])
  }

  // ---------------------------------------------------------------- invariant

  predicate PlanRowOk(row: Row<Plan>) {
    && row == PlanRow(row.record)
    && (row.record.mode == Enforce ==> row.record.approval.Some? && row.record.control.Some?)
  }

  predicate JobRowOk(env: Environment, row: Row<Job>) {
    row == JobRow(row.record) && row.id == env.jobId(row.record.planId, row.record.idempotencyKey)
  }

  /** The call was authorised when it was made, by the plan's own approval and control. */
  predicate ApplyOk(env: Environment, c: ApplyCall) {
    && c.plan.mode == Enforce
    && c.plan.approval == Some(c.approval) && c.plan.control == Some(c.control)
    && c.plan.readinessReportId == Some(c.report.id)
    && Vouches(c.report)
    && Authorised(env, c.connector, c.plan.connectorId, c.report, c.approval, c.control, c.now)
  }

  ghost predicate Inv(env: Environment, s: State) {
    && WellFormed(s.plans) && (forall row :: row in s.plans ==> PlanRowOk(row))
    && WellFormed(s.jobs) && (forall row :: row in s.jobs ==> JobRowOk(env, row))
    && (forall id :: id in s.reports ==> s.reports[id].id == id && Vouches(s.reports[id]))
    && (forall c :: c in s.applies ==> ApplyOk(env, c))
  }

  lemma InitialInv(env: Environment, connectors: map<string, Connector>)
    ensures Inv(env, State(connectors, map[], [], [], []))
  {
  }

  lemma PlanStepKeepsInv(env: Environment, s: State, call: PlanCall, reply: PlanReply, now: string)
    requires Inv(env, s)
    ensures Inv(env, CreatePlan(env, s, call, reply, now).0)
  {
    hide Authorised, AssertEnforcementReadiness, PlanMatches;
    if call.connectorId in s.connectors && ExistingPlan(s, call.key).None? && PreparedPlan(env, s, call, reply, now).Ok? {
      var plan := PreparedPlan(env, s, call, reply, now).value;
      PutKeepsWellFormed(s.plans, PlanRow(plan));
    }
  }

  /** An authorised enforcement: the guards pass exactly then. */
  lemma RefusalMeansUnauthorised(env: Environment, s: State, c: Connector, plan: Plan, call: JobCall, now: string)
    ensures EnforcementRefusal(env, s, c, plan, call, now) == None <==> MayEnforce(env, s, c, plan, call, now)
  {
    GuardsMeanAuthorised(env, s.reports, c, plan.connectorId, plan.readinessReportId,
                         OrElse(call.approval, plan.approval), OrElse(call.control, plan.control), Some(call.approverId), now);
    hide Authorised, AssertEnforcementReadiness, AssertControlledEnforcementAllowed;
  }

  predicate MayEnforce(env: Environment, s: State, c: Connector, plan: Plan, call: JobCall, now: string) {
    var approval := OrElse(call.approval, plan.approval);
    var control := OrElse(call.control, plan.control);
    && (call.approval.Some? && plan.approval.Some? ==> call.approval == plan.approval)
    && (call.control.Some? && plan.control.Some? ==> call.control == plan.control)
    && approval.Some? && control.Some?
    && (call.approverId != "" ==> approval.value.approverId == call.approverId)
    && plan.readinessReportId.Some? && plan.readinessReportId.value != "" && plan.readinessReportId.value in s.reports
    && Authorised(env, c, plan.connectorId, s.reports[plan.readinessReportId.value], approval.value, control.value, now)
  }

  lemma NewApplyIsAuthorised(env: Environment, s: State, c: Connector, row: Row<Plan>, call: JobCall, now: string)
    requires Inv(env, s) && row in s.plans && row.record.mode == Enforce
    requires EnforcementRefusal(env, s, c, row.record, call, now) == None
    ensures ApplyOk(env, TheApplyCall(env, s, c, row.record, call, now))
  {
    RefusalMeansUnauthorised(env, s, c, row.record, call, now);
    hide Authorised, EnforcementRefusal;
  }

  lemma PutPlanUpdate(plans: Table<Plan>, row: Row<Plan>, status: PlanStatus, at: string)
    requires WellFormed(plans) && (forall x :: x in plans ==> PlanRowOk(x)) && row in plans
    ensures var updated := PlanRow(row.record.(status := status, updatedAt := Some(at)));
      && MayStore(plans, updated)
      && WellFormed(Put(plans, updated)) && (forall x :: x in Put(plans, updated) ==> PlanRowOk(x))
  {
    var updated := PlanRow(row.record.(status := status, updatedAt := Some(at)));
    PutKeepsWellFormed(plans, updated);
  }

  lemma EnforceKeepsInv(env: Environment, s: State, c: Connector, row: Row<Plan>, call: JobCall, reply: JobReply, clock: Clock)
    requires Inv(env, s) && FindByKey(s.jobs, call.key).None? && row in s.plans && row.id == call.planId && row.record.mode == Enforce
    ensures Inv(env, ExecuteEnforcementJob(env, s, c, row.record, call, reply, clock).0)
  {
    var plan := row.record;
    if EnforcementRefusal(env, s, c, plan, call, clock.guardNow) == None {
      NewApplyIsAuthorised(env, s, c, row, call, clock.guardNow);
      hide EnforcementRefusal, ApplyOk, TheApplyCall;
      if !reply.apply.ApplyThrew? && !reply.verify.VerifyThrew? {
        var completed := reply.apply.applied && reply.verify.verified;
        PutPlanUpdate(s.plans, row, if completed then Applied else Failed, clock.completedAt);
        var job := EnforcementJob(env, plan, call, completed, reply.verify.verified, clock);
        PutKeepsWellFormed(s.jobs, JobRow(job));
      }
    }
  }

  lemma JobStepKeepsInv(env: Environment, s: State, call: JobCall, reply: JobReply, clock: Clock)
    requires Inv(env, s)
    ensures Inv(env, CreateJob(env, s, call, reply, clock).0)
  {
    if FindByKey(s.jobs, call.key).None? && FindById(s.plans, call.planId).Some? {
      var row := FindById(s.plans, call.planId).value;
      if row.record.mode == Enforce {
        if row.record.connectorId in s.connectors {
          EnforceKeepsInv(env, s, s.connectors[row.record.connectorId], row, call, reply, clock);
        }
        hide ExecuteEnforcementJob, Inv;
      } else if !reply.verify.VerifyThrew? {
        hide ApplyOk, Vouches;
        PutKeepsWellFormed(s.jobs, JobRow(DryRunJob(env, row.record, call, reply.verify.verified, clock)));
      }
    }
  }

  lemma StepKeepsInv(env: Environment, s: State, step: Step)
    requires Inv(env, s)
    ensures Inv(env, Next(env, s, step))
  {
    match step
    case Register(_) =>
    case CheckReadiness(connectorId, control, pattern, reportId, probe) =>
      if connectorId in s.connectors {
        ReadyIff(reportId, connectorId, s.connectors[connectorId], control, pattern, probe);
      }
    case PlanStep(call, reply, now) => PlanStepKeepsInv(env, s, call, reply, now);
    case JobStep(call, reply, clock) => JobStepKeepsInv(env, s, call, reply, clock);
  }

  /** Over every run, every apply call was made with an authorised enforcement plan. */
  lemma {:induction false} EveryApplyIsAuthorised(env: Environment, s: State, steps: seq<Step>)
    requires Inv(env, s)
    ensures Inv(env, Run(env, s, steps))
    ensures forall c :: c in Run(env, s, steps).applies ==> ApplyOk(env, c)
    decreases |steps|
  {
    hide Next, ApplyOk;
    if steps != [] {
      StepKeepsInv(env, s, steps[0]);
      EveryApplyIsAuthorised(env, Next(env, s, steps[0]), steps[1..]);
    }
  }

  /** When a job call reaches the connector's apply operation, exactly. */
  lemma AppliesIff(env: Environment, s: State, call: JobCall, reply: JobReply, clock: Clock)
    ensures var s' := CreateJob(env, s, call, reply, clock).0;
      var found := FindById(s.plans, call.planId);
      (s'.applies != s.applies) <==>
      (FindByKey(s.jobs, call.key).None? && found.Some?
       && found.value.record.connectorId in s.connectors
       && found.value.record.mode == Enforce && call.mode != Some(DryRun)
       && MayEnforce(env, s, s.connectors[found.value.record.connectorId], found.value.record, call, clock.guardNow))
  {
    hide MayEnforce, EnforcementRefusal, TheApplyCall;
    var found := FindById(s.plans, call.planId);
    if found.Some? && found.value.record.connectorId in s.connectors {
      RefusalMeansUnauthorised(env, s, s.connectors[found.value.record.connectorId], found.value.record, call, clock.guardNow);
    }
  }

  /** The results of a job, one per action of its plan. */
  predicate ResultsOf(results: seq<ActionResult>, actions: seq<Action>, status: ResultStatus, dryRun: bool) {
    && |results| == |actions|
    && forall i :: 0 <= i < |actions| ==>
         && results[i].actionId == actions[i].actionId && results[i].operation == actions[i].operation
         && results[i].status == status && results[i].dryRun == dryRun
  }

  predicate AppliedAndVerified(reply: JobReply) {
    reply.apply == ApplyReturned(true) && reply.verify == VerifyReturned(true)
  }

  /**
    An enforcement job is complete, its actions applied and its plan marked applied exactly
    when the connector applied the plan and verified it; it records the plan's own approval
    and control.
   */
  lemma EnforcementRecordsOutcome(env: Environment, s: State, c: Connector, plan: Plan, call: JobCall, reply: JobReply, clock: Clock)
    requires ExecuteEnforcementJob(env, s, c, plan, call, reply, clock).1.Ok?
    ensures var (s', r) := ExecuteEnforcementJob(env, s, c, plan, call, reply, clock);
      && r.value.Some?
      && (r.value.value.status == JobCompleted <==> AppliedAndVerified(reply))
      && ResultsOf(r.value.value.results, plan.actions, if AppliedAndVerified(reply) then ActionApplied else ActionFailed, false)
      && FindById(s'.plans, plan.id).Some?
      && (FindById(s'.plans, plan.id).value.record.status == Applied <==> AppliedAndVerified(reply))
      && (plan.approval.Some? ==> r.value.value.approval == plan.approval)
      && (plan.control.Some? ==> r.value.value.control == plan.control)
  {
    RefusalMeansUnauthorised(env, s, c, plan, call, clock.guardNow);
    var status := if AppliedAndVerified(reply) then Applied else Failed;
    FindByIdAfterPut(s.plans, UpdatedRow(plan, status, clock.completedAt), plan.id);
    hide EnforcementRefusal, Authorised, TheApplyCall, Put, FindById;
  }

  /** A dry-run job skips every action, leaves the plans alone and calls no apply. */
  lemma DryRunTouchesNothing(env: Environment, s: State, call: JobCall, reply: JobReply, clock: Clock)
    requires FindByKey(s.jobs, call.key).None? && FindById(s.plans, call.planId).Some?
    requires FindById(s.plans, call.planId).value.record.mode == DryRun
    ensures var (s', r) := CreateJob(env, s, call, reply, clock);
      && s'.plans == s.plans && s'.applies == s.applies && s'.reports == s.reports
      && (r.Ok? ==>
            && r.value.Some? && r.value.value.mode == DryRun
            && ResultsOf(r.value.value.results, FindById(s.plans, call.planId).value.record.actions, ActionSkipped, true))
  {
    hide ExecuteEnforcementJob;
  }

  // ---------------------------------------------------------------- job keys

  /** The call stores a new job: its key is free, its plan is there in the requested mode, and nothing refuses or throws. */
  predicate StoresJob(env: Environment, s: State, call: JobCall, reply: JobReply, clock: Clock) {
    var found := FindById(s.plans, call.planId);
    && FindByKey(s.jobs, call.key).None? && found.Some?
    && found.value.record.connectorId in s.connectors
    && ValueOr(call.mode, found.value.record.mode) == found.value.record.mode
    && reply.verify.VerifyReturned?
    && (found.value.record.mode == Enforce ==>
          && reply.apply.ApplyReturned?
          && MayEnforce(env, s, s.connectors[found.value.record.connectorId], found.value.record, call, clock.guardNow))
  }

  /** A job call stores nothing, or the job it returns, under its key and the hash of plan and key. */
  lemma JobsAfterJobStep(env: Environment, s: State, call: JobCall, reply: JobReply, clock: Clock)
    requires forall row :: row in s.plans ==> PlanRowOk(row)
    ensures var (s', r) := CreateJob(env, s, call, reply, clock);
      if StoresJob(env, s, call, reply, clock)
      then r.Ok? && r.value.Some? && s'.jobs == Put(s.jobs, JobRow(r.value.value))
        && r.value.value.idempotencyKey == call.key && r.value.value.planId == call.planId
        && r.value.value.id == env.jobId(call.planId, call.key)
      else s'.jobs == s.jobs
  {
    hide EnforcementRefusal, TheApplyCall, MayEnforce;
    var found := FindById(s.plans, call.planId);
    if found.Some? && found.value.record.connectorId in s.connectors {
      RefusalMeansUnauthorised(env, s, s.connectors[found.value.record.connectorId], found.value.record, call, clock.guardNow);
    }
  }

  /** What a new job says: whose it is by the call, what it is of by the plan, how it went by the connector's answers. */
  predicate JobFollows(env: Environment, plan: Plan, call: JobCall, reply: JobReply, clock: Clock, job: Job) {
    && job.id == env.jobId(call.planId, call.key) && job.planId == call.planId
    && job.idempotencyKey == call.key && job.approverId == call.approverId
    && job.connectorId == plan.connectorId && job.mode == plan.mode
    && job.startedAt == clock.startedAt && job.completedAt == clock.completedAt
    && reply.verify == VerifyReturned(job.verified)
    && (job.mode == DryRun ==>
          && job.status == JobCompleted && job.approval.None? && job.control.None?
          && ResultsOf(job.results, plan.actions, ActionSkipped, true))
    && (job.mode == Enforce ==>
          && (job.status == JobCompleted <==> AppliedAndVerified(reply))
          && job.approval == plan.approval && job.control == plan.control
          && ResultsOf(job.results, plan.actions, if AppliedAndVerified(reply) then ActionApplied else ActionFailed, false))
  }

  lemma ApprovalOfPlanIsUsed(env: Environment, s: State, c: Connector, plan: Plan, call: JobCall, now: string)
    requires plan.approval.Some? && plan.control.Some? && EnforcementRefusal(env, s, c, plan, call, now) == None
    ensures OrElse(call.approval, plan.approval) == plan.approval && OrElse(call.control, plan.control) == plan.control
  {
    RefusalMeansUnauthorised(env, s, c, plan, call, now);
    hide Authorised, EnforcementRefusal;
  }

  /** An enforcement applies the stored plan, with its own approval, control and report, and the plan's status is all that changes about the plans. */
  lemma EnforcementFollowsCall(env: Environment, s: State, plan: Plan, call: JobCall, reply: JobReply, clock: Clock)
    requires plan.connectorId in s.connectors && plan.id == call.planId && plan.mode == Enforce
    requires plan.approval.Some? && plan.control.Some?
    requires ExecuteEnforcementJob(env, s, s.connectors[plan.connectorId], plan, call, reply, clock).1.Ok?
    ensures var (s', r) := ExecuteEnforcementJob(env, s, s.connectors[plan.connectorId], plan, call, reply, clock);
      var updated := UpdatedRow(plan, if AppliedAndVerified(reply) then Applied else Failed, clock.completedAt);
      && r.value.Some? && JobFollows(env, plan, call, reply, clock, r.value.value)
      && plan.readinessReportId.Some? && plan.readinessReportId.value in s.reports
      && s'.applies == s.applies + [ApplyCall(call.key, plan, s.connectors[plan.connectorId],
           s.reports[plan.readinessReportId.value], plan.approval.value, plan.control.value, clock.guardNow)]
      && s'.plans == Put(s.plans, updated)
  {
    var c := s.connectors[plan.connectorId];
    RefusalMeansUnauthorised(env, s, c, plan, call, clock.guardNow);
    ApprovalOfPlanIsUsed(env, s, c, plan, call, clock.guardNow);
    hide EnforcementRefusal, Authorised, Put;
  }

  /**
    A call that stores a job: the job says what the call, the plan and the connector said. A
    dry run changes no plan and applies nothing; an enforcement makes one apply call, of the
    stored plan, and gives that plan its new status.
   */
  lemma NewJobFollowsCall(env: Environment, s: State, call: JobCall, reply: JobReply, clock: Clock)
    requires Inv(env, s) && StoresJob(env, s, call, reply, clock)
    ensures var (s', r) := CreateJob(env, s, call, reply, clock);
      var plan := FindById(s.plans, call.planId).value.record;
      && r.Ok? && r.value.Some? && JobFollows(env, plan, call, reply, clock, r.value.value)
      && (plan.mode == DryRun ==> s'.plans == s.plans && s'.applies == s.applies)
      && (plan.mode == Enforce ==>
            && plan.approval.Some? && plan.control.Some?
            && plan.readinessReportId.Some? && plan.readinessReportId.value in s.reports
            && s'.applies == s.applies + [ApplyCall(call.key, plan, s.connectors[plan.connectorId],
                 s.reports[plan.readinessReportId.value], plan.approval.value, plan.control.value, clock.guardNow)]
            && (forall id :: id != plan.id ==> FindById(s'.plans, id) == FindById(s.plans, id))
            && FindById(s'.plans, plan.id) ==
                 Some(UpdatedRow(plan, if AppliedAndVerified(reply) then Applied else Failed, clock.completedAt)))
  {
    var row := FindById(s.plans, call.planId).value;
    var plan := row.record;
    assert PlanRowOk(row);
    JobsAfterJobStep(env, s, call, reply, clock);
    if plan.mode == Enforce {
      EnforcementFollowsCall(env, s, plan, call, reply, clock);
      hide ExecuteEnforcementJob, MayEnforce, JobFollows, Inv;
      var updated := UpdatedRow(plan, if AppliedAndVerified(reply) then Applied else Failed, clock.completedAt);
      forall id
        ensures FindById(Put(s.plans, updated), id) == if id == plan.id then Some(updated) else FindById(s.plans, id)
      {
        FindByIdAfterPut(s.plans, updated, id);
      }
    }
  }

  /** The call gets as far as its connector: its key is free, its plan is there and its connector registered. */
  predicate ReachesConnector(s: State, call: JobCall) {
    && FindByKey(s.jobs, call.key).None? && FindById(s.plans, call.planId).Some?
    && FindById(s.plans, call.planId).value.record.connectorId in s.connectors
  }

  /** How a job call is answered when it does not store a job, case by case; only an authorised apply call leaves a trace. */
  lemma JobAnswers(env: Environment, s: State, call: JobCall, reply: JobReply, clock: Clock)
    requires Inv(env, s)
    ensures var (s', r) := CreateJob(env, s, call, reply, clock);
      var existing, found := FindByKey(s.jobs, call.key), FindById(s.plans, call.planId);
      && (r == Ok(None) <==> existing.None? && found.None?)
      && (r == Err(KeyReused) <==>
            existing.Some? && (existing.value.record.planId != call.planId || existing.value.record.approverId != call.approverId))
      && (r == Err(UnknownConnector) <==>
            existing.None? && found.Some? && found.value.record.connectorId !in s.connectors)
      && (r == Err(ModeMismatch) <==>
            ReachesConnector(s, call) && call.mode.Some? && call.mode.value != found.value.record.mode)
      && (r == Err(ConnectorFailed) <==>
            && ReachesConnector(s, call) && ValueOr(call.mode, found.value.record.mode) == found.value.record.mode
            && (reply.verify.VerifyThrew? || (reply.apply.ApplyThrew? && found.value.record.mode == Enforce))
            && (found.value.record.mode == Enforce ==>
                  MayEnforce(env, s, s.connectors[found.value.record.connectorId], found.value.record, call, clock.guardNow)))
      && (!StoresJob(env, s, call, reply, clock) ==> s' == s.(applies := s'.applies))
  {
    hide ApplyOk, MayEnforce, Vouches, TheApplyCall;
    var found := FindById(s.plans, call.planId);
    if ReachesConnector(s, call) {
      var c := s.connectors[found.value.record.connectorId];
      RefusalMeansUnauthorised(env, s, c, found.value.record, call, clock.guardNow);
      GuardRefusals(env, s, c, found.value.record, call, clock.guardNow);
    }
    hide EnforcementRefusal, EnforcementJob, DryRunJob;
  }

  /** The guards have reasons of their own. */
  lemma GuardRefusals(env: Environment, s: State, c: Connector, plan: Plan, call: JobCall, now: string)
    ensures var refusal := EnforcementRefusal(env, s, c, plan, call, now);
      refusal.Some? ==> refusal.value !in {KeyReused, UnknownConnector, ModeMismatch, ConnectorFailed}
  {
    RefusalIsExplained(env, s.reports, c, plan.connectorId, plan.readinessReportId,
                       OrElse(call.approval, plan.approval), OrElse(call.control, plan.control), Some(call.approverId), now);
    hide AssertControlledEnforcementAllowed, AssertEnforcementReadiness;
  }

  /** The step stores a new job under an id that is in use. */
  predicate DisplacesJob(env: Environment, s: State, step: Step, id: string) {
    && step.JobStep?
    && StoresJob(env, s, step.jobCall, step.jobReply, step.clock)
    && env.jobId(step.jobCall.planId, step.jobCall.key) == id
  }

  /** A key keeps its job through a step exactly when the step does not store a new job under that job's id. */
  lemma JobSurvivesStepIff(env: Environment, s: State, step: Step, key: string)
    requires Inv(env, s) && FindByKey(s.jobs, key).Some?
    ensures FindByKey(Next(env, s, step).jobs, key) == FindByKey(s.jobs, key)
      <==> !DisplacesJob(env, s, step, FindByKey(s.jobs, key).value.id)
  {
    match step
    case JobStep(call, reply, clock) =>
      JobsAfterJobStep(env, s, call, reply, clock);
      hide CreateJob, ApplyOk, Vouches, WellFormed;
      if StoresJob(env, s, call, reply, clock) {
        FindByKeyAfterPut(s.jobs, JobRow(CreateJob(env, s, call, reply, clock).1.value.value), key);
      }
      hide StoresJob;
    case PlanStep(_, _, _) =>
    case _ =>
  }

  /** The step stores a new job under the id of the key's job. */
  predicate DisplacesKey(env: Environment, s: State, step: Step, key: string) {
    FindByKey(s.jobs, key).Some? && DisplacesJob(env, s, step, FindByKey(s.jobs, key).value.id)
  }

  /** A displaced key is free again, so its next call makes a new job. */
  lemma DisplacedKeyIsFree(env: Environment, s: State, step: Step, key: string)
    requires Inv(env, s) && DisplacesKey(env, s, step, key)
    ensures FindByKey(Next(env, s, step).jobs, key).None?
  {
    JobsAfterJobStep(env, s, step.jobCall, step.jobReply, step.clock);
    hide CreateJob, StoresJob, ApplyOk, Vouches, WellFormed;
    FindByKeyAfterPut(s.jobs, JobRow(CreateJob(env, s, step.jobCall, step.jobReply, step.clock).1.value.value), key);
  }

  predicate KeepsKey(env: Environment, s: State, steps: seq<Step>, key: string)
    decreases |steps|
  {
    steps == [] || (!DisplacesKey(env, s, steps[0], key) && KeepsKey(env, Next(env, s, steps[0]), steps[1..], key))
  }

  /**
    Job idempotency over every run that does not displace the key's job: a matching replay
    returns that very job, a conflicting one is refused, and neither changes anything.
   */
  lemma {:induction false} JobIsForever(env: Environment, s: State, steps: seq<Step>, call: JobCall, reply: JobReply, clock: Clock)
    requires Inv(env, s) && FindByKey(s.jobs, call.key).Some? && KeepsKey(env, s, steps, call.key)
    ensures var job := FindByKey(s.jobs, call.key).value.record;
      var later := Run(env, s, steps);
      && FindByKey(later.jobs, call.key) == FindByKey(s.jobs, call.key)
      && CreateJob(env, later, call, reply, clock) ==
         (later, if job.planId == call.planId && job.approverId == call.approverId then Ok(Some(job)) else Err(KeyReused))
    decreases |steps|
  {
    hide Next, Inv, DisplacesJob;
    if steps != [] {
      StepKeepsInv(env, s, steps[0]);
      JobSurvivesStepIff(env, s, steps[0], call.key);
      JobIsForever(env, Next(env, s, steps[0]), steps[1..], call, reply, clock);
    }
  }

  /**
    A call that returned a job, repeated after any run that does not displace it and whatever
    the connector would answer now, returns that very job and changes nothing.
   */
  lemma JobCallIsIdempotent(env: Environment, s: State, call: JobCall, reply: JobReply, clock: Clock,
                            steps: seq<Step>, laterReply: JobReply, laterClock: Clock)
    requires Inv(env, s)
    requires var (s1, r) := CreateJob(env, s, call, reply, clock);
      r.Ok? && r.value.Some? && KeepsKey(env, s1, steps, call.key)
    ensures var (s1, r) := CreateJob(env, s, call, reply, clock);
      var later := Run(env, s1, steps);
      CreateJob(env, later, call, laterReply, laterClock) == (later, r)
  {
    var (s1, r) := CreateJob(env, s, call, reply, clock);
    JobStepKeepsInv(env, s, call, reply, clock);
    StoredJobIsFound(env, s, call, reply, clock);
    ReturnedJobMatchesCall(env, s, call, reply, clock);
    JobIsForever(env, s1, steps, call, laterReply, laterClock);
    hide CreateJob, Inv, KeepsKey, Run;
  }

  lemma ReturnedJobMatchesCall(env: Environment, s: State, call: JobCall, reply: JobReply, clock: Clock)
    requires Inv(env, s)
    ensures var r := CreateJob(env, s, call, reply, clock).1;
      r.Ok? && r.value.Some? ==> r.value.value.planId == call.planId && r.value.value.approverId == call.approverId
  {
    ReturnedJobIsStored(env, s, call, reply, clock);
    if StoresJob(env, s, call, reply, clock) {
      NewJobFollowsCall(env, s, call, reply, clock);
    }
    hide StoresJob, Inv, ExecuteEnforcementJob;
  }

  /** Exactly those runs keep the job: at every point of the run the key finds it, if and only if no step displaces it. */
  lemma {:induction false} JobIsKeptIff(env: Environment, s: State, steps: seq<Step>, key: string)
    requires Inv(env, s) && FindByKey(s.jobs, key).Some?
    ensures KeepsKey(env, s, steps, key) <==>
      forall n :: 0 <= n <= |steps| ==> FindByKey(Run(env, s, steps[..n]).jobs, key) == FindByKey(s.jobs, key)
    decreases |steps|
  {
    hide Next, Inv, DisplacesJob;
    if steps == [] {
      assert steps[..0] == [];
    } else {
      var s1 := Next(env, s, steps[0]);
      StepKeepsInv(env, s, steps[0]);
      JobSurvivesStepIff(env, s, steps[0], key);
      assert Run(env, s, steps[..0]) == s;
      forall n | 1 <= n <= |steps|
        ensures Run(env, s, steps[..n]) == Run(env, s1, steps[1..][..n - 1])
      {
        assert steps[..n][1..] == steps[1..][..n - 1];
      }
      assert Run(env, s1, steps[1..][..0]) == s1;
      if FindByKey(s1.jobs, key) == FindByKey(s.jobs, key) {
        JobIsKeptIff(env, s1, steps[1..], key);
        if forall n :: 0 <= n <= |steps| ==> FindByKey(Run(env, s, steps[..n]).jobs, key) == FindByKey(s.jobs, key) {
          forall m | 0 <= m <= |steps[1..]|
            ensures FindByKey(Run(env, s1, steps[1..][..m]).jobs, key) == FindByKey(s1.jobs, key)
          {
            assert Run(env, s, steps[..m + 1]) == Run(env, s1, steps[1..][..m]);
          }
        }
      } else {
        assert Run(env, s, steps[..1]) == s1;
      }
    }
  }

  // ---------------------------------------------------------------- one apply per key

  predicate Returned(step: Step) {
    step.JobStep? ==> step.jobReply.apply.ApplyReturned? && step.jobReply.verify.VerifyReturned?
  }

  /** At most one apply call for the key so far, and after it the key has its job. */
  ghost predicate AppliedOnce(s: State, key: string) {
    && (forall c :: c in s.applies && c.key == key ==> FindByKey(s.jobs, key).Some?)
    && (forall i, j :: 0 <= i < j < |s.applies| ==> s.applies[i].key != key || s.applies[j].key != key)
  }

  predicate AppliedOneMore(before: seq<ApplyCall>, after: seq<ApplyCall>, key: string) {
    |after| == |before| + 1 && before == after[..|before|] && after[|before|].key == key
  }

  lemma ExecutionApplies(env: Environment, s: State, c: Connector, plan: Plan, call: JobCall, reply: JobReply, clock: Clock)
    ensures var (s', r) := ExecuteEnforcementJob(env, s, c, plan, call, reply, clock);
      || s'.applies == s.applies
      || (AppliedOneMore(s.applies, s'.applies, call.key)
          && (reply.apply.ApplyReturned? && reply.verify.VerifyReturned? ==>
                r.Ok? && r.value.Some? && s'.jobs == Put(s.jobs, JobRow(r.value.value)) && r.value.value.idempotencyKey == call.key))
  {
    hide EnforcementRefusal;
  }

  /** A job call makes at most one apply call, for its own key; when the connector returns, the key then has its job. */
  lemma AppliesGrow(env: Environment, s: State, call: JobCall, reply: JobReply, clock: Clock)
    requires Inv(env, s)
    ensures var s' := CreateJob(env, s, call, reply, clock).0;
      || s'.applies == s.applies
      || (FindByKey(s.jobs, call.key).None? && AppliedOneMore(s.applies, s'.applies, call.key)
          && (reply.apply.ApplyReturned? && reply.verify.VerifyReturned? ==> FindByKey(s'.jobs, call.key).Some?))
  {
    var (s', r) := CreateJob(env, s, call, reply, clock);
    if s'.applies != s.applies {
      var plan := FindById(s.plans, call.planId).value.record;
      ExecutionApplies(env, s, s.connectors[plan.connectorId], plan, call, reply, clock);
      hide ExecuteEnforcementJob, ApplyOk, Vouches;
      if reply.apply.ApplyReturned? && reply.verify.VerifyReturned? {
        FindByKeyAfterPut(s.jobs, JobRow(r.value.value), call.key);
      }
    }
  }

  lemma StepKeepsAppliedOnce(env: Environment, s: State, step: Step, key: string)
    requires Inv(env, s) && Returned(step) && AppliedOnce(s, key) && !DisplacesKey(env, s, step, key)
    ensures AppliedOnce(Next(env, s, step), key)
  {
    hide CreateJob, Inv, DisplacesJob;
    var s' := Next(env, s, step);
    if FindByKey(s.jobs, key).Some? {
      JobSurvivesStepIff(env, s, step, key);
    }
    match step
    case JobStep(call, reply, clock) =>
      AppliesGrow(env, s, call, reply, clock);
      if s'.applies != s.applies {
        assert forall i :: 0 <= i < |s.applies| ==> s'.applies[i] == s.applies[i] && s.applies[i] in s.applies;
        assert forall c :: c in s'.applies ==> c in s.applies || c.key == call.key;
      }
    case _ =>
  }

  /**
    When connector calls return, a key is applied at most once over every run that does not
    displace its job.
   */
  lemma {:induction false} AtMostOneApplyPerKey(env: Environment, s: State, steps: seq<Step>, key: string)
    requires Inv(env, s) && AppliedOnce(s, key)
    requires KeepsKey(env, s, steps, key) && forall x :: x in steps ==> Returned(x)
    ensures AppliedOnce(Run(env, s, steps), key)
    decreases |steps|
  {
    hide Next, Inv, AppliedOnce, Returned, DisplacesKey;
    if steps != [] {
      StepKeepsInv(env, s, steps[0]);
      StepKeepsAppliedOnce(env, s, steps[0], key);
      AtMostOneApplyPerKey(env, Next(env, s, steps[0]), steps[1..], key);
    }
  }

  /** The bound needs the connector to return: after a throw the key stays free and the same call applies again. */
  lemma ThrownApplyIsRepeated(env: Environment, s: State, call: JobCall, reply: JobReply, clock: Clock)
    requires CreateJob(env, s, call, reply, clock).0.applies != s.applies
    requires reply.apply.ApplyThrew? || reply.verify.VerifyThrew?
    ensures var s1 := CreateJob(env, s, call, reply, clock).0;
      && CreateJob(env, s, call, reply, clock).1 == Err(ConnectorFailed)
      && |CreateJob(env, s1, call, reply, clock).0.applies| == |s.applies| + 2
  {
    hide AssertJobControlsMatchPlan, AssertControlledEnforcementAllowed, AssertEnforcementReadiness;
  }

  // ---------------------------------------------------------------- plan keys

  /** The same plan, but for the status an enforcement job gave it. */
  predicate SamePlan(p: Plan, q: Plan) {
    q == p.(status := q.status, updatedAt := q.updatedAt)
  }

  /** The step stores a new plan under an id that is in use. */
  predicate Displaces(env: Environment, s: State, step: Step, id: string) {
    && step.PlanStep?
    && step.planCall.connectorId in s.connectors
    && ExistingPlan(s, step.planCall.key).None?
    && PreparedPlan(env, s, step.planCall, step.planReply, step.now).Ok?
    && step.planReply.plan.id == id
  }

  predicate Survives(before: Table<Plan>, after: Table<Plan>, key: string) {
    && FindByKey(before, key).Some? && FindByKey(after, key).Some?
    && SamePlan(FindByKey(before, key).value.record, FindByKey(after, key).value.record)
    && FindByKey(after, key).value.id == FindByKey(before, key).value.id
  }

  /** A job call leaves the plans alone or updates the status of the plan it names. */
  lemma PlansAfterJob(env: Environment, s: State, call: JobCall, reply: JobReply, clock: Clock)
    ensures var after := CreateJob(env, s, call, reply, clock).0.plans;
      var found := FindById(s.plans, call.planId);
      || after == s.plans
      || (found.Some? && after == Put(s.plans, UpdatedRow(found.value.record, Applied, clock.completedAt)))
      || (found.Some? && after == Put(s.plans, UpdatedRow(found.value.record, Failed, clock.completedAt)))
  {
    hide EnforcementRefusal, TheApplyCall;
  }

  function UpdatedRow(plan: Plan, status: PlanStatus, at: string): Row<Plan> {
    PlanRow(plan.(status := status, updatedAt := Some(at)))
  }

  lemma UpdateSurvives(plans: Table<Plan>, row: Row<Plan>, status: PlanStatus, at: string, key: string)
    requires WellFormed(plans) && (forall x :: x in plans ==> PlanRowOk(x)) && row in plans
    requires FindByKey(plans, key).Some?
    ensures Survives(plans, Put(plans, UpdatedRow(row.record, status, at)), key)
  {
    PutPlanUpdate(plans, row, status, at);
    FindByKeyAfterPut(plans, UpdatedRow(row.record, status, at), key);
    SameIdSameRow(plans, row, FindByKey(plans, key).value);
    hide WellFormed, MayStore;
  }

  lemma JobStepKeepsPlan(env: Environment, s: State, call: JobCall, reply: JobReply, clock: Clock, key: string)
    requires Inv(env, s) && FindByKey(s.plans, key).Some?
    ensures Survives(s.plans, CreateJob(env, s, call, reply, clock).0.plans, key)
  {
    PlansAfterJob(env, s, call, reply, clock);
    var found := FindById(s.plans, call.planId);
    if found.Some? {
      UpdateSurvives(s.plans, found.value, Applied, clock.completedAt, key);
      UpdateSurvives(s.plans, found.value, Failed, clock.completedAt, key);
    }
    hide CreateJob, WellFormed, UpdatedRow, ApplyOk, Vouches;
  }

  lemma SameIdSameRow(t: Table<Plan>, x: Row<Plan>, y: Row<Plan>)
    requires WellFormed(t) && x in t && y in t
    ensures (x.id == y.id || (x.key.Some? && x.key == y.key)) ==> x == y
  {
    var i :| 0 <= i < |t| && t[i] == x;
    var j :| 0 <= j < |t| && t[j] == y;
  }

  /** A plan call stores nothing, or the plan it returns under the connector's id and the caller's key. */
  lemma PlansAfterPlanStep(env: Environment, s: State, call: PlanCall, reply: PlanReply, now: string)
    ensures var (s', r) := CreatePlan(env, s, call, reply, now);
      if call.connectorId in s.connectors && ExistingPlan(s, call.key).None? && PreparedPlan(env, s, call, reply, now).Ok?
      then r.Ok? && r.value.id == reply.plan.id && r.value.idempotencyKey == call.key && s'.plans == Put(s.plans, PlanRow(r.value))
      else s'.plans == s.plans
  {
    hide AssertEnforcementReadiness, AssertControlledEnforcementAllowed, PlanMatches;
  }

  lemma PlanStepSurvivesIff(env: Environment, s: State, call: PlanCall, reply: PlanReply, now: string, key: string)
    requires Inv(env, s) && FindByKey(s.plans, key).Some?
    ensures Survives(s.plans, CreatePlan(env, s, call, reply, now).0.plans, key)
      <==> !Displaces(env, s, PlanStep(call, reply, now), FindByKey(s.plans, key).value.id)
  {
    hide PreparedPlan, CreatePlan, ApplyOk, Vouches;
    PlansAfterPlanStep(env, s, call, reply, now);
    var (s', r) := CreatePlan(env, s, call, reply, now);
    if call.connectorId in s.connectors && ExistingPlan(s, call.key).None? && PreparedPlan(env, s, call, reply, now).Ok? {
      FindByKeyAfterPut(s.plans, PlanRow(r.value), key);
    }
    hide WellFormed, MayStore;
  }

  /** A key keeps its plan through a step exactly when the step does not store a new plan under that plan's id. */
  lemma PlanSurvivesStepIff(env: Environment, s: State, step: Step, key: string)
    requires Inv(env, s) && FindByKey(s.plans, key).Some?
    ensures Survives(s.plans, Next(env, s, step).plans, key) <==> !Displaces(env, s, step, FindByKey(s.plans, key).value.id)
  {
    match step
    case JobStep(call, reply, clock) =>
      JobStepKeepsPlan(env, s, call, reply, clock, key);
      hide CreateJob, Inv;
    case PlanStep(call, reply, now) =>
      PlanStepSurvivesIff(env, s, call, reply, now, key);
      hide CreatePlan, Inv, PreparedPlan;
    case _ =>
  }

  predicate NeverDisplaced(env: Environment, s: State, steps: seq<Step>, id: string)
    decreases |steps|
  {
    steps == [] || (!Displaces(env, s, steps[0], id) && NeverDisplaced(env, Next(env, s, steps[0]), steps[1..], id))
  }

  /**
    Plan idempotency over every run in which the plan's id is not reused: a matching replay
    returns the key's plan, a conflicting one is refused, and neither changes anything.
   */
  lemma {:induction false} PlanIsReplayed(env: Environment, s: State, steps: seq<Step>, call: PlanCall, key: string, reply: PlanReply, now: string)
    requires Inv(env, s) && Truthy(call.key) == Some(key) && FindByKey(s.plans, key).Some?
    requires NeverDisplaced(env, s, steps, FindByKey(s.plans, key).value.id)
    ensures var later := Run(env, s, steps);
      && Survives(s.plans, later.plans, key)
      && (call.connectorId in later.connectors ==>
            CreatePlan(env, later, call, reply, now) ==
            (later, if PlanMatches(FindByKey(s.plans, key).value.record, call)
                    then Ok(FindByKey(later.plans, key).value.record) else Err(KeyReused)))
    decreases |steps|
  {
    hide Next, Inv, Displaces, PreparedPlan;
    if steps != [] {
      StepKeepsInv(env, s, steps[0]);
      PlanSurvivesStepIff(env, s, steps[0], key);
      PlanIsReplayed(env, Next(env, s, steps[0]), steps[1..], call, key, reply, now);
    }
  }

  /** Reusing an id does happen: two revocations of one grant under different keys, and the first key has no plan any more. */
  lemma PlanIdReuseForgetsKey(env: Environment)
    ensures
      var mock := Connector("mock", Some("mock"), Some("synthetic:local"), true, true, true);
      var s := State(map["mock" := mock], map[], [], [], []);
      var revoke := Action("action:revoke:g", "revoke", Some("g"), true, Planned, None);
      var reply := PlanReturned(Plan("plan:revoke:g", None, "mock", "user:alice", "document:case-plan", "read",
                                     DryRun, Planned, [revoke], None, None, None, "t", None));
      var options := Options(None, None, None, None);
      var first := PlanCall("mock", ForRevocation("g"), options, Some("k1"));
      var s1 := CreatePlan(env, s, first, reply, "t").0;
      var s2 := CreatePlan(env, s1, first.(key := Some("k2")), reply, "t").0;
      && CreatePlan(env, s, first, reply, "t").1.Ok?
      && CreatePlan(env, s1, first, PlanThrew, "t").1.Ok?
      && CreatePlan(env, s2, first, PlanThrew, "t").1 == Err(ConnectorFailed)
  {
    var mock := Connector("mock", Some("mock"), Some("synthetic:local"), true, true, true);
    var s := State(map["mock" := mock], map[], [], [], []);
    var revoke := Action("action:revoke:g", "revoke", Some("g"), true, Planned, None);
    var plan := Plan("plan:revoke:g", None, "mock", "user:alice", "document:case-plan", "read",
                     DryRun, Planned, [revoke], None, None, None, "t", None);
    var first := PlanCall("mock", ForRevocation("g"), Options(None, None, None, None), Some("k1"));
    var stored := plan.(actions := RestartActions(plan.actions, true), idempotencyKey := Some("k1"));
    assert CreatePlan(env, s, first, PlanReturned(plan), "t") == (s.(plans := [PlanRow(stored)]), Ok(stored));
    assert Revokes(stored.actions[0], "g");
    assert PlanMatches(stored, first);
    var s1 := s.(plans := [PlanRow(stored)]);
    var second := stored.(idempotencyKey := Some("k2"));
    assert FindByKey(s1.plans, "k2") == None;
    assert CreatePlan(env, s1, first.(key := Some("k2")), PlanReturned(plan), "t").0 == s.(plans := [PlanRow(second)] + []);
    assert FindByKey([PlanRow(second)], "k1") == None;
  }

  /**
    Repeating a call at once is answered from the table exactly when the connector's plan is
    one for that request and, in dry-run mode, carries the very approval, control and report
    of the options. A dry-run call with an approval is therefore refused on replay when the
    connector's plan has none.
   */
  lemma FirstReplayIff(env: Environment, s: State, call: PlanCall, key: string, plan: Plan, now: string, reply: PlanReply)
    requires Inv(env, s) && Truthy(call.key) == Some(key)
    requires call.connectorId in s.connectors && FindByKey(s.plans, key).None?
    requires CreatePlan(env, s, call, PlanReturned(plan), now).1.Ok?
    ensures var (s1, stored) := CreatePlan(env, s, call, PlanReturned(plan), now);
      CreatePlan(env, s1, call, reply, now) == (s1, if ReplayFits(plan, call) then stored else Err(KeyReused))
  {
    hide AssertEnforcementReadiness, AssertControlledEnforcementAllowed, ApplyOk, Vouches, NormalizeApprovalForReplay;
    var (s1, stored) := CreatePlan(env, s, call, PlanReturned(plan), now);
    FindByKeyAfterPut(s.plans, PlanRow(stored.value), key);
    RestartKeepsRequest(plan, stored.value, call.request);
  }

  /** A dry-run call that carries an approval succeeds, and the very same call is then refused, when the connector's plan has none. */
  lemma ApprovalOnDryRunIsRefusedOnReplay(env: Environment, s: State, call: PlanCall, key: string, plan: Plan, now: string, reply: PlanReply)
    requires Inv(env, s) && Truthy(call.key) == Some(key)
    requires call.connectorId in s.connectors && FindByKey(s.plans, key).None?
    requires ValueOr(call.options.mode, DryRun) == DryRun && call.options.approval.Some? && plan.approval.None?
    ensures var (s1, stored) := CreatePlan(env, s, call, PlanReturned(plan), now);
      stored.Ok? && CreatePlan(env, s1, call, reply, now) == (s1, Err(KeyReused))
  {
    FirstReplayIff(env, s, call, key, plan, now, reply);
  }

  predicate ReplayFits(plan: Plan, call: PlanCall) {
    && FitsRequest(plan, call.request)
    && (ValueOr(call.options.mode, DryRun) == Enforce
        || (NormalizeApprovalForReplay(plan.approval, call.request) == NormalizeApprovalForReplay(call.options.approval, call.request)
            && plan.control == call.options.control && plan.readinessReportId == call.options.readinessReportId))
  }

  lemma RestartKeepsRequest(p: Plan, q: Plan, request: PlanRequest)
    requires p.subjectId == q.subjectId && p.resourceId == q.resourceId && p.action == q.action
    requires |q.actions| == |p.actions|
    requires forall i :: 0 <= i < |p.actions| ==>
      q.actions[i].operation == p.actions[i].operation && q.actions[i].nativeGrantId == p.actions[i].nativeGrantId
    ensures FitsRequest(p, request) <==> FitsRequest(q, request)
  {
    if request.ForRevocation? {
      assert forall i :: 0 <= i < |p.actions| ==> (Revokes(p.actions[i], request.nativeGrantId) <==> Revokes(q.actions[i], request.nativeGrantId));
    }
  }

  /** A call that stores a plan: it is what the connector planned for this request, on this connector, under this key and in this mode. */
  lemma NewPlanFollowsCall(env: Environment, s: State, call: PlanCall, reply: PlanReply, now: string)
    requires ExistingPlan(s, call.key).None? && CreatePlan(env, s, call, reply, now).1.Ok?
    ensures var (s', r) := CreatePlan(env, s, call, reply, now);
      && reply.PlanReturned?
      && SameButExecution(reply.plan.(connectorId := call.connectorId, idempotencyKey := call.key), r.value)
      && r.value.mode == ValueOr(call.options.mode, DryRun)
      && (forall a :: a in r.value.actions ==> a.status == Planned && (a.dryRun <==> r.value.mode == DryRun))
      && r.value.status == (if r.value.mode == DryRun then Planned else Approved)
      && FindById(s'.plans, r.value.id) == Some(PlanRow(r.value))
      && forall id :: id != r.value.id ==> FindById(s'.plans, id) == FindById(s.plans, id)
  {
    PreparedPlanKeepsRequest(env, s.reports, s.connectors[call.connectorId], reply.plan.(connectorId := call.connectorId), call.options, now);
    hide PrepareProvisioningPlanForExecution, Put;
    var r := CreatePlan(env, s, call, reply, now).1.value;
    forall id
      ensures FindById(Put(s.plans, PlanRow(r)), id) == if id == r.id then Some(PlanRow(r)) else FindById(s.plans, id)
    {
      FindByIdAfterPut(s.plans, PlanRow(r), id);
    }
  }

  /** A call that returns a plan under a key leaves the key with that plan. */
  lemma StoredPlanIsFound(env: Environment, s: State, call: PlanCall, reply: PlanReply, now: string)
    requires Inv(env, s)
    ensures var (s', r) := CreatePlan(env, s, call, reply, now);
      && (r.Ok? && Truthy(call.key).Some? ==> ExistingPlan(s', call.key).Some? && ExistingPlan(s', call.key).value.record == r.value)
      && (r.Ok? && r.value.mode == Enforce ==> r.value.approval.Some? && r.value.control.Some?)
  {
    PlansAfterPlanStep(env, s, call, reply, now);
    PlanStepKeepsInv(env, s, call, reply, now);
    var (s', r) := CreatePlan(env, s, call, reply, now);
    hide PreparedPlan, PlanMatches, ApplyOk, Vouches;
    if r.Ok? && ExistingPlan(s, call.key).None? {
      assert PlanRow(r.value) in s'.plans;
      if Truthy(call.key).Some? {
        FindByKeyAfterPut(s.plans, PlanRow(r.value), Truthy(call.key).value);
      }
    }
  }

  predicate SameApproval(a: Option<Approval>, b: Option<Approval>, request: PlanRequest) {
    match (a, b)
    case (Some(x), Some(y)) => x == y || (request.ForRevocation? && x == y.(approvedAt := x.approvedAt))
    case (None, None) => true
    case _ => false
  }

  /**
    A key belongs to one request: once a call has stored a plan under it, another call under the
    key is only answered when it names the same connector and mode, fits the plan, and, for an
    enforcement, gives the same control, report and approval, in a revocation up to its date.
   */
  lemma PlanKeyIsForOneRequest(env: Environment, s: State, call: PlanCall, reply: PlanReply, now: string,
                               other: PlanCall, otherReply: PlanReply, later: string)
    requires Inv(env, s) && Truthy(call.key).Some? && other.key == call.key
    requires ExistingPlan(s, call.key).None? && CreatePlan(env, s, call, reply, now).1.Ok?
    ensures var (s1, stored) := CreatePlan(env, s, call, reply, now);
      var (s2, r) := CreatePlan(env, s1, other, otherReply, later);
      && s2 == s1
      && (r.Ok? ==>
            && r == stored && other.connectorId == call.connectorId && FitsRequest(stored.value, other.request)
            && ValueOr(other.options.mode, DryRun) == ValueOr(call.options.mode, DryRun)
            && (stored.value.mode == Enforce ==>
                  && other.options.control == call.options.control
                  && other.options.readinessReportId == call.options.readinessReportId
                  && SameApproval(other.options.approval, call.options.approval, other.request)))
      && (r.Err? ==> r.error in {KeyReused, UnknownConnector})
  {
    StoredPlanIsFound(env, s, call, reply, now);
    NewPlanFollowsCall(env, s, call, reply, now);
    PreparedPlanKeepsRequest(env, s.reports, s.connectors[call.connectorId], reply.plan.(connectorId := call.connectorId), call.options, now);
    hide Inv, PrepareProvisioningPlanForExecution, FitsRequest, Put;
  }

  /** A job that is returned is the one the key finds. */
  lemma StoredJobIsFound(env: Environment, s: State, call: JobCall, reply: JobReply, clock: Clock)
    requires Inv(env, s)
    ensures var (s', r) := CreateJob(env, s, call, reply, clock);
      r.Ok? && r.value.Some? ==> FindByKey(s'.jobs, call.key) == Some(JobRow(r.value.value))
  {
    JobsAfterJobStep(env, s, call, reply, clock);
    ReturnedJobIsStored(env, s, call, reply, clock);
    hide CreateJob, StoresJob, ApplyOk, Vouches;
    if StoresJob(env, s, call, reply, clock) {
      FindByKeyAfterPut(s.jobs, JobRow(CreateJob(env, s, call, reply, clock).1.value.value), call.key);
    }
  }

  lemma ReturnedJobIsStored(env: Environment, s: State, call: JobCall, reply: JobReply, clock: Clock)
    ensures var r := CreateJob(env, s, call, reply, clock).1;
      r.Ok? && r.value.Some? ==>
        || StoresJob(env, s, call, reply, clock)
        || (FindByKey(s.jobs, call.key).Some? && FindByKey(s.jobs, call.key).value.record == r.value.value)
  {
    hide EnforcementRefusal, TheApplyCall, MayEnforce;
    var found := FindById(s.plans, call.planId);
    if found.Some? && found.value.record.connectorId in s.connectors {
      RefusalMeansUnauthorised(env, s, s.connectors[found.value.record.connectorId], found.value.record, call, clock.guardNow);
    }
  }

  lemma NewApplyIsOk(env: Environment, s: State, call: JobCall, reply: JobReply, clock: Clock)
    requires Inv(env, s)
    ensures var s' := CreateJob(env, s, call, reply, clock).0;
      s'.applies == s.applies || (AppliedOneMore(s.applies, s'.applies, call.key) && ApplyOk(env, s'.applies[|s.applies|]))
  {
    AppliesGrow(env, s, call, reply, clock);
    JobStepKeepsInv(env, s, call, reply, clock);
    hide CreateJob, ApplyOk;
  }

  // ---------------------------------------------------------------- the running program

  class Runtime {
    const env: Environment
    var connectors: map<string, Connector>
    var reports: map<string, Report>
    var plans: Table<Plan>
    var jobs: Table<Job>
    ghost var applies: seq<ApplyCall>

    ghost predicate Valid()
      reads this
    {
      Inv(env, Contents())
    }

    constructor (env: Environment, connectors: map<string, Connector>)
      ensures Valid() && this.env == env && Contents() == State(connectors, map[], [], [], [])
    {
      this.env, this.connectors, reports, plans, jobs, applies := env, connectors, map[], [], [], [];
    }

    ghost function Contents(): State
      reads this
    {
      State(connectors, reports, plans, jobs, applies)
    }

    method CheckEnforcementReadiness(connectorId: string, control: Control, pattern: Option<string>, reportId: string, probe: Probe)
      returns (r: Result<Report, Refusal>)
      requires Valid()
      modifies `reports
      ensures Valid()
      ensures forall id :: id in old(reports) ==> id in reports && reports[id] == old(reports)[id]
      ensures r.Ok? ==> Vouches(r.value) && reports == old(reports)[reportId := r.value]
      ensures (Contents(), r) == Check(old(Contents()), connectorId, control, pattern, reportId, probe)
    {
      StepKeepsInv(env, Contents(), CheckReadiness(connectorId, control, pattern, reportId, probe));
      hide Inv;
      if connectorId !in connectors {
        return Err(UnknownConnector);
      }
      ReadyIff(reportId, connectorId, connectors[connectorId], control, pattern, probe);
      hide Vouches, ReadinessReport;
      var report := ReadinessReport(reportId, connectorId, connectors[connectorId], control, pattern, probe);
      if reportId in reports {
        return Err(AlreadyRecorded);
      }
      reports := reports[reportId := report];
      return Ok(report);
    }

    /** A key that has a plan is answered without a change; a key that is given one finds it. */
    method CreateProvisioningPlan(call: PlanCall, reply: PlanReply, now: string) returns (r: Result<Plan, Refusal>)
      requires Valid()
      modifies `plans
      ensures Valid()
      ensures old(ExistingPlan(Contents(), call.key)).Some? ==> plans == old(plans)
      ensures r.Ok? && Truthy(call.key).Some? ==> ExistingPlan(Contents(), call.key).Some? && ExistingPlan(Contents(), call.key).value.record == r.value
      ensures r.Ok? && r.value.mode == Enforce ==> r.value.approval.Some? && r.value.control.Some?
      ensures (Contents(), r) == CreatePlan(env, old(Contents()), call, reply, now)
    {
      StepKeepsInv(env, Contents(), PlanStep(call, reply, now));
      StoredPlanIsFound(env, Contents(), call, reply, now);
      hide Inv, PlanMatches, AssertControlledEnforcementAllowed, AssertEnforcementReadiness;
      if call.connectorId !in connectors {
        return Err(UnknownConnector);
      }
      if call.key.Some? && call.key.value != "" {
        var existing := FindByKey(plans, call.key.value);
        if existing.Some? {
          if !PlanMatches(existing.value.record, call) {
            return Err(KeyReused);
          }
          return Ok(existing.value.record);
        }
      }
      if reply.PlanThrew? {
        return Err(ConnectorFailed);
      }
      var normalized := reply.plan.(connectorId := call.connectorId);
      var prepared := PrepareProvisioningPlanForExecution(env, reports, connectors[call.connectorId], normalized, call.options, now);
      if prepared.Err? {
        return Err(prepared.error);
      }
      var plan := prepared.value.(idempotencyKey := call.key);
      plans := Put(plans, PlanRow(plan));
      return Ok(plan);
    }

    /** A key that has a job is answered without a change; any apply call made is authorised; a returned job is the key's. */
    method CreateProvisioningJob(call: JobCall, reply: JobReply, clock: Clock) returns (r: Result<Option<Job>, Refusal>)
      requires Valid()
      modifies `plans, `jobs, `applies
      ensures Valid()
      ensures old(FindByKey(jobs, call.key)).Some? ==> Contents() == old(Contents())
      ensures applies == old(applies) || (AppliedOneMore(old(applies), applies, call.key) && ApplyOk(env, applies[|old(applies)|]))
      ensures r.Ok? && r.value.Some? ==>
        && FindByKey(jobs, call.key) == Some(JobRow(r.value.value))
        && r.value.value.planId == call.planId && r.value.value.approverId == call.approverId
      ensures (Contents(), r) == CreateJob(env, old(Contents()), call, reply, clock)
    {
      StepKeepsInv(env, Contents(), JobStep(call, reply, clock));
      AppliesGrow(env, Contents(), call, reply, clock);
      StoredJobIsFound(env, Contents(), call, reply, clock);
      ReturnedJobMatchesCall(env, Contents(), call, reply, clock);
      NewApplyIsOk(env, Contents(), call, reply, clock);
      hide Inv, ApplyOk, ExecuteEnforcementJob, AppliedOneMore;
      var existing := FindByKey(jobs, call.key);
      if existing.Some? {
        if existing.value.record.planId != call.planId || existing.value.record.approverId != call.approverId {
          return Err(KeyReused);
        }
        return Ok(Some(existing.value.record));
      }
      var found := FindById(plans, call.planId);
      if found.None? {
        return Ok(None);
      }
      var plan := found.value.record;
      if plan.connectorId !in connectors {
        return Err(UnknownConnector);
      }
      var requestedMode := ValueOr(call.mode, plan.mode);
      if requestedMode != plan.mode {
        return Err(ModeMismatch);
      }
      if requestedMode == Enforce {
        r := CreateControlledEnforcementJob(connectors[plan.connectorId], plan, call, reply, clock);
        return;
      }
      if reply.verify.VerifyThrew? {
        return Err(ConnectorFailed);
      }
      var job := DryRunJob(env, plan, call, reply.verify.verified, clock);
      jobs := Put(jobs, JobRow(job));
      return Ok(Some(job));
    }

    method CreateControlledEnforcementJob(connector: Connector, plan: Plan, call: JobCall, reply: JobReply, clock: Clock)
      returns (r: Result<Option<Job>, Refusal>)
      modifies `plans, `jobs, `applies
      ensures (Contents(), r) == ExecuteEnforcementJob(env, old(Contents()), connector, plan, call, reply, clock)
    {
      hide AssertJobControlsMatchPlan, AssertControlledEnforcementAllowed, AssertEnforcementReadiness;
      var mismatch := AssertJobControlsMatchPlan(plan, call.approval, call.control);
      if mismatch.Some? {
        return Err(mismatch.value);
      }
      var approval := OrElse(call.approval, plan.approval);
      var control := OrElse(call.control, plan.control);
      var allowed := AssertControlledEnforcementAllowed(env, connector, approval, control, Some(call.approverId), clock.guardNow);
      if allowed.Some? {
        return Err(allowed.value);
      }
      var ready := AssertEnforcementReadiness(env, reports, connector, plan.connectorId, plan.readinessReportId, approval, control);
      if ready.Some? {
        return Err(ready.value);
      }
      applies := applies + [TheApplyCall(env, Contents(), connector, plan, call, clock.guardNow)];
      if reply.apply.ApplyThrew? {
        return Err(ConnectorFailed);
      }
      if reply.verify.VerifyThrew? {
        return Err(ConnectorFailed);
      }
      var completed := reply.apply.applied && reply.verify.verified;
      var job := EnforcementJob(env, plan, call, completed, reply.verify.verified, clock);
      plans := Put(plans, PlanRow(plan.(status := if completed then Applied else Failed, updatedAt := Some(clock.completedAt))));
      jobs := Put(jobs, JobRow(job));
      return Ok(Some(job));
    }
  }
}
