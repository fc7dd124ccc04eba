/**
  The guards in front of controlled enforcement: what a plan, its approval, its control
  settings, the connector and the stored readiness report must look like before a connector
  may be asked to apply the plan.
 */
module Enforcement {
  import opened Wrappers

  datatype Mode = DryRun | Enforce
  datatype PlanStatus = Planned | Approved | Applied | Failed | RolledBack

  datatype Approval = Approval(
    decision: string,
    approverId: string,
    changeTicket: string,
    approvedAt: string,
    expiresAt: Option<string>,
    reason: Option<string>)

  datatype Control = Control(syntheticOnly: bool, liveProviderWrites: bool, incidentMode: bool, breakGlass: bool)

  datatype Compensation = Compensation(planned: bool, idempotencyKey: Option<string>)

  /** `nativeGrantId` is the grant named by the requested state of the action. */
  datatype Action = Action(
    actionId: string,
    operation: string,
    nativeGrantId: Option<string>,
    dryRun: bool,
    status: PlanStatus,
    compensation: Option<Compensation>)

  datatype Plan = Plan(
    id: string,
    idempotencyKey: Option<string>,
    connectorId: string,
    subjectId: string,
    resourceId: string,
    action: string,
    mode: Mode,
    status: PlanStatus,
    actions: seq<Action>,
    approval: Option<Approval>,
    control: Option<Control>,
    readinessReportId: Option<string>,
    createdAt: string,
    updatedAt: Option<string>)

  datatype Connector = Connector(
    id: string,
    provider: Option<string>,
    tenantBoundary: Option<string>,
    supportsProvisioning: bool,
    supportsDiscovery: bool,
    supportsReconciliation: bool)

  datatype Report = Report(
    id: string,
    connectorId: string,
    provider: string,
    tenantBoundary: string,
    ready: bool,
    control: Control,
    changeTicketPattern: string,
    liveProviderWritesAllowed: bool)

  /** Date parsing (None is NaN), the change-ticket pattern match and the job id, a shortened hash of plan id and key. */
  datatype Environment = Environment(
    parseDate: string -> Option<int>,
    ticketMatches: (string, string) -> bool,
    jobId: (string, string) -> string)

  datatype Refusal =
    | UnknownConnector | ConnectorFailed | KeyReused | ModeMismatch | AlreadyRecorded
    | ApprovalRequired | ControlRequired | ApprovalInvalid | ApproverMismatch | ApprovalExpired
    | GuardrailRequired | IncidentModeBlocked | EnforcementDisabled | EnforcementNotAllowed
    | ReadinessRequired | ReadinessNotFound | ReadinessConnectorMismatch | ReadinessBoundaryMismatch
    | ReadinessBlocked | ReadinessLiveWritesBlocked | ReadinessControlMismatch | ReadinessTicketMismatch
    | ApprovalMismatch | ControlMismatch

  function ValueOr<T>(o: Option<T>, default: T): T {
    match o
    case Some(x) => x
    case None => default
  }

  function Provider(c: Connector): string {
    ValueOr(c.provider, c.id)
  }

  function Boundary(c: Connector): string {
    ValueOr(c.tenantBoundary, "synthetic:unknown")
  }

  // ---------------------------------------------------------------- readiness reports

  /** What the connector answers when it is asked for a probe plan. */
  datatype Probe = ProbeThrew | Probed(actions: seq<Action>)

  predicate HasCompensation(a: Action) {
    && a.compensation.Some?
    && a.compensation.value.planned
    && a.compensation.value.idempotencyKey.Some?
    && a.compensation.value.idempotencyKey.value != ""
  }

  predicate CompensationReady(probe: Probe) {
    probe.Probed? && probe.actions != [] && forall i :: 0 <= i < |probe.actions| ==> HasCompensation(probe.actions[i])
  }

  function ReadinessChecks(c: Connector, control: Control, probe: Probe): seq<bool> {
    [ true,
      control.syntheticOnly && !control.liveProviderWrites,
      Provider(c) == "mock" && Boundary(c) == "synthetic:local",
      c.supportsProvisioning,
      c.supportsDiscovery && c.supportsReconciliation,
      !control.incidentMode,
      !control.breakGlass,
      CompensationReady(probe),
      Provider(c) == "mock" ]
  }

  const DEFAULT_TICKET_PATTERN: string := "^chg:[a-z0-9_:-]+$"

  function ReadinessReport(id: string, connectorId: string, c: Connector, control: Control, pattern: Option<string>, probe: Probe): Report {
    Report(id, connectorId, Provider(c), Boundary(c), forall ok :: ok in ReadinessChecks(c, control, probe) ==> ok, control,
           ValueOr(pattern, DEFAULT_TICKET_PATTERN), false)
  }

  predicate SafeControl(c: Control) {
    c.syntheticOnly && !c.liveProviderWrites && !c.incidentMode && !c.breakGlass
  }

  /** What a ready report vouches for. */
  predicate Vouches(r: Report) {
    && !r.liveProviderWritesAllowed
    && (r.ready ==> SafeControl(r.control) && r.provider == "mock" && r.tenantBoundary == "synthetic:local")
  }

  lemma ReadyIff(id: string, connectorId: string, c: Connector, control: Control, pattern: Option<string>, probe: Probe)
    ensures var r := ReadinessReport(id, connectorId, c, control, pattern, probe);
      && Vouches(r)
      && r.id == id && r.connectorId == connectorId && r.control == control
      && (r.ready <==>
          && SafeControl(control) && Provider(c) == "mock" && Boundary(c) == "synthetic:local"
          && c.supportsProvisioning && c.supportsDiscovery && c.supportsReconciliation && CompensationReady(probe))
  {
    var checks := ReadinessChecks(c, control, probe);
    if ReadinessReport(id, connectorId, c, control, pattern, probe).ready {
      assert checks[1] in checks && checks[2] in checks && checks[3] in checks && checks[4] in checks;
      assert checks[5] in checks && checks[6] in checks && checks[7] in checks;
    }
  }

  // ---------------------------------------------------------------- guards, in the order the program checks them

  function AssertJobControlsMatchPlan(plan: Plan, approval: Option<Approval>, control: Option<Control>): Option<Refusal> {
    if approval.Some? && plan.approval.Some? && approval != plan.approval then Some(ApprovalMismatch)
    else if control.Some? && plan.control.Some? && control != plan.control then Some(ControlMismatch)
    else None
  }

  function AssertControlledEnforcementAllowed(env: Environment, c: Connector, approval: Option<Approval>, control: Option<Control>,
                                              approverId: Option<string>, now: string): Option<Refusal> {
    if approval.None? then Some(ApprovalRequired)
    else if control.None? then Some(ControlRequired)
    else
      var a := approval.value;
      if a.decision != "approved" || a.approverId == "" || a.changeTicket == "" || a.approvedAt == "" then Some(ApprovalInvalid)
      else if approverId.Some? && approverId.value != "" && a.approverId != approverId.value then Some(ApproverMismatch)
      else if env.parseDate(a.approvedAt).None? then Some(ApprovalInvalid)
      else if a.expiresAt.Some? && (env.parseDate(a.expiresAt.value).None? || env.parseDate(now).None?) then Some(ApprovalInvalid)
      else if a.expiresAt.Some? && env.parseDate(a.expiresAt.value).value <= env.parseDate(now).value then Some(ApprovalExpired)
      else if !control.value.syntheticOnly || control.value.liveProviderWrites || control.value.breakGlass then Some(GuardrailRequired)
      else if control.value.incidentMode then Some(IncidentModeBlocked)
      else if !c.supportsProvisioning then Some(EnforcementDisabled)
      else if c.provider != Some("mock") || c.tenantBoundary != Some("synthetic:local") then Some(EnforcementNotAllowed)
      else None
  }

  function AssertEnforcementReadiness(env: Environment, reports: map<string, Report>, c: Connector, connectorId: string,
                                      reportId: Option<string>, approval: Option<Approval>, control: Option<Control>): Option<Refusal> {
    if reportId.None? || reportId.value == "" then Some(ReadinessRequired)
    else if reportId.value !in reports then Some(ReadinessNotFound)
    else
      var r := reports[reportId.value];
      if r.connectorId != connectorId then Some(ReadinessConnectorMismatch)
      else if r.provider != Provider(c) || r.tenantBoundary != Boundary(c) then Some(ReadinessBoundaryMismatch)
      else if !r.ready then Some(ReadinessBlocked)
      else if r.liveProviderWritesAllowed then Some(ReadinessLiveWritesBlocked)
      else if control.Some? && r.control != control.value then Some(ReadinessControlMismatch)
      else if approval.Some? && !env.ticketMatches(r.changeTicketPattern, approval.value.changeTicket) then Some(ReadinessTicketMismatch)
      else None
  }

  // ---------------------------------------------------------------- what the guards are for

  predicate Unexpired(env: Environment, a: Approval, now: string) {
    a.expiresAt.Some? ==>
      && env.parseDate(a.expiresAt.value).Some?
      && env.parseDate(now).Some?
      && env.parseDate(now).value < env.parseDate(a.expiresAt.value).value
  }

  predicate ValidApproval(env: Environment, a: Approval, now: string) {
    && a.decision == "approved" && a.approverId != "" && a.changeTicket != ""
    && a.approvedAt != "" && env.parseDate(a.approvedAt).Some?
    && Unexpired(env, a, now)
  }

  predicate MockConnector(c: Connector) {
    c.supportsProvisioning && c.provider == Some("mock") && c.tenantBoundary == Some("synthetic:local")
  }

  /** Everything that must be true of an enforcement at the moment a plan is applied. */
  predicate Authorised(env: Environment, c: Connector, connectorId: string, r: Report, a: Approval, control: Control, now: string) {
    && ValidApproval(env, a, now)
    && SafeControl(control)
    && MockConnector(c)
    && r.connectorId == connectorId && r.provider == "mock" && r.tenantBoundary == "synthetic:local"
    && r.ready && !r.liveProviderWritesAllowed && r.control == control
    && env.ticketMatches(r.changeTicketPattern, a.changeTicket)
  }

  /** The two guards together let through exactly what is authorised. */
  lemma GuardsMeanAuthorised(env: Environment, reports: map<string, Report>, c: Connector, connectorId: string,
                             reportId: Option<string>, approval: Option<Approval>, control: Option<Control>,
                             approverId: Option<string>, now: string)
    ensures
      (AssertControlledEnforcementAllowed(env, c, approval, control, approverId, now) == None
       && AssertEnforcementReadiness(env, reports, c, connectorId, reportId, approval, control) == None)
      <==>
      (approval.Some? && control.Some?
       && (approverId.Some? && approverId.value != "" ==> approval.value.approverId == approverId.value)
       && reportId.Some? && reportId.value != "" && reportId.value in reports
       && Authorised(env, c, connectorId, reports[reportId.value], approval.value, control.value, now))
  {
  }

  /**
    What a readiness check is worth: the report it makes admits exactly enforcements of that
    connector under that control, with a change ticket of the wanted form, and only when every
    check passed.
   */
  lemma ReportAdmitsIff(env: Environment, reports: map<string, Report>, id: string, connectorId: string, c: Connector, control: Control,
                        pattern: Option<string>, probe: Probe, planConnectorId: string, approval: Approval, planControl: Control)
    ensures AssertEnforcementReadiness(env, reports[id := ReadinessReport(id, connectorId, c, control, pattern, probe)], c,
                                       planConnectorId, Some(id), Some(approval), Some(planControl)) == None
      <==>
      && id != "" && planConnectorId == connectorId && planControl == control
      && SafeControl(control) && Provider(c) == "mock" && Boundary(c) == "synthetic:local"
      && c.supportsProvisioning && c.supportsDiscovery && c.supportsReconciliation && CompensationReady(probe)
      && env.ticketMatches(if pattern.Some? then pattern.value else DEFAULT_TICKET_PATTERN, approval.changeTicket)
  {
    ReadyIff(id, connectorId, c, control, pattern, probe);
    hide ReadinessChecks, SafeControl, CompensationReady, DEFAULT_TICKET_PATTERN, Provider, Boundary;
  }

  predicate Parses(env: Environment, text: string) {
    env.parseDate(text).Some?
  }

  /** What is wrong when enforcement is refused with this reason. */
  predicate Explains(env: Environment, c: Connector, approval: Option<Approval>, control: Option<Control>, approverId: Option<string>,
                     now: string, e: Refusal) {
    match e
    case ApprovalRequired => approval.None?
    case ControlRequired => control.None?
    case ApprovalInvalid =>
      && approval.Some?
      && var a := approval.value;
         || a.decision != "approved" || a.approverId == "" || a.changeTicket == "" || !Parses(env, a.approvedAt) || a.approvedAt == ""
         || (a.expiresAt.Some? && !(Parses(env, a.expiresAt.value) && Parses(env, now)))
    case ApproverMismatch => approval.Some? && approverId.Some? && approverId.value != approval.value.approverId
    case ApprovalExpired =>
      && approval.Some? && approval.value.expiresAt.Some? && Parses(env, approval.value.expiresAt.value) && Parses(env, now)
      && env.parseDate(now).value >= env.parseDate(approval.value.expiresAt.value).value
    case GuardrailRequired => control.Some? && !(control.value.syntheticOnly && !control.value.liveProviderWrites && !control.value.breakGlass)
    case IncidentModeBlocked => control.Some? && control.value.incidentMode
    case EnforcementDisabled => !c.supportsProvisioning
    case EnforcementNotAllowed => c.provider != Some("mock") || c.tenantBoundary != Some("synthetic:local")
    case _ => false
  }

  /** What is wrong when a readiness report does not admit the enforcement, with this reason. */
  predicate ExplainsReadiness(env: Environment, reports: map<string, Report>, c: Connector, connectorId: string, reportId: Option<string>,
                              approval: Option<Approval>, control: Option<Control>, e: Refusal) {
    if e.ReadinessRequired? then reportId.None? || reportId.value == ""
    else if e.ReadinessNotFound? then reportId.Some? && reportId.value !in reports
    else
      && reportId.Some? && reportId.value in reports
      && var r := reports[reportId.value];
         match e
         case ReadinessConnectorMismatch => r.connectorId != connectorId
         case ReadinessBoundaryMismatch => r.provider != Provider(c) || r.tenantBoundary != Boundary(c)
         case ReadinessBlocked => !r.ready
         case ReadinessLiveWritesBlocked => r.liveProviderWritesAllowed
         case ReadinessControlMismatch => control.Some? && control.value != r.control
         case ReadinessTicketMismatch => approval.Some? && !env.ticketMatches(r.changeTicketPattern, approval.value.changeTicket)
         case _ => false
  }

  /** The guards never blame the wrong thing: what they refuse for is really wrong. */
  lemma RefusalIsExplained(env: Environment, reports: map<string, Report>, c: Connector, connectorId: string, reportId: Option<string>,
                           approval: Option<Approval>, control: Option<Control>, approverId: Option<string>, now: string)
    ensures var e := AssertControlledEnforcementAllowed(env, c, approval, control, approverId, now);
      e.Some? ==> Explains(env, c, approval, control, approverId, now, e.value)
    ensures var e := AssertEnforcementReadiness(env, reports, c, connectorId, reportId, approval, control);
      e.Some? ==> ExplainsReadiness(env, reports, c, connectorId, reportId, approval, control, e.value)
  {
  }

  // ---------------------------------------------------------------- preparing a plan

  datatype Options = Options(
    mode: Option<Mode>,
    approval: Option<Approval>,
    control: Option<Control>,
    readinessReportId: Option<string>)

  function RestartActions(actions: seq<Action>, dryRun: bool): (r: seq<Action>)
    ensures |r| == |actions|
    ensures forall i :: 0 <= i < |r| ==> r[i] == actions[i].(dryRun := dryRun, status := Planned)
  {
    seq(|actions|, i requires 0 <= i < |actions| => actions[i].(dryRun := dryRun, status := Planned))
  }

  function PrepareProvisioningPlanForExecution(env: Environment, reports: map<string, Report>, c: Connector, plan: Plan,
                                               options: Options, now: string): Result<Plan, Refusal> {
    if ValueOr(options.mode, DryRun) == DryRun then
      Ok(plan.(mode := DryRun, status := Planned, actions := RestartActions(plan.actions, true)))
    else
      var approverId := if options.approval.Some? then Some(options.approval.value.approverId) else None;
      var allowed := AssertControlledEnforcementAllowed(env, c, options.approval, options.control, approverId, now);
      if allowed.Some? then Err(allowed.value)
      else
        var ready := AssertEnforcementReadiness(env, reports, c, plan.connectorId, options.readinessReportId, options.approval, options.control);
        if ready.Some? then Err(ready.value)
        else Ok(plan.(mode := Enforce, status := Approved, actions := RestartActions(plan.actions, false),
                      approval := options.approval, control := options.control,
                      readinessReportId := options.readinessReportId))
  }

  /** A dry run is never refused; an enforcement is prepared exactly when it is authorised. */
  lemma PreparesIff(env: Environment, reports: map<string, Report>, c: Connector, plan: Plan, options: Options, now: string)
    ensures PrepareProvisioningPlanForExecution(env, reports, c, plan, options, now).Ok? <==>
      || ValueOr(options.mode, DryRun) == DryRun
      || (options.approval.Some? && options.control.Some?
          && options.readinessReportId.Some? && options.readinessReportId.value != "" && options.readinessReportId.value in reports
          && Authorised(env, c, plan.connectorId, reports[options.readinessReportId.value], options.approval.value, options.control.value, now))
  {
    var approverId := if options.approval.Some? then Some(options.approval.value.approverId) else None;
    GuardsMeanAuthorised(env, reports, c, plan.connectorId, options.readinessReportId, options.approval, options.control, approverId, now);
    hide AssertControlledEnforcementAllowed, AssertEnforcementReadiness, Authorised;
  }

  /** Nothing of the plan or of an action changes but what says how it will be executed. */
  predicate SameButExecution(p: Plan, q: Plan) {
    && q == p.(mode := q.mode, status := q.status, actions := q.actions, approval := q.approval, control := q.control,
               readinessReportId := q.readinessReportId)
    && |q.actions| == |p.actions|
    && forall i :: 0 <= i < |p.actions| ==> q.actions[i] == p.actions[i].(dryRun := q.actions[i].dryRun, status := q.actions[i].status)
  }

  /**
    A prepared plan asks for what the connector planned. Its actions all start as planned, and
    are dry runs exactly in a dry-run plan, which keeps what it carries and is only planned; an
    enforcement plan is approved and carries what the options gave.
   */
  lemma PreparedPlanKeepsRequest(env: Environment, reports: map<string, Report>, c: Connector, plan: Plan, options: Options, now: string)
    ensures var r := PrepareProvisioningPlanForExecution(env, reports, c, plan, options, now);
      r.Ok? ==>
        && SameButExecution(plan, r.value)
        && r.value.mode == ValueOr(options.mode, DryRun)
        && (forall a :: a in r.value.actions ==> a.status == Planned && (a.dryRun <==> r.value.mode == DryRun))
        && (r.value.mode == DryRun ==>
              && r.value.status == Planned && r.value.approval == plan.approval && r.value.control == plan.control
              && r.value.readinessReportId == plan.readinessReportId)
        && (r.value.mode == Enforce ==>
              && r.value.status == Approved && r.value.approval == options.approval && r.value.control == options.control
              && r.value.readinessReportId == options.readinessReportId)
  {
    hide AssertControlledEnforcementAllowed, AssertEnforcementReadiness;
  }

  /** A plan only becomes an enforcement plan when it is authorised at that moment, and it then carries what authorised it. */
  lemma PreparedEnforcementIsAuthorised(env: Environment, reports: map<string, Report>, c: Connector, plan: Plan, options: Options, now: string)
    ensures var r := PrepareProvisioningPlanForExecution(env, reports, c, plan, options, now);
      r.Ok? && r.value.mode == Enforce ==>
        && r.value.approval.Some? && r.value.control.Some?
        && r.value.readinessReportId.Some? && r.value.readinessReportId.value in reports
        && Authorised(env, c, plan.connectorId, reports[r.value.readinessReportId.value], r.value.approval.value, r.value.control.value, now)
        && forall i :: 0 <= i < |r.value.actions| ==> !r.value.actions[i].dryRun
  {
  }
}
