/**
  Loading an AWS snapshot and synchronising it into the store: when the native grants of a
  connector may be replaced, and how the run is reported.
 */
module AwsDiscovery {
  import opened Wrappers
  import opened AwsReader
  import opened RetryDelay
  import opened PagedReads

  datatype NativeGrant = NativeGrant(id: string, sourceConnectorId: string, attributes: map<string, string>)

  datatype Snapshot = Snapshot(resources: seq<string>, grantsByResource: map<string, seq<NativeGrant>>)

  datatype Inventory = Inventory(
    organization: seq<AwsObject>,
    accounts: seq<AwsObject>,
    permissionSets: seq<AwsObject>,
    roles: seq<AwsObject>,
    events: seq<AwsObject>,
    findings: seq<AwsObject>,
    assignments: seq<AwsObject>)

  /** The mapping from provider objects to canonical records, with the warnings it pushes. */
  type Build = Inventory -> (Snapshot, seq<Warning>)

  type Queues = map<Operation, seq<Page>>

  function QueueOf(queues: Queues, op: Operation): seq<Page> {
    if op in queues then queues[op] else []
  }

  /**
    The state of a load. `complete` is the native-access flag; `unfinished` lists the reads
    that stopped early; `failed` says that the client threw and the load was abandoned.
   */
  datatype Loading = Loading(queues: Queues, warnings: seq<Warning>, complete: bool, unfinished: seq<Operation>, failed: bool)

  function ReadOne(cfg: Config, op: Operation, s: Loading): (seq<AwsObject>, Loading) {
    if s.failed then ([], s)
    else
      var read := ReadFrom(cfg, op, QueueOf(s.queues, op), 0, 0);
      var unfinished := !read.threw && !read.completed;
      (if read.threw then [] else read.values,
       Loading(
         s.queues[op := read.rest],
         PushAll(s.warnings, read.warnings),
         s.complete && !(unfinished && ScopeOf(op).NativeGrantsScope?),
         if unfinished then s.unfinished + [op] else s.unfinished,
         read.threw))
  }

  const MISSING_ID: Warning := Warning(ObjectMissingIdSkipped, ResourcesScope, "", Warn, false)

  const CLOUDTRAIL_EMPTY: Warning := Warning(CloudTrailActivityEmpty, NativeGrantsScope, "", Warn, true)

  function Warned(s: Loading, w: Warning): Loading {
    if s.failed then s else s.(warnings := Push(s.warnings, w))
  }

  /** Assignments of one account for the first permission sets. */
  function ReadForAccount(cfg: Config, account: AwsObject, permissionSets: seq<AwsObject>, s: Loading): (seq<AwsObject>, Loading) {
    if permissionSets == [] then ([], s)
    else
      var n := |permissionSets| - 1;
      var (before, t) := ReadForAccount(cfg, account, permissionSets[..n], s);
      if permissionSets[n].key == "" then (before, Warned(t, MISSING_ID))
      else
        var (more, u) := ReadOne(cfg, ListAccountAssignments(account.key, permissionSets[n].key), t);
        (before + more, u)
  }

  function ReadAssignments(cfg: Config, accounts: seq<AwsObject>, permissionSets: seq<AwsObject>, s: Loading): (seq<AwsObject>, Loading) {
    if accounts == [] then ([], s)
    else
      var n := |accounts| - 1;
      var (before, t) := ReadAssignments(cfg, accounts[..n], permissionSets, s);
      if accounts[n].key == "" then (before, Warned(t, MISSING_ID))
      else
        var (more, u) := ReadForAccount(cfg, accounts[n], permissionSets, t);
        (before + more, u)
  }

  function Fresh(queues: Queues): Loading {
    Loading(queues, [], true, [], false)
  }

  function ReadInventory(cfg: Config, queues: Queues): (Inventory, Loading) {
    var (organization, s1) := ReadOne(cfg, DescribeOrganization, Fresh(queues));
    var (accounts, s2) := ReadOne(cfg, ListAccounts, s1);
    var (permissionSets, s3) := ReadOne(cfg, ListPermissionSets, s2);
    var (roles, s4) := ReadOne(cfg, ListRoles, s3);
    var (events, s5) := ReadOne(cfg, LookupEvents, s4);
    var (findings, s6) := ReadOne(cfg, ListFindings, s5);
    var (assignments, s7) := ReadAssignments(cfg, accounts, permissionSets, s6);
    (Inventory(organization, accounts, permissionSets, roles, events, findings, assignments),
     if events == [] then Warned(s7, CLOUDTRAIL_EMPTY) else s7)
  }

  // ---------------------------------------------------------------- invariant

  /** The flag is down exactly when a native-access read stopped early, and then that is reported. */
  ghost predicate Honest(s: Loading) {
    && AllShaped(s.warnings)
    && (s.complete <==> forall op :: op in s.unfinished ==> !ScopeOf(op).NativeGrantsScope?)
    && (!s.complete ==> Reported(s.warnings))
  }

  lemma PushAllNone(ws: seq<Warning>)
    ensures PushAll(ws, []) == ws
  {
  }

  lemma ReadOneHonest(cfg: Config, op: Operation, s: Loading)
    requires Honest(s)
    ensures Honest(ReadOne(cfg, op, s).1)
  {
    hide ReadFrom, PushAll, Push, ScopeOf, Shaped, ReportsIncomplete;
    if !s.failed {
      var read := ReadFrom(cfg, op, QueueOf(s.queues, op), 0, 0);
      ReadWarningsShaped(cfg, op, QueueOf(s.queues, op), 0, 0);
      if ScopeOf(op).NativeGrantsScope? {
        UnfinishedReadIsReported(cfg, op, QueueOf(s.queues, op), 0, 0);
      }
      ReportSurvives(s.warnings, read.warnings);
      if Reported(read.warnings) {
        PushAllReports(s.warnings, read.warnings);
      }
    }
  }

  lemma {:induction false} PushAllReports(ws: seq<Warning>, more: seq<Warning>)
    requires AllShaped(ws) && AllShaped(more) && Reported(more)
    ensures Reported(PushAll(ws, more))
    decreases |more|
  {
    hide Shaped, ReportsIncomplete, Push;
    var w :| w in more && ReportsIncomplete(w);
    assert more[0] in more;
    PushMembers(ws, more[0]);
    assert AllShaped(more[1..]);
    if w == more[0] {
      PushKeepsReport(ws, more[0]);
      ReportSurvives(Push(ws, more[0]), more[1..]);
    } else {
      assert w in more[1..];
      PushAllReports(Push(ws, more[0]), more[1..]);
    }
  }

  lemma WarnedHonest(s: Loading, w: Warning)
    requires Honest(s) && Shaped(w)
    ensures Honest(Warned(s, w))
  {
    PushMembers(s.warnings, w);
    if Reported(s.warnings) {
      PushKeepsReport(s.warnings, w);
    }
  }

  lemma {:induction false} ReadForAccountHonest(cfg: Config, account: AwsObject, permissionSets: seq<AwsObject>, s: Loading)
    requires Honest(s)
    ensures Honest(ReadForAccount(cfg, account, permissionSets, s).1)
    decreases |permissionSets|
  {
    hide ReadOne, Honest, Warned;
    if permissionSets != [] {
      var n := |permissionSets| - 1;
      var t := ReadForAccount(cfg, account, permissionSets[..n], s).1;
      ReadForAccountHonest(cfg, account, permissionSets[..n], s);
      WarnedHonest(t, MISSING_ID);
      ReadOneHonest(cfg, ListAccountAssignments(account.key, permissionSets[n].key), t);
    }
  }

  lemma {:induction false} ReadAssignmentsHonest(cfg: Config, accounts: seq<AwsObject>, permissionSets: seq<AwsObject>, s: Loading)
    requires Honest(s)
    ensures Honest(ReadAssignments(cfg, accounts, permissionSets, s).1)
    decreases |accounts|
  {
    hide ReadForAccount, Honest, Warned;
    if accounts != [] {
      var n := |accounts| - 1;
      var t := ReadAssignments(cfg, accounts[..n], permissionSets, s).1;
      ReadAssignmentsHonest(cfg, accounts[..n], permissionSets, s);
      WarnedHonest(t, MISSING_ID);
      ReadForAccountHonest(cfg, accounts[n], permissionSets, t);
    }
  }

  lemma ReadInventoryHonest(cfg: Config, queues: Queues)
    ensures Honest(ReadInventory(cfg, queues).1)
  {
    hide ReadOne, ReadAssignments, Warned;
    var s0 := Fresh(queues);
    assert Honest(s0);
    var (_, s1) := ReadOne(cfg, DescribeOrganization, s0);
    ReadOneHonest(cfg, DescribeOrganization, s0);
    var (accounts, s2) := ReadOne(cfg, ListAccounts, s1);
    ReadOneHonest(cfg, ListAccounts, s1);
    var (permissionSets, s3) := ReadOne(cfg, ListPermissionSets, s2);
    ReadOneHonest(cfg, ListPermissionSets, s2);
    var (_, s4) := ReadOne(cfg, ListRoles, s3);
    ReadOneHonest(cfg, ListRoles, s3);
    var (_, s5) := ReadOne(cfg, LookupEvents, s4);
    ReadOneHonest(cfg, LookupEvents, s4);
    var (_, s6) := ReadOne(cfg, ListFindings, s5);
    ReadOneHonest(cfg, ListFindings, s5);
    var (_, s7) := ReadAssignments(cfg, accounts, permissionSets, s6);
    ReadAssignmentsHonest(cfg, accounts, permissionSets, s6);
    WarnedHonest(s7, CLOUDTRAIL_EMPTY);
  }

  // ---------------------------------------------------------------- the store

  function Upsert(grants: map<string, NativeGrant>, more: seq<NativeGrant>): map<string, NativeGrant>
    decreases |more|
  {
    if more == [] then grants else Upsert(grants[more[0].id := more[0]], more[1..])
  }

  /** `replaceNativeGrantsForConnector` */
  function Replace(grants: map<string, NativeGrant>, connectorId: string, more: seq<NativeGrant>): map<string, NativeGrant> {
    Upsert(map id | id in grants && grants[id].sourceConnectorId != connectorId :: grants[id], more)
  }

  function GrantsOf(snapshot: Snapshot, resources: seq<string>): seq<NativeGrant> {
    if resources == [] then []
    else
      var n := |resources| - 1;
      GrantsOf(snapshot, resources[..n])
        + (if resources[n] in snapshot.grantsByResource then snapshot.grantsByResource[resources[n]] else [])
  }

  lemma {:induction false} UpsertKeepsOthers(grants: map<string, NativeGrant>, more: seq<NativeGrant>, id: string)
    requires forall g :: g in more ==> g.id != id
    ensures id in Upsert(grants, more) <==> id in grants
    ensures id in grants ==> Upsert(grants, more)[id] == grants[id]
    decreases |more|
  {
    if more != [] {
      UpsertKeepsOthers(grants[more[0].id := more[0]], more[1..], id);
    }
  }

  /** A replacement drops a grant exactly when it is the connector's own and was not read again. */
  lemma ReplaceDrops(grants: map<string, NativeGrant>, connectorId: string, more: seq<NativeGrant>, id: string)
    requires id in grants
    ensures id !in Replace(grants, connectorId, more) <==>
      grants[id].sourceConnectorId == connectorId && forall g :: g in more ==> g.id != id
  {
    var kept := map k | k in grants && grants[k].sourceConnectorId != connectorId :: grants[k];
    if exists g :: g in more && g.id == id {
      UpsertHas(kept, more, id);
    } else {
      UpsertKeepsOthers(kept, more, id);
    }
  }

  lemma {:induction false} UpsertHas(grants: map<string, NativeGrant>, more: seq<NativeGrant>, id: string)
    requires id in grants || exists g :: g in more && g.id == id
    ensures id in Upsert(grants, more)
    decreases |more|
  {
    if more != [] {
      assert forall g :: g in more <==> g == more[0] || g in more[1..];
      UpsertHas(grants[more[0].id := more[0]], more[1..], id);
    }
  }

  /** `g` is the last of the grants with this id. */
  ghost predicate LastWithId(grants: seq<NativeGrant>, id: string, g: NativeGrant) {
    exists i :: 0 <= i < |grants| && grants[i] == g && g.id == id && forall j :: i < j < |grants| ==> grants[j].id != id
  }

  lemma {:induction false} UpsertHolds(grants: map<string, NativeGrant>, more: seq<NativeGrant>, id: string)
    requires exists g :: g in more && g.id == id
    ensures id in Upsert(grants, more) && LastWithId(more, id, Upsert(grants, more)[id])
    decreases |more|
  {
    var rest, next := more[1..], grants[more[0].id := more[0]];
    assert forall g :: g in more <==> g == more[0] || g in rest;
    if exists g :: g in rest && g.id == id {
      UpsertHolds(next, rest, id);
      var g := Upsert(next, rest)[id];
      var i :| 0 <= i < |rest| && rest[i] == g && g.id == id && forall j :: i < j < |rest| ==> rest[j].id != id;
      assert more[i + 1] == g && forall j :: i + 1 < j < |more| ==> more[j] == rest[j - 1];
    } else {
      UpsertKeepsOthers(next, rest, id);
      assert forall j :: 0 < j < |more| ==> more[j] == rest[j - 1] && rest[j - 1] in rest;
      assert more[0].id == id;
    }
  }

  /**
    A connector's grants have been replaced: every id that was read again holds the last grant
    read under it, every other one keeps a grant of another connector and loses its own.
   */
  ghost predicate Replaced(before: map<string, NativeGrant>, after: map<string, NativeGrant>, connectorId: string, more: seq<NativeGrant>) {
    forall id ::
      if exists g :: g in more && g.id == id then id in after && LastWithId(more, id, after[id])
      else if id in before && before[id].sourceConnectorId != connectorId then id in after && after[id] == before[id]
      else id !in after
  }

  lemma ReplaceReplaces(grants: map<string, NativeGrant>, connectorId: string, more: seq<NativeGrant>)
    ensures Replaced(grants, Replace(grants, connectorId, more), connectorId, more)
  {
    hide LastWithId;
    var kept := map k | k in grants && grants[k].sourceConnectorId != connectorId :: grants[k];
    forall id
      ensures var after := Replace(grants, connectorId, more);
        if exists g :: g in more && g.id == id then id in after && LastWithId(more, id, after[id])
        else if id in grants && grants[id].sourceConnectorId != connectorId then id in after && after[id] == grants[id]
        else id !in after
    {
      if exists g :: g in more && g.id == id {
        UpsertHolds(kept, more, id);
      } else {
        UpsertKeepsOthers(kept, more, id);
      }
    }
  }

  /** The grants of a snapshot are those of its resources. */
  lemma {:induction false} GrantsOfIff(snapshot: Snapshot, resources: seq<string>, g: NativeGrant)
    ensures g in GrantsOf(snapshot, resources) <==>
      exists r :: r in resources && r in snapshot.grantsByResource && g in snapshot.grantsByResource[r]
    decreases |resources|
  {
    if resources != [] {
      var n := |resources| - 1;
      assert resources == resources[..n] + [resources[n]];
      GrantsOfIff(snapshot, resources[..n], g);
    }
  }

  // ---------------------------------------------------------------- pushing, position by position

  lemma TakeOne<T>(s: seq<T>, i: nat, rest: seq<T>)
    requires i < |s|
    ensures s[i..][0] == s[i] && s[i..][1..] == s[i + 1..]
    ensures s[..i] + ([s[i]] + rest) == s[..i + 1] + rest
    ensures s[..i] + ([s[i]] + s[i + 1..]) == s
  {
    assert s[..i + 1] == s[..i] + [s[i]];
    assert s[..i + 1] + s[i + 1..] == s;
  }

  lemma PushPasses(ws: seq<Warning>, w: Warning, i: nat)
    requires i < |ws| && !SameKey(ws[i], w) && Push(ws, w) == ws[..i] + Push(ws[i..], w)
    ensures Push(ws, w) == ws[..i + 1] + Push(ws[i + 1..], w)
  {
    PushTurn(ws[i..], w);
    hide Push, SameKey;
    TakeOne(ws, i, Push(ws[i + 1..], w));
  }

  lemma PushFinds(ws: seq<Warning>, w: Warning, i: nat)
    requires i < |ws| && SameKey(ws[i], w) && Push(ws, w) == ws[..i] + Push(ws[i..], w)
    ensures Push(ws, w) == if Supersedes(ws[i], w) then ws[..i] + [w] + ws[i + 1..] else ws
  {
    PushTurn(ws[i..], w);
    hide Push, SameKey, Supersedes;
    TakeOne(ws, i, []);
    if Supersedes(ws[i], w) {
      assert ws[..i] + ([w] + ws[i + 1..]) == ws[..i] + [w] + ws[i + 1..];
    }
  }

  lemma PushTurn(ws: seq<Warning>, w: Warning)
    requires ws != []
    ensures Push(ws, w) ==
      if SameKey(ws[0], w) then [if Supersedes(ws[0], w) then w else ws[0]] + ws[1..] else [ws[0]] + Push(ws[1..], w)
  {
  }

  lemma PushAppends(ws: seq<Warning>, w: Warning)
    requires Push(ws, w) == ws[..|ws|] + Push(ws[|ws|..], w)
    ensures Push(ws, w) == ws + [w]
  {
    assert ws[..|ws|] == ws && ws[|ws|..] == [];
  }

  // ---------------------------------------------------------------- the connector

  datatype RunStatus = Completed | CompletedWithWarnings

  datatype DiscoveryRun = DiscoveryRun(status: RunStatus, nativeGrantCount: nat, warnings: seq<Warning>)

  class AwsConnector {
    const cfg: Config
    const build: Build
    const baseWarnings: seq<Warning>
    var queues: Queues
    var warnings: seq<Warning>
    var nativeAccessReadbackComplete: bool
    var snapshot: Option<Snapshot>
    var slept: nat
    ghost var calls: nat
    ghost var unfinished: seq<Operation>

    ghost predicate Valid()
      reads this
    {
      && (forall inventory :: AllShaped(build(inventory).1))
      && Honest(State(false))
    }

    ghost function State(failed: bool): Loading
      reads this
    {
      Loading(queues, warnings, nativeAccessReadbackComplete, unfinished, failed)
    }

    constructor (cfg: Config, build: Build, baseWarnings: seq<Warning>, queues: Queues)
      requires forall inventory :: AllShaped(build(inventory).1)
      ensures Valid() && this.cfg == cfg && this.build == build && this.baseWarnings == baseWarnings
      ensures this.queues == queues && snapshot.None? && nativeAccessReadbackComplete && warnings == []
    {
      this.cfg, this.build, this.baseWarnings, this.queues := cfg, build, baseWarnings, queues;
      warnings, nativeAccessReadbackComplete, snapshot, unfinished := [], true, None, [];
      slept, calls := 0, 0;
    }

    method PushWarning(w: Warning)
      modifies this`warnings
      ensures warnings == Push(old(warnings), w)
    {
      hide Push;
      var i := 0;
      while i < |warnings| && !SameKey(warnings[i], w)
        invariant 0 <= i <= |warnings| && warnings == old(warnings)
        invariant Push(warnings, w) == warnings[..i] + Push(warnings[i..], w)
      {
        PushPasses(warnings, w, i);
        i := i + 1;
      }
      if i < |warnings| {
        PushFinds(warnings, w, i);
        if Supersedes(warnings[i], w) {
          warnings := warnings[..i] + [w] + warnings[i + 1..];
        }
      } else {
        PushAppends(warnings, w);
        warnings := warnings + [w];
      }
    }

    method Sleep(retryAfterSeconds: Option<real>)
      modifies this`slept
      ensures slept == old(slept) + RetryAfterMilliseconds(retryAfterSeconds)
    {
      var retryAfterMilliseconds := RetryAfterMilliseconds(retryAfterSeconds);
      if retryAfterMilliseconds > 0 {
        slept := slept + retryAfterMilliseconds;
      }
    }

    /** The page loop of one collection. */
    method ReadCollectionResult(op: Operation) returns (r: Result<(seq<AwsObject>, bool), ()>)
      modifies this`queues, this`warnings, this`slept, this`calls
      ensures var read := ReadFrom(cfg, op, QueueOf(old(queues), op), 0, 0);
        && queues == old(queues)[op := read.rest]
        && warnings == PushAll(old(warnings), read.warnings)
        && r == (if read.threw then Err(()) else Ok((read.values, read.completed)))
        && calls == old(calls) + read.calls && slept == old(slept) + read.slept
      ensures calls <= old(calls) + MaxCalls(cfg) && slept <= old(slept) + MaxSleep(cfg)
    {
      hide MaxCalls, MaxSleep, RetryAfterMilliseconds, ReadFrom, Push, PushAll, PageLimitWarning, ThrottleWarning, SkippedWarning, PaginationWarning;
      var pages := QueueOf(queues, op);
      WholeReadIsBounded(cfg, op, pages);
      ghost var start := ReadFrom(cfg, op, pages, 0, 0);
      ghost var rest := start;
      var values: seq<AwsObject> := [];
      var pageCount, retryCount := 0, 0;
      var completed, next := true, true;
      while next
        invariant queues == old(queues)
        invariant start.values == values + rest.values && start.threw == rest.threw && start.rest == rest.rest
        invariant start.completed == rest.completed
        invariant PushAll(warnings, rest.warnings) == PushAll(old(warnings), start.warnings)
        invariant calls + rest.calls == old(calls) + start.calls && slept + rest.slept == old(slept) + start.slept
        invariant completed
        invariant next ==> rest == ReadFrom(cfg, op, pages, pageCount, retryCount)
        invariant !next ==> rest.values == [] && rest.completed && !rest.threw && rest.rest == pages && rest.warnings == []
        invariant !next ==> rest.calls == 0 && rest.slept == 0
        decreases next, |pages|
      {
        ReadTurn(cfg, op, pages, pageCount, retryCount);
        if pageCount >= cfg.maxPages {
          completed := false;
          PushAllOne(warnings, PageLimitWarning(op));
          PushWarning(PageLimitWarning(op));
          break;
        }
        calls := calls + 1;
        if pages == [] {
          PushAllNone(warnings);
          queues := queues[op := pages];
          return Err(());
        }
        var page := pages[0];
        pages := pages[1..];
        if IsThrottle(page) {
          retryCount := retryCount + 1;
          PushAllOne(warnings, ThrottleWarning(cfg, op, retryCount));
          if retryCount <= cfg.maxRetries {
            rest := ReadFrom(cfg, op, pages, pageCount, retryCount);
            PushAllStep(warnings, ThrottleWarning(cfg, op, retryCount), rest.warnings);
            PushWarning(ThrottleWarning(cfg, op, retryCount));
            Sleep(page.retryAfterSeconds);
            continue;
          }
          PushWarning(ThrottleWarning(cfg, op, retryCount));
          completed := false;
          break;
        }
        if page.status >= 400 {
          completed := false;
          PushAllOne(warnings, SkippedWarning(op, page.status));
          PushWarning(SkippedWarning(op, page.status));
          break;
        }
        retryCount := 0;
        pageCount := pageCount + 1;
        values := values + page.value;
        if page.nextToken {
          rest := ReadFrom(cfg, op, pages, pageCount, retryCount);
          PushAllStep(warnings, PaginationWarning(op), rest.warnings);
          PushWarning(PaginationWarning(op));
        } else {
          rest := Read([], true, false, pages, [], 0, 0);
          next := false;
        }
      }
      PushAllNone(warnings);
      assert values + [] == values;
      queues := queues[op := pages];
      return Ok((values, completed));
    }

    method ReadCollection(op: Operation) returns (r: Result<seq<AwsObject>, ()>)
      modifies this`queues, this`warnings, this`nativeAccessReadbackComplete, this`unfinished, this`slept, this`calls
      ensures r.Err? <==> ReadOne(cfg, op, old(State(false))).1.failed
      ensures r.Ok? ==> (r.value, State(false)) == ReadOne(cfg, op, old(State(false)))
      ensures old(Honest(State(false))) ==> Honest(State(false))
    {
      hide ReadFrom, PushAll, ScopeOf, AllShaped, Reported;
      ghost var start := State(false);
      if Honest(start) {
        ReadOneHonest(cfg, op, start);
      }
      var read := ReadCollectionResult(op);
      if read.Err? {
        return Err(());
      }
      if !read.value.1 {
        unfinished := unfinished + [op];
        if ScopeOf(op).NativeGrantsScope? {
          nativeAccessReadbackComplete := false;
        }
      }
      return Ok(read.value.0);
    }

    /** Reads the assignments of every account and permission set that has an identifier. */
    method ReadAccountAssignments(accounts: seq<AwsObject>, permissionSets: seq<AwsObject>)
      returns (r: Result<seq<AwsObject>, ()>)
      modifies this`queues, this`warnings, this`nativeAccessReadbackComplete, this`unfinished, this`slept, this`calls
      ensures r.Ok? ==> (r.value, State(false)) == ReadAssignments(cfg, accounts, permissionSets, old(State(false)))
      ensures old(Honest(State(false))) ==> Honest(State(false))
    {
      hide ReadOne, Push, Honest;
      ghost var start := State(false);
      var assignments: seq<AwsObject> := [];
      for i := 0 to |accounts|
        invariant (assignments, State(false)) == ReadAssignments(cfg, accounts[..i], permissionSets, start)
        invariant Honest(start) ==> Honest(State(false))
      {
        assert accounts[..i + 1][..i] == accounts[..i];
        if accounts[i].key == "" {
          PushMissingId();
          continue;
        }
        ghost var before := State(false);
        var mine: seq<AwsObject> := [];
        for j := 0 to |permissionSets|
          invariant (mine, State(false)) == ReadForAccount(cfg, accounts[i], permissionSets[..j], before)
          invariant Honest(start) ==> Honest(State(false))
        {
          assert permissionSets[..j + 1][..j] == permissionSets[..j];
          if permissionSets[j].key == "" {
            PushMissingId();
            continue;
          }
          var read := ReadCollection(ListAccountAssignments(accounts[i].key, permissionSets[j].key));
          if read.Err? {
            return Err(());
          }
          mine := mine + read.value;
        }
        assert permissionSets[..|permissionSets|] == permissionSets;
        assignments := assignments + mine;
      }
      assert accounts[..|accounts|] == accounts;
      return Ok(assignments);
    }

    method PushMissingId()
      modifies this`warnings
      ensures State(false) == Warned(old(State(false)), MISSING_ID)
      ensures old(Honest(State(false))) ==> Honest(State(false))
    {
      hide Push, Honest;
      ghost var start := State(false);
      if Honest(start) {
        WarnedHonest(start, MISSING_ID);
      }
      PushWarning(MISSING_ID);
    }

    method PushBuildWarnings(more: seq<Warning>)
      requires AllShaped(more) && Honest(State(false))
      modifies this`warnings
      ensures warnings == PushAll(old(warnings), more)
      ensures Honest(State(false))
    {
      hide Push;
      ReportSurvives(warnings, more);
      for i := 0 to |more|
        invariant PushAll(warnings, more[i..]) == PushAll(old(warnings), more)
      {
        assert more[i..] == [more[i]] + more[i + 1..];
        PushAllStep(warnings, more[i], more[i + 1..]);
        PushWarning(more[i]);
      }
      PushAllNone(warnings);
    }

    method ReadWholeInventory() returns (r: Result<Inventory, ()>)
      requires State(false) == Fresh(queues)
      modifies this`queues, this`warnings, this`nativeAccessReadbackComplete, this`unfinished, this`slept, this`calls
      ensures Honest(State(false))
      ensures r.Ok? ==> (r.value, State(false)) == ReadInventory(cfg, old(queues))
    {
      hide ReadOne, ReadAssignments, Push, Honest;
      FreshHonest(queues);
      var organization := ReadCollection(DescribeOrganization);
      if organization.Err? { return Err(()); }
      var accounts := ReadCollection(ListAccounts);
      if accounts.Err? { return Err(()); }
      var permissionSets := ReadCollection(ListPermissionSets);
      if permissionSets.Err? { return Err(()); }
      var roles := ReadCollection(ListRoles);
      if roles.Err? { return Err(()); }
      var events := ReadCollection(LookupEvents);
      if events.Err? { return Err(()); }
      var findings := ReadCollection(ListFindings);
      if findings.Err? { return Err(()); }
      var assignments := ReadAccountAssignments(accounts.value, permissionSets.value);
      if assignments.Err? { return Err(()); }
      ghost var read := State(false);
      if |events.value| == 0 {
        WarnedHonest(read, CLOUDTRAIL_EMPTY);
        PushWarning(CLOUDTRAIL_EMPTY);
      }
      return Ok(Inventory(organization.value, accounts.value, permissionSets.value, roles.value,
        events.value, findings.value, assignments.value));
    }

    /** Loads the snapshot, once. A client that throws leaves no snapshot. */
    method LoadSnapshot() returns (r: Result<Snapshot, ()>)
      requires Valid()
      modifies this`queues, this`warnings, this`nativeAccessReadbackComplete, this`unfinished, this`slept, this`calls, this`snapshot
      ensures Valid() && (r.Ok? ==> snapshot == Some(r.value)) && (r.Err? ==> snapshot.None?)
      ensures old(snapshot).Some? ==> unchanged(this)
      ensures old(snapshot).None? && r.Ok? ==>
        var (inventory, s) := ReadInventory(cfg, old(queues));
        && r.value == build(inventory).0
        && State(false) == s.(warnings := PushAll(s.warnings, build(inventory).1))
    {
      if snapshot.Some? {
        return Ok(snapshot.value);
      }
      hide ReadInventory, PushAll, Honest, AllShaped;
      warnings, nativeAccessReadbackComplete, unfinished := [], true, [];
      var inventory := ReadWholeInventory();
      if inventory.Err? {
        return Err(());
      }
      var (built, buildWarnings) := build(inventory.value);
      PushBuildWarnings(buildWarnings);
      snapshot := Some(built);
      return Ok(built);
    }
  }

  lemma FreshHonest(queues: Queues)
    ensures Honest(Fresh(queues))
  {
  }

  // ---------------------------------------------------------------- synchronisation

  class GrantStore {
    var nativeGrants: map<string, NativeGrant>

    constructor ()
      ensures nativeGrants == map[]
    {
      nativeGrants := map[];
    }

    method ReplaceNativeGrantsForConnector(connectorId: string, grants: seq<NativeGrant>)
      modifies this
      ensures nativeGrants == Replace(old(nativeGrants), connectorId, grants)
      ensures Replaced(old(nativeGrants), nativeGrants, connectorId, grants)
    {
      ReplaceReplaces(nativeGrants, connectorId, grants);
      hide Replaced;
      nativeGrants := map id | id in nativeGrants && nativeGrants[id].sourceConnectorId != connectorId :: nativeGrants[id];
      for i := 0 to |grants|
        invariant Upsert(nativeGrants, grants[i..]) == Replace(old(nativeGrants), connectorId, grants)
      {
        assert grants[i..][1..] == grants[i + 1..];
        nativeGrants := nativeGrants[grants[i].id := grants[i]];
      }
    }
  }

  /**
    One synchronisation. When the native-access flag is down no stored grant changes and
    the run is reported with warnings; otherwise the connector's grants are replaced.
   */
  method SyncConnector(connector: AwsConnector, connectorId: string, store: GrantStore) returns (r: Result<DiscoveryRun, ()>)
    requires connector.Valid()
    modifies connector, store
    ensures connector.Valid()
    ensures r.Err? ==> store.nativeGrants == old(store.nativeGrants)
    ensures r.Ok? && !connector.nativeAccessReadbackComplete ==>
      store.nativeGrants == old(store.nativeGrants) && r.value.status == CompletedWithWarnings
    ensures r.Ok? && connector.nativeAccessReadbackComplete ==>
      connector.snapshot.Some?
      && store.nativeGrants == Replace(old(store.nativeGrants), connectorId,
           GrantsOf(connector.snapshot.value, connector.snapshot.value.resources))
    ensures r.Ok? && connector.nativeAccessReadbackComplete ==>
      Replaced(old(store.nativeGrants), store.nativeGrants, connectorId, GrantsOf(connector.snapshot.value, connector.snapshot.value.resources))
    ensures r.Ok? && !connector.nativeAccessReadbackComplete ==> Reported(r.value.warnings)
    ensures r.Ok? ==> r.value.warnings == connector.baseWarnings + connector.warnings
    ensures r.Ok? ==> (r.value.status == Completed <==> r.value.warnings == [])
    ensures r.Ok? ==> connector.snapshot.Some?
    ensures r.Ok? && old(connector.snapshot).None? ==>
      var (inventory, loading) := ReadInventory(connector.cfg, old(connector.queues));
      && connector.snapshot == Some(connector.build(inventory).0)
      && connector.nativeAccessReadbackComplete == loading.complete && !loading.failed
    ensures r.Ok? ==> r.value.nativeGrantCount == |GrantsOf(connector.snapshot.value, connector.snapshot.value.resources)|
  {
    hide ReadInventory, PushAll, Replace, Replaced;
    var loaded := connector.LoadSnapshot();
    if loaded.Err? {
      return Err(());
    }
    var snapshot := loaded.value;
    var nativeGrants: seq<NativeGrant> := [];
    for i := 0 to |snapshot.resources|
      invariant nativeGrants == GrantsOf(snapshot, snapshot.resources[..i])
    {
      assert snapshot.resources[..i + 1][..i] == snapshot.resources[..i];
      var resource := snapshot.resources[i];
      nativeGrants := nativeGrants + (if resource in snapshot.grantsByResource then snapshot.grantsByResource[resource] else []);
    }
    assert snapshot.resources[..|snapshot.resources|] == snapshot.resources;
    if connector.nativeAccessReadbackComplete {
      store.ReplaceNativeGrantsForConnector(connectorId, nativeGrants);
    }
    var warnings := connector.baseWarnings + connector.warnings;
    assert forall w :: w in connector.warnings ==> w in warnings;
    return Ok(DiscoveryRun(if |warnings| > 0 then CompletedWithWarnings else Completed, |nativeGrants|, warnings));
  }
}
