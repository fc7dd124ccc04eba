/**
  The AWS reader: paged reads with throttling, coverage warnings that are merged by key,
  and the flag that says whether native access was read completely.
 */
module AwsReader {
  import opened Wrappers
  import opened RetryDelay
  import opened PagedReads

  datatype Scope = ResourcesScope | NativeGrantsScope | ConnectorScope

  datatype Operation =
    | DescribeOrganization
    | ListAccounts
    | ListPermissionSets
    | ListRoles
    | LookupEvents
    | ListFindings
    | ListAccountAssignments(accountId: string, permissionSetArn: string)

  function ScopeOf(op: Operation): Scope {
    if op.LookupEvents? || op.ListFindings? || op.ListAccountAssignments? then NativeGrantsScope else ResourcesScope
  }

  function NameOf(op: Operation): string {
    match op
    case DescribeOrganization => "organizations.describeOrganization"
    case ListAccounts => "organizations.listAccounts"
    case ListPermissionSets => "ssoAdmin.listPermissionSets"
    case ListRoles => "iam.listRoles"
    case LookupEvents => "cloudTrail.lookupEvents"
    case ListFindings => "accessAnalyzer.listFindings"
    case ListAccountAssignments(_, _) => "ssoAdmin.listAccountAssignments"
  }

  /** A provider object; `key` is its identifier or ARN, empty when the provider left it out. */
  datatype AwsObject = AwsObject(key: string, attributes: map<string, string>)

  datatype Page = Page(status: nat, value: seq<AwsObject>, nextToken: bool, retryAfterSeconds: Option<real>)

  // ---------------------------------------------------------------- warnings

  datatype Severity = Info | Warn

  datatype Code =
    | PageLimitReached | ThrottleRetried | CollectionSkipped | PaginationObserved
    | CloudTrailActivityEmpty | ObjectMissingIdSkipped | OtherCode(name: string)

  datatype Warning = Warning(code: Code, scope: Scope, message: string, severity: Severity, retryable: bool)

  predicate SameKey(a: Warning, b: Warning) {
    a.code == b.code && a.scope == b.scope && a.message == b.message
  }

  function SeverityRank(s: Severity): nat {
    if s.Warn? then 1 else 0
  }

  predicate Supersedes(existing: Warning, w: Warning) {
    SeverityRank(w.severity) > SeverityRank(existing.severity) || (existing.retryable && !w.retryable)
  }

  /** `#pushWarning`: the first warning with the same key is kept or replaced. */
  function Push(ws: seq<Warning>, w: Warning): seq<Warning> {
    if ws == [] then [w]
    else if SameKey(ws[0], w) then [if Supersedes(ws[0], w) then w else ws[0]] + ws[1..]
    else [ws[0]] + Push(ws[1..], w)
  }

  function PushAll(ws: seq<Warning>, more: seq<Warning>): seq<Warning>
    decreases |more|
  {
    if more == [] then ws else PushAll(Push(ws, more[0]), more[1..])
  }

  lemma PushAllStep(ws: seq<Warning>, w: Warning, more: seq<Warning>)
    ensures PushAll(ws, [w] + more) == PushAll(Push(ws, w), more)
  {
    assert ([w] + more)[1..] == more;
  }

  lemma PushAllOne(ws: seq<Warning>, w: Warning)
    ensures PushAll(ws, [w]) == Push(ws, w)
    ensures PushAll(Push(ws, w), []) == Push(ws, w)
  {
  }

  /** How the real callers use the codes that report an incomplete read. */
  predicate Shaped(w: Warning) {
    && (w.code.ThrottleRetried? ==> (w.severity.Warn? <==> !w.retryable))
    && (w.code.PageLimitReached? || w.code.CollectionSkipped? ==> w.severity.Warn?)
  }

  /** The entry that tells an incomplete native-access read. */
  predicate ReportsIncomplete(w: Warning) {
    && w.scope.NativeGrantsScope? && w.severity.Warn?
    && (w.code.ThrottleRetried? || w.code.PageLimitReached? || w.code.CollectionSkipped?)
  }

  ghost predicate AllShaped(ws: seq<Warning>) {
    forall w :: w in ws ==> Shaped(w)
  }

  ghost predicate Reported(ws: seq<Warning>) {
    exists w :: w in ws && ReportsIncomplete(w)
  }

  lemma {:induction false} PushMembers(ws: seq<Warning>, w: Warning)
    ensures forall x :: x in Push(ws, w) ==> x == w || x in ws
    ensures Push(ws, w) != []
  {
    if ws != [] && !SameKey(ws[0], w) {
      PushMembers(ws[1..], w);
    }
  }

  lemma {:induction false} PushKeepsReport(ws: seq<Warning>, w: Warning)
    requires AllShaped(ws) && Shaped(w) && (Reported(ws) || ReportsIncomplete(w))
    ensures Reported(Push(ws, w))
  {
    var pushed := Push(ws, w);
    if ws == [] {
      assert pushed[0] == w;
    } else {
      assert forall x :: x in ws <==> x == ws[0] || x in ws[1..];
      assert ws[0] in ws;
      if SameKey(ws[0], w) {
        assert forall x :: x in pushed <==> x == pushed[0] || x in ws[1..];
        assert pushed[0] in pushed;
      } else {
        assert forall x :: x in pushed <==> x == ws[0] || x in Push(ws[1..], w);
        assert ws[0] in pushed;
        if !ReportsIncomplete(ws[0]) {
          PushKeepsReport(ws[1..], w);
        }
      }
    }
  }

  /** Whatever the real callers push later, a reported incomplete read stays reported. */
  lemma {:induction false} ReportSurvives(ws: seq<Warning>, more: seq<Warning>)
    requires AllShaped(ws) && AllShaped(more)
    ensures AllShaped(PushAll(ws, more))
    ensures Reported(ws) ==> Reported(PushAll(ws, more))
    ensures more != [] || ws != [] ==> PushAll(ws, more) != []
    decreases |more|
  {
    if more != [] {
      PushMembers(ws, more[0]);
      assert more[0] in more;
      if Reported(ws) {
        PushKeepsReport(ws, more[0]);
      }
      ReportSurvives(Push(ws, more[0]), more[1..]);
    }
  }

  /** The condition on callers matters: a merge can lower a warning to information. */
  lemma SeverityCanDrop(existing: Warning, w: Warning)
    ensures Push([existing], w) == [w] && existing != w && w.severity.Info? && existing.severity.Warn? <==>
      SameKey(existing, w) && existing.severity.Warn? && w.severity.Info? && existing.retryable && !w.retryable
  {
    var pushed := Push([existing], w);
    assert [existing][1..] == [];
    if SameKey(existing, w) {
      assert pushed == [if Supersedes(existing, w) then w else existing];
      assert pushed[0] == if Supersedes(existing, w) then w else existing;
    } else {
      assert pushed == [existing] + Push([existing][1..], w);
      PushMembers([existing][1..], w);
      assert |pushed| >= 2;
    }
  }

  // ---------------------------------------------------------------- one paged read

  predicate IsThrottle(page: Page) {
    page.status == 429 || page.status == 503
  }

  /** The rest of a read: what it adds, whether it finished, and the responses it left. */
  datatype Read = Read(
    values: seq<AwsObject>,
    completed: bool,
    threw: bool,
    rest: seq<Page>,
    warnings: seq<Warning>,
    calls: nat,
    slept: nat)

  function Before(values: seq<AwsObject>, warnings: seq<Warning>, calls: nat, slept: nat, r: Read): Read {
    Read(values + r.values, r.completed, r.threw, r.rest, warnings + r.warnings, calls + r.calls, slept + r.slept)
  }

  function ThrottleWarning(cfg: Config, op: Operation, retryCount: nat): Warning {
    Warning(ThrottleRetried, ScopeOf(op), "", if retryCount > cfg.maxRetries then Warn else Info, retryCount <= cfg.maxRetries)
  }

  function PageLimitWarning(op: Operation): Warning {
    Warning(PageLimitReached, ScopeOf(op), NameOf(op), Warn, true)
  }

  function SkippedWarning(op: Operation, status: nat): Warning {
    Warning(CollectionSkipped, ScopeOf(op), NameOf(op) + " HTTP " + Decimal(status), Warn, status >= 500)
  }

  function PaginationWarning(op: Operation): Warning {
    Warning(PaginationObserved, ScopeOf(op), NameOf(op), Info, false)
  }

  function Decimal(n: nat): string {
    if n < 10 then [(n + 48) as char] else Decimal(n / 10) + [(n % 10 + 48) as char]
  }

  /** The responses are taken from a queue; an empty queue is a client that throws. */
  function ReadFrom(cfg: Config, op: Operation, pages: seq<Page>, pageCount: nat, retryCount: nat): Read
    decreases |pages|
  {
    if pageCount >= cfg.maxPages then Read([], false, false, pages, [PageLimitWarning(op)], 0, 0)
    else if pages == [] then Read([], false, true, [], [], 1, 0)
    else
      var page, rest := pages[0], pages[1..];
      if IsThrottle(page) then
        var w := ThrottleWarning(cfg, op, retryCount + 1);
        if retryCount + 1 <= cfg.maxRetries then
          Before([], [w], 1, RetryAfterMilliseconds(page.retryAfterSeconds), ReadFrom(cfg, op, rest, pageCount, retryCount + 1))
        else Read([], false, false, rest, [w], 1, 0)
      else if page.status >= 400 then Read([], false, false, rest, [SkippedWarning(op, page.status)], 1, 0)
      else if page.nextToken then
        Before(page.value, [PaginationWarning(op)], 1, 0, ReadFrom(cfg, op, rest, pageCount + 1, 0))
      else Read(page.value, true, false, rest, [], 1, 0)
  }

  /** One turn of the page loop, case by case. */
  lemma ReadTurn(cfg: Config, op: Operation, pages: seq<Page>, pageCount: nat, retryCount: nat)
    ensures var r := ReadFrom(cfg, op, pages, pageCount, retryCount);
      if pageCount >= cfg.maxPages then r == Read([], false, false, pages, [PageLimitWarning(op)], 0, 0)
      else if pages == [] then r == Read([], false, true, [], [], 1, 0)
      else if IsThrottle(pages[0]) && retryCount + 1 <= cfg.maxRetries then
        var inner := ReadFrom(cfg, op, pages[1..], pageCount, retryCount + 1);
        && r.values == inner.values && r.completed == inner.completed && r.threw == inner.threw && r.rest == inner.rest
        && r.warnings == [ThrottleWarning(cfg, op, retryCount + 1)] + inner.warnings
        && r.calls == 1 + inner.calls && r.slept == RetryAfterMilliseconds(pages[0].retryAfterSeconds) + inner.slept
      else if IsThrottle(pages[0]) then
        r == Read([], false, false, pages[1..], [ThrottleWarning(cfg, op, retryCount + 1)], 1, 0)
      else if pages[0].status >= 400 then
        r == Read([], false, false, pages[1..], [SkippedWarning(op, pages[0].status)], 1, 0)
      else if pages[0].nextToken then
        var inner := ReadFrom(cfg, op, pages[1..], pageCount + 1, 0);
        && r.values == pages[0].value + inner.values && r.completed == inner.completed && r.threw == inner.threw
        && r.rest == inner.rest && r.warnings == [PaginationWarning(op)] + inner.warnings
        && r.calls == 1 + inner.calls && r.slept == inner.slept
      else r == Read(pages[0].value, true, false, pages[1..], [], 1, 0)
  {
    hide PageLimitWarning, ThrottleWarning, SkippedWarning, PaginationWarning, RetryAfterMilliseconds;
  }

  /** What a reader makes of one response. */
  function ReplyOf(page: Page): Reply {
    if IsThrottle(page) then Throttled
    else if page.status >= 400 then Refused
    else if page.nextToken then Continued
    else Last
  }

  function Replies(pages: seq<Page>): (r: seq<Reply>)
    ensures |r| == |pages| && forall i :: 0 <= i < |pages| ==> r[i] == ReplyOf(pages[i])
  {
    if pages == [] then [] else [ReplyOf(pages[0])] + Replies(pages[1..])
  }

  /** How many responses there are up to the last page. */
  function Consumed(pages: seq<Page>): nat {
    if pages == [] then 0
    else if ReplyOf(pages[0]).Last? then 1
    else 1 + Consumed(pages[1..])
  }

  /** How long the provider asks to wait before the last page. */
  function Delay(pages: seq<Page>): nat {
    if pages == [] || ReplyOf(pages[0]).Last? then 0
    else (if IsThrottle(pages[0]) then RetryAfterMilliseconds(pages[0].retryAfterSeconds) else 0) + Delay(pages[1..])
  }

  lemma {:induction false} ReadFollowsReplies(cfg: Config, op: Operation, pages: seq<Page>, pageCount: nat, retryCount: nat)
    ensures var r := ReadFrom(cfg, op, pages, pageCount, retryCount);
      && (r.completed <==> Completes(cfg, Replies(pages), pageCount, retryCount))
      && (r.completed ==>
            && !r.threw && r.calls == Consumed(pages) <= |pages| && r.rest == pages[Consumed(pages)..]
            && r.slept == Delay(pages))
    decreases |pages|
  {
    ReadTurn(cfg, op, pages, pageCount, retryCount);
    hide ReadFrom, RetryAfterMilliseconds, ThrottleWarning, PaginationWarning, PageLimitWarning, SkippedWarning;
    if pages != [] {
      assert Replies(pages)[1..] == Replies(pages[1..]);
      ReadFollowsReplies(cfg, op, pages[1..], pageCount, retryCount + 1);
      ReadFollowsReplies(cfg, op, pages[1..], pageCount + 1, 0);
    }
  }

  /**
    A read completes exactly when the provider serves a last page within the page limit,
    refuses nothing before it and never throttles more often in a row than there are retries.
    It then returns everything served, has asked once for each response up to the last page,
    and has waited as long as it was asked to.
   */
  lemma ReadCompletesIff(cfg: Config, op: Operation, pages: seq<Page>)
    ensures var r := ReadFrom(cfg, op, pages, 0, 0);
      && (r.completed <==> Finishes(cfg, Replies(pages)))
      && (r.completed ==>
            && r.values == Served(pages)
            && r.calls == Consumed(pages) <= |pages| && r.rest == pages[Consumed(pages)..]
            && r.slept == Delay(pages))
  {
    hide ReadFrom, Served, Completes;
    ReadFollowsReplies(cfg, op, pages, 0, 0);
    CompletesIff(cfg, Replies(pages));
    ReadIsPrefix(cfg, op, pages, 0, 0);
  }

  /** The collection as the provider serves it: its pages one after the other, however often it throttles. */
  function Served(pages: seq<Page>): seq<AwsObject> {
    if pages == [] then []
    else if IsThrottle(pages[0]) || pages[0].status >= 400 then Served(pages[1..])
    else if pages[0].nextToken then pages[0].value + Served(pages[1..])
    else pages[0].value
  }

  /** A read returns a prefix of what the provider serves, and all of it when it completes. */
  lemma {:induction false} ReadIsPrefix(cfg: Config, op: Operation, pages: seq<Page>, pageCount: nat, retryCount: nat)
    ensures var r := ReadFrom(cfg, op, pages, pageCount, retryCount);
      r.values <= Served(pages) && (r.completed ==> r.values == Served(pages))
    decreases |pages|
  {
    hide NameOf, Decimal, RetryAfterMilliseconds;
    if pages != [] {
      ReadIsPrefix(cfg, op, pages[1..], pageCount, retryCount + 1);
      ReadIsPrefix(cfg, op, pages[1..], pageCount + 1, 0);
    }
  }

  /** The allowance of `m` pages covers one more page with all its retries, or one more retry. */
  lemma Allowance(m: nat, retries: nat, used: nat, k: nat)
    requires m > 0 && used <= retries
    ensures m * (retries + 1) == (m - 1) * (retries + 1) + retries + 1
    ensures m * retries * k == (m - 1) * retries * k + retries * k
    ensures used * k <= retries * k && (used + 1) * k == used * k + k
    ensures 0 <= (m - 1) * (retries + 1) && 0 <= (m - 1) * retries * k
  {
    Grows(0, m - 1, retries + 1);
    Grows(0, m - 1, retries);
    Grows(0, (m - 1) * retries, k);
    Grows(used, retries, k);
    var n := m - 1;
    assert m * retries == n * retries + retries;
    assert (n * retries + retries) * k == n * retries * k + retries * k;
  }

  /** Pages still allowed, each with its retries, bound the calls and the sleep. */
  lemma {:induction false} ReadIsBounded(cfg: Config, op: Operation, pages: seq<Page>, pageCount: nat, retryCount: nat)
    requires pageCount <= cfg.maxPages && retryCount <= cfg.maxRetries
    requires pageCount == cfg.maxPages ==> retryCount == 0
    ensures var r := ReadFrom(cfg, op, pages, pageCount, retryCount);
      && r.calls + retryCount <= (cfg.maxPages - pageCount) * (cfg.maxRetries + 1)
      && r.slept + retryCount * MAX_RETRY_AFTER_MILLISECONDS
         <= (cfg.maxPages - pageCount) * cfg.maxRetries * MAX_RETRY_AFTER_MILLISECONDS
    decreases |pages|
  {
    hide NameOf, Decimal, RetryAfterMilliseconds, Served, PageLimitWarning, ThrottleWarning, SkippedWarning, PaginationWarning;
    if pageCount < cfg.maxPages {
      Allowance(cfg.maxPages - pageCount, cfg.maxRetries, retryCount, MAX_RETRY_AFTER_MILLISECONDS);
      if pages != [] {
        if IsThrottle(pages[0]) {
          if retryCount + 1 <= cfg.maxRetries {
            ReadIsBounded(cfg, op, pages[1..], pageCount, retryCount + 1);
          }
        } else {
          ReadIsBounded(cfg, op, pages[1..], pageCount + 1, 0);
        }
      }
    }
  }

  /** A whole read stays within its calls and its sleep. */
  lemma WholeReadIsBounded(cfg: Config, op: Operation, pages: seq<Page>)
    ensures ReadFrom(cfg, op, pages, 0, 0).calls <= MaxCalls(cfg)
    ensures ReadFrom(cfg, op, pages, 0, 0).slept <= MaxSleep(cfg)
  {
    ReadIsBounded(cfg, op, pages, 0, 0);
  }

  lemma Grows(a: nat, b: nat, k: nat)
    requires a <= b
    ensures a * k <= b * k
  {
  }

  lemma {:induction false} ReadWarningsShaped(cfg: Config, op: Operation, pages: seq<Page>, pageCount: nat, retryCount: nat)
    ensures AllShaped(ReadFrom(cfg, op, pages, pageCount, retryCount).warnings)
    decreases |pages|
  {
    hide NameOf, Decimal, RetryAfterMilliseconds, ScopeOf;
    if pages != [] {
      ReadWarningsShaped(cfg, op, pages[1..], pageCount, retryCount + 1);
      ReadWarningsShaped(cfg, op, pages[1..], pageCount + 1, 0);
    }
  }

  lemma ReportedBefore(w: Warning, more: seq<Warning>)
    ensures Reported([w] + more) <==> ReportsIncomplete(w) || Reported(more)
    ensures Reported([w]) <==> ReportsIncomplete(w)
  {
    assert forall x :: x in [w] + more <==> x == w || x in more;
  }

  /** An unfinished native-access read that did not throw leaves the warning that reports it. */
  lemma {:induction false} UnfinishedReadIsReported(cfg: Config, op: Operation, pages: seq<Page>, pageCount: nat, retryCount: nat)
    requires ScopeOf(op).NativeGrantsScope?
    ensures var r := ReadFrom(cfg, op, pages, pageCount, retryCount);
      !r.completed && !r.threw ==> Reported(r.warnings)
    decreases |pages|
  {
    hide NameOf, Decimal, RetryAfterMilliseconds, ScopeOf, Reported;
    ReportedBefore(PageLimitWarning(op), []);
    if pages != [] {
      var status := pages[0].status;
      ReportedBefore(SkippedWarning(op, status), []);
      ReportedBefore(ThrottleWarning(cfg, op, retryCount + 1), []);
      var retried := ReadFrom(cfg, op, pages[1..], pageCount, retryCount + 1);
      var continued := ReadFrom(cfg, op, pages[1..], pageCount + 1, 0);
      ReportedBefore(ThrottleWarning(cfg, op, retryCount + 1), retried.warnings);
      ReportedBefore(PaginationWarning(op), continued.warnings);
      UnfinishedReadIsReported(cfg, op, pages[1..], pageCount, retryCount + 1);
      UnfinishedReadIsReported(cfg, op, pages[1..], pageCount + 1, 0);
    }
  }
}
