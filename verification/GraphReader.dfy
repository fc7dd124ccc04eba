/**
  The Microsoft Graph collection reader: full and incremental reads with paging,
  throttling and fallback.

  The provider keeps, for each collection, a log of changes that carry whole records. A
  delta token denotes a position in that log, and a continuation link denotes the rest of
  an answer fixed at a position. Between calls the log may grow, and a script the reader
  cannot see decides how each call ends: it throws, it is refused with any error status,
  or it serves a page of any size, with or without a delta token.
 */
module GraphReader {
  import opened Wrappers
  import opened GraphDelta
  import opened RetryDelay
  import opened PagedReads

  datatype Link =
    | Start(path: string)
    | Token(path: string, position: nat)
    | Next(path: string, remaining: seq<Record>, position: nat)

  datatype Page = Page(
    status: nat,
    value: seq<Record>,
    nextLink: Option<Link>,
    deltaLink: Option<Link>,
    retryAfterSeconds: Option<real>)

  datatype Response = Threw | Answered(page: Page)

  // ---------------------------------------------------------------- provider

  datatype Directive =
    | Throw
    | Refuse(statusAbove400: nat, retryAfterSeconds: Option<real>)
    | Serve(take: nat, growth: seq<Record>, enumeration: seq<Record>, offerToken: bool, emptyLastPage: bool)

  datatype Provider = Provider(logs: map<string, seq<Record>>, script: seq<Directive>)

  function LogOf(p: Provider, path: string): seq<Record> {
    if path in p.logs then p.logs[path] else []
  }

  /** The directory after the first `position` changes. */
  function DirectoryAt(log: seq<Record>, position: nat): Directory
    requires position <= |log|
  {
    Live(log[..position])
  }

  /** What an answer consists of: a full listing in any order, or the changes since a token. */
  function AnswerFor(log: seq<Record>, link: Link, enumeration: seq<Record>): (seq<Record>, nat) {
    match link
    case Start(_) => (if Live(enumeration) == Live(log) then enumeration else log, |log|)
    case Token(_, position) => (if position <= |log| then log[position..] else [], |log|)
    case Next(_, remaining, position) => (remaining, position)
  }

  function Answer(p: Provider, link: Link): (Response, Provider) {
    if p.script == [] then (Answered(Page(503, [], None, None, None)), p)
    else
      var rest := p.(script := p.script[1..]);
      match p.script[0]
      case Throw => (Threw, rest)
      case Refuse(above, retryAfter) => (Answered(Page(400 + above, [], None, None, retryAfter)), rest)
      case Serve(take, growth, enumeration, offerToken, emptyLastPage) =>
        var log := LogOf(p, link.path) + growth;
        var (remaining, position) := AnswerFor(log, link, enumeration);
        var n := if take <= |remaining| then take else |remaining|;
        var left := remaining[n..];
        var page := Page(
          200,
          remaining[..n],
          if left == [] && !emptyLastPage then None else Some(Next(link.path, left, position)),
          if offerToken then Some(Token(link.path, position)) else None,
          None);
        (Answered(page), rest.(logs := p.logs[link.path := log]))
  }

  class GraphClient {
    var provider: Provider
    var calls: nat

    constructor (provider: Provider)
      ensures this.provider == provider && calls == 0
    {
      this.provider, calls := provider, 0;
    }

    method List(link: Link) returns (response: Response)
      modifies this
      ensures (response, provider) == Answer(old(provider), link)
      ensures calls == old(calls) + 1
    {
      var (r, p) := Answer(provider, link);
      response, provider, calls := r, p, calls + 1;
    }
  }

  // ---------------------------------------------------------------- one pass over the pages

  datatype Severity = Info | Warn

  datatype Code =
    | PageLimitReached | DeltaTokenStale | ThrottleRetried | CollectionSkipped | TombstoneObserved
    | PaginationObserved | DeltaSyncApplied | DeltaTokenCaptured | DeltaTokenMissing | FullResync

  datatype Warning = Warning(code: Code, severity: Severity, retryable: bool)

  datatype Outcome = Reading | Crashed | Stopped | Complete

  datatype Pass = Pass(
    provider: Provider,
    next: Option<Link>,
    pageCount: nat,
    retryCount: nat,
    values: seq<Record>,
    deltaLink: Option<Link>,
    calls: nat,
    slept: nat,
    warnings: seq<Warning>,
    outcome: Outcome)

  function Begin(provider: Provider, start: Link): Pass {
    Pass(provider, Some(start), 0, 0, [], None, 0, 0, [], Reading)
  }

  function TombstoneWarnings(value: seq<Record>): seq<Warning> {
    if value == [] then []
    else
      var n := |value| - 1;
      TombstoneWarnings(value[..n]) + (if IsGraphTombstone(value[n]) then [Warning(TombstoneObserved, Warn, false)] else [])
  }

  function Warned(s: Pass, w: Warning): Pass {
    s.(warnings := s.warnings + [w])
  }

  function StoppedWith(s: Pass, w: Warning): Pass {
    Warned(s, w).(outcome := Stopped)
  }

  function ThrottleWarning(cfg: Config, retryCount: nat): Warning {
    Warning(ThrottleRetried, if retryCount > cfg.maxRetries then Warn else Info, retryCount <= cfg.maxRetries)
  }

  /** The request was throttled: it is repeated after a delay, unless the retries are used up. */
  function Retried(cfg: Config, s: Pass, retryAfterSeconds: Option<real>): Pass {
    var t := Warned(s.(retryCount := s.retryCount + 1), ThrottleWarning(cfg, s.retryCount + 1));
    if t.retryCount <= cfg.maxRetries then t.(slept := t.slept + RetryAfterMilliseconds(retryAfterSeconds))
    else t.(outcome := Stopped)
  }

  function PageWarnings(page: Page): seq<Warning> {
    TombstoneWarnings(page.value) + if page.nextLink.Some? then [Warning(PaginationObserved, Info, false)] else []
  }

  /** The page was served and is taken. */
  function Taken(s: Pass, page: Page): Pass {
    s.(retryCount := 0,
       pageCount := s.pageCount + 1,
       deltaLink := OrElse(page.deltaLink, s.deltaLink),
       warnings := s.warnings + PageWarnings(page),
       values := s.values + page.value,
       next := page.nextLink)
  }

  /** What the pass makes of one page. */
  function Received(cfg: Config, incremental: bool, s: Pass, page: Page): Pass {
    if incremental && page.status == 410 then StoppedWith(s, Warning(DeltaTokenStale, Warn, true))
    else if page.status == 429 then Retried(cfg, s, page.retryAfterSeconds)
    else if page.status >= 400 then StoppedWith(s, Warning(CollectionSkipped, Warn, page.status >= 500))
    else Taken(s, page)
  }

  /** One turn of the page loop. */
  function Turn(cfg: Config, incremental: bool, s: Pass): Pass {
    if s.next.None? then s.(outcome := Complete)
    else if s.pageCount >= cfg.maxPages then StoppedWith(s, Warning(PageLimitReached, Warn, true))
    else
      var (response, provider) := Answer(s.provider, s.next.value);
      var t := s.(provider := provider, calls := s.calls + 1);
      match response
      case Threw => t.(outcome := Crashed)
      case Answered(page) => Received(cfg, incremental, t, page)
  }

  ghost predicate WithinLimits(cfg: Config, s: Pass) {
    s.pageCount <= cfg.maxPages && (s.outcome.Reading? ==> s.retryCount <= cfg.maxRetries)
  }

  /** The whole pass. It ends because every turn uses up a page or a retry. */
  function RunPass(cfg: Config, incremental: bool, s: Pass): Pass
    requires WithinLimits(cfg, s)
    decreases if s.outcome.Reading? then 1 else 0, cfg.maxPages - s.pageCount, cfg.maxRetries - s.retryCount
  {
    if s.outcome.Reading? then RunPass(cfg, incremental, Turn(cfg, incremental, s)) else s
  }

  // ---------------------------------------------------------------- a read of one collection

  datatype CollectionRead = CollectionRead(values: seq<Record>, completed: bool)

  datatype ReaderState = ReaderState(
    provider: Provider,
    deltaStates: map<string, Link>,
    caches: map<string, seq<Record>>,
    warnings: seq<Warning>)

  /** `Some(read)` is a result, `None` the discarded incremental attempt, `Err` an exception. */
  type PagesResult = Result<Option<CollectionRead>, ()>

  /** How a pass that read every page ends: an increment needs a new token and is merged, anything else replaces the cache. */
  function Completed(s: ReaderState, path: string, cached: Option<seq<Record>>, values: seq<Record>, deltaLink: Option<Link>):
      (PagesResult, ReaderState) {
    if deltaLink.None? && cached.Some? then (Ok(None), s.(warnings := s.warnings + [Warning(DeltaTokenMissing, Warn, true)]))
    else
      var t := if deltaLink.None? then s
               else s.(deltaStates := s.deltaStates[path := deltaLink.value],
                       warnings := s.warnings + [Warning(if cached.Some? then DeltaSyncApplied else DeltaTokenCaptured, Info, false)]);
      var merged := if cached.Some? then Apply(cached.value, values) else values;
      (Ok(Some(CollectionRead(merged, true))), t.(caches := t.caches[path := merged]))
  }

  /** How a read ends after its pass. Stopping early discards an increment and caches what a full read has so far. */
  function Ended(s: ReaderState, path: string, cached: Option<seq<Record>>, pass: Pass): (PagesResult, ReaderState) {
    var t := s.(provider := pass.provider, warnings := s.warnings + pass.warnings);
    match pass.outcome
    case Complete => Completed(t, path, cached, pass.values, pass.deltaLink)
    case Stopped =>
      if cached.Some? then (Ok(None), t)
      else (Ok(Some(CollectionRead(pass.values, false))), t.(caches := t.caches[path := pass.values]))
    case _ => (Err(()), t)
  }

  function FullRead(cfg: Config, s: ReaderState, path: string): (PagesResult, ReaderState) {
    Ended(s, path, None, RunPass(cfg, false, Begin(s.provider, Start(path))))
  }

  function IncrementalRead(cfg: Config, s: ReaderState, path: string, token: Link, cached: seq<Record>): (PagesResult, ReaderState) {
    Ended(s, path, Some(cached), RunPass(cfg, true, Begin(s.provider, token)))
  }

  function ReadCollection(cfg: Config, s: ReaderState, path: string): (Result<CollectionRead, ()>, ReaderState) {
    if path in s.deltaStates && path in s.caches then
      var (r, t) := IncrementalRead(cfg, s, path, s.deltaStates[path], s.caches[path]);
      match r
      case Err(_) => (Err(()), t)
      case Ok(Some(read)) => (Ok(read), t)
      case Ok(None) =>
        Finish(FullRead(cfg, t.(deltaStates := t.deltaStates - {path}, warnings := t.warnings + [Warning(FullResync, Warn, true)]), path))
    else Finish(FullRead(cfg, s, path))
  }

  function Finish(r: (PagesResult, ReaderState)): (Result<CollectionRead, ()>, ReaderState) {
    match r.0
    case Err(_) => (Err(()), r.1)
    case Ok(Some(read)) => (Ok(read), r.1)
    case Ok(None) => (Ok(CollectionRead([], false)), r.1)
  }

  lemma RunPassTurn(cfg: Config, incremental: bool, s: Pass)
    requires WithinLimits(cfg, s) && s.outcome.Reading?
    ensures WithinLimits(cfg, Turn(cfg, incremental, s))
    ensures RunPass(cfg, incremental, s) == RunPass(cfg, incremental, Turn(cfg, incremental, s))
    ensures !Turn(cfg, incremental, s).outcome.Reading? ==> RunPass(cfg, incremental, s) == Turn(cfg, incremental, s)
  {
    hide Answer, TombstoneWarnings;
  }

  // ---------------------------------------------------------------- bounds

  /** Calls and sleep so far are paid for by pages and retries. */
  ghost predicate Paid(cfg: Config, s: Pass) {
    if s.outcome.Reading? then
      && s.calls <= s.pageCount * (cfg.maxRetries + 1) + s.retryCount
      && s.slept <= (s.pageCount * cfg.maxRetries + s.retryCount) * MAX_RETRY_AFTER_MILLISECONDS
      && (s.pageCount == cfg.maxPages ==> s.retryCount == 0)
    else
      s.calls <= MaxCalls(cfg) && s.slept <= MaxSleep(cfg)
  }

  lemma ScaleUp(a: nat, b: nat, k: nat)
    requires a <= b
    ensures a * k <= b * k
  {
  }

  lemma TurnStaysPaid(cfg: Config, incremental: bool, s: Pass)
    requires s.outcome.Reading? && WithinLimits(cfg, s) && Paid(cfg, s)
    ensures Paid(cfg, Turn(cfg, incremental, s))
  {
    hide Answer, TombstoneWarnings, Turn, RetryAfterMilliseconds;
    TurnCosts(cfg, incremental, s);
    var r, m := cfg.maxRetries, cfg.maxPages;
    var t := Turn(cfg, incremental, s);
    assert (s.pageCount + 1) * (r + 1) == s.pageCount * (r + 1) + r + 1;
    assert (s.pageCount + 1) * r == s.pageCount * r + r;
    if s.pageCount < m {
      ScaleUp(s.pageCount + 1, m, r + 1);
      ScaleUp(s.pageCount + 1, m, r);
    }
    ScaleUp(s.pageCount * r + s.retryCount, m * r, MAX_RETRY_AFTER_MILLISECONDS);
  }

  /** What one turn adds to the bill. */
  lemma TurnCosts(cfg: Config, incremental: bool, s: Pass)
    requires s.outcome.Reading? && WithinLimits(cfg, s)
    ensures var t := Turn(cfg, incremental, s);
      && WithinLimits(cfg, t)
      && s.calls <= t.calls <= s.calls + 1 && s.slept <= t.slept <= s.slept + MAX_RETRY_AFTER_MILLISECONDS
      && (s.pageCount == cfg.maxPages ==> !t.outcome.Reading? && t.calls == s.calls)
      && (!t.outcome.Reading? ==> t.slept == s.slept)
      && (t.outcome.Reading? ==>
            || (t.pageCount == s.pageCount + 1 && t.retryCount == 0 && t.slept == s.slept)
            || (t.pageCount == s.pageCount < cfg.maxPages && t.retryCount == s.retryCount + 1))
  {
    hide Answer, TombstoneWarnings;
  }

  /**
    Every pass makes at most maxPages * (maxRetries + 1) calls and sleeps at most
    maxPages * maxRetries * 60000 milliseconds.
   */
  lemma {:induction false} PassIsBounded(cfg: Config, incremental: bool, s: Pass)
    requires WithinLimits(cfg, s) && Paid(cfg, s)
    ensures Paid(cfg, RunPass(cfg, incremental, s))
    decreases if s.outcome.Reading? then 1 else 0, cfg.maxPages - s.pageCount, cfg.maxRetries - s.retryCount
  {
    hide Answer, TombstoneWarnings, Paid;
    if s.outcome.Reading? {
      TurnStaysPaid(cfg, incremental, s);
      PassIsBounded(cfg, incremental, Turn(cfg, incremental, s));
    }
  }

  lemma {:induction false} PassEnds(cfg: Config, incremental: bool, s: Pass)
    requires WithinLimits(cfg, s)
    ensures !RunPass(cfg, incremental, s).outcome.Reading?
    decreases if s.outcome.Reading? then 1 else 0, cfg.maxPages - s.pageCount, cfg.maxRetries - s.retryCount
  {
    hide Turn;
    if s.outcome.Reading? {
      RunPassTurn(cfg, incremental, s);
      TurnCosts(cfg, incremental, s);
      PassEnds(cfg, incremental, Turn(cfg, incremental, s));
    }
  }

  /** A whole pass, from its first call. */
  lemma WholePassIsBounded(cfg: Config, incremental: bool, provider: Provider, start: Link)
    ensures var s := Begin(provider, start);
      && WithinLimits(cfg, s)
      && RunPass(cfg, incremental, s).calls <= MaxCalls(cfg) && RunPass(cfg, incremental, s).slept <= MaxSleep(cfg)
  {
    var s := Begin(provider, start);
    hide RunPass;
    PassIsBounded(cfg, incremental, s);
    PassEnds(cfg, incremental, s);
  }

  // ---------------------------------------------------------------- what a pass has read

  /** `all` is a full listing at `position`, or the changes from the token up to `position`. */
  ghost predicate Delivers(incremental: bool, from: nat, log: seq<Record>, position: nat, all: seq<Record>) {
    if incremental then from <= position <= |log| && all == log[from..position]
    else position <= |log| && Live(all) == DirectoryAt(log, position)
  }

  /** What was read so far and what the continuation holds make up one answer at one position. */
  ghost predicate Session(incremental: bool, path: string, from: nat, base: nat, s: Pass, position: nat) {
    var log := LogOf(s.provider, path);
    && base <= position
    && (s.deltaLink.Some? ==> s.deltaLink == Some(Token(path, position)))
    && match s.next
       case None => Delivers(incremental, from, log, position, s.values)
       case Some(Next(p, remaining, q)) => p == path && q == position && Delivers(incremental, from, log, position, s.values + remaining)
       case _ => false
  }

  ghost predicate NotStarted(incremental: bool, path: string, from: nat, base: nat, s: Pass) {
    && s.values == [] && s.deltaLink == None
    && base <= |LogOf(s.provider, path)|
    && (if incremental then s.next == Some(Token(path, from)) && from <= |LogOf(s.provider, path)|
        else s.next == Some(Start(path)))
  }

  ghost predicate Sound(incremental: bool, path: string, from: nat, base: nat, s: Pass) {
    NotStarted(incremental, path, from, base, s) || exists position :: Session(incremental, path, from, base, s, position)
  }

  /** The provider only ever appends to its logs. */
  ghost predicate Grew(p: Provider, q: Provider) {
    forall path :: LogOf(p, path) <= LogOf(q, path)
  }

  lemma AnswerGrows(p: Provider, link: Link)
    ensures Grew(p, Answer(p, link).1)
    ensures forall path :: path != link.path ==> LogOf(Answer(p, link).1, path) == LogOf(p, path)
  {
  }

  lemma DirectoryStable(log: seq<Record>, longer: seq<Record>, position: nat)
    requires log <= longer && position <= |log|
    ensures DirectoryAt(longer, position) == DirectoryAt(log, position)
  {
    assert longer[..position] == log[..position];
  }

  lemma DeliversStable(incremental: bool, from: nat, log: seq<Record>, longer: seq<Record>, position: nat, all: seq<Record>)
    requires log <= longer && Delivers(incremental, from, log, position, all)
    ensures Delivers(incremental, from, longer, position, all)
  {
    DirectoryStable(log, longer, position);
    assert incremental ==> longer[from..position] == log[from..position];
  }

  /** A served first page opens a session at the end of the log. */
  lemma FirstPage(incremental: bool, path: string, from: nat, base: nat, s: Pass, take: nat, growth: seq<Record>, enumeration: seq<Record>)
    requires NotStarted(incremental, path, from, base, s)
    ensures var log := LogOf(s.provider, path) + growth;
      var (remaining, position) := AnswerFor(log, s.next.value, enumeration);
      base <= position && Delivers(incremental, from, log, position, remaining)
  {
    var log := LogOf(s.provider, path) + growth;
    assert log[..|log|] == log;
    if incremental {
      assert log[from..|log|] == log[from..];
    }
  }

  /** The state after a served page, field by field. */
  lemma ServedTurn(cfg: Config, incremental: bool, s: Pass, d: Directive)
    requires s.outcome.Reading? && s.next.Some? && s.pageCount < cfg.maxPages
    requires s.provider.script != [] && s.provider.script[0] == d && d.Serve?
    ensures var link := s.next.value;
      var log := LogOf(s.provider, link.path) + d.growth;
      var (remaining, position) := AnswerFor(log, link, d.enumeration);
      var n := if d.take <= |remaining| then d.take else |remaining|;
      var t := Turn(cfg, incremental, s);
      && LogOf(t.provider, link.path) == log
      && t.values == s.values + remaining[..n]
      && t.next == (if remaining[n..] == [] && !d.emptyLastPage then None else Some(Next(link.path, remaining[n..], position)))
      && t.deltaLink == (if d.offerToken then Some(Token(link.path, position)) else s.deltaLink)
  {
    hide TombstoneWarnings, AnswerFor;
  }

  /** What the next answer holds completes what was already read. */
  lemma AnswerContinues(incremental: bool, path: string, from: nat, base: nat, s: Pass, d: Directive)
    requires s.next.Some? && d.Serve? && Sound(incremental, path, from, base, s)
    ensures s.next.value.path == path
    ensures var log := LogOf(s.provider, path) + d.growth;
      var (remaining, position) := AnswerFor(log, s.next.value, d.enumeration);
      && base <= position
      && Delivers(incremental, from, log, position, s.values + remaining)
      && (s.deltaLink.Some? ==> s.deltaLink == Some(Token(path, position)))
  {
    hide Delivers;
    var log := LogOf(s.provider, path) + d.growth;
    var (remaining, position) := AnswerFor(log, s.next.value, d.enumeration);
    if NotStarted(incremental, path, from, base, s) {
      FirstPage(incremental, path, from, base, s, d.take, d.growth, d.enumeration);
      assert s.values + remaining == remaining;
    } else {
      var q :| Session(incremental, path, from, base, s, q);
      DeliversStable(incremental, from, LogOf(s.provider, path), log, q, s.values + remaining);
    }
  }

  lemma ServedPageKeepsSession(cfg: Config, incremental: bool, path: string, from: nat, base: nat, s: Pass)
    requires s.outcome.Reading? && s.next.Some? && s.pageCount < cfg.maxPages
    requires Sound(incremental, path, from, base, s)
    requires s.provider.script != [] && s.provider.script[0].Serve?
    ensures Sound(incremental, path, from, base, Turn(cfg, incremental, s))
  {
    hide Turn, Delivers, AnswerFor, NotStarted;
    var d := s.provider.script[0];
    AnswerContinues(incremental, path, from, base, s, d);
    ServedTurn(cfg, incremental, s, d);
    var log := LogOf(s.provider, path) + d.growth;
    var (remaining, position) := AnswerFor(log, s.next.value, d.enumeration);
    SplitAt(s.values, remaining, if d.take <= |remaining| then d.take else |remaining|);
    assert Session(incremental, path, from, base, Turn(cfg, incremental, s), position);
  }

  lemma SplitAt(values: seq<Record>, remaining: seq<Record>, n: nat)
    requires n <= |remaining|
    ensures values + remaining[..n] + remaining[n..] == values + remaining
    ensures remaining[n..] == [] ==> values + remaining[..n] == values + remaining
  {
    assert remaining[..n] + remaining[n..] == remaining;
  }

  lemma TurnKeepsSound(cfg: Config, incremental: bool, path: string, from: nat, base: nat, s: Pass)
    requires s.outcome.Reading? && Sound(incremental, path, from, base, s)
    ensures Sound(incremental, path, from, base, Turn(cfg, incremental, s))
    ensures Grew(s.provider, Turn(cfg, incremental, s).provider)
    ensures Turn(cfg, incremental, s).outcome.Complete? ==> s.next.None?
  {
    hide TombstoneWarnings, Delivers, AnswerFor, RetryAfterMilliseconds;
    var t := Turn(cfg, incremental, s);
    if s.next.Some? && s.pageCount < cfg.maxPages {
      AnswerGrows(s.provider, s.next.value);
      if s.provider.script != [] && s.provider.script[0].Serve? {
        ServedPageKeepsSession(cfg, incremental, path, from, base, s);
      } else {
        SoundUnchanged(incremental, path, from, base, s, t);
      }
    } else {
      SoundUnchanged(incremental, path, from, base, s, t);
    }
  }

  lemma SoundUnchanged(incremental: bool, path: string, from: nat, base: nat, s: Pass, t: Pass)
    requires Sound(incremental, path, from, base, s)
    requires t.provider.logs == s.provider.logs && t.next == s.next && t.values == s.values && t.deltaLink == s.deltaLink
    ensures Sound(incremental, path, from, base, t)
  {
    if !NotStarted(incremental, path, from, base, s) {
      var position: nat :| Session(incremental, path, from, base, s, position);
      assert Session(incremental, path, from, base, t, position);
    }
  }

  lemma {:induction false} PassKeepsSound(cfg: Config, incremental: bool, path: string, from: nat, base: nat, s: Pass)
    requires WithinLimits(cfg, s) && Sound(incremental, path, from, base, s)
    requires s.outcome.Complete? ==> s.next.None?
    ensures Sound(incremental, path, from, base, RunPass(cfg, incremental, s))
    ensures Grew(s.provider, RunPass(cfg, incremental, s).provider)
    ensures RunPass(cfg, incremental, s).outcome.Complete? ==> RunPass(cfg, incremental, s).next.None?
    decreases if s.outcome.Reading? then 1 else 0, cfg.maxPages - s.pageCount, cfg.maxRetries - s.retryCount
  {
    hide Answer, TombstoneWarnings, Sound;
    if s.outcome.Reading? {
      var t := Turn(cfg, incremental, s);
      TurnKeepsSound(cfg, incremental, path, from, base, s);
      PassKeepsSound(cfg, incremental, path, from, base, t);
    }
  }

  // ---------------------------------------------------------------- the reader's cache

  /** The cache shows the directory as it was at the position the token denotes. */
  ghost predicate TokenMatchesCache(p: Provider, path: string, token: Link, cached: seq<Record>) {
    && token.Token? && token.path == path && token.position <= |LogOf(p, path)|
    && Live(cached) == DirectoryAt(LogOf(p, path), token.position)
  }

  /** A stored delta token implies a complete cache at the token's position. */
  ghost predicate SoundState(s: ReaderState) {
    forall path :: path in s.deltaStates ==>
      path in s.caches && TokenMatchesCache(s.provider, path, s.deltaStates[path], s.caches[path])
  }

  /** The read shows the directory at some position not older than the start of the read. */
  ghost predicate Current(base: nat, log: seq<Record>, read: CollectionRead) {
    exists position :: base <= position <= |log| && Live(read.values) == DirectoryAt(log, position)
  }

  lemma SoundStateStable(s: ReaderState, provider: Provider)
    requires SoundState(s) && Grew(s.provider, provider)
    ensures SoundState(s.(provider := provider))
  {
    forall path | path in s.deltaStates
      ensures TokenMatchesCache(provider, path, s.deltaStates[path], s.caches[path])
    {
      assert TokenMatchesCache(s.provider, path, s.deltaStates[path], s.caches[path]);
      DirectoryStable(LogOf(s.provider, path), LogOf(provider, path), s.deltaStates[path].position);
    }
  }

  lemma FullPassShows(cfg: Config, provider: Provider, path: string)
    ensures var pass := RunPass(cfg, false, Begin(provider, Start(path)));
      var log := LogOf(pass.provider, path);
      && Grew(provider, pass.provider)
      && (pass.outcome.Complete? ==> exists position ::
            && |LogOf(provider, path)| <= position <= |log|
            && Live(pass.values) == DirectoryAt(log, position)
            && (pass.deltaLink.Some? ==> pass.deltaLink == Some(Token(path, position))))
  {
    hide RunPass;
    var base := |LogOf(provider, path)|;
    assert NotStarted(false, path, 0, base, Begin(provider, Start(path)));
    PassKeepsSound(cfg, false, path, 0, base, Begin(provider, Start(path)));
    var pass := RunPass(cfg, false, Begin(provider, Start(path)));
    if pass.outcome.Complete? {
      var position: nat :| Session(false, path, 0, base, pass, position);
    }
  }

  lemma IncrementalPassShows(cfg: Config, provider: Provider, path: string, token: Link, cached: seq<Record>)
    requires TokenMatchesCache(provider, path, token, cached)
    ensures var pass := RunPass(cfg, true, Begin(provider, token));
      var log := LogOf(pass.provider, path);
      && Grew(provider, pass.provider)
      && (pass.outcome.Complete? ==> exists position ::
            && |LogOf(provider, path)| <= position <= |log|
            && Live(Apply(cached, pass.values)) == DirectoryAt(log, position)
            && (pass.deltaLink.Some? ==> pass.deltaLink == Some(Token(path, position))))
  {
    hide RunPass, Apply, Replay;
    var base, from := |LogOf(provider, path)|, token.position;
    assert NotStarted(true, path, from, base, Begin(provider, token));
    PassKeepsSound(cfg, true, path, from, base, Begin(provider, token));
    var pass := RunPass(cfg, true, Begin(provider, token));
    if pass.outcome.Complete? {
      var position: nat :| Session(true, path, from, base, pass, position);
      ChangesShow(cached, LogOf(provider, path), LogOf(pass.provider, path), from, position);
    }
  }

  lemma ChangesShow(cached: seq<Record>, log: seq<Record>, longer: seq<Record>, from: nat, position: nat)
    requires from <= |log| && log <= longer && from <= position <= |longer|
    requires Live(cached) == DirectoryAt(log, from)
    ensures Live(Apply(cached, longer[from..position])) == DirectoryAt(longer, position)
  {
    hide Apply, Replay;
    LiveOfApply(cached, longer[from..position]);
    DirectoryStable(log, longer, from);
    ReplayConcat(map[], longer[..from], longer[from..position]);
    assert longer[..from] + longer[from..position] == longer[..position];
  }

  lemma FullReadSound(cfg: Config, s: ReaderState, path: string)
    requires SoundState(s) && path !in s.deltaStates
    ensures var (r, t) := FullRead(cfg, s, path);
      && SoundState(t) && Grew(s.provider, t.provider)
      && (r.Ok? ==> r.value.Some?)
      && (r.Ok? && r.value.value.completed ==> Current(|LogOf(s.provider, path)|, LogOf(t.provider, path), r.value.value))
  {
    hide RunPass, Live;
    FullPassShows(cfg, s.provider, path);
    var pass := RunPass(cfg, false, Begin(s.provider, Start(path)));
    SoundStateStable(s, pass.provider);
  }

  lemma IncrementalReadSound(cfg: Config, s: ReaderState, path: string)
    requires SoundState(s) && path in s.deltaStates
    ensures var (r, t) := IncrementalRead(cfg, s, path, s.deltaStates[path], s.caches[path]);
      && SoundState(t) && Grew(s.provider, t.provider)
      && (r.Ok? && r.value.Some? ==>
            r.value.value.completed && Current(|LogOf(s.provider, path)|, LogOf(t.provider, path), r.value.value))
      && (r.Ok? && r.value.None? ==> t.caches == s.caches && t.deltaStates == s.deltaStates)
  {
    hide RunPass, Live, Apply;
    IncrementalPassShows(cfg, s.provider, path, s.deltaStates[path], s.caches[path]);
    var pass := RunPass(cfg, true, Begin(s.provider, s.deltaStates[path]));
    SoundStateStable(s, pass.provider);
  }

  /**
    One read, whatever the provider does: the cache stays sound, and a read reported as
    completed shows the provider's directory at a position reached during the read.
   */
  lemma ReadCollectionSound(cfg: Config, s: ReaderState, path: string)
    requires SoundState(s)
    ensures var (r, t) := ReadCollection(cfg, s, path);
      && SoundState(t) && Grew(s.provider, t.provider)
      && (r.Ok? && r.value.completed ==> Current(|LogOf(s.provider, path)|, LogOf(t.provider, path), r.value))
  {
    hide IncrementalRead, FullRead, Live;
    if path in s.deltaStates {
      IncrementalReadSound(cfg, s, path);
      var (r, t) := IncrementalRead(cfg, s, path, s.deltaStates[path], s.caches[path]);
      if r.Ok? && r.value.None? {
        var u := t.(deltaStates := t.deltaStates - {path}, warnings := t.warnings + [Warning(FullResync, Warn, true)]);
        FullReadSound(cfg, u, path);
      }
    } else {
      FullReadSound(cfg, s, path);
    }
  }

  /** What a read returns, complete or not, is what it leaves in the cache. */
  lemma ResultIsCached(cfg: Config, s: ReaderState, path: string)
    ensures var (r, t) := ReadCollection(cfg, s, path);
      r.Ok? ==> path in t.caches && t.caches[path] == r.value.values
  {
    hide RunPass, Apply;
  }

  function Fresh(provider: Provider): ReaderState {
    ReaderState(provider, map[], map[], [])
  }

  /** The state after a sequence of reads. */
  function ReadMany(cfg: Config, s: ReaderState, paths: seq<string>): ReaderState
    decreases |paths|
  {
    if paths == [] then s else ReadMany(cfg, ReadCollection(cfg, s, paths[0]).1, paths[1..])
  }

  lemma {:induction false} ReadManySound(cfg: Config, s: ReaderState, paths: seq<string>)
    requires SoundState(s)
    ensures SoundState(ReadMany(cfg, s, paths))
    decreases |paths|
  {
    hide ReadCollection, SoundState;
    if paths != [] {
      ReadCollectionSound(cfg, s, paths[0]);
      ReadManySound(cfg, ReadCollection(cfg, s, paths[0]).1, paths[1..]);
    }
  }

  /** Every state a reader can reach from its construction is sound. */
  lemma EveryReachableStateIsSound(cfg: Config, provider: Provider, paths: seq<string>)
    ensures SoundState(ReadMany(cfg, Fresh(provider), paths))
  {
    ReadManySound(cfg, Fresh(provider), paths);
  }

  /** A failed increment leaves the cache alone and returns what a fresh reader would return. */
  lemma FailedIncrementFallsBack(cfg: Config, s: ReaderState, path: string)
    requires path in s.deltaStates && path in s.caches
    requires IncrementalRead(cfg, s, path, s.deltaStates[path], s.caches[path]).0 == Ok(None)
    ensures var t := IncrementalRead(cfg, s, path, s.deltaStates[path], s.caches[path]).1;
      && t.caches == s.caches && t.deltaStates == s.deltaStates
      && ReadCollection(cfg, s, path).0 == ReadCollection(cfg, Fresh(t.provider), path).0
      && ReadCollection(cfg, s, path).1.provider == ReadCollection(cfg, Fresh(t.provider), path).1.provider
  {
    hide RunPass, Apply;
  }

  /**
    Incremental sync refines full read: while a collection does not change, a completed
    read of any sound reader shows the same live records as a completed read of a fresh one.
   */
  lemma SyncRefinesFullRead(cfg: Config, s: ReaderState, twin: Provider, path: string)
    requires SoundState(s) && LogOf(s.provider, path) == LogOf(twin, path)
    requires LogOf(ReadCollection(cfg, s, path).1.provider, path) == LogOf(s.provider, path)
    requires LogOf(ReadCollection(cfg, Fresh(twin), path).1.provider, path) == LogOf(twin, path)
    requires ReadCollection(cfg, s, path).0.Ok? && ReadCollection(cfg, s, path).0.value.completed
    requires ReadCollection(cfg, Fresh(twin), path).0.Ok? && ReadCollection(cfg, Fresh(twin), path).0.value.completed
    ensures Live(ReadCollection(cfg, s, path).0.value.values) == Live(ReadCollection(cfg, Fresh(twin), path).0.value.values)
  {
    hide ReadCollection, Live;
    ReadCollectionSound(cfg, s, path);
    ReadCollectionSound(cfg, Fresh(twin), path);
  }

  /** A failed read is never silent: a result that is not complete comes with a warning. */
  lemma {:induction false} StoppedPassWarns(cfg: Config, incremental: bool, s: Pass)
    requires WithinLimits(cfg, s)
    requires s.outcome.Stopped? ==> s.warnings != [] && s.warnings[|s.warnings| - 1].severity.Warn?
    ensures var t := RunPass(cfg, incremental, s);
      t.outcome.Stopped? ==> t.warnings != [] && t.warnings[|t.warnings| - 1].severity.Warn?
    decreases if s.outcome.Reading? then 1 else 0, cfg.maxPages - s.pageCount, cfg.maxRetries - s.retryCount
  {
    hide Answer, TombstoneWarnings;
    if s.outcome.Reading? {
      StoppedPassWarns(cfg, incremental, Turn(cfg, incremental, s));
    }
  }

  /** The same for a whole read: the reader's list then ends with a warning this read added. */
  lemma IncompleteReadWarns(cfg: Config, s: ReaderState, path: string)
    ensures var (r, t) := ReadCollection(cfg, s, path);
      && s.warnings <= t.warnings
      && (r.Ok? && !r.value.completed ==> |t.warnings| > |s.warnings| && t.warnings[|t.warnings| - 1].severity.Warn?)
  {
    hide RunPass, Apply;
    if path in s.deltaStates && path in s.caches {
      var (r, t) := IncrementalRead(cfg, s, path, s.deltaStates[path], s.caches[path]);
      StoppedPassWarns(cfg, true, Begin(s.provider, s.deltaStates[path]));
      StoppedPassWarns(cfg, false, Begin(t.provider, Start(path)));
    } else {
      StoppedPassWarns(cfg, false, Begin(s.provider, Start(path)));
    }
  }

  // ---------------------------------------------------------------- the reader

  class MicrosoftGraphCollectionReader {
    const cfg: Config
    const client: GraphClient
    var deltaStates: map<string, Link>
    var collectionCaches: map<string, seq<Record>>
    var warnings: seq<Warning>
    var slept: nat

    ghost function State(): ReaderState
      reads this, client
    {
      ReaderState(client.provider, deltaStates, collectionCaches, warnings)
    }

    constructor (cfg: Config, client: GraphClient)
      ensures this.cfg == cfg && this.client == client && slept == 0
      ensures State() == Fresh(client.provider)
      ensures SoundState(State())
    {
      this.cfg, this.client := cfg, client;
      deltaStates, collectionCaches, warnings, slept := map[], map[], [], 0;
    }

    method PushWarning(w: Warning)
      modifies this`warnings
      ensures warnings == old(warnings) + [w]
    {
      warnings := warnings + [w];
    }

    method PushTombstoneWarnings(value: seq<Record>)
      modifies this`warnings
      ensures warnings == old(warnings) + TombstoneWarnings(value)
    {
      for i := 0 to |value|
        invariant warnings == old(warnings) + TombstoneWarnings(value[..i])
      {
        assert value[..i + 1][..i] == value[..i];
        if IsGraphTombstone(value[i]) {
          PushWarning(Warning(TombstoneObserved, Warn, false));
        }
      }
      assert value[..|value|] == value;
    }

    method CacheCollection(cacheKey: string, values: seq<Record>, completed: bool) returns (read: CollectionRead)
      modifies this`collectionCaches
      ensures collectionCaches == old(collectionCaches)[cacheKey := values]
      ensures read == CollectionRead(values, completed)
    {
      collectionCaches := collectionCaches[cacheKey := values];
      read := CollectionRead(values, completed);
    }

    /** An increment is given up without touching the cache; a full read caches what it has and is not complete. */
    method StopEarly(cacheKey: string, incremental: bool, values: seq<Record>) returns (r: PagesResult)
      modifies this`collectionCaches
      ensures if incremental then r == Ok(None) && collectionCaches == old(collectionCaches)
        else r == Ok(Some(CollectionRead(values, false))) && collectionCaches == old(collectionCaches)[cacheKey := values]
    {
      if incremental { return Ok(None); }
      var read := CacheCollection(cacheKey, values, false);
      return Ok(Some(read));
    }

    /** Records the throttling and waits, unless the retries are used up. */
    method Throttled(retryCount: nat, retryAfterSeconds: Option<real>)
      modifies this`warnings, this`slept
      ensures warnings == old(warnings) + [ThrottleWarning(cfg, retryCount)]
      ensures slept == old(slept) + if retryCount <= cfg.maxRetries then RetryAfterMilliseconds(retryAfterSeconds) else 0
    {
      PushWarning(Warning(ThrottleRetried, if retryCount > cfg.maxRetries then Warn else Info, retryCount <= cfg.maxRetries));
      if retryCount <= cfg.maxRetries {
        var retryAfterMilliseconds := RetryAfterMilliseconds(retryAfterSeconds);
        if retryAfterMilliseconds > 0 {
          slept := slept + retryAfterMilliseconds;
        }
      }
    }

    method PushPageWarnings(page: Page)
      modifies this`warnings
      ensures warnings == old(warnings) + PageWarnings(page)
    {
      hide TombstoneWarnings;
      PushTombstoneWarnings(page.value);
      if page.nextLink.Some? {
        PushWarning(Warning(PaginationObserved, Info, false));
      }
    }

    /** Stores what a pass over all pages read. */
    method FinishPages(cacheKey: string, cachedValues: Option<seq<Record>>, values: seq<Record>, deltaLink: Option<Link>)
      returns (r: PagesResult)
      modifies this`deltaStates, this`collectionCaches, this`warnings
      ensures (r, State()) == Completed(old(State()), cacheKey, cachedValues, values, deltaLink)
    {
      hide Apply;
      if deltaLink.Some? {
        deltaStates := deltaStates[cacheKey := deltaLink.value];
        PushWarning(Warning(if cachedValues.Some? then DeltaSyncApplied else DeltaTokenCaptured, Info, false));
      } else if cachedValues.Some? {
        PushWarning(Warning(DeltaTokenMissing, Warn, true));
        return Ok(None);
      }
      var mergedValues := values;
      if cachedValues.Some? {
        mergedValues := ApplyGraphDeltaChanges(cachedValues.value, values);
      }
      var read := CacheCollection(cacheKey, mergedValues, true);
      return Ok(Some(read));
    }

    /** The page loop: how it ended and what it read. */
    method ReadPages(startPath: Link, incremental: bool)
      returns (outcome: Outcome, values: seq<Record>, deltaLink: Option<Link>)
      modifies this`warnings, this`slept, client
      ensures var pass := RunPass(cfg, incremental, Begin(old(client.provider), startPath));
        && outcome == pass.outcome && values == pass.values && deltaLink == pass.deltaLink
        && client.provider == pass.provider && warnings == old(warnings) + pass.warnings
        && client.calls == old(client.calls) + pass.calls && slept == old(slept) + pass.slept
    {
      hide Answer, PageWarnings, ThrottleWarning, RetryAfterMilliseconds, RunPass;
      var nextPath: Option<Link> := Some(startPath);
      var pageCount, retryCount := 0, 0;
      values, deltaLink := [], None;
      ghost var start := Begin(client.provider, startPath);
      ghost var pass := start;

      while nextPath.Some?
        invariant WithinLimits(cfg, pass) && pass.outcome.Reading?
        invariant RunPass(cfg, incremental, pass) == RunPass(cfg, incremental, start)
        invariant pass.provider == client.provider && pass.next == nextPath && pass.values == values && pass.deltaLink == deltaLink
        invariant pass.pageCount == pageCount && pass.retryCount == retryCount
        invariant client.calls == old(client.calls) + pass.calls && slept == old(slept) + pass.slept
        invariant warnings == old(warnings) + pass.warnings
        decreases cfg.maxPages - pageCount, cfg.maxRetries - retryCount
      {
        RunPassTurn(cfg, incremental, pass);
        pass := Turn(cfg, incremental, pass);
        if pageCount >= cfg.maxPages {
          PushWarning(Warning(PageLimitReached, Warn, true));
          return Stopped, values, deltaLink;
        }

        var response := client.List(nextPath.value);
        if response.Threw? {
          return Crashed, values, deltaLink;
        }
        var page := response.page;
        var status := page.status;

        if incremental && status == 410 {
          PushWarning(Warning(DeltaTokenStale, Warn, true));
          return Stopped, values, deltaLink;
        }

        if status == 429 {
          retryCount := retryCount + 1;
          Throttled(retryCount, page.retryAfterSeconds);
          if retryCount <= cfg.maxRetries {
            continue;
          }
          return Stopped, values, deltaLink;
        }

        if status >= 400 {
          PushWarning(Warning(CollectionSkipped, Warn, status >= 500));
          return Stopped, values, deltaLink;
        }

        retryCount := 0;
        pageCount := pageCount + 1;
        deltaLink := OrElse(page.deltaLink, deltaLink);
        values := values + page.value;
        PushPageWarnings(page);
        nextPath := page.nextLink;
      }

      RunPassTurn(cfg, incremental, pass);
      return Complete, values, deltaLink;
    }

    /** One read through the pages, from a path or a delta token, and what becomes of it. */
    method ReadCollectionPages(cacheKey: string, startPath: Link, cachedValues: Option<seq<Record>>) returns (r: PagesResult)
      requires cachedValues.None? ==> startPath == Start(cacheKey)
      modifies this, client
      ensures (r, State()) ==
        if cachedValues.None? then FullRead(cfg, old(State()), cacheKey)
        else IncrementalRead(cfg, old(State()), cacheKey, startPath, cachedValues.value)
      ensures client.calls <= old(client.calls) + MaxCalls(cfg)
      ensures slept <= old(slept) + MaxSleep(cfg)
    {
      hide Turn, RunPass, MaxCalls, MaxSleep, Completed;
      WholePassIsBounded(cfg, cachedValues.Some?, client.provider, startPath);
      PassEnds(cfg, cachedValues.Some?, Begin(client.provider, startPath));
      var outcome, values, deltaLink := ReadPages(startPath, cachedValues.Some?);
      if outcome.Crashed? {
        return Err(());
      }
      if outcome.Stopped? {
        r := StopEarly(cacheKey, cachedValues.Some?, values);
        return;
      }
      r := FinishPages(cacheKey, cachedValues, values, deltaLink);
    }

    /** Every read keeps the cache sound, and a completed result is current. */
    method ReadCollectionResult(path: string) returns (r: Result<CollectionRead, ()>)
      requires SoundState(State())
      modifies this, client
      ensures (r, State()) == ReadCollection(cfg, old(State()), path)
      ensures SoundState(State())
      ensures r.Ok? && r.value.completed ==>
        Current(|LogOf(old(client.provider), path)|, LogOf(client.provider, path), r.value)
      ensures r.Ok? ==> path in collectionCaches && collectionCaches[path] == r.value.values
      ensures client.calls <= old(client.calls) + 2 * MaxCalls(cfg)
      ensures slept <= old(slept) + 2 * MaxSleep(cfg)
    {
      hide FullRead, IncrementalRead, SoundState, Current, MaxCalls, MaxSleep;
      ReadCollectionSound(cfg, State(), path);
      ResultIsCached(cfg, State(), path);
      if path in deltaStates && path in collectionCaches {
        var incremental := ReadCollectionPages(path, deltaStates[path], Some(collectionCaches[path]));
        if incremental.Err? {
          return Err(());
        }
        if incremental.value.Some? {
          return Ok(incremental.value.value);
        }
        deltaStates := deltaStates - {path};
        PushWarning(Warning(FullResync, Warn, true));
      }
      var full := ReadCollectionPages(path, Start(path), None);
      if full.Err? {
        return Err(());
      }
      return Ok(if full.value.Some? then full.value.value else CollectionRead([], false));
    }
  }
}
