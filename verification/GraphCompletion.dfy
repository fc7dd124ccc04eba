/**
  When a Microsoft Graph read completes, in terms of the replies to a reader without limits,
  and what it leaves behind: the cache it fills and the token the next read goes through.
 */
module GraphCompletion {
  import opened Wrappers
  import opened GraphDelta
  import opened RetryDelay
  import opened PagedReads
  import opened GraphReader

  function ReplyOf(incremental: bool, response: Response): Reply {
    match response
    case Threw => Refused
    case Answered(page) =>
      if incremental && page.status == 410 then Refused
      else if page.status == 429 then Throttled
      else if page.status >= 400 then Refused
      else if page.nextLink.Some? then Continued
      else Last
  }

  /** The replies a reader without limits would get, up to the last page or a refusal. */
  function Replies(incremental: bool, p: Provider, link: Link): seq<Reply>
    decreases |p.script|
  {
    var (response, q) := Answer(p, link);
    var reply := ReplyOf(incremental, response);
    if p.script == [] || reply.Last? || reply.Refused? then [reply]
    else if reply.Throttled? then [reply] + Replies(incremental, q, link)
    else [reply] + Replies(incremental, q, response.page.nextLink.value)
  }

  /** What such a reader is given on the way: all records, the newest delta token and the time it is asked to wait. */
  datatype Gathering = Gathering(values: seq<Record>, token: Option<Link>, delay: nat)

  function Gathered(incremental: bool, p: Provider, link: Link): Gathering
    decreases |p.script|
  {
    var (response, q) := Answer(p, link);
    if p.script == [] then Gathering([], None, 0)
    else
      match ReplyOf(incremental, response)
      case Throttled =>
        var later := Gathered(incremental, q, link);
        later.(delay := RetryAfterMilliseconds(response.page.retryAfterSeconds) + later.delay)
      case Continued =>
        var later := Gathered(incremental, q, response.page.nextLink.value);
        later.(values := response.page.value + later.values, token := OrElse(later.token, response.page.deltaLink))
      case Last => Gathering(response.page.value, response.page.deltaLink, 0)
      case Refused => Gathering([], None, 0)
  }

  /** One of the pages such a reader would get carries a delta token. */
  predicate OffersToken(incremental: bool, p: Provider, link: Link) {
    Gathered(incremental, p, link).token.Some?
  }

  lemma AnswerUsesScript(p: Provider, link: Link)
    ensures p.script == [] ==> Answer(p, link).0.Answered? && Answer(p, link).0.page.status == 503
    ensures p.script != [] ==> |Answer(p, link).1.script| < |p.script|
  {
  }

  /** A pass gets to the end exactly when the replies let it, and it then has everything that was given. */
  lemma {:induction false} PassFollowsReplies(cfg: Config, incremental: bool, s: Pass)
    requires WithinLimits(cfg, s) && s.outcome.Reading? && s.next.Some?
    ensures var t := RunPass(cfg, incremental, s);
      var given := Gathered(incremental, s.provider, s.next.value);
      && (t.outcome.Complete? <==>
            Completes(cfg, Replies(incremental, s.provider, s.next.value), s.pageCount, s.retryCount))
      && (t.outcome.Complete? ==>
            && t.values == s.values + given.values
            && t.deltaLink == OrElse(given.token, s.deltaLink)
            && t.slept == s.slept + given.delay
            && t.calls == s.calls + |Replies(incremental, s.provider, s.next.value)|)
    decreases cfg.maxPages - s.pageCount, cfg.maxRetries - s.retryCount
  {
    hide Answer, RunPass, TombstoneWarnings, RetryAfterMilliseconds;
    RunPassTurn(cfg, incremental, s);
    AnswerUsesScript(s.provider, s.next.value);
    var t := Turn(cfg, incremental, s);
    if t.outcome.Reading? {
      if t.next.Some? {
        PassFollowsReplies(cfg, incremental, t);
        assert Replies(incremental, s.provider, s.next.value)[1..] == Replies(incremental, t.provider, t.next.value);
        var later := Gathered(incremental, t.provider, t.next.value);
        assert t.values + later.values == s.values + Gathered(incremental, s.provider, s.next.value).values;
      } else {
        RunPassTurn(cfg, incremental, t);
      }
    }
  }

  /** A full read is complete exactly when the provider gets it to the last page within the limits. */
  lemma FullReadCompletesIff(cfg: Config, s: ReaderState, path: string)
    ensures var r := FullRead(cfg, s, path).0;
      (r.Ok? && r.value.Some? && r.value.value.completed) <==> Finishes(cfg, Replies(false, s.provider, Start(path)))
  {
    hide RunPass, Completes, Finishes, Replies;
    PassFollowsReplies(cfg, false, Begin(s.provider, Start(path)));
    CompletesIff(cfg, Replies(false, s.provider, Start(path)));
  }

  /** An increment succeeds exactly when it gets to the last page and some page offers a new token. */
  lemma IncrementSucceedsIff(cfg: Config, s: ReaderState, path: string, token: Link, cached: seq<Record>)
    ensures var r := IncrementalRead(cfg, s, path, token, cached).0;
      && ((r.Ok? && r.value.Some?) <==>
            Finishes(cfg, Replies(true, s.provider, token)) && OffersToken(true, s.provider, token))
      && (r.Ok? && r.value.Some? ==> r.value.value.completed)
  {
    hide RunPass, Completes, Finishes, Replies, Gathered, Apply;
    PassFollowsReplies(cfg, true, Begin(s.provider, token));
    CompletesIff(cfg, Replies(true, s.provider, token));
  }

  /**
    When a read is complete: its increment succeeds, or the increment is discarded without a
    throw, or there is none, and then the full read gets to the last page.
   */
  lemma ReadCompletesIff(cfg: Config, s: ReaderState, path: string)
    ensures var r := ReadCollection(cfg, s, path).0;
      (r.Ok? && r.value.completed) <==>
        if path in s.deltaStates && path in s.caches then
          var token := s.deltaStates[path];
          var (increment, t) := IncrementalRead(cfg, s, path, token, s.caches[path]);
          || (Finishes(cfg, Replies(true, s.provider, token)) && OffersToken(true, s.provider, token))
          || (increment == Ok(None) && Finishes(cfg, Replies(false, t.provider, Start(path))))
        else Finishes(cfg, Replies(false, s.provider, Start(path)))
  {
    hide FullRead, IncrementalRead, Finishes, Replies, OffersToken;
    if path in s.deltaStates && path in s.caches {
      var token := s.deltaStates[path];
      IncrementSucceedsIff(cfg, s, path, token, s.caches[path]);
      var t := IncrementalRead(cfg, s, path, token, s.caches[path]).1;
      FullReadCompletesIff(cfg, t.(deltaStates := t.deltaStates - {path}, warnings := t.warnings + [Warning(FullResync, Warn, true)]), path);
    } else {
      FullReadCompletesIff(cfg, s, path);
    }
  }

  // ---------------------------------------------------------------- what a read leaves behind

  /** A completed full read returns and caches all that was given, and stores the newest token it was offered. */
  lemma FullReadLeaves(cfg: Config, s: ReaderState, path: string)
    ensures var (r, t) := FullRead(cfg, s, path);
      var given := Gathered(false, s.provider, Start(path));
      && (r.Ok? && r.value.Some? && r.value.value.completed ==>
            && r.value.value.values == given.values
            && t.caches == s.caches[path := given.values]
            && t.deltaStates == (if given.token.Some? then s.deltaStates[path := given.token.value] else s.deltaStates))
      && (r.Ok? && r.value.Some? && !r.value.value.completed ==>
            t.deltaStates == s.deltaStates && t.caches == s.caches[path := r.value.value.values])
      && (r.Err? ==> t.deltaStates == s.deltaStates && t.caches == s.caches)
      && (r.Ok? ==> r.value.Some?)
  {
    hide RunPass, Completes, Gathered;
    PassFollowsReplies(cfg, false, Begin(s.provider, Start(path)));
    assert [] + Gathered(false, s.provider, Start(path)).values == Gathered(false, s.provider, Start(path)).values;
  }

  /** An increment that succeeds merges all that was given into the cache and stores the newest token; any other changes neither. */
  lemma IncrementLeaves(cfg: Config, s: ReaderState, path: string, token: Link, cached: seq<Record>)
    ensures var (r, t) := IncrementalRead(cfg, s, path, token, cached);
      var given := Gathered(true, s.provider, token);
      if r.Ok? && r.value.Some? then
        && given.token.Some?
        && r.value.value == CollectionRead(Apply(cached, given.values), true)
        && t.caches == s.caches[path := Apply(cached, given.values)]
        && t.deltaStates == s.deltaStates[path := given.token.value]
      else t.caches == s.caches && t.deltaStates == s.deltaStates
  {
    hide RunPass, Completes, Gathered, Apply;
    PassFollowsReplies(cfg, true, Begin(s.provider, token));
    assert [] + Gathered(true, s.provider, token).values == Gathered(true, s.provider, token).values;
  }

  /** The increment of this read succeeds. */
  predicate ByIncrement(cfg: Config, s: ReaderState, path: string) {
    && path in s.deltaStates && path in s.caches
    && var r := IncrementalRead(cfg, s, path, s.deltaStates[path], s.caches[path]).0; r.Ok? && r.value.Some?
  }

  /** What the pass that made up the answer was given: that of the increment, or of the full read after it or instead of it. */
  function TheAnswer(cfg: Config, s: ReaderState, path: string): Gathering {
    if ByIncrement(cfg, s, path) then Gathered(true, s.provider, s.deltaStates[path])
    else if path in s.deltaStates && path in s.caches then
      Gathered(false, IncrementalRead(cfg, s, path, s.deltaStates[path], s.caches[path]).1.provider, Start(path))
    else Gathered(false, s.provider, Start(path))
  }

  lemma ReadLeavesMaps(cfg: Config, s: ReaderState, path: string)
    requires SoundState(s)
    ensures var (r, t) := ReadCollection(cfg, s, path);
      var given := TheAnswer(cfg, s, path);
      && (r.Ok? && r.value.completed ==>
            && r.value.values == (if ByIncrement(cfg, s, path) then Apply(s.caches[path], given.values) else given.values)
            && t.caches == s.caches[path := r.value.values]
            && t.deltaStates == (if given.token.Some? then s.deltaStates[path := given.token.value] else s.deltaStates - {path}))
      && (r.Ok? && !r.value.completed ==> t.deltaStates == s.deltaStates - {path} && t.caches == s.caches[path := r.value.values])
      && (r.Err? ==> t.caches == s.caches && t.deltaStates in {s.deltaStates, s.deltaStates - {path}})
  {
    hide IncrementalRead, FullRead, Gathered, Apply;
    if path in s.deltaStates {
      assert path in s.caches;
      hide SoundState;
      IncrementLeaves(cfg, s, path, s.deltaStates[path], s.caches[path]);
      var t := IncrementalRead(cfg, s, path, s.deltaStates[path], s.caches[path]).1;
      FullReadLeaves(cfg, t.(deltaStates := t.deltaStates - {path}, warnings := t.warnings + [Warning(FullResync, Warn, true)]), path);
    } else {
      hide SoundState;
      assert s.deltaStates - {path} == s.deltaStates;
      FullReadLeaves(cfg, s, path);
    }
  }

  /**
    What a read leaves behind. A completed one caches the records it returns, and the path has
    a token afterwards exactly when a page of the answer offered one: the newest of them, and
    the token of the position the cache shows. An incomplete one leaves its part without a
    token. One that throws keeps the cache, and the token or nothing.
   */
  lemma ReadLeaves(cfg: Config, s: ReaderState, path: string)
    requires SoundState(s)
    ensures var (r, t) := ReadCollection(cfg, s, path);
      var given := TheAnswer(cfg, s, path);
      && (r.Ok? && r.value.completed ==>
            && r.value.values == (if ByIncrement(cfg, s, path) then Apply(s.caches[path], given.values) else given.values)
            && t.caches == s.caches[path := r.value.values]
            && t.deltaStates == (if given.token.Some? then s.deltaStates[path := given.token.value] else s.deltaStates - {path})
            && (given.token.Some? ==> TokenMatchesCache(t.provider, path, given.token.value, r.value.values)))
      && (r.Ok? && !r.value.completed ==> t.deltaStates == s.deltaStates - {path} && t.caches == s.caches[path := r.value.values])
      && (r.Err? ==> t.caches == s.caches && t.deltaStates in {s.deltaStates, s.deltaStates - {path}})
  {
    ReadCollectionSound(cfg, s, path);
    ReadLeavesMaps(cfg, s, path);
    var (r, t) := ReadCollection(cfg, s, path);
    hide ReadCollection, TheAnswer, ByIncrement, Apply, TokenMatchesCache;
    var given := TheAnswer(cfg, s, path);
    if r.Ok? && r.value.completed && given.token.Some? {
      assert path in t.deltaStates;
      assert TokenMatchesCache(t.provider, path, t.deltaStates[path], t.caches[path]);
    }
  }

  // ---------------------------------------------------------------- such reads

  /** A pass over one page that holds everything and offers a token. */
  lemma OnePagePass(cfg: Config, incremental: bool, provider: Provider, link: Link, growth: seq<Record>, all: seq<Record>)
    requires cfg.maxPages >= 1 && provider.script != []
    requires provider.script[0] == Serve(|all|, growth, all, true, false)
    requires var log := LogOf(provider, link.path) + growth;
      AnswerFor(log, link, all) == (all, |log|)
    ensures var log := LogOf(provider, link.path) + growth;
      var t := RunPass(cfg, incremental, Begin(provider, link));
      && t.outcome == Complete && t.values == all && t.deltaLink == Some(Token(link.path, |log|))
      && t.provider == Provider(provider.logs[link.path := log], provider.script[1..])
      && t.warnings == TombstoneWarnings(all)
  {
    hide TombstoneWarnings, AnswerFor;
    var s := Begin(provider, link);
    var t := Turn(cfg, incremental, s);
    assert all[..|all|] == all && all[|all|..] == [] && [] + all == all;
    assert t.values == all && t.next == None;
    RunPassTurn(cfg, incremental, s);
    RunPassTurn(cfg, incremental, t);
    hide RunPass, Turn;
  }

  /** A first read whose pass gets to the end with a token. */
  lemma FirstReadEnds(cfg: Config, provider: Provider, path: string, token: Link)
    requires var t := RunPass(cfg, false, Begin(provider, Start(path)));
      t.outcome == Complete && t.deltaLink == Some(token)
    ensures var t := RunPass(cfg, false, Begin(provider, Start(path)));
      ReadCollection(cfg, Fresh(provider), path) == (
        Ok(CollectionRead(t.values, true)),
        ReaderState(t.provider, map[path := token], map[path := t.values], [] + t.warnings + [Warning(DeltaTokenCaptured, Info, false)]))
  {
    hide RunPass;
  }

  /** For every directory and any limit of at least one page there is a provider whose first read completes and leaves a token. */
  lemma SomeReadCompletes(cfg: Config, path: string, log: seq<Record>, rest: seq<Directive>)
    requires cfg.maxPages >= 1
    ensures var provider := Provider(map[path := log], [Serve(|log|, [], log, true, false)] + rest);
      ReadCollection(cfg, Fresh(provider), path) == (
        Ok(CollectionRead(log, true)),
        ReaderState(Provider(map[path := log], rest), map[path := Token(path, |log|)], map[path := log],
                    TombstoneWarnings(log) + [Warning(DeltaTokenCaptured, Info, false)]))
  {
    hide TombstoneWarnings, RunPass;
    var provider := Provider(map[path := log], [Serve(|log|, [], log, true, false)] + rest);
    assert log + [] == log;
    assert provider.script[1..] == rest;
    OnePagePass(cfg, false, provider, Start(path), [], log);
    FirstReadEnds(cfg, provider, path, Token(path, |log|));
    hide ReadCollection, Begin;
    assert map[path := log][path := log] == map[path := log];
    assert [] + TombstoneWarnings(log) == TombstoneWarnings(log);
  }

  /** A stored token is used by the next read: the increment is one page, and nothing is read again. */
  lemma NextReadIsIncrement(cfg: Config, s: ReaderState, path: string, growth: seq<Record>)
    requires cfg.maxPages >= 1
    requires path in s.caches && path in s.deltaStates && s.deltaStates[path] == Token(path, |LogOf(s.provider, path)|)
    requires s.provider.script == [Serve(|growth|, growth, growth, true, false)]
    ensures var (r, t) := ReadCollection(cfg, s, path);
      && ByIncrement(cfg, s, path)
      && r == Ok(CollectionRead(Apply(s.caches[path], growth), true))
      && t.deltaStates == s.deltaStates[path := Token(path, |LogOf(s.provider, path) + growth|)]
      && t.warnings == s.warnings + TombstoneWarnings(growth) + [Warning(DeltaSyncApplied, Info, false)]
  {
    hide TombstoneWarnings, RunPass, Apply;
    var log := LogOf(s.provider, path);
    assert (log + growth)[|log|..] == growth;
    OnePagePass(cfg, true, s.provider, Token(path, |log|), growth, growth);
  }

  /** Increments do happen: the two reads one after the other, for every directory and every growth of it. */
  lemma TokenIsUsed(cfg: Config, path: string, log: seq<Record>, growth: seq<Record>)
    requires cfg.maxPages >= 1
    ensures var provider := Provider(map[path := log], [Serve(|log|, [], log, true, false), Serve(|growth|, growth, growth, true, false)]);
      var s := ReadMany(cfg, Fresh(provider), [path]);
      && path in s.deltaStates && s.deltaStates[path] == Token(path, |log|)
      && ByIncrement(cfg, s, path)
      && ReadCollection(cfg, s, path).0 == Ok(CollectionRead(Apply(log, growth), true))
  {
    hide ReadCollection, TombstoneWarnings, ByIncrement, Apply;
    var first, second := Serve(|log|, [], log, true, false), Serve(|growth|, growth, growth, true, false);
    assert [first] + [second] == [first, second];
    var provider := Provider(map[path := log], [first, second]);
    SomeReadCompletes(cfg, path, log, [second]);
    var s := ReadCollection(cfg, Fresh(provider), path).1;
    assert [path][1..] == [] && ReadMany(cfg, s, []) == s;
    NextReadIsIncrement(cfg, s, path, growth);
  }
}
