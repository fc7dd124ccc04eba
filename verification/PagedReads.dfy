/**
  What the paged readers have in common: the limits on pages and retries, what a whole read
  may cost, and when a read gets to the last page.
 */
module PagedReads {
  import opened RetryDelay

  datatype Config = Config(maxPages: nat, maxRetries: nat)

  function MaxCalls(cfg: Config): nat {
    cfg.maxPages * (cfg.maxRetries + 1)
  }

  function MaxSleep(cfg: Config): nat {
    cfg.maxPages * cfg.maxRetries * MAX_RETRY_AFTER_MILLISECONDS
  }

  /** What a provider answers: to wait, a page with more to come, the last page, or anything that ends the read. */
  datatype Reply = Throttled | Continued | Last | Refused

  /** The loop of a reader over the answers it would get: does it take the last page? */
  predicate Completes(cfg: Config, replies: seq<Reply>, pageCount: nat, retryCount: nat)
    decreases |replies|
  {
    pageCount < cfg.maxPages && replies != [] &&
    match replies[0]
    case Throttled => retryCount + 1 <= cfg.maxRetries && Completes(cfg, replies[1..], pageCount, retryCount + 1)
    case Continued => Completes(cfg, replies[1..], pageCount + 1, 0)
    case Last => true
    case Refused => false
  }

  function Pages(replies: seq<Reply>): nat {
    if replies == [] then 0 else (if replies[0].Continued? || replies[0].Last? then 1 else 0) + Pages(replies[1..])
  }

  predicate ThrottledFrom(replies: seq<Reply>, i: nat, j: nat) {
    i <= j <= |replies| && forall k :: i <= k < j ==> replies[k].Throttled?
  }

  /**
    Answer `n` is the last page, nothing before it is refused, there are at most `pages` pages
    up to it, and no run of throttled answers is longer than the retries; a run at the very
    start adds to the `used` retries.
   */
  ghost predicate EndsAt(pages: int, retries: nat, replies: seq<Reply>, used: nat, n: nat) {
    && n < |replies| && replies[n].Last?
    && (forall k :: 0 <= k < n ==> replies[k].Throttled? || replies[k].Continued?)
    && Pages(replies[..n + 1]) <= pages
    && (forall i: nat, j: nat :: ThrottledFrom(replies, i, j) && j <= n ==> (if i == 0 then used else 0) + (j - i) <= retries)
  }

  ghost predicate Ends(pages: int, retries: nat, replies: seq<Reply>, used: nat) {
    exists n: nat :: EndsAt(pages, retries, replies, used, n)
  }

  lemma EndsAtOnce(pages: int, retries: nat, replies: seq<Reply>, used: nat)
    requires replies != [] && replies[0].Last? && used <= retries && pages >= 1
    ensures EndsAt(pages, retries, replies, used, 0)
  {
    assert replies[..1][1..] == [];
  }

  /** Passing over the first answer. */
  lemma EndsLater(pages: int, retries: nat, replies: seq<Reply>, used: nat, n: nat)
    requires replies != [] && used <= retries
    ensures replies[0].Throttled? && used < retries ==>
      (EndsAt(pages, retries, replies, used, n + 1) <==> EndsAt(pages, retries, replies[1..], used + 1, n))
    ensures replies[0].Continued? ==>
      (EndsAt(pages, retries, replies, used, n + 1) <==> EndsAt(pages - 1, retries, replies[1..], 0, n))
  {
    var rest := replies[1..];
    if n < |rest| {
      assert replies[..n + 2][1..] == rest[..n + 1];
      assert replies[n + 1] == rest[n];
    }
    if replies[0].Throttled? && used < retries {
      if EndsAt(pages, retries, replies, used, n + 1) {
        forall i: nat, j: nat | ThrottledFrom(rest, i, j) && j <= n
          ensures (if i == 0 then used + 1 else 0) + (j - i) <= retries
        {
          assert ThrottledFrom(replies, if i == 0 then 0 else i + 1, j + 1);
        }
      }
      if EndsAt(pages, retries, rest, used + 1, n) {
        forall i: nat, j: nat | ThrottledFrom(replies, i, j) && j <= n + 1
          ensures (if i == 0 then used else 0) + (j - i) <= retries
        {
          if j > i {
            assert ThrottledFrom(rest, if i == 0 then 0 else i - 1, j - 1);
          }
        }
      }
    }
    if replies[0].Continued? {
      if EndsAt(pages, retries, replies, used, n + 1) {
        forall i: nat, j: nat | ThrottledFrom(rest, i, j) && j <= n
          ensures 0 + (j - i) <= retries
        {
          assert ThrottledFrom(replies, i + 1, j + 1);
        }
      }
      if EndsAt(pages - 1, retries, rest, 0, n) {
        forall i: nat, j: nat | ThrottledFrom(replies, i, j) && j <= n + 1
          ensures (if i == 0 then used else 0) + (j - i) <= retries
        {
          if i > 0 {
            assert ThrottledFrom(rest, i - 1, j - 1);
          }
        }
      }
    }
  }

  lemma {:induction false} CompletesIffEnds(cfg: Config, replies: seq<Reply>, pageCount: nat, used: nat)
    requires used <= cfg.maxRetries
    ensures Completes(cfg, replies, pageCount, used) <==> Ends(cfg.maxPages - pageCount, cfg.maxRetries, replies, used)
    decreases |replies|
  {
    hide EndsAt;
    var pages, retries := cfg.maxPages - pageCount, cfg.maxRetries;
    forall n: nat | EndsAt(pages, retries, replies, used, n)
      ensures Completes(cfg, replies, pageCount, used)
    {
      EndNeeds(pages, retries, replies, used, n);
      if !replies[0].Last? {
        EndsLater(pages, retries, replies, used, n - 1);
        CompletesIffEnds(cfg, replies[1..], if replies[0].Throttled? then pageCount else pageCount + 1,
                         if replies[0].Throttled? then used + 1 else 0);
      }
    }
    if Completes(cfg, replies, pageCount, used) {
      if replies[0].Last? {
        EndsAtOnce(pages, retries, replies, used);
      } else {
        var next, again := if replies[0].Throttled? then pageCount else pageCount + 1, if replies[0].Throttled? then used + 1 else 0;
        CompletesIffEnds(cfg, replies[1..], next, again);
        assert Ends(pages - (next - pageCount), retries, replies[1..], again);
        var n: nat :| EndsAt(pages - (next - pageCount), retries, replies[1..], again, n);
        EndsLater(pages, retries, replies, used, n);
        assert EndsAt(pages, retries, replies, used, n + 1);
      }
    }
  }

  /** What the end of a read says about its first answer. */
  lemma EndNeeds(pages: int, retries: nat, replies: seq<Reply>, used: nat, n: nat)
    requires EndsAt(pages, retries, replies, used, n)
    ensures replies != [] && !replies[0].Refused? && pages >= 1
    ensures replies[0].Throttled? ==> used < retries
    ensures !replies[0].Last? ==> n > 0
  {
    PagesOfLast(replies[..n + 1]);
    if replies[0].Throttled? {
      assert ThrottledFrom(replies, 0, 1);
    }
  }

  lemma {:induction false} PagesOfLast(replies: seq<Reply>)
    requires replies != [] && replies[|replies| - 1].Last?
    ensures Pages(replies) >= 1
  {
    if |replies| > 1 {
      PagesOfLast(replies[1..]);
    }
  }

  /**
    A read completes exactly when some answer is the last page within the page limit, no
    answer before it is refused, and the provider never throttles more often in a row than
    there are retries.
   */
  ghost predicate Finishes(cfg: Config, replies: seq<Reply>) {
    Ends(cfg.maxPages, cfg.maxRetries, replies, 0)
  }

  lemma CompletesIff(cfg: Config, replies: seq<Reply>)
    ensures Completes(cfg, replies, 0, 0) <==> Finishes(cfg, replies)
  {
    CompletesIffEnds(cfg, replies, 0, 0);
  }
}
