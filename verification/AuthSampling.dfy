/**
  Sampling of authentication failures: per reason, at most one audit event per window, which
  reports how many failures were left out since the previous one.
 */
module AuthSampling {
  const SAMPLE_WINDOW_MS: int := 60000

  datatype Reason = Missing | Invalid

  datatype Sample = Sample(sampledAtMs: int, suppressedCount: nat)

  datatype Audited = Audited(reason: Reason, occurredAtMs: int, windowStart: int, suppressedSinceLastSample: nat)

  /** The sample table and the audit log. The clock may read any value at any call. */
  datatype State = State(samples: map<Reason, Sample>, log: seq<Audited>)

  datatype Failure = Failure(reason: Reason, occurredAtMs: int)

  /** Rounds down, for times before 1970 as well. */
  function SampleWindowStart(ms: int): (r: int)
    ensures r <= ms < r + SAMPLE_WINDOW_MS && r % SAMPLE_WINDOW_MS == 0
  {
    ms / SAMPLE_WINDOW_MS * SAMPLE_WINDOW_MS
  }

  predicate Suppressed(s: State, f: Failure) {
    f.reason in s.samples && f.occurredAtMs - s.samples[f.reason].sampledAtMs < SAMPLE_WINDOW_MS
  }

  function Record(s: State, f: Failure): State {
    if Suppressed(s, f) then
      var prior := s.samples[f.reason];
      s.(samples := s.samples[f.reason := prior.(suppressedCount := prior.suppressedCount + 1)])
    else
      State(s.samples[f.reason := Sample(f.occurredAtMs, 0)],
            s.log + [Audited(f.reason, f.occurredAtMs, SampleWindowStart(f.occurredAtMs), Pending(s, f.reason))])
  }

  function Run(fs: seq<Failure>): State {
    if fs == [] then State(map[], []) else Record(Run(fs[..|fs| - 1]), fs[|fs| - 1])
  }

  // ---------------------------------------------------------------- conservation

  /** Failures left out since the last audited one. */
  function Pending(s: State, r: Reason): nat {
    if r in s.samples then s.samples[r].suppressedCount else 0
  }

  function Failures(fs: seq<Failure>, r: Reason): nat {
    if fs == [] then 0 else Failures(fs[..|fs| - 1], r) + (if fs[|fs| - 1].reason == r then 1 else 0)
  }

  /** Audited failures plus the ones their events report as left out. */
  function Accounted(log: seq<Audited>, r: Reason): nat {
    if log == [] then 0
    else
      var last := log[|log| - 1];
      Accounted(log[..|log| - 1], r) + (if last.reason == r then 1 + last.suppressedSinceLastSample else 0)
  }

  /** No failure is lost or counted twice. */
  lemma {:induction false} FailuresAreConserved(fs: seq<Failure>, r: Reason)
    ensures Failures(fs, r) == Accounted(Run(fs).log, r) + Pending(Run(fs), r)
  {
    if fs != [] {
      var before := Run(fs[..|fs| - 1]);
      FailuresAreConserved(fs[..|fs| - 1], r);
      var f := fs[|fs| - 1];
      if !Suppressed(before, f) {
        var log := Record(before, f).log;
        assert log[..|log| - 1] == before.log;
      }
    }
  }

  // ---------------------------------------------------------------- spacing

  /** The table holds, per reason, the time of its last audited failure. */
  ghost predicate Tracks(s: State) {
    && (forall i :: 0 <= i < |s.log| ==>
          && s.log[i].reason in s.samples
          && s.log[i].occurredAtMs <= s.samples[s.log[i].reason].sampledAtMs
          && s.log[i].windowStart == SampleWindowStart(s.log[i].occurredAtMs))
    && (forall i, j :: 0 <= i < j < |s.log| && s.log[i].reason == s.log[j].reason ==>
          s.log[i].occurredAtMs + SAMPLE_WINDOW_MS <= s.log[j].occurredAtMs)
  }

  lemma RecordKeepsTracks(s: State, f: Failure)
    requires Tracks(s)
    ensures Tracks(Record(s, f))
  {
    hide SampleWindowStart;
  }

  lemma {:induction false} RunTracks(fs: seq<Failure>)
    ensures Tracks(Run(fs))
  {
    hide Record, SampleWindowStart;
    if fs != [] {
      RunTracks(fs[..|fs| - 1]);
      RecordKeepsTracks(Run(fs[..|fs| - 1]), fs[|fs| - 1]);
    } else {
      assert Run(fs) == State(map[], []);
    }
  }

  lemma WindowStartsRise(a: int, b: int)
    requires a + SAMPLE_WINDOW_MS <= b
    ensures SampleWindowStart(a) + SAMPLE_WINDOW_MS <= SampleWindowStart(b)
  {
    assert b / SAMPLE_WINDOW_MS >= (a + SAMPLE_WINDOW_MS) / SAMPLE_WINDOW_MS == a / SAMPLE_WINDOW_MS + 1;
  }

  /**
    Under any clock, one that goes backwards included, audited failures of one reason are at
    least a window apart, in log order, and their window starts strictly increase.
   */
  lemma SamplesAreSpaced(fs: seq<Failure>, i: nat, j: nat)
    requires i < j < |Run(fs).log| && Run(fs).log[i].reason == Run(fs).log[j].reason
    ensures Run(fs).log[i].occurredAtMs + SAMPLE_WINDOW_MS <= Run(fs).log[j].occurredAtMs
    ensures Run(fs).log[i].windowStart < Run(fs).log[j].windowStart
  {
    RunTracks(fs);
    WindowStartsRise(Run(fs).log[i].occurredAtMs, Run(fs).log[j].occurredAtMs);
  }

  /** A failure is audited exactly when no failure of its reason was audited later than a window before it. */
  lemma AuditedIffWindowPassed(fs: seq<Failure>, f: Failure)
    ensures |Run(fs + [f]).log| == |Run(fs).log| + 1 <==>
      forall i :: 0 <= i < |Run(fs).log| && Run(fs).log[i].reason == f.reason ==>
        Run(fs).log[i].occurredAtMs + SAMPLE_WINDOW_MS <= f.occurredAtMs
  {
    assert (fs + [f])[..|fs|] == fs;
    RunTracks(fs);
    LastSampleIsLogged(fs, f.reason);
    hide SampleWindowStart;
  }

  lemma {:induction false} LastSampleIsLogged(fs: seq<Failure>, r: Reason)
    ensures r in Run(fs).samples ==>
      exists i :: 0 <= i < |Run(fs).log| && Run(fs).log[i].reason == r && Run(fs).log[i].occurredAtMs == Run(fs).samples[r].sampledAtMs
  {
    if fs != [] {
      LastSampleIsLogged(fs[..|fs| - 1], r);
      var before := Run(fs[..|fs| - 1]);
      var f := fs[|fs| - 1];
      var s := Record(before, f);
      if !Suppressed(before, f) {
        assert s.log[|before.log|].reason == f.reason;
        if r != f.reason && r in before.samples {
          var i :| 0 <= i < |before.log| && before.log[i].reason == r && before.log[i].occurredAtMs == before.samples[r].sampledAtMs;
          assert s.log[i] == before.log[i];
        }
      }
    }
  }

  // ---------------------------------------------------------------- the running program

  class FailureAuditor {
    var samples: map<Reason, Sample>
    var log: seq<Audited>
    ghost var failures: seq<Failure>

    ghost predicate Valid()
      reads this
    {
      State(samples, log) == Run(failures)
    }

    constructor ()
      ensures Valid() && failures == []
    {
      samples, log, failures := map[], [], [];
    }

    method RecordAuthenticationFailure(reason: Reason, occurredAtMs: int)
      requires Valid()
      modifies this
      ensures Valid() && failures == old(failures) + [Failure(reason, occurredAtMs)]
    {
      failures := failures + [Failure(reason, occurredAtMs)];
      assert failures[..|failures| - 1] == old(failures);
      if reason in samples && occurredAtMs - samples[reason].sampledAtMs < SAMPLE_WINDOW_MS {
        var prior := samples[reason];
        samples := samples[reason := prior.(suppressedCount := prior.suppressedCount + 1)];
        return;
      }
      var suppressed := if reason in samples then samples[reason].suppressedCount else 0;
      samples := samples[reason := Sample(occurredAtMs, 0)];
      log := log + [Audited(reason, occurredAtMs, SampleWindowStart(occurredAtMs), suppressed)];
    }
  }
}
