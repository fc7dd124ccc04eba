/**
  What a restart starts from: the state snapshot or the configured seed, overlaid with the
  graph and job repositories when they hold everything it holds, and with the recovered
  audit log.
 */
module RuntimeSeed {
  import opened Wrappers
  import opened AuditChain
  import opened AuditRuntime
  import opened RepositorySeeding

  /** The order in which an empty repository is filled. */
  const GRAPH: seq<Collection> := [Subjects, Resources, Relationships, NativeGrants]
  const JOBS: seq<Collection> :=
    [DiscoveryRuns, ReadinessReports, ProvisioningPlans, ProvisioningJobs, DriftFindings,
     Campaigns, GovernanceFindings, ExceptionRequests, ReconciliationRuns, Decisions]

  /** `base` with the collections of a group taken from `persisted`. */
  function Overlay(base: Records, persisted: Records, group: seq<Collection>): Records {
    base + (map c | c in group :: Items(persisted, c))
  }

  function OverlayIfUsable(base: Records, persisted: Option<Records>, group: seq<Collection>): Records {
    if persisted.Some? && ShouldUsePersisted(persisted.value, base, group) then Overlay(base, persisted.value, group) else base
  }

  datatype Seed = Seed(records: Records, auditEvents: Log)

  /** What the repositories return; None is a repository that is not configured. */
  datatype Persistence = Persistence(
    state: Option<Option<Seed>>,
    audit: Option<Log>,
    graph: Option<Records>,
    jobs: Option<Records>)

  function BaseSeed(p: Persistence, fallback: Seed): Seed {
    match p.state
    case Some(Some(snapshot)) => snapshot
    case _ => fallback
  }

  ghost function InitialRuntimeSeed(hash: HashFunction, p: Persistence, fallback: Seed): Seed {
    var base := BaseSeed(p, fallback);
    var events := if p.state.None? || p.audit.None? then base.auditEvents else Recover(hash, base.auditEvents, p.audit.value);
    Seed(OverlayIfUsable(OverlayIfUsable(base.records, p.graph, GRAPH), p.jobs, JOBS), events)
  }

  // ---------------------------------------------------------------- nothing of the snapshot is dropped

  lemma OverlayKeepsKeys(base: Records, persisted: Option<Records>, group: seq<Collection>, c: Collection)
    ensures ContainsAllByKey(Items(OverlayIfUsable(base, persisted, group), c), Items(base, c))
    ensures c !in group ==> Items(OverlayIfUsable(base, persisted, group), c) == Items(base, c)
  {
    var items := Items(base, c);
    forall i | 0 <= i < |items|
      ensures HasKey(items, items[i].key)
    {
    }
  }

  /**
    A restart drops no record id of the snapshot, whatever the graph and job repositories
    hold; its log extends the snapshot's and is a whole chain whenever the snapshot's is,
    whatever the audit repository holds.
   */
  lemma RecoveredSeedKeepsEverything(hash: HashFunction, p: Persistence, fallback: Seed, c: Collection)
    ensures var base := BaseSeed(p, fallback);
      var seed := InitialRuntimeSeed(hash, p, fallback);
      && ContainsAllByKey(Items(seed.records, c), Items(base.records, c))
      && (c !in GRAPH + JOBS ==> Items(seed.records, c) == Items(base.records, c))
      && StartsWith(seed.auditEvents, base.auditEvents)
      && (Verified(hash, base.auditEvents) ==> Verified(hash, seed.auditEvents))
  {
    hide EventText, Verified, Overlay, ShouldUsePersisted, ContainsAllByKey;
    var base := BaseSeed(p, fallback);
    var withGraph := OverlayIfUsable(base.records, p.graph, GRAPH);
    OverlayKeepsKeys(base.records, p.graph, GRAPH, c);
    OverlayKeepsKeys(withGraph, p.jobs, JOBS, c);
    if c in GRAPH {
      assert c !in JOBS;
    }
    assert c !in GRAPH ==> Items(withGraph, c) == Items(base.records, c);
    if p.audit.Some? {
      RecoveryIsSafe(hash, base.auditEvents, p.audit.value);
    }
  }

  /** A repository filled from some records replaces them at a restart exactly when it was filled completely. */
  lemma FilledRepositoryIsOverlaid(base: Records, empty: Records, group: seq<Collection>, n: nat)
    requires forall i, j :: 0 <= i < j < |group| ==> group[i] != group[j]
    requires UniqueKeys(base) && !HasPersistedRecords(empty, group) && 0 < n <= |WritesOf(base, group)|
    ensures var filled := Apply(empty, WritesOf(base, group)[..n]);
      && HasPersistedRecords(filled, group)
      && (ShouldUsePersisted(filled, base, group) <==> n == |WritesOf(base, group)|)
  {
    hide Apply, WritesOf, UniqueKeys, ContainsAllByKey;
    var all := WritesOf(base, group);
    if n == |all| {
      assert all[..n] == all;
      SomethingWritten(base, group);
      FilledRepositoryIsUsed(empty, base, group);
    } else {
      PartialFillingIsStuck(empty, base, group, n);
    }
  }

  lemma OverlayItems(base: Records, persisted: Option<Records>, group: seq<Collection>, c: Collection)
    ensures Items(OverlayIfUsable(base, persisted, group), c) ==
      if c in group && persisted.Some? && ShouldUsePersisted(persisted.value, base, group) then Items(persisted.value, c) else Items(base, c)
  {
    hide ShouldUsePersisted;
  }

  lemma SameTest(persisted: Records, base: Records, other: Records, group: seq<Collection>)
    requires forall c :: c in group ==> Items(base, c) == Items(other, c)
    ensures ShouldUsePersisted(persisted, base, group) <==> ShouldUsePersisted(persisted, other, group)
  {
    hide ContainsAllByKey, HasPersistedRecords, Items;
  }

  /** Laying one group after another over the base: either only depends on its own repository. */
  lemma GroupsAreIndependent(base: Records, p: Option<Records>, q: Option<Records>, g: seq<Collection>, h: seq<Collection>, c: Collection)
    requires forall d :: d in g ==> d !in h
    ensures var seed := OverlayIfUsable(OverlayIfUsable(base, p, g), q, h);
      && (c in g ==> Items(seed, c) == Items(OverlayIfUsable(base, p, g), c))
      && (c in h ==> Items(seed, c) == Items(OverlayIfUsable(base, q, h), c))
  {
    var withG := OverlayIfUsable(base, p, g);
    forall d | d in h
      ensures Items(withG, d) == Items(base, d)
    {
      OverlayItems(base, p, g, d);
    }
    if q.Some? {
      SameTest(q.value, withG, base, h);
    }
    OverlayItems(withG, q, h, c);
    OverlayItems(base, q, h, c);
    hide Items, OverlayIfUsable, ShouldUsePersisted;
  }

  lemma FirstGroupFilled(base: Records, p: Option<Records>, q: Option<Records>, g: seq<Collection>, h: seq<Collection>,
                   empty: Records, n: nat, c: Collection)
    requires (forall d :: d in g ==> d !in h) && forall i, j :: 0 <= i < j < |g| ==> g[i] != g[j]
    requires UniqueKeys(base) && !HasPersistedRecords(empty, g) && 0 < n <= |WritesOf(base, g)| && c in g
    requires p == Some(Apply(empty, WritesOf(base, g)[..n]))
    ensures HasPersistedRecords(p.value, g)
    ensures Items(OverlayIfUsable(OverlayIfUsable(base, p, g), q, h), c) ==
      Items(if n == |WritesOf(base, g)| then p.value else base, c) == Items(base, c)
  {
    var all := WritesOf(base, g);
    assert n == |all| ==> all[..n] == all;
    FillingCopiesSnapshot(empty, base, g, c);
    hide *;
    GroupsAreIndependent(base, p, q, g, h, c);
    FilledRepositoryIsOverlaid(base, empty, g, n);
    OverlayItems(base, p, g, c);
  }

  lemma SecondGroupFilled(base: Records, p: Option<Records>, q: Option<Records>, g: seq<Collection>, h: seq<Collection>,
                   empty: Records, n: nat, c: Collection)
    requires (forall d :: d in g ==> d !in h) && forall i, j :: 0 <= i < j < |h| ==> h[i] != h[j]
    requires UniqueKeys(base) && !HasPersistedRecords(empty, h) && 0 < n <= |WritesOf(base, h)| && c in h
    requires q == Some(Apply(empty, WritesOf(base, h)[..n]))
    ensures HasPersistedRecords(q.value, h)
    ensures Items(OverlayIfUsable(OverlayIfUsable(base, p, g), q, h), c) ==
      Items(if n == |WritesOf(base, h)| then q.value else base, c) == Items(base, c)
  {
    var all := WritesOf(base, h);
    assert n == |all| ==> all[..n] == all;
    FillingCopiesSnapshot(empty, base, h, c);
    hide *;
    GroupsAreIndependent(base, p, q, g, h, c);
    FilledRepositoryIsOverlaid(base, empty, h, n);
    OverlayItems(base, q, h, c);
  }

  lemma GroupsAreDisjoint()
    ensures forall d :: d in GRAPH ==> d !in JOBS
    ensures forall i, j :: 0 <= i < j < |GRAPH| ==> GRAPH[i] != GRAPH[j]
    ensures forall i, j :: 0 <= i < j < |JOBS| ==> JOBS[i] != JOBS[j]
  {
  }

  /**
    What the next restart makes of a graph repository that was filled from the same snapshot,
    whatever the job repository holds: a complete one is used; one whose filling stopped in
    the middle is ignored in favour of the snapshot, and since it is not empty it is not
    filled again either. Either way the restart has the snapshot's own records.
   */
  lemma RestartAfterFilling(hash: HashFunction, p: Persistence, fallback: Seed, empty: Records, n: nat, c: Collection)
    requires var base := BaseSeed(p, fallback).records;
      UniqueKeys(base) && 0 < n <= |WritesOf(base, GRAPH)| && p.graph == Some(Apply(empty, WritesOf(base, GRAPH)[..n]))
    requires !HasPersistedRecords(empty, GRAPH) && c in GRAPH
    ensures var base := BaseSeed(p, fallback).records;
      && HasPersistedRecords(p.graph.value, GRAPH)
      && Items(InitialRuntimeSeed(hash, p, fallback).records, c) ==
         Items(if n == |WritesOf(base, GRAPH)| then p.graph.value else base, c) == Items(base, c)
  {
    GroupsAreDisjoint();
    hide Apply, WritesOf, UniqueKeys, HasPersistedRecords, Recover, OverlayIfUsable, Items, GRAPH, JOBS;
    FirstGroupFilled(BaseSeed(p, fallback).records, p.graph, p.jobs, GRAPH, JOBS, empty, n, c);
  }

  /** The same for the job repository, whatever the graph repository holds. */
  lemma RestartAfterJobFilling(hash: HashFunction, p: Persistence, fallback: Seed, empty: Records, n: nat, c: Collection)
    requires var base := BaseSeed(p, fallback).records;
      UniqueKeys(base) && 0 < n <= |WritesOf(base, JOBS)| && p.jobs == Some(Apply(empty, WritesOf(base, JOBS)[..n]))
    requires !HasPersistedRecords(empty, JOBS) && c in JOBS
    ensures var base := BaseSeed(p, fallback).records;
      && HasPersistedRecords(p.jobs.value, JOBS)
      && Items(InitialRuntimeSeed(hash, p, fallback).records, c) ==
         Items(if n == |WritesOf(base, JOBS)| then p.jobs.value else base, c) == Items(base, c)
  {
    GroupsAreDisjoint();
    hide Apply, WritesOf, UniqueKeys, HasPersistedRecords, Recover, OverlayIfUsable, Items, GRAPH, JOBS;
    SecondGroupFilled(BaseSeed(p, fallback).records, p.graph, p.jobs, GRAPH, JOBS, empty, n, c);
  }

  // ---------------------------------------------------------------- what a restart uses

  /** The repository holds something of the group, and every key the base holds. */
  ghost predicate Complete(persisted: Records, base: Records, group: seq<Collection>) {
    && (exists c :: c in group && Items(persisted, c) != [])
    && forall c, key :: c in group && HasKey(Items(base, c), key) ==> HasKey(Items(persisted, c), key)
  }

  lemma UsableIffComplete(persisted: Records, base: Records, group: seq<Collection>)
    ensures ShouldUsePersisted(persisted, base, group) <==> Complete(persisted, base, group)
  {
    if Complete(persisted, base, group) {
      forall c | c in group
        ensures ContainsAllByKey(Items(persisted, c), Items(base, c))
      {
        forall i | 0 <= i < |Items(base, c)|
          ensures HasKey(Items(persisted, c), Items(base, c)[i].key)
        {
          assert HasKey(Items(base, c), Items(base, c)[i].key);
        }
      }
    }
  }

  /**
    Each group of collections comes from its own repository exactly when that is configured and
    complete with respect to the snapshot, and from the snapshot otherwise, whatever the other
    repository holds.
   */
  lemma RestartUsesRepositories(hash: HashFunction, p: Persistence, fallback: Seed, c: Collection)
    ensures var base := BaseSeed(p, fallback).records;
      var seed := InitialRuntimeSeed(hash, p, fallback).records;
      Items(seed, c) ==
        if c in GRAPH && p.graph.Some? && Complete(p.graph.value, base, GRAPH) then Items(p.graph.value, c)
        else if c in JOBS && p.jobs.Some? && Complete(p.jobs.value, base, JOBS) then Items(p.jobs.value, c)
        else Items(base, c)
  {
    var base := BaseSeed(p, fallback).records;
    if p.graph.Some? {
      UsableIffComplete(p.graph.value, base, GRAPH);
    }
    if p.jobs.Some? {
      UsableIffComplete(p.jobs.value, base, JOBS);
    }
    assert forall d :: d in GRAPH ==> d !in JOBS;
    GroupsAreIndependent(base, p.graph, p.jobs, GRAPH, JOBS, c);
    OverlayItems(base, p.graph, GRAPH, c);
    OverlayItems(base, p.jobs, JOBS, c);
    OverlayItems(OverlayIfUsable(base, p.graph, GRAPH), p.jobs, JOBS, c);
    hide ShouldUsePersisted, Complete, Items, OverlayIfUsable, Recover;
  }

  /** With a state and an audit repository the log a start begins with is that of the restart step. */
  lemma StartIsRestartStep(hash: HashFunction, p: Persistence, fallback: Seed, log: Log)
    requires p.state.Some? && p.audit.Some?
    ensures var snapshot := if p.state.value.Some? then Some(p.state.value.value.auditEvents) else None;
      InitialRuntimeSeed(hash, p, fallback).auditEvents ==
        Next(hash, AuditState(fallback.auditEvents, log, p.audit.value, snapshot), Restart).log
  {
  }
}
