/**
  How recent activity is indexed and how far it is trusted: whether event times and delivery
  times agree on an order, which event stands for a key, and how confident a finding may be.
 */
module ActivityConfidence {
  import opened Wrappers

  /** `rank` places the text of a timestamp among the others; `ms` is what parsing it gives. */
  datatype Timestamp = Timestamp(rank: int, ms: Option<int>)

  datatype CloudTrailEvent = CloudTrailEvent(
    eventTime: Option<Timestamp>,
    deliveredAt: Option<Timestamp>,
    retryObserved: bool,
    recipientAccountId: string,
    resourceNames: seq<string>)

  datatype Windows = Windows(eventBridgeLatency: int, staleActivity: int, staleFinding: int)

  datatype Reason =
    | ActivityStale | LatencyWindowExceeded | DeliveryPrecedesEvent | RetryObserved | PartialOrderingObserved
    | TimestampMissing | FindingStale | ActivityMissing

  datatype Level = Low | Medium | High

  datatype Activity = Activity(event: CloudTrailEvent, eventTime: Timestamp, confidence: Level, reasons: seq<Reason>)

  // ---------------------------------------------------------------- event order against delivery order

  datatype Delivered = Delivered(time: int, delivery: int)

  function DeliveredEvents(events: seq<CloudTrailEvent>): seq<Delivered> {
    if events == [] then []
    else
      (if events[0].eventTime.Some? && events[0].deliveredAt.Some?
       then [Delivered(events[0].eventTime.value.rank, events[0].deliveredAt.value.rank)] else [])
      + DeliveredEvents(events[1..])
  }

  function Sign(x: int): int {
    if x < 0 then -1 else if x == 0 then 0 else 1
  }

  predicate Disagree(x: Delivered, y: Delivered) {
    x.time != y.time && x.delivery != y.delivery && Sign(x.time - y.time) != Sign(x.delivery - y.delivery)
  }

  predicate HasPartialOrdering(ds: seq<Delivered>) {
    exists i, j :: 0 <= i < j < |ds| && Disagree(ds[i], ds[j])
  }

  predicate InOrder(ds: seq<Delivered>) {
    forall i, j :: 0 <= i < j < |ds| ==> ds[i].time <= ds[j].time && ds[i].delivery <= ds[j].delivery
  }

  ghost predicate Arrangement(ds: seq<Delivered>, p: seq<Delivered>) {
    multiset(p) == multiset(ds)
  }

  predicate Before(x: Delivered, y: Delivered) {
    x.time < y.time || (x.time == y.time && x.delivery <= y.delivery)
  }

  predicate Sorted(ds: seq<Delivered>) {
    forall i, j :: 0 <= i < j < |ds| ==> Before(ds[i], ds[j])
  }

  function Insert(x: Delivered, ds: seq<Delivered>): (r: seq<Delivered>)
    ensures multiset(r) == multiset(ds) + multiset{x}
    ensures forall y :: y in r ==> y == x || y in ds
  {
    if ds == [] then [x]
    else if Before(x, ds[0]) then [x] + ds
    else
      assert ds == [ds[0]] + ds[1..];
      [ds[0]] + Insert(x, ds[1..])
  }

  lemma {:induction false} InsertKeepsSorted(x: Delivered, ds: seq<Delivered>)
    requires Sorted(ds)
    ensures Sorted(Insert(x, ds))
  {
    if ds != [] && !Before(x, ds[0]) {
      InsertKeepsSorted(x, ds[1..]);
      var rest := Insert(x, ds[1..]);
      forall j | 0 <= j < |rest|
        ensures Before(ds[0], rest[j])
      {
        assert rest[j] in rest;
      }
    }
  }

  function Sort(ds: seq<Delivered>): (r: seq<Delivered>)
    ensures multiset(r) == multiset(ds)
  {
    if ds == [] then []
    else
      assert ds == [ds[0]] + ds[1..];
      Insert(ds[0], Sort(ds[1..]))
  }

  lemma {:induction false} SortSorts(ds: seq<Delivered>)
    ensures Sorted(Sort(ds))
  {
    if ds != [] {
      SortSorts(ds[1..]);
      InsertKeepsSorted(ds[0], Sort(ds[1..]));
    }
  }

  lemma NobodyDisagrees(ds: seq<Delivered>, x: Delivered, y: Delivered)
    requires !HasPartialOrdering(ds) && x in ds && y in ds
    ensures !Disagree(x, y)
  {
    var i :| 0 <= i < |ds| && ds[i] == x;
    var j :| 0 <= j < |ds| && ds[j] == y;
    if i < j {
      assert !Disagree(ds[i], ds[j]);
    } else if j < i {
      assert !Disagree(ds[j], ds[i]);
    }
  }

  lemma SortIsInOrder(ds: seq<Delivered>)
    requires !HasPartialOrdering(ds)
    ensures InOrder(Sort(ds))
  {
    SortSorts(ds);
    var p := Sort(ds);
    forall i, j | 0 <= i < j < |p|
      ensures p[i].time <= p[j].time && p[i].delivery <= p[j].delivery
    {
      assert p[i] in multiset(ds) && p[j] in multiset(ds);
      NobodyDisagrees(ds, p[i], p[j]);
      assert Before(p[i], p[j]);
    }
  }

  lemma InOrderMeansAgreement(ds: seq<Delivered>, p: seq<Delivered>)
    requires Arrangement(ds, p) && InOrder(p)
    ensures !HasPartialOrdering(ds)
  {
    forall i, j | 0 <= i < j < |ds|
      ensures !Disagree(ds[i], ds[j])
    {
      assert ds[i] in multiset(p) && ds[j] in multiset(p);
      var a :| 0 <= a < |p| && p[a] == ds[i];
      var b :| 0 <= b < |p| && p[b] == ds[j];
    }
  }

  /**
    No partial ordering is reported exactly when the delivered events can be arranged so that
    event time and delivery time are both nondecreasing.
   */
  lemma PartialOrderingIff(events: seq<CloudTrailEvent>)
    ensures !HasPartialOrdering(DeliveredEvents(events)) <==> exists p :: Arrangement(DeliveredEvents(events), p) && InOrder(p)
  {
    var ds := DeliveredEvents(events);
    if !HasPartialOrdering(ds) {
      SortIsInOrder(ds);
      assert Arrangement(ds, Sort(ds));
    } else {
      forall p | Arrangement(ds, p)
        ensures !InOrder(p)
      {
        if InOrder(p) {
          InOrderMeansAgreement(ds, p);
          assert false;
        }
      }
    }
  }

  // ---------------------------------------------------------------- confidence

  /** Minutes between two timestamps in hundredths, rounded half up; None when either does not parse. */
  function HundredthsBetween(start: Timestamp, end: Timestamp): Option<int> {
    if start.ms.None? || end.ms.None? then None
    else Some(((end.ms.value - start.ms.value) * 100 + 30000) / 60000)
  }

  predicate Exceeds(hundredths: Option<int>, windowMinutes: int) {
    hundredths.Some? && hundredths.value > windowMinutes * 100
  }

  predicate IsLow(r: Reason) {
    r in {ActivityStale, DeliveryPrecedesEvent, TimestampMissing, FindingStale, ActivityMissing}
  }

  function ConfidenceLevelForReasons(reasons: seq<Reason>): Level {
    if exists r :: r in reasons && IsLow(r) then Low
    else if reasons != [] then Medium
    else High
  }

  function When(b: bool, r: Reason): (rs: seq<Reason>)
    ensures forall x :: x in rs <==> b && x == r
  {
    if b then [r] else []
  }

  function ActivityReasons(e: CloudTrailEvent, now: Timestamp, w: Windows, partial: bool): seq<Reason>
    requires e.eventTime.Some?
  {
    var age := HundredthsBetween(e.eventTime.value, now);
    var latency := if e.deliveredAt.Some? then HundredthsBetween(e.eventTime.value, e.deliveredAt.value) else None;
    When(age.None? || Exceeds(age, w.staleActivity), ActivityStale)
    + When(Exceeds(latency, w.eventBridgeLatency), LatencyWindowExceeded)
    + When(latency.Some? && latency.value < 0, DeliveryPrecedesEvent)
    + When(e.retryObserved, RetryObserved)
    + When(partial, PartialOrderingObserved)
  }

  function ActivityOf(e: CloudTrailEvent, now: Timestamp, w: Windows, partial: bool): Activity
    requires e.eventTime.Some?
  {
    var reasons := ActivityReasons(e, now, w, partial);
    Activity(e, e.eventTime.value, ConfidenceLevelForReasons(reasons), reasons)
  }

  /** Milliseconds from one timestamp to the other; None when either does not parse. */
  function Elapsed(start: Timestamp, end: Timestamp): Option<int> {
    if start.ms.Some? && end.ms.Some? then Some(end.ms.value - start.ms.value) else None
  }

  /** What rounding to hundredths of a minute means: a window is exceeded from 300 ms past its end on, and a time precedes another from more than 300 ms on. */
  lemma RoundedMinutes(start: Timestamp, end: Timestamp, windowMinutes: int)
    ensures var hundredths := HundredthsBetween(start, end);
      && (hundredths.Some? <==> Elapsed(start, end).Some?)
      && (Exceeds(hundredths, windowMinutes) <==> Elapsed(start, end).Some? && Elapsed(start, end).value >= windowMinutes * 60000 + 300)
      && (hundredths.Some? ==> (hundredths.value < 0 <==> Elapsed(start, end).value < -300))
  {
    if start.ms.Some? && end.ms.Some? {
      var x := (end.ms.value - start.ms.value) * 100 + 30000;
      var q := x / 60000;
      assert x == 60000 * q + x % 60000 && 0 <= x % 60000 < 60000;
    }
  }

  predicate IsStale(e: CloudTrailEvent, now: Timestamp, w: Windows)
    requires e.eventTime.Some?
  {
    var age := Elapsed(e.eventTime.value, now);
    age.None? || age.value >= w.staleActivity * 60000 + 300
  }

  function Latency(e: CloudTrailEvent): Option<int>
    requires e.eventTime.Some?
  {
    if e.deliveredAt.Some? then Elapsed(e.eventTime.value, e.deliveredAt.value) else None
  }

  lemma AmongReasons(e: CloudTrailEvent, now: Timestamp, w: Windows, partial: bool, r: Reason)
    requires e.eventTime.Some?
    ensures var age := HundredthsBetween(e.eventTime.value, now);
      var latency := if e.deliveredAt.Some? then HundredthsBetween(e.eventTime.value, e.deliveredAt.value) else None;
      r in ActivityReasons(e, now, w, partial) <==>
        match r
        case ActivityStale => age.None? || Exceeds(age, w.staleActivity)
        case LatencyWindowExceeded => Exceeds(latency, w.eventBridgeLatency)
        case DeliveryPrecedesEvent => latency.Some? && latency.value < 0
        case RetryObserved => e.retryObserved
        case PartialOrderingObserved => partial
        case _ => false
  {
    hide HundredthsBetween, Exceeds, When;
  }

  /** Each reason an activity is given, and when. */
  lemma ReasonsOfActivity(e: CloudTrailEvent, now: Timestamp, w: Windows, partial: bool)
    requires e.eventTime.Some?
    ensures var reasons := ActivityReasons(e, now, w, partial);
      && (ActivityStale in reasons <==> IsStale(e, now, w))
      && (LatencyWindowExceeded in reasons <==> Latency(e).Some? && Latency(e).value >= w.eventBridgeLatency * 60000 + 300)
      && (DeliveryPrecedesEvent in reasons <==> Latency(e).Some? && Latency(e).value < -300)
      && (RetryObserved in reasons <==> e.retryObserved)
      && (PartialOrderingObserved in reasons <==> partial)
      && TimestampMissing !in reasons && FindingStale !in reasons && ActivityMissing !in reasons
  {
    RoundedMinutes(e.eventTime.value, now, w.staleActivity);
    if e.deliveredAt.Some? {
      RoundedMinutes(e.eventTime.value, e.deliveredAt.value, w.eventBridgeLatency);
    }
    AmongReasons(e, now, w, partial, ActivityStale);
    AmongReasons(e, now, w, partial, LatencyWindowExceeded);
    AmongReasons(e, now, w, partial, DeliveryPrecedesEvent);
    AmongReasons(e, now, w, partial, RetryObserved);
    AmongReasons(e, now, w, partial, PartialOrderingObserved);
    AmongReasons(e, now, w, partial, TimestampMissing);
    AmongReasons(e, now, w, partial, FindingStale);
    AmongReasons(e, now, w, partial, ActivityMissing);
    hide ActivityReasons, HundredthsBetween, Exceeds, Elapsed;
  }

  lemma LevelByReasons(reasons: seq<Reason>)
    ensures var level := ConfidenceLevelForReasons(reasons);
      && (level == Low <==>
            || ActivityStale in reasons || DeliveryPrecedesEvent in reasons || TimestampMissing in reasons
            || FindingStale in reasons || ActivityMissing in reasons)
      && (level == High <==> forall r: Reason :: r !in reasons)
  {
    if reasons != [] {
      assert reasons[0] in reasons;
    }
  }

  /**
    How far an activity is trusted: low exactly when it is stale or delivered before it
    happened, and high exactly when nothing at all speaks against it.
   */
  lemma ActivityLevelIff(e: CloudTrailEvent, now: Timestamp, w: Windows, partial: bool)
    requires e.eventTime.Some?
    ensures var level := ActivityOf(e, now, w, partial).confidence;
      && (level == Low <==> IsStale(e, now, w) || (Latency(e).Some? && Latency(e).value < -300))
      && (level == High <==>
            && !IsStale(e, now, w) && !e.retryObserved && !partial
            && (Latency(e).Some? ==> -300 <= Latency(e).value < w.eventBridgeLatency * 60000 + 300))
  {
    ReasonsOfActivity(e, now, w, partial);
    LevelByReasons(ActivityReasons(e, now, w, partial));
    hide ActivityReasons, IsStale, Latency, ConfidenceLevelForReasons;
  }

  // ---------------------------------------------------------------- the index

  predicate Mentions(e: CloudTrailEvent, key: string) {
    e.eventTime.Some? && key != "" && (e.recipientAccountId == key || key in e.resourceNames)
  }

  /** Event `i` is the first one of maximal time, among the first `n` events, that mentions the key. */
  predicate Latest(events: seq<CloudTrailEvent>, n: nat, key: string, i: nat)
    requires n <= |events|
  {
    && i < n && Mentions(events[i], key)
    && forall j :: 0 <= j < n && Mentions(events[j], key) ==>
         && events[j].eventTime.value.rank <= events[i].eventTime.value.rank
         && (j < i ==> events[j].eventTime.value.rank < events[i].eventTime.value.rank)
  }

  /** What the index holds for one key after `n` events. */
  ghost predicate IndexedFor(index: map<string, Activity>, events: seq<CloudTrailEvent>, n: nat, now: Timestamp, w: Windows,
                             partial: bool, key: string)
    requires n <= |events|
  {
    if key in index then exists i: nat :: Latest(events, n, key, i) && index[key] == ActivityOf(events[i], now, w, partial)
    else forall i :: 0 <= i < n ==> !Mentions(events[i], key)
  }

  function Indexed(index: map<string, Activity>, activity: Activity, key: string): map<string, Activity> {
    if key !in index || index[key].eventTime.rank < activity.eventTime.rank then index[key := activity] else index
  }

  lemma IndexOneKey(before: map<string, Activity>, after: map<string, Activity>, events: seq<CloudTrailEvent>, n: nat,
                    now: Timestamp, w: Windows, partial: bool, key: string)
    requires n < |events| && IndexedFor(before, events, n, now, w, partial, key)
    requires if Mentions(events[n], key)
             then var a := ActivityOf(events[n], now, w, partial);
               key in after && after[key] == Indexed(before, a, key)[key]
             else (key in after <==> key in before) && (key in before ==> after[key] == before[key])
    ensures IndexedFor(after, events, n + 1, now, w, partial, key)
  {
    hide ActivityReasons;
    if key in before {
      var i: nat :| Latest(events, n, key, i) && before[key] == ActivityOf(events[i], now, w, partial);
      if Mentions(events[n], key) && events[i].eventTime.value.rank < events[n].eventTime.value.rank {
        assert Latest(events, n + 1, key, n);
      } else {
        assert Latest(events, n + 1, key, i);
      }
    } else if Mentions(events[n], key) {
      assert Latest(events, n + 1, key, n);
    }
  }

  /** The index of all events: every key is mapped as it should be, or absent. */
  ghost predicate IsActivityIndex(index: map<string, Activity>, events: seq<CloudTrailEvent>, now: Timestamp, w: Windows) {
    forall key: string :: IndexedFor(index, events, |events|, now, w, HasPartialOrdering(DeliveredEvents(events)), key)
  }

  method BuildActivityIndex(events: seq<CloudTrailEvent>, now: Timestamp, w: Windows)
    returns (index: map<string, Activity>, partialOrderingObserved: bool)
    ensures partialOrderingObserved <==> HasPartialOrdering(DeliveredEvents(events))
    ensures IsActivityIndex(index, events, now, w)
  {
    hide ActivityReasons, HasPartialOrdering;
    index := map[];
    partialOrderingObserved := HasPartialOrdering(DeliveredEvents(events));
    var n := 0;
    while n < |events|
      invariant 0 <= n <= |events|
      invariant forall key :: IndexedFor(index, events, n, now, w, partialOrderingObserved, key)
    {
      var e := events[n];
      ghost var before := index;
      if e.eventTime.Some? {
        var activity := ActivityOf(e, now, w, partialOrderingObserved);
        var rawKeys := RawKeys(e);
        var k := 0;
        while k < |rawKeys|
          invariant 0 <= k <= |rawKeys|
          invariant forall key :: key !in rawKeys[..k] ==> (key in index <==> key in before) && (key in before ==> index[key] == before[key])
          invariant forall key :: key in rawKeys[..k] ==> key in index && index[key] == Indexed(before, activity, key)[key]
        {
          assert rawKeys[..k + 1] == rawKeys[..k] + [rawKeys[k]];
          index := Indexed(index, activity, rawKeys[k]);
          k := k + 1;
        }
        assert rawKeys[..k] == rawKeys;
      }
      ghost var next := n + 1;
      forall key
        ensures IndexedFor(index, events, next, now, w, partialOrderingObserved, key)
      {
        IndexOneKey(before, index, events, n, now, w, partialOrderingObserved, key);
      }
      n := n + 1;
    }
  }

  /** The keys an event is indexed under. */
  method RawKeys(e: CloudTrailEvent) returns (keys: seq<string>)
    requires e.eventTime.Some?
    ensures forall key :: key in keys <==> Mentions(e, key)
    ensures forall i, j :: 0 <= i < j < |keys| ==> keys[i] != keys[j]
  {
    keys := if e.recipientAccountId == "" then [] else [e.recipientAccountId];
    var i := 0;
    while i < |e.resourceNames|
      invariant 0 <= i <= |e.resourceNames|
      invariant forall key :: key in keys <==> key != "" && (e.recipientAccountId == key || key in e.resourceNames[..i])
      invariant forall i, j :: 0 <= i < j < |keys| ==> keys[i] != keys[j]
    {
      assert e.resourceNames[..i + 1] == e.resourceNames[..i] + [e.resourceNames[i]];
      if e.resourceNames[i] != "" && e.resourceNames[i] !in keys {
        keys := keys + [e.resourceNames[i]];
      }
      i := i + 1;
    }
    assert e.resourceNames[..i] == e.resourceNames;
  }

  // ---------------------------------------------------------------- findings

  datatype Finding = Finding(resource: string, updatedAt: Option<Timestamp>, createdAt: Option<Timestamp>)

  function Unique(reasons: seq<Reason>): (r: seq<Reason>)
    ensures forall x :: x in r <==> x in reasons
  {
    if reasons == [] then []
    else
      var n := |reasons| - 1;
      assert reasons == reasons[..n] + [reasons[n]];
      var rest := Unique(reasons[..n]);
      if reasons[n] in rest then rest else rest + [reasons[n]]
  }

  function FindingAge(f: Finding, now: Timestamp): Option<int> {
    if f.updatedAt.Some? then HundredthsBetween(f.updatedAt.value, now)
    else if f.createdAt.Some? then HundredthsBetween(f.createdAt.value, now)
    else None
  }

  function FindingActivity(f: Finding, index: map<string, Activity>): Option<Activity> {
    if f.resource != "" && f.resource in index then Some(index[f.resource]) else None
  }

  function FindingReasons(f: Finding, index: map<string, Activity>, partial: bool, now: Timestamp, w: Windows): seq<Reason> {
    var age := FindingAge(f, now);
    var activity := FindingActivity(f, index);
    Unique(When(age.None?, TimestampMissing)
           + When(Exceeds(age, w.staleFinding), FindingStale)
           + (if activity.Some? then activity.value.reasons else [ActivityMissing])
           + When(partial, PartialOrderingObserved))
  }

  function FindingConfidence(f: Finding, index: map<string, Activity>, partial: bool, now: Timestamp, w: Windows): Level {
    ConfidenceLevelForReasons(FindingReasons(f, index, partial, now, w))
  }

  /** The time a finding is dated by: its last update, or else its creation. */
  function FindingTime(f: Finding): Option<Timestamp> {
    if f.updatedAt.Some? then f.updatedAt else f.createdAt
  }

  /** Each reason a finding is given, and when. */
  lemma ReasonsOfFinding(f: Finding, index: map<string, Activity>, partial: bool, now: Timestamp, w: Windows)
    ensures var reasons := FindingReasons(f, index, partial, now, w);
      var activity := FindingActivity(f, index);
      var age := if FindingTime(f).Some? then Elapsed(FindingTime(f).value, now) else None;
      && (activity.Some? <==> f.resource != "" && f.resource in index)
      && forall r :: r in reasons <==>
           || (r == TimestampMissing && age.None?)
           || (r == FindingStale && age.Some? && age.value >= w.staleFinding * 60000 + 300)
           || (r == ActivityMissing && activity.None?)
           || (r == PartialOrderingObserved && partial)
           || (activity.Some? && r in index[f.resource].reasons)
  {
    if FindingTime(f).Some? {
      RoundedMinutes(FindingTime(f).value, now, w.staleFinding);
    }
    hide HundredthsBetween, Exceeds, Elapsed;
  }

  function Rank(l: Level): nat {
    match l
    case Low => 0
    case Medium => 1
    case High => 2
  }

  /** More reasons never raise the level. */
  lemma LevelIsAntitone(some: seq<Reason>, all: seq<Reason>)
    requires forall r :: r in some ==> r in all
    ensures Rank(ConfidenceLevelForReasons(all)) <= Rank(ConfidenceLevelForReasons(some))
  {
    if some != [] {
      assert some[0] in all;
    }
  }

  /**
    With the index built from the events: a finding never ranks above the activity it rests
    on, is low without one, and is high exactly when it is fresh, its activity is high and no
    partial ordering was observed.
   */
  lemma FindingNeverOutranksActivity(events: seq<CloudTrailEvent>, index: map<string, Activity>, f: Finding, now: Timestamp, w: Windows)
    requires IsActivityIndex(index, events, now, w)
    ensures var partial := HasPartialOrdering(DeliveredEvents(events));
      var level := FindingConfidence(f, index, partial, now, w);
      var activity := FindingActivity(f, index);
      && (activity.Some? ==> Rank(level) <= Rank(activity.value.confidence))
      && (activity.None? ==> level == Low)
      && (level == High <==>
            && activity.Some? && activity.value.confidence == High && !partial
            && FindingAge(f, now).Some? && !Exceeds(FindingAge(f, now), w.staleFinding))
  {
    hide ActivityReasons, HasPartialOrdering, Exceeds, FindingAge;
    var partial := HasPartialOrdering(DeliveredEvents(events));
    var reasons := FindingReasons(f, index, partial, now, w);
    var activity := FindingActivity(f, index);
    if activity.Some? {
      assert IndexedFor(index, events, |events|, now, w, partial, f.resource);
      LevelIsAntitone(activity.value.reasons, reasons);
    } else {
      assert ActivityMissing in reasons;
    }
    HighMeansNoReason(reasons);
    if partial {
      assert PartialOrderingObserved in reasons;
    } else if FindingAge(f, now).None? {
      assert TimestampMissing in reasons;
    } else if Exceeds(FindingAge(f, now), w.staleFinding) {
      assert FindingStale in reasons;
    } else if activity.Some? {
      HighMeansNoReason(activity.value.reasons);
      assert forall r :: r in reasons <==> r in activity.value.reasons;
      if reasons != [] {
        assert reasons[0] in activity.value.reasons;
      }
    }
  }

  lemma HighMeansNoReason(reasons: seq<Reason>)
    ensures ConfidenceLevelForReasons(reasons) == High <==> reasons == []
  {
  }
}
