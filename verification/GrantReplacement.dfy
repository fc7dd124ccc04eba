/**
  What the native-access flag guarantees. A load with the flag up has read all assignments of
  the accounts and permission sets it listed, but the flag says nothing about the two
  listings. From this follows exactly when everything served was read, and exactly when a
  synchronisation drops a stored grant that the provider still serves.
 */
module GrantReplacement {
  import opened Wrappers
  import opened PagedReads
  import opened AwsReader
  import opened AwsDiscovery

  // ---------------------------------------------------------------- what the provider serves

  /** The assignments of one account and permission set; without an identifier nothing is asked for. */
  function ServedPair(queues: Queues, account: AwsObject, permissionSet: AwsObject): seq<AwsObject> {
    if account.key == "" || permissionSet.key == "" then []
    else Served(QueueOf(queues, ListAccountAssignments(account.key, permissionSet.key)))
  }

  function ServedForAccount(queues: Queues, account: AwsObject, permissionSets: seq<AwsObject>): seq<AwsObject> {
    if permissionSets == [] then []
    else
      var n := |permissionSets| - 1;
      ServedForAccount(queues, account, permissionSets[..n]) + ServedPair(queues, account, permissionSets[n])
  }

  function ServedAssignments(queues: Queues, accounts: seq<AwsObject>, permissionSets: seq<AwsObject>): seq<AwsObject> {
    if accounts == [] then []
    else
      var n := |accounts| - 1;
      ServedAssignments(queues, accounts[..n], permissionSets) + ServedForAccount(queues, accounts[n], permissionSets)
  }

  /** Identifiers are identifiers: no two objects of a listing share one. */
  ghost predicate DistinctKeys(objects: seq<AwsObject>) {
    forall i, j :: 0 <= i < j < |objects| && objects[i].key != "" ==> objects[i].key != objects[j].key
  }

  // ---------------------------------------------------------------- what a load with the flag up has read

  lemma OneRead(cfg: Config, op: Operation, s: Loading)
    ensures var (values, t) := ReadOne(cfg, op, s);
      && (!t.failed ==> !s.failed && values <= Served(QueueOf(s.queues, op)))
      && (!t.failed && op !in t.unfinished ==> values == Served(QueueOf(s.queues, op)))
      && (t.complete ==> s.complete)
      && (!t.failed && t.complete && ScopeOf(op).NativeGrantsScope? ==> values == Served(QueueOf(s.queues, op)))
      && s.unfinished <= t.unfinished
      && forall other :: other != op ==> QueueOf(t.queues, other) == QueueOf(s.queues, other)
  {
    hide ReadFrom, PushAll, Served, ScopeOf;
    ReadIsPrefix(cfg, op, QueueOf(s.queues, op), 0, 0);
  }

  /** Part of what the provider serves for an operation, and all of it unless the read stopped early. */
  ghost predicate ReadOf(queues: Queues, unfinished: seq<Operation>, op: Operation, values: seq<AwsObject>) {
    values <= Served(QueueOf(queues, op)) && (op !in unfinished ==> values == Served(QueueOf(queues, op)))
  }

  /** The queues of other operations than those of this account and these permission sets are as they were. */
  ghost predicate OnlyReadPairs(s: Loading, t: Loading, key: string, permissionSets: seq<AwsObject>) {
    forall op: Operation :: !(op.ListAccountAssignments? && op.accountId == key && Listed(permissionSets, op.permissionSetArn)) ==>
      QueueOf(t.queues, op) == QueueOf(s.queues, op)
  }

  ghost predicate OnlyReadAccounts(s: Loading, t: Loading, accounts: seq<AwsObject>) {
    forall op: Operation :: !(op.ListAccountAssignments? && Listed(accounts, op.accountId)) ==>
      QueueOf(t.queues, op) == QueueOf(s.queues, op)
  }

  predicate Listed(objects: seq<AwsObject>, key: string) {
    key != "" && exists i :: 0 <= i < |objects| && objects[i].key == key
  }

  lemma ListedMore(objects: seq<AwsObject>, key: string)
    requires objects != []
    ensures var n := |objects| - 1;
      Listed(objects, key) <==> Listed(objects[..n], key) || (key != "" && objects[n].key == key)
  {
    var n := |objects| - 1;
    if Listed(objects[..n], key) {
      var i :| 0 <= i < n && objects[..n][i].key == key;
      assert objects[i].key == key;
    }
  }

  lemma LastIsNew(objects: seq<AwsObject>)
    requires DistinctKeys(objects) && objects != []
    ensures DistinctKeys(objects[..|objects| - 1]) && !Listed(objects[..|objects| - 1], objects[|objects| - 1].key)
  {
  }

  lemma {:induction false} AccountIsRead(cfg: Config, account: AwsObject, permissionSets: seq<AwsObject>, s: Loading)
    requires account.key != "" && DistinctKeys(permissionSets)
    requires var t := ReadForAccount(cfg, account, permissionSets, s).1; !t.failed && t.complete
    ensures var (values, t) := ReadForAccount(cfg, account, permissionSets, s);
      && !s.failed && s.complete && s.unfinished <= t.unfinished
      && values == ServedForAccount(s.queues, account, permissionSets)
      && OnlyReadPairs(s, t, account.key, permissionSets)
    decreases |permissionSets|
  {
    hide ReadOne, Served, Push, DistinctKeys, Listed;
    if permissionSets != [] {
      var n := |permissionSets| - 1;
      var t := ReadForAccount(cfg, account, permissionSets[..n], s).1;
      var op := ListAccountAssignments(account.key, permissionSets[n].key);
      OneRead(cfg, op, t);
      LastIsNew(permissionSets);
      AccountIsRead(cfg, account, permissionSets[..n], s);
      forall key
        ensures Listed(permissionSets, key) <==>
          Listed(permissionSets[..n], key) || (key != "" && permissionSets[n].key == key)
      {
        ListedMore(permissionSets, key);
      }
    }
  }

  lemma {:induction false} AssignmentsAreRead(cfg: Config, accounts: seq<AwsObject>, permissionSets: seq<AwsObject>, s: Loading)
    requires DistinctKeys(accounts) && DistinctKeys(permissionSets)
    requires var t := ReadAssignments(cfg, accounts, permissionSets, s).1; !t.failed && t.complete
    ensures var (values, t) := ReadAssignments(cfg, accounts, permissionSets, s);
      && !s.failed && s.complete && s.unfinished <= t.unfinished
      && values == ServedAssignments(s.queues, accounts, permissionSets)
      && OnlyReadAccounts(s, t, accounts)
    decreases |accounts|
  {
    hide ReadForAccount, ServedForAccount, Push, DistinctKeys, Listed;
    if accounts != [] {
      var n := |accounts| - 1;
      var t := ReadAssignments(cfg, accounts[..n], permissionSets, s).1;
      LastIsNew(accounts);
      if accounts[n].key != "" {
        AccountIsRead(cfg, accounts[n], permissionSets, t);
      }
      AssignmentsAreRead(cfg, accounts[..n], permissionSets, s);
      SameServed(t, s, accounts[n], permissionSets);
      forall key
        ensures Listed(accounts, key) <==> Listed(accounts[..n], key) || (key != "" && accounts[n].key == key)
      {
        ListedMore(accounts, key);
      }
    }
  }

  /** What one account serves only depends on its own queues. */
  lemma {:induction false} SameServed(t: Loading, s: Loading, account: AwsObject, permissionSets: seq<AwsObject>)
    requires account.key != "" ==> forall key ::
      QueueOf(t.queues, ListAccountAssignments(account.key, key)) == QueueOf(s.queues, ListAccountAssignments(account.key, key))
    ensures ServedForAccount(t.queues, account, permissionSets) == ServedForAccount(s.queues, account, permissionSets)
    ensures account.key == "" ==> ServedForAccount(s.queues, account, permissionSets) == []
    decreases |permissionSets|
  {
    hide Served, QueueOf;
    if permissionSets != [] {
      SameServed(t, s, account, permissionSets[..|permissionSets| - 1]);
    }
  }

  lemma {:induction false} SameServedAll(t: Loading, s: Loading, accounts: seq<AwsObject>, permissionSets: seq<AwsObject>)
    requires forall a, p ::
      QueueOf(t.queues, ListAccountAssignments(a, p)) == QueueOf(s.queues, ListAccountAssignments(a, p))
    ensures ServedAssignments(t.queues, accounts, permissionSets) == ServedAssignments(s.queues, accounts, permissionSets)
    decreases |accounts|
  {
    hide ServedForAccount, QueueOf;
    if accounts != [] {
      SameServedAll(t, s, accounts[..|accounts| - 1], permissionSets);
      SameServed(t, s, accounts[|accounts| - 1], permissionSets);
    }
  }

  function ServedAccounts(queues: Queues): seq<AwsObject> {
    Served(QueueOf(queues, ListAccounts))
  }

  function ServedPermissionSets(queues: Queues): seq<AwsObject> {
    Served(QueueOf(queues, ListPermissionSets))
  }

  /** A load that did not throw, with the flag up. */
  ghost predicate LooksComplete(cfg: Config, queues: Queues) {
    var s := ReadInventory(cfg, queues).1;
    !s.failed && s.complete
  }

  lemma DistinctPrefix(some: seq<AwsObject>, all: seq<AwsObject>)
    requires some <= all && DistinctKeys(all)
    ensures DistinctKeys(some)
  {
  }

  /** The two listings, and the load as it is before the assignments are read. */
  function ReadListings(cfg: Config, queues: Queues): (seq<AwsObject>, seq<AwsObject>, Loading) {
    var (accounts, s2) := ReadOne(cfg, ListAccounts, ReadOne(cfg, DescribeOrganization, Fresh(queues)).1);
    var (permissionSets, s3) := ReadOne(cfg, ListPermissionSets, s2);
    (accounts, permissionSets,
     ReadOne(cfg, ListFindings, ReadOne(cfg, LookupEvents, ReadOne(cfg, ListRoles, s3).1).1).1)
  }

  lemma InventoryFollowsListings(cfg: Config, queues: Queues)
    ensures var (inventory, s) := ReadInventory(cfg, queues);
      var (accounts, permissionSets, t) := ReadListings(cfg, queues);
      var (assignments, u) := ReadAssignments(cfg, accounts, permissionSets, t);
      && inventory.accounts == accounts && inventory.permissionSets == permissionSets && inventory.assignments == assignments
      && s.failed == u.failed && s.complete == u.complete && s.unfinished == u.unfinished
  {
    hide ReadOne, ReadAssignments, Push;
  }

  /** Later reads of other operations change nothing about the queue of an operation, and hide no early stop. */
  ghost predicate Later(s: Loading, t: Loading) {
    && (!t.failed ==> !s.failed) && s.unfinished <= t.unfinished
    && forall a, p ::
         QueueOf(t.queues, ListAccountAssignments(a, p)) == QueueOf(s.queues, ListAccountAssignments(a, p))
  }

  lemma OneReadLater(cfg: Config, op: Operation, s: Loading)
    requires !op.ListAccountAssignments?
    ensures Later(s, ReadOne(cfg, op, s).1)
  {
    OneRead(cfg, op, s);
    hide ReadOne;
  }

  lemma LaterStill(s: Loading, t: Loading, u: Loading)
    requires Later(s, t) && Later(t, u)
    ensures Later(s, u)
  {
    hide QueueOf;
  }

  lemma RestOfListings(cfg: Config, s: Loading)
    ensures Later(s, ReadOne(cfg, ListFindings, ReadOne(cfg, LookupEvents, ReadOne(cfg, ListRoles, s).1).1).1)
  {
    var t := ReadOne(cfg, ListRoles, s).1;
    var u := ReadOne(cfg, LookupEvents, t).1;
    OneReadLater(cfg, ListRoles, s);
    OneReadLater(cfg, LookupEvents, t);
    OneReadLater(cfg, ListFindings, u);
    hide ReadOne, Later;
    LaterStill(s, t, u);
    LaterStill(s, u, ReadOne(cfg, ListFindings, u).1);
  }

  /** One listing: what it reads, when it is known to be everything, and what it leaves for later. */
  lemma OneListing(cfg: Config, op: Operation, s: Loading, last: Loading)
    requires !op.ListAccountAssignments? && Later(ReadOne(cfg, op, s).1, last)
    ensures var values := ReadOne(cfg, op, s).0;
      && Later(s, last)
      && (!last.failed ==> values <= Served(QueueOf(s.queues, op)))
      && (!last.failed && op !in last.unfinished ==> values == Served(QueueOf(s.queues, op)))
  {
    OneRead(cfg, op, s);
    OneReadLater(cfg, op, s);
    LaterStill(s, ReadOne(cfg, op, s).1, last);
    hide ReadOne, Served, QueueOf;
  }

  lemma ListingsRead(cfg: Config, queues: Queues)
    ensures var (accounts, permissionSets, s) := ReadListings(cfg, queues);
      && Later(Fresh(queues), s)
      && (!s.failed ==> accounts <= ServedAccounts(queues) && permissionSets <= ServedPermissionSets(queues))
      && (!s.failed && ListAccounts !in s.unfinished ==> accounts == ServedAccounts(queues))
      && (!s.failed && ListPermissionSets !in s.unfinished ==> permissionSets == ServedPermissionSets(queues))
  {
    var s0 := Fresh(queues);
    var s1 := ReadOne(cfg, DescribeOrganization, s0).1;
    var s2 := ReadOne(cfg, ListAccounts, s1).1;
    var s3 := ReadOne(cfg, ListPermissionSets, s2).1;
    var last := ReadListings(cfg, queues).2;
    OneRead(cfg, DescribeOrganization, s0);
    OneRead(cfg, ListAccounts, s1);
    hide ReadOne, Served, Later;
    RestOfListings(cfg, s3);
    OneListing(cfg, ListPermissionSets, s2, last);
    OneListing(cfg, ListAccounts, s1, last);
    OneListing(cfg, DescribeOrganization, s0, last);
  }

  lemma {:induction false} AccountFailureStays(cfg: Config, account: AwsObject, permissionSets: seq<AwsObject>, s: Loading)
    ensures s.failed ==> ReadForAccount(cfg, account, permissionSets, s).1.failed
    decreases |permissionSets|
  {
    hide Push, ReadFrom;
    if permissionSets != [] {
      AccountFailureStays(cfg, account, permissionSets[..|permissionSets| - 1], s);
    }
  }

  lemma {:induction false} FailureStays(cfg: Config, accounts: seq<AwsObject>, permissionSets: seq<AwsObject>, s: Loading)
    ensures s.failed ==> ReadAssignments(cfg, accounts, permissionSets, s).1.failed
    decreases |accounts|
  {
    hide Push, ReadForAccount;
    if accounts != [] {
      var n := |accounts| - 1;
      FailureStays(cfg, accounts[..n], permissionSets, s);
      AccountFailureStays(cfg, accounts[n], permissionSets, ReadAssignments(cfg, accounts[..n], permissionSets, s).1);
    }
  }

  lemma ListingsArePrefixes(cfg: Config, queues: Queues)
    requires !ReadInventory(cfg, queues).1.failed
    ensures var inventory := ReadInventory(cfg, queues).0;
      inventory.accounts <= ServedAccounts(queues) && inventory.permissionSets <= ServedPermissionSets(queues)
  {
    InventoryFollowsListings(cfg, queues);
    ListingsRead(cfg, queues);
    hide ReadInventory, ReadListings, ReadAssignments, Later, Served;
    var (accounts, permissionSets, t) := ReadListings(cfg, queues);
    FailureStays(cfg, accounts, permissionSets, t);
  }

  lemma {:induction false} AccountUnfinishedGrows(cfg: Config, account: AwsObject, permissionSets: seq<AwsObject>, s: Loading)
    ensures s.unfinished <= ReadForAccount(cfg, account, permissionSets, s).1.unfinished
    decreases |permissionSets|
  {
    hide Push, ReadFrom;
    if permissionSets != [] {
      AccountUnfinishedGrows(cfg, account, permissionSets[..|permissionSets| - 1], s);
    }
  }

  lemma {:induction false} UnfinishedGrows(cfg: Config, accounts: seq<AwsObject>, permissionSets: seq<AwsObject>, s: Loading)
    ensures s.unfinished <= ReadAssignments(cfg, accounts, permissionSets, s).1.unfinished
    decreases |accounts|
  {
    hide Push, ReadForAccount;
    if accounts != [] {
      var n := |accounts| - 1;
      UnfinishedGrows(cfg, accounts[..n], permissionSets, s);
      AccountUnfinishedGrows(cfg, accounts[n], permissionSets, ReadAssignments(cfg, accounts[..n], permissionSets, s).1);
    }
  }

  /** The place of an operation in a load. */
  function Place(op: Operation): nat {
    match op
    case DescribeOrganization => 0
    case ListAccounts => 1
    case ListPermissionSets => 2
    case ListRoles => 3
    case LookupEvents => 4
    case ListFindings => 5
    case ListAccountAssignments(_, _) => 6
  }

  /** Only the first `n` operations have been read so far. */
  ghost predicate OnlyRead(queues: Queues, s: Loading, n: nat) {
    forall op :: Place(op) >= n ==> QueueOf(s.queues, op) == QueueOf(queues, op)
  }

  lemma LaterReadOf(queues: Queues, op: Operation, values: seq<AwsObject>, unfinished: seq<Operation>, later: seq<Operation>)
    requires ReadOf(queues, unfinished, op, values) && unfinished <= later
    ensures ReadOf(queues, later, op, values)
  {
    hide Served;
    if op in unfinished {
      var i :| 0 <= i < |unfinished| && unfinished[i] == op;
      assert later[i] == op;
    }
  }

  /** The load did not fail so far, and all its early stops are among those named at the end. */
  ghost predicate OnTheWay(s: Loading, unfinished: seq<Operation>) {
    !s.failed && s.unfinished <= unfinished
  }

  /** One read of a load, as the end of the load sees it. */
  lemma OneReadOf(cfg: Config, queues: Queues, op: Operation, s: Loading, unfinished: seq<Operation>)
    requires OnlyRead(queues, s, Place(op)) && Place(op) < 6
    ensures var (values, t) := ReadOne(cfg, op, s);
      && OnlyRead(queues, t, Place(op) + 1)
      && (OnTheWay(t, unfinished) ==> OnTheWay(s, unfinished) && ReadOf(queues, unfinished, op, values))
  {
    OneRead(cfg, op, s);
    hide ReadOne, Served, QueueOf;
    var (values, t) := ReadOne(cfg, op, s);
    if OnTheWay(t, unfinished) {
      LaterReadOf(queues, op, values, t.unfinished, unfinished);
    }
  }

  lemma FirstReads(cfg: Config, queues: Queues, s: Loading, unfinished: seq<Operation>)
    requires OnlyRead(queues, s, 0)
    ensures var (organization, s1) := ReadOne(cfg, DescribeOrganization, s);
      var (accounts, s2) := ReadOne(cfg, ListAccounts, s1);
      var (permissionSets, s3) := ReadOne(cfg, ListPermissionSets, s2);
      && OnlyRead(queues, s3, 3)
      && (OnTheWay(s3, unfinished) ==>
            && ReadOf(queues, unfinished, DescribeOrganization, organization) && ReadOf(queues, unfinished, ListAccounts, accounts)
            && ReadOf(queues, unfinished, ListPermissionSets, permissionSets))
  {
    hide ReadOne, OnlyRead, ReadOf, OnTheWay;
    var s1 := ReadOne(cfg, DescribeOrganization, s).1;
    OneReadOf(cfg, queues, DescribeOrganization, s, unfinished);
    OneReadOf(cfg, queues, ListAccounts, s1, unfinished);
    OneReadOf(cfg, queues, ListPermissionSets, ReadOne(cfg, ListAccounts, s1).1, unfinished);
  }

  lemma OtherReads(cfg: Config, queues: Queues, s: Loading, unfinished: seq<Operation>)
    requires OnlyRead(queues, s, 3)
    ensures var (roles, s4) := ReadOne(cfg, ListRoles, s);
      var (events, s5) := ReadOne(cfg, LookupEvents, s4);
      var (findings, s6) := ReadOne(cfg, ListFindings, s5);
      OnTheWay(s6, unfinished) ==>
        && OnTheWay(s, unfinished)
        && ReadOf(queues, unfinished, ListRoles, roles) && ReadOf(queues, unfinished, LookupEvents, events)
        && ReadOf(queues, unfinished, ListFindings, findings)
  {
    hide ReadOne, OnlyRead, ReadOf, OnTheWay;
    var s4 := ReadOne(cfg, ListRoles, s).1;
    OneReadOf(cfg, queues, ListRoles, s, unfinished);
    OneReadOf(cfg, queues, LookupEvents, s4, unfinished);
    OneReadOf(cfg, queues, ListFindings, ReadOne(cfg, LookupEvents, s4).1, unfinished);
  }

  /**
    Each collection of the inventory is what the provider serves for its own operation: a
    beginning of it, and all of it unless the load names the read as unfinished.
   */
  lemma InventoryHoldsCollections(cfg: Config, queues: Queues)
    requires !ReadInventory(cfg, queues).1.failed
    ensures var (inventory, s) := ReadInventory(cfg, queues);
      && ReadOf(queues, s.unfinished, DescribeOrganization, inventory.organization)
      && ReadOf(queues, s.unfinished, ListAccounts, inventory.accounts)
      && ReadOf(queues, s.unfinished, ListPermissionSets, inventory.permissionSets)
      && ReadOf(queues, s.unfinished, ListRoles, inventory.roles)
      && ReadOf(queues, s.unfinished, LookupEvents, inventory.events)
      && ReadOf(queues, s.unfinished, ListFindings, inventory.findings)
  {
    assert OnlyRead(queues, Fresh(queues), 0);
    hide ReadOne, ReadAssignments, ReadOf, Push, OnlyRead;
    var (inventory, s) := ReadInventory(cfg, queues);
    var last := ReadListings(cfg, queues).2;
    FailureStays(cfg, inventory.accounts, inventory.permissionSets, last);
    UnfinishedGrows(cfg, inventory.accounts, inventory.permissionSets, last);
    FirstReads(cfg, queues, Fresh(queues), s.unfinished);
    OtherReads(cfg, queues, ReadOne(cfg, ListPermissionSets, ReadOne(cfg, ListAccounts, ReadOne(cfg, DescribeOrganization, Fresh(queues)).1).1).1, s.unfinished);
  }

  /**
    What the flag means: the assignments read are, in order, everything the provider serves
    for every account and permission set that was listed. A listing that did not stop early
    is everything the provider lists.
   */
  lemma RaisedFlagMeans(cfg: Config, queues: Queues)
    requires LooksComplete(cfg, queues)
    requires DistinctKeys(ServedAccounts(queues)) && DistinctKeys(ServedPermissionSets(queues))
    ensures var (inventory, s) := ReadInventory(cfg, queues);
      && inventory.assignments == ServedAssignments(queues, inventory.accounts, inventory.permissionSets)
      && (ListAccounts !in s.unfinished ==> inventory.accounts == ServedAccounts(queues))
      && (ListPermissionSets !in s.unfinished ==> inventory.permissionSets == ServedPermissionSets(queues))
  {
    ListingsArePrefixes(cfg, queues);
    InventoryFollowsListings(cfg, queues);
    ListingsRead(cfg, queues);
    var (inventory, s) := ReadInventory(cfg, queues);
    DistinctPrefix(inventory.accounts, ServedAccounts(queues));
    DistinctPrefix(inventory.permissionSets, ServedPermissionSets(queues));
    hide ReadInventory, ReadListings, ReadAssignments, Served, DistinctKeys, ServedAssignments;
    var t := ReadListings(cfg, queues).2;
    AssignmentsAreRead(cfg, inventory.accounts, inventory.permissionSets, t);
    SameServedAll(t, Fresh(queues), inventory.accounts, inventory.permissionSets);
  }

  // ---------------------------------------------------------------- when everything served was read

  /** Every account and permission set the two listings left out serves nothing. */
  ghost predicate RestServesNothing(queues: Queues, accounts: seq<AwsObject>, permissionSets: seq<AwsObject>, m: nat, n: nat) {
    forall i, j :: 0 <= i < |accounts| && 0 <= j < |permissionSets| && (i >= m || j >= n) ==>
      ServedPair(queues, accounts[i], permissionSets[j]) == []
  }

  lemma {:induction false} MorePermissionSets(queues: Queues, account: AwsObject, permissionSets: seq<AwsObject>, n: nat)
    requires n <= |permissionSets|
    ensures var some, all := ServedForAccount(queues, account, permissionSets[..n]), ServedForAccount(queues, account, permissionSets);
      && |some| <= |all|
      && ((|some| == |all|) <==> forall j :: n <= j < |permissionSets| ==> ServedPair(queues, account, permissionSets[j]) == [])
      && (|some| == |all| ==> some == all)
    decreases |permissionSets|
  {
    hide ServedPair;
    var last := |permissionSets| - 1;
    if n == |permissionSets| {
      assert permissionSets[..n] == permissionSets;
    } else {
      MorePermissionSets(queues, account, permissionSets[..last], n);
      assert permissionSets[..last][..n] == permissionSets[..n];
    }
  }

  lemma {:induction false} MoreOfBoth(queues: Queues, accounts: seq<AwsObject>, permissionSets: seq<AwsObject>, m: nat, n: nat)
    requires m <= |accounts| && n <= |permissionSets|
    ensures var some := ServedAssignments(queues, accounts[..m], permissionSets[..n]);
      var all := ServedAssignments(queues, accounts, permissionSets);
      && |some| <= |all|
      && ((|some| == |all|) <==> RestServesNothing(queues, accounts, permissionSets, m, n))
      && (|some| == |all| ==> some == all)
    decreases |accounts|
  {
    hide ServedPair, ServedForAccount;
    if accounts == [] {
      assert accounts[..m] == [];
    } else {
      var last := |accounts| - 1;
      var k := if m <= last then m else last;
      MoreOfBoth(queues, accounts[..last], permissionSets, k, n);
      assert accounts[..last][..k] == accounts[..k];
      if m == |accounts| {
        assert accounts[..m] == accounts;
        MorePermissionSets(queues, accounts[last], permissionSets, n);
      } else {
        MorePermissionSets(queues, accounts[last], permissionSets, 0);
        assert permissionSets[..0] == [];
        NothingForNoSets(queues, accounts[last]);
      }
      RestOfLast(queues, accounts, permissionSets, m, n);
    }
  }

  lemma NothingForNoSets(queues: Queues, account: AwsObject)
    ensures ServedForAccount(queues, account, []) == []
  {
  }

  lemma RestOfLast(queues: Queues, accounts: seq<AwsObject>, permissionSets: seq<AwsObject>, m: nat, n: nat)
    requires accounts != [] && m <= |accounts|
    ensures var last := |accounts| - 1;
      RestServesNothing(queues, accounts, permissionSets, m, n) <==>
        && RestServesNothing(queues, accounts[..last], permissionSets, if m <= last then m else last, n)
        && forall j :: (if m == |accounts| then n else 0) <= j < |permissionSets| ==> ServedPair(queues, accounts[last], permissionSets[j]) == []
  {
    hide ServedPair;
  }

  /** With the flag up, everything the provider serves was read if and only if what the two listings left out serves nothing. */
  lemma EverythingWasReadIff(cfg: Config, queues: Queues)
    requires LooksComplete(cfg, queues)
    requires DistinctKeys(ServedAccounts(queues)) && DistinctKeys(ServedPermissionSets(queues))
    ensures var inventory := ReadInventory(cfg, queues).0;
      inventory.assignments == ServedAssignments(queues, ServedAccounts(queues), ServedPermissionSets(queues))
      <==> RestServesNothing(queues, ServedAccounts(queues), ServedPermissionSets(queues),
                             |inventory.accounts|, |inventory.permissionSets|)
  {
    hide *;
    RaisedFlagMeans(cfg, queues);
    ListingsAreRead(cfg, queues);
    var inventory := ReadInventory(cfg, queues).0;
    PrefixesServeAllIff(queues, ServedAccounts(queues), ServedPermissionSets(queues), inventory.accounts, inventory.permissionSets);
  }

  lemma ListingsAreRead(cfg: Config, queues: Queues)
    requires LooksComplete(cfg, queues)
    ensures var inventory := ReadInventory(cfg, queues).0;
      inventory.accounts <= ServedAccounts(queues) && inventory.permissionSets <= ServedPermissionSets(queues)
  {
    ListingsArePrefixes(cfg, queues);
  }

  lemma PrefixesServeAllIff(queues: Queues, accounts: seq<AwsObject>, permissionSets: seq<AwsObject>,
                            someAccounts: seq<AwsObject>, somePermissionSets: seq<AwsObject>)
    requires someAccounts <= accounts && somePermissionSets <= permissionSets
    ensures ServedAssignments(queues, someAccounts, somePermissionSets) == ServedAssignments(queues, accounts, permissionSets)
      <==> RestServesNothing(queues, accounts, permissionSets, |someAccounts|, |somePermissionSets|)
  {
    hide RestServesNothing, ServedAssignments;
    MoreOfBoth(queues, accounts, permissionSets, |someAccounts|, |somePermissionSets|);
    assert accounts[..|someAccounts|] == someAccounts && permissionSets[..|somePermissionSets|] == somePermissionSets;
  }

  // ---------------------------------------------------------------- grants

  /** The id of a grant is made from account, permission set and principal. */
  type GrantId = (string, string, string) -> string

  function Attribute(x: AwsObject, name: string): string {
    if name in x.attributes then x.attributes[name] else ""
  }

  /** An assignment becomes the grant `id`: it names account, permission set and principal, and the first two were listed. */
  predicate Becomes(idOf: GrantId, inventory: Inventory, x: AwsObject, id: string) {
    var account, permissionSet, principal := Attribute(x, "accountId"), Attribute(x, "permissionSetArn"), Attribute(x, "principalId");
    && Listed(inventory.accounts, account) && Listed(inventory.permissionSets, permissionSet) && principal != ""
    && idOf(account, permissionSet, principal) == id
  }

  function GrantsBuilt(build: Build, inventory: Inventory): seq<NativeGrant> {
    GrantsOf(build(inventory).0, build(inventory).0.resources)
  }

  predicate HasGrant(grants: seq<NativeGrant>, id: string) {
    exists i :: 0 <= i < |grants| && grants[i].id == id
  }

  predicate Granted(idOf: GrantId, inventory: Inventory, id: string) {
    exists i :: 0 <= i < |inventory.assignments| && Becomes(idOf, inventory, inventory.assignments[i], id)
  }

  /** The snapshot's grants are those its assignments become, no others. */
  ghost predicate GrantsFollowAssignments(build: Build, idOf: GrantId) {
    forall inventory, id :: HasGrant(GrantsBuilt(build, inventory), id) <==> Granted(idOf, inventory, id)
  }

  /** Asked for an account and a permission set, the provider answers with their assignments. */
  ghost predicate AnswersForPair(queues: Queues) {
    forall account, permissionSet, x :: x in Served(QueueOf(queues, ListAccountAssignments(account, permissionSet))) ==>
      Attribute(x, "accountId") == account && Attribute(x, "permissionSetArn") == permissionSet
  }

  /** For this account and permission set the provider serves an assignment behind the grant. */
  ghost predicate Serves(queues: Queues, idOf: GrantId, id: string, account: AwsObject, permissionSet: AwsObject) {
    exists x :: x in ServedPair(queues, account, permissionSet)
      && Attribute(x, "principalId") != "" && idOf(account.key, permissionSet.key, Attribute(x, "principalId")) == id
  }

  /** Somewhere among the first `m` accounts and `n` permission sets it does. */
  ghost predicate ServesAmong(queues: Queues, idOf: GrantId, id: string, accounts: seq<AwsObject>, permissionSets: seq<AwsObject>) {
    exists i, j :: 0 <= i < |accounts| && 0 <= j < |permissionSets| && Serves(queues, idOf, id, accounts[i], permissionSets[j])
  }

  lemma {:induction false} InForAccount(queues: Queues, account: AwsObject, permissionSets: seq<AwsObject>, x: AwsObject)
    ensures x in ServedForAccount(queues, account, permissionSets) <==>
      exists j :: 0 <= j < |permissionSets| && x in ServedPair(queues, account, permissionSets[j])
    decreases |permissionSets|
  {
    hide ServedPair;
    if permissionSets != [] {
      var n := |permissionSets| - 1;
      InForAccount(queues, account, permissionSets[..n], x);
      if x in ServedForAccount(queues, account, permissionSets[..n]) {
        var j :| 0 <= j < n && x in ServedPair(queues, account, permissionSets[..n][j]);
        assert permissionSets[j] == permissionSets[..n][j];
      }
    }
  }

  lemma {:induction false} InAssignments(queues: Queues, accounts: seq<AwsObject>, permissionSets: seq<AwsObject>, x: AwsObject)
    ensures x in ServedAssignments(queues, accounts, permissionSets) <==>
      exists i, j :: 0 <= i < |accounts| && 0 <= j < |permissionSets| && x in ServedPair(queues, accounts[i], permissionSets[j])
    decreases |accounts|
  {
    hide ServedPair, ServedForAccount;
    if accounts != [] {
      var n := |accounts| - 1;
      InAssignments(queues, accounts[..n], permissionSets, x);
      InForAccount(queues, accounts[n], permissionSets, x);
      if x in ServedAssignments(queues, accounts[..n], permissionSets) {
        var i, j :| 0 <= i < n && 0 <= j < |permissionSets| && x in ServedPair(queues, accounts[..n][i], permissionSets[j]);
        assert accounts[i] == accounts[..n][i];
      }
    }
  }

  lemma ReadIsListed(objects: seq<AwsObject>, i: nat)
    requires i < |objects| && objects[i].key != ""
    ensures Listed(objects, objects[i].key)
  {
  }

  /** An assignment served for a listed pair becomes the grant its principal makes with that pair. */
  lemma ServedBecomes(queues: Queues, idOf: GrantId, inventory: Inventory, id: string, i: nat, j: nat, x: AwsObject)
    requires AnswersForPair(queues) && i < |inventory.accounts| && j < |inventory.permissionSets|
    requires x in ServedPair(queues, inventory.accounts[i], inventory.permissionSets[j])
    ensures var principal := Attribute(x, "principalId");
      Becomes(idOf, inventory, x, id) <==>
        principal != "" && idOf(inventory.accounts[i].key, inventory.permissionSets[j].key, principal) == id
  {
    ReadIsListed(inventory.accounts, i);
    ReadIsListed(inventory.permissionSets, j);
    hide Served, QueueOf, Listed;
  }

  lemma GrantedIsServed(queues: Queues, idOf: GrantId, inventory: Inventory, id: string)
    requires AnswersForPair(queues) && Granted(idOf, inventory, id)
    requires inventory.assignments == ServedAssignments(queues, inventory.accounts, inventory.permissionSets)
    ensures ServesAmong(queues, idOf, id, inventory.accounts, inventory.permissionSets)
  {
    hide ServedAssignments, ServedPair, AnswersForPair, Becomes, Attribute;
    var k :| 0 <= k < |inventory.assignments| && Becomes(idOf, inventory, inventory.assignments[k], id);
    var x := inventory.assignments[k];
    InAssignments(queues, inventory.accounts, inventory.permissionSets, x);
    var i, j :| 0 <= i < |inventory.accounts| && 0 <= j < |inventory.permissionSets|
      && x in ServedPair(queues, inventory.accounts[i], inventory.permissionSets[j]);
    ServedBecomes(queues, idOf, inventory, id, i, j, x);
    assert Serves(queues, idOf, id, inventory.accounts[i], inventory.permissionSets[j]);
  }

  lemma ServedIsGranted(queues: Queues, idOf: GrantId, inventory: Inventory, id: string)
    requires AnswersForPair(queues) && ServesAmong(queues, idOf, id, inventory.accounts, inventory.permissionSets)
    requires inventory.assignments == ServedAssignments(queues, inventory.accounts, inventory.permissionSets)
    ensures Granted(idOf, inventory, id)
  {
    hide ServedAssignments, ServedPair, AnswersForPair, Becomes, Attribute;
    var i, j :| 0 <= i < |inventory.accounts| && 0 <= j < |inventory.permissionSets|
      && Serves(queues, idOf, id, inventory.accounts[i], inventory.permissionSets[j]);
    var x :| x in ServedPair(queues, inventory.accounts[i], inventory.permissionSets[j]) && Attribute(x, "principalId") != ""
      && idOf(inventory.accounts[i].key, inventory.permissionSets[j].key, Attribute(x, "principalId")) == id;
    ServedBecomes(queues, idOf, inventory, id, i, j, x);
    InAssignments(queues, inventory.accounts, inventory.permissionSets, x);
    var k :| 0 <= k < |inventory.assignments| && inventory.assignments[k] == x;
    assert Becomes(idOf, inventory, inventory.assignments[k], id);
  }

  /** When the assignments are all that is served for the listed pairs, a grant is built exactly when some listed pair serves it. */
  lemma GrantedIffServed(queues: Queues, idOf: GrantId, inventory: Inventory, id: string)
    requires AnswersForPair(queues)
    requires inventory.assignments == ServedAssignments(queues, inventory.accounts, inventory.permissionSets)
    ensures Granted(idOf, inventory, id) <==> ServesAmong(queues, idOf, id, inventory.accounts, inventory.permissionSets)
  {
    hide *;
    if Granted(idOf, inventory, id) {
      GrantedIsServed(queues, idOf, inventory, id);
    }
    if ServesAmong(queues, idOf, id, inventory.accounts, inventory.permissionSets) {
      ServedIsGranted(queues, idOf, inventory, id);
    }
  }

  /**
    When a synchronisation drops a stored grant. With the flag up the connector's grants are
    replaced, and one of them is dropped exactly when no account and permission set that was
    listed serves it any more. So it is dropped although the provider still serves it exactly
    when everything that serves it lies behind what one of the two listings left out.
   */
  lemma GrantIsDroppedIff(cfg: Config, queues: Queues, build: Build, idOf: GrantId,
                          store: map<string, NativeGrant>, connectorId: string, id: string)
    requires LooksComplete(cfg, queues) && AnswersForPair(queues) && GrantsFollowAssignments(build, idOf)
    requires DistinctKeys(ServedAccounts(queues)) && DistinctKeys(ServedPermissionSets(queues))
    requires id in store && store[id].sourceConnectorId == connectorId
    ensures var inventory := ReadInventory(cfg, queues).0;
      var after := Replace(store, connectorId, GrantsBuilt(build, inventory));
      var accounts, permissionSets := ServedAccounts(queues), ServedPermissionSets(queues);
      && (id !in after <==> !ServesAmong(queues, idOf, id, inventory.accounts, inventory.permissionSets))
      && (id !in after && ServesAmong(queues, idOf, id, accounts, permissionSets) <==>
            && ServesAmong(queues, idOf, id, accounts, permissionSets)
            && forall i, j :: 0 <= i < |accounts| && 0 <= j < |permissionSets| && Serves(queues, idOf, id, accounts[i], permissionSets[j]) ==>
                 i >= |inventory.accounts| || j >= |inventory.permissionSets|)
  {
    RaisedFlagMeans(cfg, queues);
    ListingsAreRead(cfg, queues);
    var inventory := ReadInventory(cfg, queues).0;
    GrantedIffServed(queues, idOf, inventory, id);
    var grants := GrantsBuilt(build, inventory);
    assert HasGrant(grants, id) <==> Granted(idOf, inventory, id);
    ReplaceDrops(store, connectorId, grants, id);
    NotGranted(grants, id);
    hide ReadInventory, Served, Serves, Granted, HasGrant, GrantsBuilt, Replace, DistinctKeys, AnswersForPair, ServedAssignments;
  }

  lemma NotGranted(grants: seq<NativeGrant>, id: string)
    ensures !HasGrant(grants, id) <==> forall g :: g in grants ==> g.id != id
  {
    forall g | g in grants && g.id == id
      ensures HasGrant(grants, id)
    {
      var i :| 0 <= i < |grants| && grants[i] == g;
    }
  }

  // ---------------------------------------------------------------- one such load

  const FIRST: AwsObject := AwsObject("111111111111", map[])
  const SECOND: AwsObject := AwsObject("222222222222", map[])
  const ADMIN: AwsObject := AwsObject("arn:aws:sso:::permissionSet/admin", map[])
  const ASSIGNMENT: AwsObject := AwsObject("", map[
    "accountId" := "222222222222", "permissionSetArn" := "arn:aws:sso:::permissionSet/admin", "principalId" := "alice"])

  function LastPage(values: seq<AwsObject>): Page {
    Page(200, values, false, None)
  }

  /** Two accounts on two pages; only the second one has an assignment. */
  function TwoAccounts(): Queues {
    map[DescribeOrganization := [LastPage([])],
        ListAccounts := [Page(200, [FIRST], true, None), LastPage([SECOND])],
        ListPermissionSets := [LastPage([ADMIN])],
        ListRoles := [LastPage([])], LookupEvents := [LastPage([])], ListFindings := [LastPage([])],
        ListAccountAssignments(FIRST.key, ADMIN.key) := [LastPage([])],
        ListAccountAssignments(SECOND.key, ADMIN.key) := [LastPage([ASSIGNMENT])]]
  }

  lemma ReadOnePage(op: Operation, s: Loading, values: seq<AwsObject>)
    requires !s.failed && QueueOf(s.queues, op) == [LastPage(values)]
    ensures var (v, t) := ReadOne(Config(1, 0), op, s);
      v == values && !t.failed && t.complete == s.complete && t.unfinished == s.unfinished && t.queues == s.queues[op := []]
  {
    hide PushAll;
    ReadTurn(Config(1, 0), op, [LastPage(values)], 0, 0);
    assert [LastPage(values)][1..] == [];
  }

  lemma ReadFirstPage(s: Loading, values: seq<AwsObject>, next: Page)
    requires !s.failed && QueueOf(s.queues, ListAccounts) == [Page(200, values, true, None), next]
    ensures var (v, t) := ReadOne(Config(1, 0), ListAccounts, s);
      && v == values && !t.failed && t.complete == s.complete
      && t.unfinished == s.unfinished + [ListAccounts] && t.queues == s.queues[ListAccounts := [next]]
  {
    hide PushAll;
    var pages := [Page(200, values, true, None), next];
    assert pages[1..] == [next];
    ReadTurn(Config(1, 0), ListAccounts, pages, 0, 0);
    ReadTurn(Config(1, 0), ListAccounts, [next], 1, 0);
  }

  lemma AssignmentsOfFirst(s: Loading)
    requires !s.failed && QueueOf(s.queues, ListAccountAssignments(FIRST.key, ADMIN.key)) == [LastPage([])]
    ensures var (v, t) := ReadAssignments(Config(1, 0), [FIRST], [ADMIN], s);
      v == [] && !t.failed && t.complete == s.complete && t.unfinished == s.unfinished
  {
    var op := ListAccountAssignments(FIRST.key, ADMIN.key);
    ReadOnePage(op, s, []);
    hide ReadOne, Push;
    assert [FIRST][..0] == [] && [ADMIN][..0] == [];
    assert ReadForAccount(Config(1, 0), FIRST, [], s) == ([], s);
    assert ReadForAccount(Config(1, 0), FIRST, [ADMIN], s).1 == ReadOne(Config(1, 0), op, s).1;
    assert ReadAssignments(Config(1, 0), [], [ADMIN], s) == ([], s);
  }

  /** With a limit of one page the account listing stops before the second account, and the load still ends with the flag up. */
  lemma TruncatedAccountListing()
    ensures var (inventory, s) := ReadInventory(Config(1, 0), TwoAccounts());
      && !s.failed && s.complete && s.unfinished == [ListAccounts]
      && inventory.accounts == [FIRST] && inventory.permissionSets == [ADMIN] && inventory.assignments == []
  {
    hide ReadOne, Push;
    var cfg := Config(1, 0);
    var s0 := Fresh(TwoAccounts());
    ReadOnePage(DescribeOrganization, s0, []);
    var s1 := ReadOne(cfg, DescribeOrganization, s0).1;
    ReadFirstPage(s1, [FIRST], LastPage([SECOND]));
    var s2 := ReadOne(cfg, ListAccounts, s1).1;
    ReadOnePage(ListPermissionSets, s2, [ADMIN]);
    var s3 := ReadOne(cfg, ListPermissionSets, s2).1;
    ReadOnePage(ListRoles, s3, []);
    var s4 := ReadOne(cfg, ListRoles, s3).1;
    ReadOnePage(LookupEvents, s4, []);
    var s5 := ReadOne(cfg, LookupEvents, s4).1;
    ReadOnePage(ListFindings, s5, []);
    AssignmentsOfFirst(ReadOne(cfg, ListFindings, s5).1);
  }

  lemma TwoAccountsServed()
    ensures ServedAccounts(TwoAccounts()) == [FIRST, SECOND] && ServedPermissionSets(TwoAccounts()) == [ADMIN]
    ensures ServedPair(TwoAccounts(), SECOND, ADMIN) == [ASSIGNMENT]
    ensures DistinctKeys([FIRST, SECOND]) && DistinctKeys([ADMIN]) && AnswersForPair(TwoAccounts())
  {
    var queues := TwoAccounts();
    var pages := QueueOf(queues, ListAccounts);
    assert pages[1..] == [LastPage([SECOND])];
    assert [FIRST] + [SECOND] == [FIRST, SECOND];
    forall account, permissionSet, x | x in Served(QueueOf(queues, ListAccountAssignments(account, permissionSet)))
      ensures Attribute(x, "accountId") == account && Attribute(x, "permissionSetArn") == permissionSet
    {
      var op := ListAccountAssignments(account, permissionSet);
      assert op != ListAccountAssignments(SECOND.key, ADMIN.key) ==> QueueOf(queues, op) == [] || QueueOf(queues, op) == [LastPage([])];
    }
  }

  /** So a stored grant that the second account's assignment still stands for is dropped. */
  lemma TruncatedAccountListingDropsGrant(build: Build, idOf: GrantId, grant: NativeGrant)
    requires GrantsFollowAssignments(build, idOf)
    requires grant.id == idOf(SECOND.key, ADMIN.key, "alice")
    ensures var inventory := ReadInventory(Config(1, 0), TwoAccounts()).0;
      && LooksComplete(Config(1, 0), TwoAccounts())
      && Serves(TwoAccounts(), idOf, grant.id, SECOND, ADMIN)
      && grant.id !in Replace(map[grant.id := grant], grant.sourceConnectorId, GrantsBuilt(build, inventory))
  {
    TruncatedAccountListing();
    TwoAccountsServed();
    hide ReadInventory, Served, GrantsFollowAssignments, AnswersForPair, DistinctKeys, Replace, GrantsBuilt;
    assert ASSIGNMENT in ServedPair(TwoAccounts(), SECOND, ADMIN);
    assert Attribute(ASSIGNMENT, "principalId") == "alice";
    GrantIsDroppedIff(Config(1, 0), TwoAccounts(), build, idOf, map[grant.id := grant], grant.sourceConnectorId, grant.id);
    FirstServesNothing();
  }

  lemma FirstServesNothing()
    ensures ServedPair(TwoAccounts(), FIRST, ADMIN) == []
  {
  }
}
