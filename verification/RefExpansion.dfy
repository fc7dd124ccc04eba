/**
  Expanding `$ref` in API documents. Two scripts do it, with the same recursion: a set of
  the references already entered stops circular ones. The reference definition is plain
  unfolding, which has no such set and simply may not end.
 */
module RefExpansion {
  import opened Wrappers

  datatype Entry = Entry(key: string, value: Value)

  datatype Value =
    | Undefined
    | Scalar(literal: string)
    | Text(text: string)
    | List(items: seq<Value>)
    | Record(entries: seq<Entry>)

  const REF: string := "$ref"

  function Get(entries: seq<Entry>, key: string): (r: Value)
    ensures r.Undefined? || exists i :: 0 <= i < |entries| && entries[i] == Entry(key, r)
  {
    if entries == [] then Undefined
    else if entries[0].key == key then
      assert entries[0] == Entry(key, entries[0].value);
      entries[0].value
    else
      var r := Get(entries[1..], key);
      assert r.Undefined? || exists i :: 0 <= i < |entries[1..]| && entries[1..][i] == entries[i + 1] == Entry(key, r);
      r
  }

  /**
    `targets` maps every reference that can be followed to what it denotes. The OpenAPI
    script merges the siblings of a reference over its target and treats any `$ref` as a
    reference; the documentation script drops siblings and only looks at string values.
   */
  datatype Resolver = Resolver(targets: map<string, Value>, openApi: bool)

  predicate IsReference(rs: Resolver, entries: seq<Entry>) {
    var ref := Get(entries, REF);
    if rs.openApi then !ref.Undefined? else ref.Text?
  }

  datatype RefError = Circular(ref: string) | Unresolvable

  type Expanded = Result<Value, RefError>

  function WithoutRef(entries: seq<Entry>): (r: seq<Entry>)
    ensures |r| <= |entries|
    ensures forall e :: e in r <==> e in entries && e.key != REF
  {
    if entries == [] then []
    else
      assert entries == [entries[0]] + entries[1..];
      (if entries[0].key == REF then [] else [entries[0]]) + WithoutRef(entries[1..])
  }

  function Put(entries: seq<Entry>, e: Entry): seq<Entry> {
    if entries == [] then [e]
    else if entries[0].key == e.key then [e] + entries[1..]
    else [entries[0]] + Put(entries[1..], e)
  }

  /** The entries of `base`, each overwritten in place or extended by the entries of `over`. */
  function Overlay(base: seq<Entry>, over: seq<Entry>): seq<Entry>
    decreases |over|
  {
    if over == [] then base else Overlay(Put(base, over[0]), over[1..])
  }

  // ---------------------------------------------------------------- the scripts' recursion

  /** Termination: fewer references left to enter, or a smaller value. */
  function Expand(rs: Resolver, v: Value, seen: set<string>): Expanded
    decreases rs.targets.Keys - seen, v, 1
  {
    match v
    case Undefined => Ok(v)
    case Scalar(_) => Ok(v)
    case Text(_) => Ok(v)
    case List(items) =>
      (match ExpandItems(rs, items, seen)
       case Ok(xs) => Ok(List(xs))
       case Err(e) => Err(e))
    case Record(entries) =>
      if !IsReference(rs, entries) then
        match ExpandEntries(rs, entries, entries, seen)
        case Ok(es) => Ok(Record(es))
        case Err(e) => Err(e)
      else
        var ref := Get(entries, REF);
        if !ref.Text? then Err(Unresolvable)
        else if ref.text in seen then Err(Circular(ref.text))
        else if ref.text !in rs.targets then Err(Unresolvable)
        else
          match Expand(rs, rs.targets[ref.text], seen + {ref.text})
          case Err(e) => Err(e)
          case Ok(resolved) =>
            var siblings := WithoutRef(entries);
            if !rs.openApi || siblings == [] then Ok(resolved)
            else if !resolved.Record? then Err(Unresolvable)
            else
              match ExpandEntries(rs, entries, siblings, seen)
              case Ok(es) => Ok(Record(Overlay(resolved.entries, es)))
              case Err(e) => Err(e)
  }

  function ExpandItems(rs: Resolver, items: seq<Value>, seen: set<string>): Result<seq<Value>, RefError>
    decreases rs.targets.Keys - seen, items, 0
  {
    if items == [] then Ok([])
    else
      match Expand(rs, items[0], seen)
      case Err(e) => Err(e)
      case Ok(x) =>
        match ExpandItems(rs, items[1..], seen)
        case Err(e) => Err(e)
        case Ok(xs) => Ok([x] + xs)
  }

  /** Expands the entries `some`, which are among the entries `all` of one record. */
  function ExpandEntries(rs: Resolver, all: seq<Entry>, some: seq<Entry>, seen: set<string>): Result<seq<Entry>, RefError>
    requires forall e :: e in some ==> e in all
    decreases rs.targets.Keys - seen, all, |some|
  {
    if some == [] then Ok([])
    else
      assert some[0] in all;
      match Expand(rs, some[0].value, seen)
      case Err(e) => Err(e)
      case Ok(x) =>
        match ExpandEntries(rs, all, some[1..], seen)
        case Err(e) => Err(e)
        case Ok(xs) => Ok([Entry(some[0].key, x)] + xs)
  }

  // ---------------------------------------------------------------- plain unfolding

  /** Unfolding without a cycle check. `fuel` bounds how many references may be entered inside one another. */
  function Unfold(rs: Resolver, v: Value, fuel: nat): Option<Value>
    decreases fuel, v, 1
  {
    match v
    case Undefined => Some(v)
    case Scalar(_) => Some(v)
    case Text(_) => Some(v)
    case List(items) =>
      (match UnfoldItems(rs, items, fuel)
       case Some(xs) => Some(List(xs))
       case None => None)
    case Record(entries) =>
      if !IsReference(rs, entries) then
        match UnfoldEntries(rs, entries, entries, fuel)
        case Some(es) => Some(Record(es))
        case None => None
      else
        var ref := Get(entries, REF);
        if !ref.Text? || ref.text !in rs.targets || fuel == 0 then None
        else
          match Unfold(rs, rs.targets[ref.text], fuel - 1)
          case None => None
          case Some(resolved) =>
            var siblings := WithoutRef(entries);
            if !rs.openApi || siblings == [] then Some(resolved)
            else if !resolved.Record? then None
            else
              match UnfoldEntries(rs, entries, siblings, fuel)
              case Some(es) => Some(Record(Overlay(resolved.entries, es)))
              case None => None
  }

  function UnfoldItems(rs: Resolver, items: seq<Value>, fuel: nat): Option<seq<Value>>
    decreases fuel, items, 0
  {
    if items == [] then Some([])
    else
      match (Unfold(rs, items[0], fuel), UnfoldItems(rs, items[1..], fuel))
      case (Some(x), Some(xs)) => Some([x] + xs)
      case _ => None
  }

  function UnfoldEntries(rs: Resolver, all: seq<Entry>, some: seq<Entry>, fuel: nat): Option<seq<Entry>>
    requires forall e :: e in some ==> e in all
    decreases fuel, all, |some|
  {
    if some == [] then Some([])
    else
      assert some[0] in all;
      match (Unfold(rs, some[0].value, fuel), UnfoldEntries(rs, all, some[1..], fuel))
      case (Some(x), Some(xs)) => Some([Entry(some[0].key, x)] + xs)
      case _ => None
  }

  // ---------------------------------------------------------------- more fuel never hurts

  lemma {:induction false} MoreFuel(rs: Resolver, v: Value, fuel: nat, more: nat)
    requires fuel <= more && Unfold(rs, v, fuel).Some?
    ensures Unfold(rs, v, more) == Unfold(rs, v, fuel)
    decreases fuel, v, 1
  {
    match v
    case List(items) => MoreFuelItems(rs, items, fuel, more);
    case Record(entries) =>
      if !IsReference(rs, entries) {
        MoreFuelEntries(rs, entries, entries, fuel, more);
      } else {
        MoreFuel(rs, rs.targets[Get(entries, REF).text], fuel - 1, more - 1);
        if rs.openApi && WithoutRef(entries) != [] {
          MoreFuelEntries(rs, entries, WithoutRef(entries), fuel, more);
        }
      }
    case _ =>
  }

  lemma {:induction false} MoreFuelItems(rs: Resolver, items: seq<Value>, fuel: nat, more: nat)
    requires fuel <= more && UnfoldItems(rs, items, fuel).Some?
    ensures UnfoldItems(rs, items, more) == UnfoldItems(rs, items, fuel)
    decreases fuel, items, 0
  {
    if items != [] {
      MoreFuel(rs, items[0], fuel, more);
      MoreFuelItems(rs, items[1..], fuel, more);
    }
  }

  lemma {:induction false} MoreFuelEntries(rs: Resolver, all: seq<Entry>, some: seq<Entry>, fuel: nat, more: nat)
    requires forall e :: e in some ==> e in all
    requires fuel <= more && UnfoldEntries(rs, all, some, fuel).Some?
    ensures UnfoldEntries(rs, all, some, more) == UnfoldEntries(rs, all, some, fuel)
    decreases fuel, all, |some|
  {
    if some != [] {
      assert some[0] in all;
      MoreFuel(rs, some[0].value, fuel, more);
      MoreFuelEntries(rs, all, some[1..], fuel, more);
    }
  }

  // ---------------------------------------------------------------- expansion is unfolding that ends

  function Fuel(rs: Resolver, seen: set<string>): nat {
    |rs.targets.Keys - seen|
  }

  lemma EnterUsesFuel(rs: Resolver, seen: set<string>, ref: string)
    requires ref in rs.targets && ref !in seen
    ensures Fuel(rs, seen + {ref}) == Fuel(rs, seen) - 1
  {
    assert rs.targets.Keys - (seen + {ref}) == (rs.targets.Keys - seen) - {ref};
  }

  /** An expansion that succeeds is what unfolding gives with one unit of fuel per reference left. */
  lemma {:induction false} ExpandIsUnfold(rs: Resolver, v: Value, seen: set<string>)
    requires Expand(rs, v, seen).Ok?
    ensures Unfold(rs, v, Fuel(rs, seen)) == Some(Expand(rs, v, seen).value)
    decreases rs.targets.Keys - seen, v, 1
  {
    match v
    case List(items) => ExpandIsUnfoldItems(rs, items, seen);
    case Record(entries) =>
      if !IsReference(rs, entries) {
        ExpandIsUnfoldEntries(rs, entries, entries, seen);
      } else {
        var ref := Get(entries, REF).text;
        EnterUsesFuel(rs, seen, ref);
        ExpandIsUnfold(rs, rs.targets[ref], seen + {ref});
        if rs.openApi && WithoutRef(entries) != [] {
          ExpandIsUnfoldEntries(rs, entries, WithoutRef(entries), seen);
        }
      }
    case _ =>
  }

  lemma {:induction false} ExpandIsUnfoldItems(rs: Resolver, items: seq<Value>, seen: set<string>)
    requires ExpandItems(rs, items, seen).Ok?
    ensures UnfoldItems(rs, items, Fuel(rs, seen)) == Some(ExpandItems(rs, items, seen).value)
    decreases rs.targets.Keys - seen, items, 0
  {
    if items != [] {
      ExpandIsUnfold(rs, items[0], seen);
      ExpandIsUnfoldItems(rs, items[1..], seen);
    }
  }

  lemma {:induction false} ExpandIsUnfoldEntries(rs: Resolver, all: seq<Entry>, some: seq<Entry>, seen: set<string>)
    requires forall e :: e in some ==> e in all
    requires ExpandEntries(rs, all, some, seen).Ok?
    ensures UnfoldEntries(rs, all, some, Fuel(rs, seen)) == Some(ExpandEntries(rs, all, some, seen).value)
    decreases rs.targets.Keys - seen, all, |some|
  {
    if some != [] {
      assert some[0] in all;
      ExpandIsUnfold(rs, some[0].value, seen);
      ExpandIsUnfoldEntries(rs, all, some[1..], seen);
    }
  }

  /** A reference already entered needs more fuel than is left, so it cannot turn up again. */
  ghost predicate TooDeep(rs: Resolver, seen: set<string>, fuel: nat) {
    fuel > 0 ==> forall ref :: ref in seen && ref in rs.targets ==> Unfold(rs, rs.targets[ref], fuel - 1).None?
  }

  /** The least fuel with which a value unfolds. */
  lemma {:induction false} LeastFuel(rs: Resolver, v: Value, fuel: nat) returns (least: nat)
    requires Unfold(rs, v, fuel).Some?
    ensures least <= fuel && Unfold(rs, v, least) == Unfold(rs, v, fuel)
    ensures least > 0 ==> Unfold(rs, v, least - 1).None?
    decreases fuel
  {
    if fuel == 0 || Unfold(rs, v, fuel - 1).None? {
      least := fuel;
    } else {
      MoreFuel(rs, v, fuel - 1, fuel);
      least := LeastFuel(rs, v, fuel - 1);
    }
  }

  lemma EnterStaysTooDeep(rs: Resolver, seen: set<string>, ref: string, fuel: nat, least: nat)
    requires TooDeep(rs, seen, fuel) && fuel > 0 && least <= fuel - 1
    requires ref in rs.targets && (least > 0 ==> Unfold(rs, rs.targets[ref], least - 1).None?)
    ensures TooDeep(rs, seen + {ref}, least)
  {
    if least > 0 {
      forall r | r in seen + {ref} && r in rs.targets
        ensures Unfold(rs, rs.targets[r], least - 1).None?
      {
        if r != ref && Unfold(rs, rs.targets[r], least - 1).Some? {
          MoreFuel(rs, rs.targets[r], least - 1, fuel - 1);
        }
      }
    }
  }

  /** If unfolding ends, the cycle check never fires and expansion gives the same value. */
  lemma {:induction false} UnfoldIsExpand(rs: Resolver, v: Value, seen: set<string>, fuel: nat)
    requires Unfold(rs, v, fuel).Some? && TooDeep(rs, seen, fuel)
    ensures Expand(rs, v, seen) == Ok(Unfold(rs, v, fuel).value)
    decreases fuel, v, 1
  {
    match v
    case List(items) => UnfoldIsExpandItems(rs, items, seen, fuel);
    case Record(entries) =>
      if !IsReference(rs, entries) {
        UnfoldIsExpandEntries(rs, entries, entries, seen, fuel);
      } else {
        var ref := Get(entries, REF).text;
        assert ref !in seen;
        var least := LeastFuel(rs, rs.targets[ref], fuel - 1);
        EnterStaysTooDeep(rs, seen, ref, fuel, least);
        UnfoldIsExpand(rs, rs.targets[ref], seen + {ref}, least);
        if rs.openApi && WithoutRef(entries) != [] {
          UnfoldIsExpandEntries(rs, entries, WithoutRef(entries), seen, fuel);
        }
      }
    case _ =>
  }

  lemma {:induction false} UnfoldIsExpandItems(rs: Resolver, items: seq<Value>, seen: set<string>, fuel: nat)
    requires UnfoldItems(rs, items, fuel).Some? && TooDeep(rs, seen, fuel)
    ensures ExpandItems(rs, items, seen) == Ok(UnfoldItems(rs, items, fuel).value)
    decreases fuel, items, 0
  {
    if items != [] {
      UnfoldIsExpand(rs, items[0], seen, fuel);
      UnfoldIsExpandItems(rs, items[1..], seen, fuel);
    }
  }

  lemma {:induction false} UnfoldIsExpandEntries(rs: Resolver, all: seq<Entry>, some: seq<Entry>, seen: set<string>, fuel: nat)
    requires forall e :: e in some ==> e in all
    requires UnfoldEntries(rs, all, some, fuel).Some? && TooDeep(rs, seen, fuel)
    ensures ExpandEntries(rs, all, some, seen) == Ok(UnfoldEntries(rs, all, some, fuel).value)
    decreases fuel, all, |some|
  {
    if some != [] {
      assert some[0] in all;
      UnfoldIsExpand(rs, some[0].value, seen, fuel);
      UnfoldIsExpandEntries(rs, all, some[1..], seen, fuel);
    }
  }

  /**
    Main result: expansion succeeds exactly when plain unfolding ends, and then both give
    the same value. On every other document it reports an error.
   */
  lemma ExpandIffUnfoldingEnds(rs: Resolver, v: Value)
    ensures Expand(rs, v, {}).Ok? <==> exists fuel: nat :: Unfold(rs, v, fuel).Some?
    ensures forall fuel: nat :: Unfold(rs, v, fuel).Some? ==> Expand(rs, v, {}) == Ok(Unfold(rs, v, fuel).value)
  {
    if Expand(rs, v, {}).Ok? {
      ExpandIsUnfold(rs, v, {});
    }
    forall fuel: nat | Unfold(rs, v, fuel).Some?
      ensures Expand(rs, v, {}) == Ok(Unfold(rs, v, fuel).value)
    {
      UnfoldIsExpand(rs, v, {}, fuel);
    }
  }

  // ---------------------------------------------------------------- acyclic documents

  /** Expanding `v` enters `ref` before any other reference is followed. */
  ghost predicate Meets(rs: Resolver, v: Value, ref: string) {
    match v
    case List(items) => exists i :: 0 <= i < |items| && Meets(rs, items[i], ref)
    case Record(entries) =>
      if IsReference(rs, entries) then
        || Get(entries, REF) == Text(ref)
        || (rs.openApi && exists i :: 0 <= i < |entries| && entries[i].key != REF && Meets(rs, entries[i].value, ref))
      else exists i :: 0 <= i < |entries| && Meets(rs, entries[i].value, ref)
    case _ => false
  }

  /** Among the references expanding `v` meets first, one is no string or has no target. */
  ghost predicate Broken(rs: Resolver, v: Value) {
    match v
    case List(items) => exists i :: 0 <= i < |items| && Broken(rs, items[i])
    case Record(entries) =>
      if IsReference(rs, entries) then
        || !Get(entries, REF).Text?
        || Get(entries, REF).text !in rs.targets
        || (rs.openApi && exists i :: 0 <= i < |entries| && entries[i].key != REF && Broken(rs, entries[i].value))
      else exists i :: 0 <= i < |entries| && Broken(rs, entries[i].value)
    case _ => false
  }

  /** References that lead from `v` one to the next, each met in the target of the one before. */
  ghost predicate IsChain(rs: Resolver, v: Value, path: seq<string>)
    decreases |path|
  {
    path == [] || (path[0] in rs.targets && Meets(rs, v, path[0]) && IsChain(rs, rs.targets[path[0]], path[1..]))
  }

  /** What a chain leads to. */
  function ChainEnd(rs: Resolver, v: Value, path: seq<string>): Value {
    if path == [] || path[|path| - 1] !in rs.targets then v else rs.targets[path[|path| - 1]]
  }

  /** A chain from `v` ends in a reference it already went through. */
  ghost predicate ReturnsTo(rs: Resolver, v: Value, path: seq<string>, ref: string) {
    IsChain(rs, v, path) && path != [] && path[|path| - 1] == ref && ref in path[..|path| - 1]
  }

  /** No reference chain from `v` returns to itself. */
  ghost predicate Acyclic(rs: Resolver, v: Value) {
    forall path, ref :: !ReturnsTo(rs, v, path, ref)
  }

  /** Every reference that can be reached from `v` can be followed. */
  ghost predicate FullyDefined(rs: Resolver, v: Value) {
    forall path :: IsChain(rs, v, path) ==> !Broken(rs, ChainEnd(rs, v, path))
  }

  /** Component schemas are records; the OpenAPI script refuses anything else as a target. */
  ghost predicate TargetsAreRecords(rs: Resolver) {
    rs.openApi ==> forall name :: name in rs.targets ==> rs.targets[name].Record?
  }

  // An expansion that succeeds: every chain is as long as the fuel lasts, so none returns.

  lemma {:induction false} UnfoldFollows(rs: Resolver, v: Value, fuel: nat, ref: string)
    requires Unfold(rs, v, fuel).Some? && Meets(rs, v, ref)
    ensures fuel > 0 && ref in rs.targets && Unfold(rs, rs.targets[ref], fuel - 1).Some?
    decreases v
  {
    hide Overlay;
    match v
    case List(items) =>
      UnfoldItemsEach(rs, items, fuel);
      var i :| 0 <= i < |items| && Meets(rs, items[i], ref);
      UnfoldFollows(rs, items[i], fuel, ref);
    case Record(entries) =>
      if Get(entries, REF) != Text(ref) || !IsReference(rs, entries) {
        var some := if IsReference(rs, entries) then WithoutRef(entries) else entries;
        var i :| 0 <= i < |entries| && (IsReference(rs, entries) ==> entries[i].key != REF) && Meets(rs, entries[i].value, ref);
        assert entries[i] in some;
        UnfoldEntriesKeys(rs, entries, some, fuel);
        UnfoldFollows(rs, entries[i].value, fuel, ref);
      }
  }

  lemma {:induction false} UnfoldIsUnbroken(rs: Resolver, v: Value, fuel: nat)
    requires Unfold(rs, v, fuel).Some?
    ensures !Broken(rs, v)
    decreases v
  {
    hide Overlay;
    match v
    case List(items) =>
      UnfoldItemsEach(rs, items, fuel);
      forall i | 0 <= i < |items|
        ensures !Broken(rs, items[i])
      {
        UnfoldIsUnbroken(rs, items[i], fuel);
      }
    case Record(entries) =>
      var some := if IsReference(rs, entries) then WithoutRef(entries) else entries;
      if rs.openApi || !IsReference(rs, entries) {
        if some != [] {
          UnfoldEntriesKeys(rs, entries, some, fuel);
        }
        forall i | 0 <= i < |entries| && (IsReference(rs, entries) ==> entries[i].key != REF)
          ensures !Broken(rs, entries[i].value)
        {
          assert entries[i] in some;
          UnfoldIsUnbroken(rs, entries[i].value, fuel);
        }
      }
    case _ =>
  }

  lemma {:induction false} ChainUsesFuel(rs: Resolver, v: Value, fuel: nat, path: seq<string>)
    requires Unfold(rs, v, fuel).Some? && IsChain(rs, v, path)
    ensures |path| <= fuel && Unfold(rs, ChainEnd(rs, v, path), fuel - |path|).Some?
    decreases |path|
  {
    hide Unfold, Meets;
    if path != [] {
      UnfoldFollows(rs, v, fuel, path[0]);
      ChainInTargets(rs, v, path, |path| - 1);
      ChainUsesFuel(rs, rs.targets[path[0]], fuel - 1, path[1..]);
    }
  }

  lemma {:induction false} LoopNeverEnds(rs: Resolver, v: Value, fuel: nat, loop: seq<string>)
    requires IsChain(rs, v, loop) && loop != [] && ChainEnd(rs, v, loop) == v
    ensures Unfold(rs, v, fuel).None?
    decreases fuel
  {
    hide Unfold, IsChain;
    if Unfold(rs, v, fuel).Some? {
      ChainUsesFuel(rs, v, fuel, loop);
      LoopNeverEnds(rs, v, fuel - |loop|, loop);
    }
  }

  lemma {:induction false} SplitChain(rs: Resolver, v: Value, path: seq<string>, n: nat)
    requires IsChain(rs, v, path) && n <= |path|
    ensures IsChain(rs, v, path[..n]) && IsChain(rs, ChainEnd(rs, v, path[..n]), path[n..])
    decreases n
  {
    hide Meets;
    if n > 0 {
      SplitChain(rs, rs.targets[path[0]], path[1..], n - 1);
      assert path[..n] == [path[0]] + path[1..][..n - 1] && path[n..] == path[1..][n - 1..];
      ChainInTargets(rs, v, path, n - 1);
    }
  }

  lemma {:induction false} ChainInTargets(rs: Resolver, v: Value, path: seq<string>, i: nat)
    requires IsChain(rs, v, path) && i < |path|
    ensures path[i] in rs.targets
    decreases i
  {
    if i > 0 {
      ChainInTargets(rs, rs.targets[path[0]], path[1..], i - 1);
    }
  }

  lemma UnfoldingIsAcyclic(rs: Resolver, v: Value, fuel: nat)
    requires Unfold(rs, v, fuel).Some?
    ensures Acyclic(rs, v) && FullyDefined(rs, v)
  {
    hide Unfold, IsChain, Broken;
    forall path | IsChain(rs, v, path)
      ensures !Broken(rs, ChainEnd(rs, v, path))
    {
      ChainUsesFuel(rs, v, fuel, path);
      UnfoldIsUnbroken(rs, ChainEnd(rs, v, path), fuel - |path|);
    }
    forall path, ref
      ensures !ReturnsTo(rs, v, path, ref)
    {
      if ReturnsTo(rs, v, path, ref) {
        var i :| 0 <= i < |path| - 1 && path[i] == ref;
        SplitChain(rs, v, path, i + 1);
        ChainInTargets(rs, v, path, i);
        ChainUsesFuel(rs, v, fuel, path[..i + 1]);
        LoopNeverEnds(rs, rs.targets[ref], fuel - (i + 1), path[i + 1..]);
      }
    }
  }

  // An expansion that fails: the error names a chain that is really there.

  /** Whatever is met or broken in `part` is so in `whole`. */
  ghost predicate PartOf(rs: Resolver, part: Value, whole: Value) {
    (forall ref :: Meets(rs, part, ref) ==> Meets(rs, whole, ref)) && (Broken(rs, part) ==> Broken(rs, whole))
  }

  /** A chain from `v` that justifies the error of an expansion entered with `seen`. */
  ghost predicate Justifies(rs: Resolver, v: Value, seen: set<string>, e: RefError, path: seq<string>) {
    && IsChain(rs, v, path)
    && match e
       case Circular(ref) => path != [] && path[|path| - 1] == ref && (ref in seen || ref in path[..|path| - 1])
       case Unresolvable => Broken(rs, ChainEnd(rs, v, path))
  }

  lemma JustifiesWhole(rs: Resolver, part: Value, whole: Value, seen: set<string>, e: RefError, path: seq<string>)
    requires Justifies(rs, part, seen, e, path) && PartOf(rs, part, whole)
    ensures Justifies(rs, whole, seen, e, path)
  {
    hide Meets, Broken;
    if path != [] {
      ChainInTargets(rs, part, path, |path| - 1);
    }
  }

  lemma JustifiesThrough(rs: Resolver, v: Value, ref: string, seen: set<string>, e: RefError, path: seq<string>)
    requires ref in rs.targets && Meets(rs, v, ref) && Justifies(rs, rs.targets[ref], seen + {ref}, e, path)
    ensures Justifies(rs, v, seen, e, [ref] + path)
  {
    hide Meets, Broken;
    assert ([ref] + path)[1..] == path;
    if path != [] {
      ChainInTargets(rs, rs.targets[ref], path, |path| - 1);
      assert ([ref] + path)[..|path|] == [ref] + path[..|path| - 1];
    }
  }

  lemma {:induction false} RecordExpandsToRecord(rs: Resolver, v: Value, seen: set<string>)
    requires rs.openApi && TargetsAreRecords(rs) && v.Record? && Expand(rs, v, seen).Ok?
    ensures Expand(rs, v, seen).value.Record?
    decreases rs.targets.Keys - seen
  {
    hide Overlay;
    if IsReference(rs, v.entries) {
      var ref := Get(v.entries, REF).text;
      RecordExpandsToRecord(rs, rs.targets[ref], seen + {ref});
    }
  }

  lemma {:induction false} ErrorIsJustified(rs: Resolver, v: Value, seen: set<string>) returns (path: seq<string>)
    requires TargetsAreRecords(rs) && seen <= rs.targets.Keys && Expand(rs, v, seen).Err?
    ensures Justifies(rs, v, seen, Expand(rs, v, seen).error, path)
    decreases rs.targets.Keys - seen, v, 1
  {
    hide Overlay, Justifies, PartOf;
    match v
    case List(items) => path := ItemsErrorIsJustified(rs, items, items, seen);
    case Record(entries) =>
      if !IsReference(rs, entries) {
        path := EntriesErrorIsJustified(rs, entries, entries, seen);
      } else {
        path := ReferenceErrorIsJustified(rs, entries, seen);
      }
  }

  lemma HereIsJustified(rs: Resolver, entries: seq<Entry>, seen: set<string>)
    requires IsReference(rs, entries) && seen <= rs.targets.Keys
    ensures var ref := Get(entries, REF);
      && (!ref.Text? || ref.text !in rs.targets ==> Justifies(rs, Record(entries), seen, Unresolvable, []))
      && (ref.Text? && ref.text in rs.targets ==> Meets(rs, Record(entries), ref.text))
      && (ref.Text? && ref.text in seen ==> Justifies(rs, Record(entries), seen, Circular(ref.text), [ref.text]))
  {
    var ref := Get(entries, REF);
    if ref.Text? {
      assert [ref.text][1..] == [];
    }
  }

  lemma {:induction false} ReferenceErrorIsJustified(rs: Resolver, entries: seq<Entry>, seen: set<string>) returns (path: seq<string>)
    requires TargetsAreRecords(rs) && seen <= rs.targets.Keys
    requires IsReference(rs, entries) && Expand(rs, Record(entries), seen).Err?
    ensures Justifies(rs, Record(entries), seen, Expand(rs, Record(entries), seen).error, path)
    decreases rs.targets.Keys - seen, entries, |entries| + 1
  {
    hide Overlay, PartOf, Justifies;
    var v, ref := Record(entries), Get(entries, REF);
    HereIsJustified(rs, entries, seen);
    if !ref.Text? || (ref.text !in seen && ref.text !in rs.targets) {
      path := [];
    } else if ref.text in seen {
      path := [ref.text];
    } else if Expand(rs, rs.targets[ref.text], seen + {ref.text}).Err? {
      var rest := ErrorIsJustified(rs, rs.targets[ref.text], seen + {ref.text});
      JustifiesThrough(rs, v, ref.text, seen, Expand(rs, v, seen).error, rest);
      path := [ref.text] + rest;
    } else {
      if rs.openApi {
        RecordExpandsToRecord(rs, rs.targets[ref.text], seen + {ref.text});
      }
      path := EntriesErrorIsJustified(rs, entries, WithoutRef(entries), seen);
    }
  }

  lemma {:induction false} ItemsErrorIsJustified(rs: Resolver, all: seq<Value>, items: seq<Value>, seen: set<string>) returns (path: seq<string>)
    requires forall x :: x in items ==> x in all
    requires TargetsAreRecords(rs) && seen <= rs.targets.Keys && ExpandItems(rs, items, seen).Err?
    ensures Justifies(rs, List(all), seen, ExpandItems(rs, items, seen).error, path)
    decreases rs.targets.Keys - seen, all, |items|
  {
    hide Justifies;
    if Expand(rs, items[0], seen).Err? {
      assert items[0] in all;
      path := ErrorIsJustified(rs, items[0], seen);
      JustifiesWhole(rs, items[0], List(all), seen, Expand(rs, items[0], seen).error, path);
    } else {
      path := ItemsErrorIsJustified(rs, all, items[1..], seen);
    }
  }

  lemma {:induction false} EntriesErrorIsJustified(rs: Resolver, all: seq<Entry>, some: seq<Entry>, seen: set<string>) returns (path: seq<string>)
    requires forall e :: e in some ==> e in all && (IsReference(rs, all) ==> rs.openApi && e.key != REF)
    requires TargetsAreRecords(rs) && seen <= rs.targets.Keys && ExpandEntries(rs, all, some, seen).Err?
    ensures Justifies(rs, Record(all), seen, ExpandEntries(rs, all, some, seen).error, path)
    decreases rs.targets.Keys - seen, all, |some|
  {
    hide Justifies;
    if Expand(rs, some[0].value, seen).Err? {
      assert some[0] in all;
      path := ErrorIsJustified(rs, some[0].value, seen);
      JustifiesWhole(rs, some[0].value, Record(all), seen, Expand(rs, some[0].value, seen).error, path);
    } else {
      path := EntriesErrorIsJustified(rs, all, some[1..], seen);
    }
  }

  /**
    Expansion succeeds exactly on the documents that are acyclic and fully defined, as far as
    they can be reached from `v`. An error is genuine: a circular one names a reference that
    some chain from `v` really returns to, the other one a reference that is not defined.
   */
  lemma ExpandIffAcyclic(rs: Resolver, v: Value)
    requires TargetsAreRecords(rs)
    ensures Expand(rs, v, {}).Ok? <==> Acyclic(rs, v) && FullyDefined(rs, v)
    ensures Expand(rs, v, {}).Err? && Expand(rs, v, {}).error.Circular? ==>
      exists path :: ReturnsTo(rs, v, path, Expand(rs, v, {}).error.ref)
    ensures Expand(rs, v, {}).Err? && Expand(rs, v, {}).error.Unresolvable? ==> !FullyDefined(rs, v)
  {
    hide Expand, IsChain, Broken;
    if Expand(rs, v, {}).Ok? {
      ExpandIsUnfold(rs, v, {});
      UnfoldingIsAcyclic(rs, v, Fuel(rs, {}));
    } else {
      var path := ErrorIsJustified(rs, v, {});
      if Expand(rs, v, {}).error.Circular? {
        assert ReturnsTo(rs, v, path, Expand(rs, v, {}).error.ref);
      }
    }
  }

  /** Expansion succeeds on every acyclic, fully defined document. */
  lemma AcyclicExpands(rs: Resolver, v: Value)
    requires TargetsAreRecords(rs) && Acyclic(rs, v) && FullyDefined(rs, v)
    ensures Expand(rs, v, {}).Ok?
  {
    ExpandIffAcyclic(rs, v);
  }

  // ---------------------------------------------------------------- the result holds no reference

  ghost predicate RefFree(rs: Resolver, v: Value) {
    match v
    case List(items) => forall i :: 0 <= i < |items| ==> RefFree(rs, items[i])
    case Record(entries) =>
      !IsReference(rs, entries) && forall i :: 0 <= i < |entries| ==> RefFree(rs, entries[i].value)
    case _ => true
  }

  ghost predicate RefFreeEntries(rs: Resolver, entries: seq<Entry>) {
    forall e :: e in entries ==> RefFree(rs, e.value)
  }

  lemma {:induction false} PutEntry(entries: seq<Entry>, e: Entry)
    ensures forall x :: x in Put(entries, e) ==> x == e || x in entries
    ensures forall key :: Get(Put(entries, e), key) == if key == e.key then e.value else Get(entries, key)
  {
    if entries != [] && entries[0].key != e.key {
      PutEntry(entries[1..], e);
    }
  }

  lemma {:induction false} OverlayGet(base: seq<Entry>, over: seq<Entry>, key: string)
    ensures (forall e :: e in over ==> e.key != key) ==> Get(Overlay(base, over), key) == Get(base, key)
    ensures forall x :: x in Overlay(base, over) ==> x in base || x in over
    decreases |over|
  {
    if over != [] {
      PutEntry(base, over[0]);
      OverlayGet(Put(base, over[0]), over[1..], key);
    }
  }

  /** Siblings win over the target: every key of a sibling reads the sibling's value, any other key the target's. */
  lemma {:induction false} SiblingsWin(base: seq<Entry>, over: seq<Entry>, key: string)
    requires forall i, j :: 0 <= i < j < |over| ==> over[i].key != over[j].key
    ensures Get(Overlay(base, over), key) ==
      if exists e :: e in over && e.key == key then Get(over, key) else Get(base, key)
    decreases |over|
  {
    if over != [] {
      PutEntry(base, over[0]);
      SiblingsWin(Put(base, over[0]), over[1..], key);
      assert forall e :: e in over <==> e == over[0] || e in over[1..];
      assert forall e :: e in over[1..] ==> e.key != over[0].key;
    }
  }

  lemma {:induction false} UnfoldEntriesKeys(rs: Resolver, all: seq<Entry>, some: seq<Entry>, fuel: nat)
    requires forall e :: e in some ==> e in all
    requires UnfoldEntries(rs, all, some, fuel).Some?
    ensures var r := UnfoldEntries(rs, all, some, fuel).value;
      |r| == |some| && forall i :: 0 <= i < |some| ==>
        r[i].key == some[i].key && Unfold(rs, some[i].value, fuel) == Some(r[i].value)
    decreases |some|
  {
    if some != [] {
      UnfoldEntriesKeys(rs, all, some[1..], fuel);
    }
  }

  lemma {:induction false} GetOfUnfolded(rs: Resolver, all: seq<Entry>, some: seq<Entry>, fuel: nat, key: string)
    requires forall e :: e in some ==> e in all
    requires UnfoldEntries(rs, all, some, fuel).Some?
    ensures Some(Get(UnfoldEntries(rs, all, some, fuel).value, key)) == Unfold(rs, Get(some, key), fuel)
    decreases |some|
  {
    if some != [] && some[0].key != key {
      GetOfUnfolded(rs, all, some[1..], fuel, key);
    }
  }

  ghost predicate DistinctKeys(entries: seq<Entry>) {
    forall i, j :: 0 <= i < j < |entries| ==> entries[i].key != entries[j].key
  }

  lemma {:induction false} SiblingKeysDistinct(entries: seq<Entry>)
    requires DistinctKeys(entries)
    ensures DistinctKeys(WithoutRef(entries))
  {
    if entries != [] {
      SiblingKeysDistinct(entries[1..]);
      var rest := WithoutRef(entries[1..]);
      forall j | 0 <= j < |rest|
        ensures rest[j].key != entries[0].key
      {
        assert rest[j] in rest && rest[j] in entries[1..];
      }
    }
  }

  lemma GetCons(head: Entry, rest: seq<Entry>, key: string)
    ensures Get([head] + rest, key) == if head.key == key then head.value else Get(rest, key)
  {
    assert ([head] + rest)[1..] == rest;
  }

  lemma {:induction false} SiblingsRead(entries: seq<Entry>, key: string)
    requires key != REF
    ensures Get(WithoutRef(entries), key) == Get(entries, key)
  {
    if entries != [] {
      var head, rest := entries[0], entries[1..];
      SiblingsRead(rest, key);
      GetCons(head, rest, key);
      GetCons(head, WithoutRef(rest), key);
      assert entries == [head] + rest;
      assert WithoutRef(entries) == if head.key == REF then WithoutRef(rest) else [head] + WithoutRef(rest);
      hide Get, WithoutRef;
    }
  }

  /** Unfolding keeps the keys. */
  lemma SameKeys(some: seq<Entry>, es: seq<Entry>, key: string)
    requires |es| == |some| && forall i :: 0 <= i < |some| ==> es[i].key == some[i].key
    ensures (exists e :: e in es && e.key == key) <==> exists e :: e in some && e.key == key
    ensures DistinctKeys(some) ==> DistinctKeys(es)
  {
    if e :| e in some && e.key == key {
      var i :| 0 <= i < |some| && some[i] == e;
      assert es[i] in es;
    }
    if e :| e in es && e.key == key {
      var i :| 0 <= i < |es| && es[i] == e;
      assert some[i] in some;
    }
  }

  lemma OverlaidSiblings(rs: Resolver, entries: seq<Entry>, base: seq<Entry>, fuel: nat, key: string)
    requires DistinctKeys(entries) && UnfoldEntries(rs, entries, WithoutRef(entries), fuel).Some?
    ensures var r := Get(Overlay(base, UnfoldEntries(rs, entries, WithoutRef(entries), fuel).value), key);
      if key != REF && exists e :: e in entries && e.key == key then Unfold(rs, Get(entries, key), fuel) == Some(r)
      else r == Get(base, key)
  {
    var siblings := WithoutRef(entries);
    var es := UnfoldEntries(rs, entries, siblings, fuel).value;
    SiblingKeysDistinct(entries);
    if key != REF {
      SiblingsRead(entries, key);
    }
    UnfoldEntriesKeys(rs, entries, siblings, fuel);
    GetOfUnfolded(rs, entries, siblings, fuel, key);
    SameKeys(siblings, es, key);
    assert DistinctKeys(es) && forall e :: e in siblings <==> e in entries && e.key != REF;
    SiblingsWin(base, es, key);
    hide Unfold, UnfoldEntries, Overlay, WithoutRef, DistinctKeys, Get;
  }

  /**
    What a reference expands to: what its target expands to by itself. In an OpenAPI document
    with siblings every key of a sibling reads the sibling's own expansion instead.
   */
  lemma ReferenceBecomesTarget(rs: Resolver, entries: seq<Entry>, key: string)
    requires DistinctKeys(entries) && IsReference(rs, entries) && Expand(rs, Record(entries), {}).Ok?
    ensures Get(entries, REF).Text? && Get(entries, REF).text in rs.targets
    ensures var r := Expand(rs, Record(entries), {}).value;
      var target := Expand(rs, rs.targets[Get(entries, REF).text], {});
      && target.Ok?
      && (!rs.openApi || WithoutRef(entries) == [] ==> r == target.value)
      && (rs.openApi && WithoutRef(entries) != [] ==>
            && r.Record? && target.value.Record?
            && if key != REF && exists e :: e in entries && e.key == key
               then Expand(rs, Get(entries, key), {}) == Ok(Get(r.entries, key))
               else Get(r.entries, key) == Get(target.value.entries, key))
  {
    var fuel := Fuel(rs, {});
    ExpandIsUnfold(rs, Record(entries), {});
    hide Expand, Fuel;
    var target := rs.targets[Get(entries, REF).text];
    ExpandIffUnfoldingEnds(rs, target);
    assert Unfold(rs, target, fuel - 1).Some?;
    if rs.openApi && WithoutRef(entries) != [] {
      OverlaidSiblings(rs, entries, Unfold(rs, target, fuel - 1).value.entries, fuel, key);
      ExpandIffUnfoldingEnds(rs, Get(entries, key));
    }
  }

  /** Where following references from `v` ends. */
  function Chase(rs: Resolver, v: Value, fuel: nat): Value
    decreases fuel
  {
    if v.Record? && IsReference(rs, v.entries) && Get(v.entries, REF).Text?
      && Get(v.entries, REF).text in rs.targets && fuel > 0
    then Chase(rs, rs.targets[Get(v.entries, REF).text], fuel - 1)
    else v
  }

  /**
    No `$ref` property holds a reference that leads to a string. A `$ref` that is itself a
    record is no reference for the documentation script, so expanding it could make one.
   */
  ghost predicate Clean(rs: Resolver, v: Value, fuel: nat)
    decreases fuel, v
  {
    match v
    case List(items) => forall i :: 0 <= i < |items| ==> Clean(rs, items[i], fuel)
    case Record(entries) =>
      if IsReference(rs, entries) then
        var ref := Get(entries, REF);
        ref.Text? && ref.text in rs.targets && fuel > 0 ==> Clean(rs, rs.targets[ref.text], fuel - 1)
      else
        && !Chase(rs, Get(entries, REF), fuel).Text?
        && forall i :: 0 <= i < |entries| ==> Clean(rs, entries[i].value, fuel)
    case _ => true
  }

  lemma {:induction false} ChaseIsText(rs: Resolver, v: Value, fuel: nat)
    requires !rs.openApi && Unfold(rs, v, fuel).Some?
    ensures Unfold(rs, v, fuel).value.Text? <==> Chase(rs, v, fuel).Text?
    decreases fuel
  {
    if v.Record? && IsReference(rs, v.entries) {
      ChaseIsText(rs, rs.targets[Get(v.entries, REF).text], fuel - 1);
    }
  }

  lemma OverlayKeepsRefFree(rs: Resolver, base: seq<Entry>, over: seq<Entry>)
    requires rs.openApi && RefFree(rs, Record(base)) && RefFreeEntries(rs, over)
    requires forall e :: e in over ==> e.key != REF
    ensures RefFree(rs, Record(Overlay(base, over)))
  {
    OverlayGet(base, over, REF);
    var merged := Overlay(base, over);
    forall i | 0 <= i < |merged|
      ensures RefFree(rs, merged[i].value)
    {
      assert merged[i] in merged;
    }
  }

  lemma OpenApiRecordIsRefFree(rs: Resolver, entries: seq<Entry>, fuel: nat)
    requires rs.openApi && !IsReference(rs, entries) && Unfold(rs, Record(entries), fuel).Some?
    requires RefFreeEntries(rs, UnfoldEntries(rs, entries, entries, fuel).value)
    ensures RefFree(rs, Unfold(rs, Record(entries), fuel).value)
  {
    GetOfUnfolded(rs, entries, entries, fuel, REF);
    var es := UnfoldEntries(rs, entries, entries, fuel).value;
    assert forall i :: 0 <= i < |es| ==> es[i] in es;
  }

  lemma OpenApiReferenceIsRefFree(rs: Resolver, entries: seq<Entry>, fuel: nat)
    requires rs.openApi && IsReference(rs, entries) && Unfold(rs, Record(entries), fuel).Some?
    requires RefFree(rs, Unfold(rs, rs.targets[Get(entries, REF).text], fuel - 1).value)
    requires WithoutRef(entries) != [] ==> RefFreeEntries(rs, UnfoldEntries(rs, entries, WithoutRef(entries), fuel).value)
    ensures RefFree(rs, Unfold(rs, Record(entries), fuel).value)
  {
    hide RefFree;
    var siblings := WithoutRef(entries);
    if siblings != [] {
      UnfoldEntriesKeys(rs, entries, siblings, fuel);
      var es := UnfoldEntries(rs, entries, siblings, fuel).value;
      assert forall i :: 0 <= i < |es| ==> siblings[i] in siblings;
      assert forall e :: e in es ==> e.key != REF;
      OverlayKeepsRefFree(rs, Unfold(rs, rs.targets[Get(entries, REF).text], fuel - 1).value.entries, es);
    }
  }

  /** In the OpenAPI script the result never contains a reference. */
  lemma {:induction false} OpenApiResultIsRefFree(rs: Resolver, v: Value, fuel: nat)
    requires rs.openApi && Unfold(rs, v, fuel).Some?
    ensures RefFree(rs, Unfold(rs, v, fuel).value)
    decreases fuel, v, 1
  {
    match v
    case List(items) => OpenApiItemsRefFree(rs, items, fuel);
    case Record(entries) =>
      hide RefFree;
      if !IsReference(rs, entries) {
        OpenApiEntriesRefFree(rs, entries, entries, fuel);
        OpenApiRecordIsRefFree(rs, entries, fuel);
      } else {
        OpenApiResultIsRefFree(rs, rs.targets[Get(entries, REF).text], fuel - 1);
        if WithoutRef(entries) != [] {
          OpenApiEntriesRefFree(rs, entries, WithoutRef(entries), fuel);
        }
        OpenApiReferenceIsRefFree(rs, entries, fuel);
      }
    case _ =>
  }

  lemma {:induction false} OpenApiItemsRefFree(rs: Resolver, items: seq<Value>, fuel: nat)
    requires rs.openApi && UnfoldItems(rs, items, fuel).Some?
    ensures forall i :: 0 <= i < |UnfoldItems(rs, items, fuel).value| ==> RefFree(rs, UnfoldItems(rs, items, fuel).value[i])
    decreases fuel, items, 0
  {
    if items != [] {
      OpenApiResultIsRefFree(rs, items[0], fuel);
      OpenApiItemsRefFree(rs, items[1..], fuel);
    }
  }

  lemma {:induction false} OpenApiEntriesRefFree(rs: Resolver, all: seq<Entry>, some: seq<Entry>, fuel: nat)
    requires forall e :: e in some ==> e in all
    requires rs.openApi && UnfoldEntries(rs, all, some, fuel).Some?
    ensures RefFreeEntries(rs, UnfoldEntries(rs, all, some, fuel).value)
    decreases fuel, all, |some|
  {
    if some != [] {
      assert some[0] in all;
      OpenApiResultIsRefFree(rs, some[0].value, fuel);
      OpenApiEntriesRefFree(rs, all, some[1..], fuel);
    }
  }

  /** A value without references unfolds to itself: nothing but references is ever changed. */
  lemma {:induction false} RefFreeUnfoldsToItself(rs: Resolver, v: Value, fuel: nat)
    requires RefFree(rs, v)
    ensures Unfold(rs, v, fuel) == Some(v)
    decreases v, 1
  {
    match v
    case List(items) => RefFreeItemsUnfold(rs, items, fuel);
    case Record(entries) =>
      forall e | e in entries
        ensures RefFree(rs, e.value)
      {
        var i :| 0 <= i < |entries| && entries[i] == e;
      }
      RefFreeEntriesUnfold(rs, entries, entries, fuel);
    case _ =>
  }

  lemma {:induction false} RefFreeItemsUnfold(rs: Resolver, items: seq<Value>, fuel: nat)
    requires forall i :: 0 <= i < |items| ==> RefFree(rs, items[i])
    ensures UnfoldItems(rs, items, fuel) == Some(items)
    decreases items, 0
  {
    if items != [] {
      RefFreeUnfoldsToItself(rs, items[0], fuel);
      RefFreeItemsUnfold(rs, items[1..], fuel);
      assert [items[0]] + items[1..] == items;
    }
  }

  lemma {:induction false} RefFreeEntriesUnfold(rs: Resolver, all: seq<Entry>, some: seq<Entry>, fuel: nat)
    requires (forall e :: e in some ==> e in all) && RefFreeEntries(rs, all)
    ensures UnfoldEntries(rs, all, some, fuel) == Some(some)
    decreases all, |some|
  {
    if some != [] {
      assert some[0] in all;
      RefFreeUnfoldsToItself(rs, some[0].value, fuel);
      RefFreeEntriesUnfold(rs, all, some[1..], fuel);
      assert [some[0]] + some[1..] == some;
    }
  }

  /** So expansion leaves a value without references as it is, and expanding an OpenAPI result again changes nothing. */
  lemma ExpansionIsIdempotent(rs: Resolver, v: Value)
    ensures RefFree(rs, v) ==> Expand(rs, v, {}) == Ok(v)
    ensures rs.openApi && Expand(rs, v, {}).Ok? ==>
      Expand(rs, Expand(rs, v, {}).value, {}) == Expand(rs, v, {})
  {
    if RefFree(rs, v) {
      UnchangedWithoutReferences(rs, v);
    }
    if rs.openApi && Expand(rs, v, {}).Ok? {
      ExpandIsUnfold(rs, v, {});
      OpenApiResultIsRefFree(rs, v, Fuel(rs, {}));
      UnchangedWithoutReferences(rs, Expand(rs, v, {}).value);
    }
  }

  lemma UnchangedWithoutReferences(rs: Resolver, v: Value)
    requires RefFree(rs, v)
    ensures Expand(rs, v, {}) == Ok(v)
  {
    RefFreeUnfoldsToItself(rs, v, 0);
    ExpandIffUnfoldingEnds(rs, v);
  }

  /** In the documentation script the result is free of references exactly for clean input. */
  lemma {:induction false} DocsResultIsRefFreeIffClean(rs: Resolver, v: Value, fuel: nat)
    requires !rs.openApi && Unfold(rs, v, fuel).Some?
    ensures RefFree(rs, Unfold(rs, v, fuel).value) <==> Clean(rs, v, fuel)
    decreases fuel, v, 1
  {
    match v
    case List(items) => DocsItemsRefFree(rs, items, fuel);
    case Record(entries) =>
      if IsReference(rs, entries) {
        DocsResultIsRefFreeIffClean(rs, rs.targets[Get(entries, REF).text], fuel - 1);
      } else {
        DocsEntriesRefFree(rs, entries, fuel);
        GetOfUnfolded(rs, entries, entries, fuel, REF);
        ChaseIsText(rs, Get(entries, REF), fuel);
      }
    case _ =>
  }

  lemma {:induction false} UnfoldItemsEach(rs: Resolver, items: seq<Value>, fuel: nat)
    requires UnfoldItems(rs, items, fuel).Some?
    ensures var r := UnfoldItems(rs, items, fuel).value;
      |r| == |items| && forall i :: 0 <= i < |items| ==> Unfold(rs, items[i], fuel) == Some(r[i])
    decreases |items|
  {
    if items != [] {
      UnfoldItemsEach(rs, items[1..], fuel);
    }
  }

  lemma DocsItemsRefFree(rs: Resolver, items: seq<Value>, fuel: nat)
    requires !rs.openApi && UnfoldItems(rs, items, fuel).Some?
    ensures var xs := UnfoldItems(rs, items, fuel).value;
      (forall i :: 0 <= i < |xs| ==> RefFree(rs, xs[i])) <==> (forall i :: 0 <= i < |items| ==> Clean(rs, items[i], fuel))
    decreases fuel, items, 0
  {
    UnfoldItemsEach(rs, items, fuel);
    var xs := UnfoldItems(rs, items, fuel).value;
    forall i | 0 <= i < |items|
      ensures RefFree(rs, xs[i]) <==> Clean(rs, items[i], fuel)
    {
      DocsResultIsRefFreeIffClean(rs, items[i], fuel);
    }
  }

  lemma DocsEntriesRefFree(rs: Resolver, entries: seq<Entry>, fuel: nat)
    requires !rs.openApi && UnfoldEntries(rs, entries, entries, fuel).Some?
    ensures var es := UnfoldEntries(rs, entries, entries, fuel).value;
      (forall i :: 0 <= i < |es| ==> RefFree(rs, es[i].value)) <==>
      (forall i :: 0 <= i < |entries| ==> Clean(rs, entries[i].value, fuel))
    decreases fuel, entries, 0
  {
    UnfoldEntriesKeys(rs, entries, entries, fuel);
    var es := UnfoldEntries(rs, entries, entries, fuel).value;
    forall i | 0 <= i < |entries|
      ensures RefFree(rs, es[i].value) <==> Clean(rs, entries[i].value, fuel)
    {
      DocsResultIsRefFreeIffClean(rs, entries[i].value, fuel);
    }
  }
}
