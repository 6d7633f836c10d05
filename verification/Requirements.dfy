/** The dependency closure of the study's lock file: a recursive include over a graph that may
  * have cycles, and the pinned lines printed from it.
  */
module Requirements {
  import opened Common
  import opened Sorting

  /** `registry` says that the source is exactly the reviewed public registry. */
  datatype Package = Package(name: string, version: string, registry: bool, dependencies: seq<string>,
                             hashes: seq<string>)

  type Lock = seq<Package>

  function Options(lock: Lock, name: string): seq<Package> {
    if lock == [] then []
    else (if lock[0].name == name then [lock[0]] else []) + Options(lock[1..], name)
  }

  /** The one reviewed package of that name. */
  function Resolve(lock: Lock, name: string): Option<Package> {
    var options := Options(lock, name);
    if |options| == 1 && options[0].registry then Some(options[0]) else None
  }

  function Members(names: seq<string>): set<string> {
    set n | n in names
  }

  /** `names` holds the dependencies of each of its members that resolves. */
  ghost predicate Closed(lock: Lock, names: set<string>) {
    forall n, d :: n in names && Resolve(lock, n).Some? && d in Resolve(lock, n).value.dependencies ==> d in names
  }

  ghost predicate Resolvable(lock: Lock, names: set<string>) {
    forall n :: n in names ==> Resolve(lock, n).Some?
  }

  function Names(lock: Lock): set<string> {
    set p | p in lock :: p.name
  }

  lemma {:induction false} OptionsAreNamed(lock: Lock, name: string)
    ensures forall p :: p in Options(lock, name) ==> p in lock && p.name == name
  {
    if lock != [] {
      OptionsAreNamed(lock[1..], name);
    }
  }

  lemma ResolvedIsNamed(lock: Lock, name: string)
    requires Resolve(lock, name).Some?
    ensures name in Names(lock) && Resolve(lock, name).value.name == name
  {
    OptionsAreNamed(lock, name);
    assert Options(lock, name)[0] in lock;
  }

  /** The only package of that name is at `i`. */
  ghost predicate ListedOnce(lock: Lock, name: string, i: int) {
    0 <= i < |lock| && lock[i].name == name && forall j :: 0 <= j < |lock| && j != i ==> lock[j].name != name
  }

  /** The packages of a name: none, the one listed, or several. */
  lemma {:induction false} OptionsMeaning(lock: Lock, name: string)
    ensures Options(lock, name) == [] <==> forall i :: 0 <= i < |lock| ==> lock[i].name != name
    ensures |Options(lock, name)| == 1 <==> exists i :: ListedOnce(lock, name, i)
    ensures forall i :: ListedOnce(lock, name, i) ==> Options(lock, name) == [lock[i]]
  {
    if lock != [] {
      var rest := lock[1..];
      OptionsMeaning(rest, name);
      assert forall i :: 0 < i < |lock| ==> lock[i] == rest[i - 1];
      assert forall i :: 0 <= i < |rest| ==> rest[i] == lock[i + 1];
      if lock[0].name == name {
        assert Options(rest, name) == [] ==> ListedOnce(lock, name, 0);
      } else {
        assert forall i :: ListedOnce(rest, name, i) ==> ListedOnce(lock, name, i + 1);
        assert forall i :: ListedOnce(lock, name, i) ==> ListedOnce(rest, name, i - 1);
      }
    }
  }

  /** A name resolves to a package exactly when the lock file lists that name once, and there as this package from
    * the reviewed registry.
    */
  lemma ResolveMeaning(lock: Lock, name: string, p: Package)
    ensures Resolve(lock, name) == Some(p) <==> exists i :: ListedOnce(lock, name, i) && lock[i] == p && p.registry
  {
    OptionsMeaning(lock, name);
  }

  /** Every closed set that holds the roots holds whatever was added for them. */
  ghost predicate NothingExtra(lock: Lock, roots: set<string>, before: set<string>, after: set<string>) {
    forall t :: Closed(lock, t) && roots <= t ==> after - before <= t
  }

  /** Every closed set that holds the roots has a member that does not resolve. */
  ghost predicate Hopeless(lock: Lock, roots: set<string>) {
    forall t :: Closed(lock, t) && roots <= t ==> !Resolvable(lock, t)
  }

  /** The names added since `before` have their dependencies selected. */
  ghost predicate Settled(before: set<string>, selected: map<string, Package>) {
    forall n, d :: n in selected && n !in before && d in selected[n].dependencies ==> d in selected
  }

  /** What a successful include does for its roots: it keeps the earlier selection, adds the
    * dependencies of what it adds, and adds nothing that the roots do not need.
    */
  ghost predicate Added(lock: Lock, roots: set<string>, before: map<string, Package>, after: map<string, Package>) {
    && Submap(before, after)
    && Settled(before.Keys, after)
    && NothingExtra(lock, roots, before.Keys, after.Keys)
  }

  lemma SettledChain(before: set<string>, a: map<string, Package>, b: map<string, Package>)
    requires Settled(before, a) && Submap(a, b) && Settled(a.Keys, b)
    ensures Settled(before, b)
  {
    forall n, d | n in b && n !in before && d in b[n].dependencies ensures d in b {
      if n in a {
        assert d in a[n].dependencies;
      }
    }
  }

  lemma AddedChain(lock: Lock, roots: set<string>, root: string, before: map<string, Package>,
                   mid: map<string, Package>, after: map<string, Package>)
    requires Added(lock, roots, before, mid) && Added(lock, {root}, mid, after) && root in roots
    ensures Added(lock, roots, before, after)
  {
    SettledChain(before.Keys, mid, after);
  }

  /** The roots of a package that was just selected: itself, then its dependencies. */
  lemma SelectedDependencies(lock: Lock, name: string, before: set<string>, after: set<string>)
    requires Resolve(lock, name).Some?
    ensures var roots := Members(Resolve(lock, name).value.dependencies);
      && (NothingExtra(lock, roots, before + {name}, after) ==> NothingExtra(lock, {name}, before, after))
      && (Hopeless(lock, roots) ==> Hopeless(lock, {name}))
  {
    var roots := Members(Resolve(lock, name).value.dependencies);
    forall t | Closed(lock, t) && {name} <= t ensures roots <= t {
      assert name in t;
    }
  }

  ghost predicate HasAll(names: seq<string>, selected: map<string, Package>) {
    forall n :: n in names ==> n in selected
  }

  lemma HasOneMore(names: seq<string>, i: nat, before: map<string, Package>, after: map<string, Package>)
    requires i < |names| && HasAll(names[..i], before) && Submap(before, after) && names[i] in after
    ensures HasAll(names[..i + 1], after)
  {
    assert names[..i + 1] == names[..i] + [names[i]];
  }

  lemma FewerMissing(names: set<string>, before: map<string, Package>, after: map<string, Package>)
    requires Submap(before, after)
    ensures |names - after.Keys| <= |names - before.Keys|
  {
    SubsetSize(names - after.Keys, names - before.Keys);
  }

  /** Selecting one package and then its dependencies is including its name. */
  lemma SelectedThenAdded(lock: Lock, name: string, package: Package, before: map<string, Package>,
                          after: map<string, Package>)
    requires Resolve(lock, name) == Some(package) && name !in before
    requires HasAll(package.dependencies, after)
    requires Added(lock, Members(package.dependencies), before[name := package], after)
    ensures name in after && Added(lock, {name}, before, after)
  {
    var first := before[name := package];
    assert name in first && first[name] == package;
    assert Submap(before, first);
    SelectedDependencies(lock, name, before.Keys, after.Keys);
    assert first.Keys == before.Keys + {name};
    forall n, d | n in after && n !in before && d in after[n].dependencies ensures d in after {
      if n == name {
        assert after[n] == first[n] == package;
      } else {
        assert n !in first.Keys;
      }
    }
  }

  /** The dictionary that the nested `include` fills; `order` is its insertion order. */
  class Resolver {
    const lock: Lock
    var selected: map<string, Package>
    var order: seq<string>

    constructor (lock: Lock)
      ensures this.lock == lock && selected == map[] && order == [] && Valid()
    {
      this.lock := lock;
      selected, order := map[], [];
    }

    ghost predicate Valid()
      reads this
    {
      && selected.Keys <= Names(lock)
      && (forall n :: n in selected ==> Resolve(lock, n) == Some(selected[n]))
      && (forall n :: n in order <==> n in selected) && Distinct(order)
    }

    /** `include`: adds what the name needs and nothing else, or there is nothing to be had. */
    method Include(name: string) returns (ok: bool)
      requires Valid()
      modifies this
      ensures Valid()
      ensures ok ==> name in selected && Added(lock, {name}, old(selected), selected)
      ensures !ok ==> Hopeless(lock, {name})
      decreases |Names(lock) - selected.Keys|, 0
    {
      if name in selected { return true; }
      var options := Options(lock, name);
      if |options| != 1 || !options[0].registry {
        return false;
      }
      var package := options[0];
      ResolvedIsNamed(lock, name);
      ghost var before := selected;
      selected, order := selected[name := package], order + [name];
      ok := IncludeAll(package.dependencies);
      if ok {
        SelectedThenAdded(lock, name, package, before, selected);
      } else {
        SelectedDependencies(lock, name, before.Keys, selected.Keys);
      }
    }

    method IncludeAll(names: seq<string>) returns (ok: bool)
      requires Valid()
      modifies this
      ensures Valid()
      ensures ok ==> HasAll(names, selected) && Added(lock, Members(names), old(selected), selected)
      ensures !ok ==> Hopeless(lock, Members(names))
      decreases |Names(lock) - selected.Keys|, 1
    {
      ghost var roots := Members(names);
      for i := 0 to |names|
        invariant Valid() && HasAll(names[..i], selected)
        invariant Added(lock, roots, old(selected), selected)
      {
        FewerMissing(Names(lock), old(selected), selected);
        ghost var mid := selected;
        ok := Include(names[i]);
        assert names[i] in roots;
        if !ok { return; }
        AddedChain(lock, roots, names[i], old(selected), mid, selected);
        HasOneMore(names, i, mid, selected);
      }
      assert names[..|names|] == names;
      return true;
    }
  }

  const DIRECT: seq<string> := ["certifi", "fastapi", "sqlalchemy", "psycopg", "psycopg-binary", "pydantic",
                                "pydantic-settings", "pyyaml", "orjson"]
  const SHA256: string := "sha256:"

  datatype Line = Line(name: string, version: string, hashes: seq<string>)
  datatype Refusal = NotReviewed | NotPinned

  function Unique(xs: seq<string>): seq<string> {
    if xs == [] then [] else (if xs[0] in xs[1..] then [] else [xs[0]]) + Unique(xs[1..])
  }

  lemma {:induction false} UniqueIsASet(xs: seq<string>)
    ensures Distinct(Unique(xs)) && SameMembers(Unique(xs), xs)
  {
    if xs != [] {
      UniqueIsASet(xs[1..]);
      assert forall x :: x in xs <==> x == xs[0] || x in xs[1..];
    }
  }

  /** Every distribution file of the package is pinned by SHA-256, and there is at least one. */
  ghost predicate Pinned(prefix: string, package: Package) {
    package.hashes != [] && forall h :: h in package.hashes ==> prefix <= h
  }

  /** A set of names that could stand in the printed file: closed, resolvable and pinned. */
  ghost predicate Acceptable(lock: Lock, roots: set<string>, prefix: string, names: set<string>) {
    && roots <= names && Closed(lock, names) && Resolvable(lock, names)
    && forall n :: n in names && Resolve(lock, n).Some? ==> Pinned(prefix, Resolve(lock, n).value)
  }

  /** `line` pins the package by the set of its hashes, sorted and without repetition. */
  ghost predicate Pins(line: Line, package: Package) {
    && line.name == package.name && line.version == package.version
    && Ordered(StringLt, line.hashes) && SameMembers(line.hashes, package.hashes)
  }

  /** The printed names are the least acceptable set, once each and in order. */
  ghost predicate Listing(lock: Lock, roots: set<string>, prefix: string, names: seq<string>, lines: seq<Line>) {
    && Ordered(StringLt, names) && |lines| == |names|
    && Acceptable(lock, roots, prefix, Members(names))
    && (forall t :: Closed(lock, t) && roots <= t ==> Members(names) <= t)
    && (forall i :: 0 <= i < |names| ==> Resolve(lock, names[i]).Some? && Pins(lines[i], Resolve(lock, names[i]).value))
  }

  /** One line of the file: the sorted set of the package's hashes. */
  method PinLine(name: string, package: Package) returns (r: Option<Line>)
    requires package.name == name
    ensures r.Some? <==> Pinned(SHA256, package)
    ensures r.Some? ==> Pins(r.value, package)
  {
    var unique := Unique(package.hashes);
    var hashes := Sort(StringLt, unique);
    UniqueIsASet(package.hashes);
    StringLtIsLinear(unique);
    SortIsOrdered(StringLt, unique);
    assert package.hashes != [] ==> package.hashes[0] in hashes;
    if hashes == [] {
      return None;
    }
    assert hashes[0] in package.hashes;
    for i := 0 to |hashes|
      invariant forall j :: 0 <= j < i ==> SHA256 <= hashes[j]
    {
      if !(SHA256 <= hashes[i]) {
        assert hashes[i] in package.hashes;
        return None;
      }
    }
    return Some(Line(name, package.version, hashes));
  }

  /** `requirements`: it succeeds exactly when an acceptable set over the direct names exists, and
    * then prints the least one; the first refusal says that a name does not resolve.
    */
  method Requirements(lock: Lock) returns (r: Result<seq<Line>, Refusal>, ghost names: seq<string>)
    ensures r.Ok? <==> exists t :: Acceptable(lock, Members(DIRECT), SHA256, t)
    ensures r.Ok? ==> Listing(lock, Members(DIRECT), SHA256, names, r.value)
    ensures r == Err(NotReviewed) <==> Hopeless(lock, Members(DIRECT))
  {
    names := [];
    var resolver := new Resolver(lock);
    var ok := resolver.IncludeAll(DIRECT);
    if !ok {
      return Err(NotReviewed), [];
    }
    r, names := PrintLines(lock, Members(DIRECT), resolver.selected, resolver.order);
  }

  /** The second half: the sorted items of the dictionary, one line each. */
  method PrintLines(lock: Lock, ghost roots: set<string>, selected: map<string, Package>, order: seq<string>)
    returns (r: Result<seq<Line>, Refusal>, ghost names: seq<string>)
    requires forall n :: n in selected ==> Resolve(lock, n) == Some(selected[n])
    requires (forall n :: n in order <==> n in selected) && Distinct(order)
    requires roots <= selected.Keys && Closed(lock, selected.Keys)
    requires forall t :: Closed(lock, t) && roots <= t ==> selected.Keys <= t
    ensures r.Ok? <==> exists t :: Acceptable(lock, roots, SHA256, t)
    ensures r.Ok? ==> Listing(lock, roots, SHA256, names, r.value)
    ensures r.Err? ==> r.error == NotPinned && !Hopeless(lock, roots)
  {
    assert Resolvable(lock, selected.Keys);
    var sorted := Sort(StringLt, order);
    names := sorted;
    StringLtIsLinear(order);
    SortIsOrdered(StringLt, order);
    assert Members(sorted) == selected.Keys;
    var lines := [];
    for i := 0 to |sorted|
      invariant |lines| == i
      invariant forall j :: 0 <= j < i ==> Pinned(SHA256, selected[sorted[j]]) && Pins(lines[j], selected[sorted[j]])
    {
      var name := sorted[i];
      assert name in selected;
      ResolvedIsNamed(lock, name);
      var line := PinLine(name, selected[name]);
      if line.None? {
        return Err(NotPinned), names;
      }
      lines := lines + [line.value];
    }
    assert Acceptable(lock, roots, SHA256, selected.Keys) by {
      forall n | n in selected.Keys ensures Pinned(SHA256, selected[n]) {
        assert n in sorted;
      }
    }
    return Ok(lines), names;
  }
}
