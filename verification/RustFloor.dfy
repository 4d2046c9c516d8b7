/**
 * The check of the packaged dependencies against the builders' Rust: from each
 * of the two root packages a breadth-first walk over normal and build
 * dependencies, marking a package when it leaves the queue.
 */
module RustFloor {
  import opened Wrappers
  import opened RustVersion

  type Id = string

  datatype Package = Package(name: string, version: string, rustVersion: Option<string>)

  datatype Kind = Normal | Build | Dev | Other(text: string)

  datatype Dependency = Dependency(pkg: Id, kinds: seq<Kind>)

  datatype Metadata = Metadata(packages: map<Id, Package>, nodes: map<Id, seq<Dependency>>, members: set<Id>)

  datatype Error =
    | InvalidVersion(value: string)
    | NotOneMember(name: string)
    | InvalidKinds(pkg: Id)
    | InvalidMetadata   // a package or node that is not there

  /** An external package over the floor, and the path that needs it. */
  datatype Finding = Finding(key: Id, path: seq<Id>)

  const ROOT_NAMES: seq<string> := ["chan", "chan-desktop"]

  // ---- The graph ----------------------------------------------------------------------------

  predicate ValidKinds(d: Dependency) {
    d.kinds != [] && forall i | 0 <= i < |d.kinds| :: !d.kinds[i].Other?
  }

  predicate Followed(d: Dependency) {
    exists i | 0 <= i < |d.kinds| :: d.kinds[i] == Normal || d.kinds[i] == Build
  }

  predicate LeadsTo(deps: seq<Dependency>, child: Id) {
    exists i | 0 <= i < |deps| :: deps[i].pkg == child && Followed(deps[i])
  }

  predicate Edge(m: Metadata, key: Id, child: Id) {
    key in m.nodes && LeadsTo(m.nodes[key], child)
  }

  /** `path` follows normal and build dependencies from `root` to `key`. */
  predicate PathTo(m: Metadata, root: Id, path: seq<Id>, key: Id) {
    && path != [] && path[0] == root && path[|path| - 1] == key
    && forall i | 0 < i < |path| :: Edge(m, path[i - 1], path[i])
  }

  ghost predicate Reachable(m: Metadata, root: Id, key: Id) {
    exists path :: PathTo(m, root, path, key)
  }

  ghost predicate Shortest(m: Metadata, root: Id, path: seq<Id>, key: Id) {
    && PathTo(m, root, path, key)
    && forall other | PathTo(m, root, other, key) :: |path| <= |other|
  }

  // ---- What is wrong with one package ----------------------------------------------------------

  function FirstBadKinds(deps: seq<Dependency>): Option<Error> {
    if deps == [] then None
    else if !ValidKinds(deps[0]) then Some(InvalidKinds(deps[0].pkg))
    else FirstBadKinds(deps[1..])
  }

  /** What visiting the package runs into, if anything. */
  function Fault(m: Metadata, key: Id): Option<Error> {
    if key !in m.packages then Some(InvalidMetadata)
    else
      var required := m.packages[key].rustVersion;
      if key !in m.members && required.Some? && ParseVersion(required.value).None? then
        Some(InvalidVersion(required.value))
      else if key !in m.nodes then Some(InvalidMetadata)
      else FirstBadKinds(m.nodes[key])
  }

  /** An external package that needs more than the floor. */
  predicate Offends(m: Metadata, limit: Version, key: Id) {
    && key !in m.members && key in m.packages && m.packages[key].rustVersion.Some?
    && var required := ParseVersion(m.packages[key].rustVersion.value);
    required.Some? && Exceeds(required.value, limit)
  }

  // ---- What these come to ---------------------------------------------------------------------------

  /** Of a dependency with valid kinds exactly the one that is for development only is not followed. */
  lemma FollowedUnlessDev(d: Dependency)
    requires ValidKinds(d)
    ensures Followed(d) <==> exists i :: 0 <= i < |d.kinds| && d.kinds[i] != Dev
    ensures !Followed(d) <==> forall i | 0 <= i < |d.kinds| :: d.kinds[i] == Dev
  {
    if i :| 0 <= i < |d.kinds| && d.kinds[i] != Dev {
      assert d.kinds[i] == Normal || d.kinds[i] == Build;
    }
  }

  /** Kinds are valid exactly if there are some, all of the three known ones. */
  lemma ValidKindsIff(d: Dependency)
    ensures ValidKinds(d) <==> d.kinds != [] && forall kind | kind in d.kinds :: kind in {Normal, Build, Dev}
  {
    if ValidKinds(d) {
      forall kind | kind in d.kinds
        ensures kind in {Normal, Build, Dev}
      {
        var i :| 0 <= i < |d.kinds| && d.kinds[i] == kind;
      }
    } else if d.kinds != [] {
      var i :| 0 <= i < |d.kinds| && d.kinds[i].Other?;
      assert d.kinds[i] in d.kinds;
    }
  }

  /** The first dependency with invalid kinds is the one complained about. */
  lemma {:induction false} BadKindsIff(deps: seq<Dependency>)
    ensures FirstBadKinds(deps).None? <==> forall i | 0 <= i < |deps| :: ValidKinds(deps[i])
    ensures FirstBadKinds(deps).Some? ==>
              exists i :: && 0 <= i < |deps| && !ValidKinds(deps[i]) && FirstBadKinds(deps) == Some(InvalidKinds(deps[i].pkg))
                          && forall j | 0 <= j < i :: ValidKinds(deps[j])
  {
    hide ValidKinds;
    if deps != [] && ValidKinds(deps[0]) {
      var rest := deps[1..];
      BadKindsIff(rest);
      assert forall i | 0 < i < |deps| :: deps[i] == rest[i - 1];
      if FirstBadKinds(rest).Some? {
        var i :| && 0 <= i < |rest| && !ValidKinds(rest[i]) && FirstBadKinds(rest) == Some(InvalidKinds(rest[i].pkg))
                 && forall j | 0 <= j < i :: ValidKinds(rest[j]);
        assert !ValidKinds(deps[i + 1]);
      }
    } else if deps != [] {
      assert !ValidKinds(deps[0]);
    }
  }

  /** A package is sound exactly if it and its node are there, its version reads if it is external, and all kinds are valid. */
  lemma SoundIff(m: Metadata, key: Id)
    ensures Fault(m, key).None? <==>
            && key in m.packages && key in m.nodes
            && (key !in m.members && m.packages[key].rustVersion.Some? ==>
                  ParseVersion(m.packages[key].rustVersion.value).Some?)
            && forall i | 0 <= i < |m.nodes[key]| :: ValidKinds(m.nodes[key][i])
  {
    hide ParseVersion, ValidKinds, FirstBadKinds;
    if key in m.nodes {
      BadKindsIff(m.nodes[key]);
    }
  }

  /** The version that a package requires, as a version; members and packages without one require nothing. */
  ghost function Required(m: Metadata, key: Id): Option<Version> {
    if key in m.members || key !in m.packages then None
    else match m.packages[key].rustVersion
         case None => None
         case Some(value) => ParseVersion(value)
  }

  /** A package offends exactly if what it requires is neither the floor nor below it. */
  lemma OffendsIff(m: Metadata, limit: Version, key: Id)
    ensures Offends(m, limit, key) <==>
            var required := Required(m, key);
            required.Some? && required.value != limit && !Exceeds(limit, required.value)
  {
    if Required(m, key).Some? {
      ExceedsIsTotal(Required(m, key).value, limit);
    }
    hide ParseVersion, Exceeds;
  }

  // ---- The queue -----------------------------------------------------------------------------------

  datatype Entry = Entry(key: Id, path: seq<Id>)

  type Found = map<Id, seq<Id>>   // each visited package with the path it was visited by

  /** The child is visited or queued by a path of at most `n` packages. */
  ghost predicate Covered(child: Id, n: nat, pending: seq<Entry>, found: Found) {
    || (child in found && |found[child]| <= n)
    || exists i :: 0 <= i < |pending| && pending[i].key == child && |pending[i].path| <= n
  }

  ghost predicate QueueSorted(pending: seq<Entry>) {
    forall i, j | 0 <= i <= j < |pending| :: |pending[i].path| <= |pending[j].path| <= |pending[0].path| + 1
  }

  ghost predicate QueuedPaths(m: Metadata, root: Id, pending: seq<Entry>) {
    forall i | 0 <= i < |pending| :: PathTo(m, root, pending[i].path, pending[i].key)
  }

  ghost predicate FoundShortest(m: Metadata, root: Id, found: Found) {
    forall key | key in found :: Shortest(m, root, found[key], key) && Fault(m, key).None?
  }

  /** Nothing visited is longer than anything queued. */
  ghost predicate FoundBefore(pending: seq<Entry>, found: Found) {
    forall key, i | key in found && 0 <= i < |pending| :: |found[key]| <= |pending[i].path|
  }

  ghost predicate EdgesCovered(m: Metadata, pending: seq<Entry>, found: Found) {
    forall key, child | key in found && Edge(m, key, child) :: Covered(child, |found[key]| + 1, pending, found)
  }

  ghost predicate Inv(m: Metadata, root: Id, pending: seq<Entry>, found: Found) {
    && QueueSorted(pending) && QueuedPaths(m, root, pending)
    && FoundShortest(m, root, found) && FoundBefore(pending, found)
    && EdgesCovered(m, pending, found) && Covered(root, 1, pending, found)
  }

  /** Every path ends at a visited package, or is at least as long as the queue's front. */
  lemma {:induction false} Frontier(m: Metadata, root: Id, pending: seq<Entry>, found: Found, path: seq<Id>, key: Id)
    requires Inv(m, root, pending, found) && PathTo(m, root, path, key)
    ensures (key in found && |found[key]| <= |path|) || (pending != [] && |pending[0].path| <= |path|)
    decreases |path|
  {
    hide FoundShortest, QueuedPaths, FoundBefore, Edge;
    if |path| == 1 {
      assert Covered(key, 1, pending, found);
    } else {
      var front := path[..|path| - 1];
      var key' := front[|front| - 1];
      assert PathTo(m, root, front, key');
      Frontier(m, root, pending, found, front, key');
      assert Edge(m, path[|path| - 2], path[|path| - 1]);
      if key' in found {
        assert Covered(key, |found[key']| + 1, pending, found);
      }
    }
  }

  /** An unvisited package at the front of the queue is there by a shortest path. */
  lemma FrontIsShortest(m: Metadata, root: Id, pending: seq<Entry>, found: Found)
    requires Inv(m, root, pending, found) && pending != [] && pending[0].key !in found
    ensures Shortest(m, root, pending[0].path, pending[0].key)
  {
    hide QueueSorted, FoundShortest, FoundBefore, EdgesCovered, Covered, PathTo;
    var front := pending[0];
    forall other | PathTo(m, root, other, front.key)
      ensures |front.path| <= |other|
    {
      Frontier(m, root, pending, found, other, front.key);
    }
  }

  /** Once the queue is empty exactly the reachable packages are visited. */
  lemma AllFound(m: Metadata, root: Id, found: Found, key: Id)
    requires Inv(m, root, [], found)
    ensures Reachable(m, root, key) <==> key in found
  {
    hide PathTo, Covered, EdgesCovered, QueueSorted, QueuedPaths, FoundBefore;
    if Reachable(m, root, key) {
      var path :| PathTo(m, root, path, key);
      Frontier(m, root, [], found, path, key);
    }
  }

  // ---- One turn of the loop ----------------------------------------------------------------------------

  lemma CoveredAfterPop(child: Id, n: nat, pending: seq<Entry>, found: Found, more: seq<Entry>, found': Found)
    requires pending != [] && FoundBefore(pending, found) && Covered(child, n, pending, found)
    requires forall key | key in found :: key in found' && found'[key] == found[key]
    requires pending[0].key in found' && |found'[pending[0].key]| <= |pending[0].path|
    ensures Covered(child, n, pending[1..] + more, found')
  {
    if !(child in found && |found[child]| <= n) {
      var i :| 0 <= i < |pending| && pending[i].key == child && |pending[i].path| <= n;
      if i > 0 {
        assert (pending[1..] + more)[i - 1] == pending[i];
      }
    }
  }

  /** A package already visited is skipped. */
  lemma SkipKeepsInv(m: Metadata, root: Id, pending: seq<Entry>, found: Found)
    requires Inv(m, root, pending, found) && pending != [] && pending[0].key in found
    ensures Inv(m, root, pending[1..], found)
  {
    hide Edge, PathTo, Covered, Fault, Shortest;
    assert pending[1..] + [] == pending[1..];
    CoveredAfterPop(root, 1, pending, found, [], found);
    forall key, child | key in found && Edge(m, key, child)
      ensures Covered(child, |found[key]| + 1, pending[1..], found)
    {
      CoveredAfterPop(child, |found[key]| + 1, pending, found, [], found);
    }
  }

  /** What a visit queues, in the order of the dependencies. */
  function Children(deps: seq<Dependency>, path: seq<Id>): seq<Entry> {
    if deps == [] then []
    else
      var front := Children(deps[..|deps| - 1], path);
      var d := deps[|deps| - 1];
      if Followed(d) then front + [Entry(d.pkg, path + [d.pkg])] else front
  }

  lemma {:induction false} ChildrenAre(deps: seq<Dependency>, path: seq<Id>, i: nat)
    requires i < |Children(deps, path)|
    ensures var e := Children(deps, path)[i]; LeadsTo(deps, e.key) && e.path == path + [e.key]
  {
    hide Followed;
    var front := deps[..|deps| - 1];
    var before := Children(front, path);
    if i < |before| {
      ChildrenAre(front, path, i);
      var e := before[i];
      var j :| 0 <= j < |front| && front[j].pkg == e.key && Followed(front[j]);
      assert deps[j].pkg == e.key;
    } else {
      assert Children(deps, path)[i] == Entry(deps[|deps| - 1].pkg, path + [deps[|deps| - 1].pkg]);
    }
  }

  /** Dependencies are queued in their order, each by itself. */
  lemma {:induction false} ChildrenInOrder(a: seq<Dependency>, b: seq<Dependency>, d: Dependency, path: seq<Id>)
    ensures Children(a + b, path) == Children(a, path) + Children(b, path)
    ensures Children([d], path) == if Followed(d) then [Entry(d.pkg, path + [d.pkg])] else []
    decreases |b|
  {
    hide Followed;
    assert [d][..0] == [];
    if b == [] {
      assert a + b == a;
    } else {
      var front := b[..|b| - 1];
      ChildrenInOrder(a, front, d, path);
      assert (a + b)[..|a + b| - 1] == a + front;
    }
  }

  lemma {:induction false} ChildIsQueued(deps: seq<Dependency>, path: seq<Id>, child: Id)
    requires LeadsTo(deps, child)
    ensures Entry(child, path + [child]) in Children(deps, path)
  {
    hide Followed;
    var i :| 0 <= i < |deps| && deps[i].pkg == child && Followed(deps[i]);
    var front := deps[..|deps| - 1];
    if i < |front| {
      assert front[i].pkg == child;
      ChildIsQueued(front, path, child);
    }
  }

  lemma ExtendPath(m: Metadata, root: Id, path: seq<Id>, key: Id, child: Id)
    requires PathTo(m, root, path, key) && Edge(m, key, child)
    ensures PathTo(m, root, path + [child], child)
  {
  }

  lemma VisitKeepsQueue(m: Metadata, root: Id, pending: seq<Entry>, found: Found)
    requires Inv(m, root, pending, found) && pending != [] && pending[0].key in m.nodes
    ensures var pending' := pending[1..] + Children(m.nodes[pending[0].key], pending[0].path);
            && QueueSorted(pending') && QueuedPaths(m, root, pending')
            && forall i | 0 <= i < |pending'| :: |pending'[i].path| >= |pending[0].path|
  {
    hide PathTo, FoundShortest, FoundBefore, EdgesCovered, Covered, Children, LeadsTo;
    var e := pending[0];
    var children := Children(m.nodes[e.key], e.path);
    assert PathTo(m, root, e.path, e.key);
    forall i | 0 <= i < |children|
      ensures |children[i].path| == |e.path| + 1 && PathTo(m, root, children[i].path, children[i].key)
    {
      ChildrenAre(m.nodes[e.key], e.path, i);
      ExtendPath(m, root, e.path, e.key, children[i].key);
    }
  }

  lemma VisitCoversEdges(m: Metadata, root: Id, pending: seq<Entry>, found: Found)
    requires Inv(m, root, pending, found) && pending != [] && pending[0].key !in found && pending[0].key in m.nodes
    ensures var e := pending[0];
            var found' := found[e.key := e.path];
            var pending' := pending[1..] + Children(m.nodes[e.key], e.path);
            EdgesCovered(m, pending', found') && Covered(root, 1, pending', found')
  {
    hide PathTo, FoundShortest, Children, LeadsTo, QueueSorted, QueuedPaths, FoundBefore, Covered;
    var e := pending[0];
    var children := Children(m.nodes[e.key], e.path);
    var found' := found[e.key := e.path];
    CoveredAfterPop(root, 1, pending, found, children, found');
    forall key, child | key in found' && Edge(m, key, child)
      ensures Covered(child, |found'[key]| + 1, pending[1..] + children, found')
    {
      if key == e.key {
        ChildIsQueued(m.nodes[e.key], e.path, child);
        CoveredByQueue(child, e.path, pending[1..], children, found');
      } else {
        CoveredAfterPop(child, |found[key]| + 1, pending, found, children, found');
      }
    }
  }

  lemma CoveredByQueue(child: Id, path: seq<Id>, pending: seq<Entry>, more: seq<Entry>, found: Found)
    requires Entry(child, path + [child]) in more
    ensures Covered(child, |path| + 1, pending + more, found)
  {
    var i :| 0 <= i < |more| && more[i] == Entry(child, path + [child]);
    assert (pending + more)[|pending| + i] == more[i];
  }

  lemma VisitKeepsFound(m: Metadata, root: Id, pending: seq<Entry>, found: Found, pending': seq<Entry>)
    requires FoundShortest(m, root, found) && FoundBefore(pending, found) && pending != []
    requires Shortest(m, root, pending[0].path, pending[0].key) && Fault(m, pending[0].key).None?
    requires forall i | 0 <= i < |pending'| :: |pending'[i].path| >= |pending[0].path|
    ensures FoundShortest(m, root, found[pending[0].key := pending[0].path])
    ensures FoundBefore(pending', found[pending[0].key := pending[0].path])
  {
    hide Shortest, Fault;
    assert forall key | key in found :: |found[key]| <= |pending[0].path|;
  }

  /** A sound package met for the first time is visited by a shortest path. */
  lemma VisitKeepsInv(m: Metadata, root: Id, pending: seq<Entry>, found: Found)
    requires Inv(m, root, pending, found) && pending != []
    requires pending[0].key !in found && Fault(m, pending[0].key).None?
    ensures pending[0].key in m.nodes
    ensures Inv(m, root, pending[1..] + Children(m.nodes[pending[0].key], pending[0].path),
                found[pending[0].key := pending[0].path])
  {
    VisitCoversEdges(m, root, pending, found);
    VisitKeepsQueue(m, root, pending, found);
    FrontIsShortest(m, root, pending, found);
    hide PathTo, Children, EdgesCovered, Covered, QueuedPaths, QueueSorted, Shortest, FirstBadKinds, FoundShortest, FoundBefore;
    VisitKeepsFound(m, root, pending, found, pending[1..] + Children(m.nodes[pending[0].key], pending[0].path));
  }

  // ---- What is reported -------------------------------------------------------------------------------------

  datatype Walked = Walked(findings: seq<Finding>, external: set<Id>)

  ghost predicate Reports(m: Metadata, limit: Version, visited: set<Id>, w: Walked) {
    && w.external == visited - m.members
    && (forall i, j | 0 <= i < j < |w.findings| :: w.findings[i].key != w.findings[j].key)
    && (forall i | 0 <= i < |w.findings| :: w.findings[i].key in visited && Offends(m, limit, w.findings[i].key))
    && (forall key | key in visited && Offends(m, limit, key) :: Reported(w.findings, key))
  }

  ghost predicate Reported(findings: seq<Finding>, key: Id) {
    exists i :: 0 <= i < |findings| && findings[i].key == key
  }

  ghost predicate ShortestPaths(m: Metadata, root: Id, findings: seq<Finding>) {
    forall i | 0 <= i < |findings| :: Shortest(m, root, findings[i].path, findings[i].key)
  }

  /** One root's report: each reachable offender once, by a shortest path, and all reachable externals. */
  ghost predicate Exact(m: Metadata, limit: Version, root: Id, w: Walked) {
    && ShortestPaths(m, root, w.findings)
    && (forall i, j | 0 <= i < j < |w.findings| :: w.findings[i].key != w.findings[j].key)
    && (forall key :: Reported(w.findings, key) <==> Reachable(m, root, key) && Offends(m, limit, key))
    && (forall key :: key in w.external <==> Reachable(m, root, key) && key !in m.members)
  }

  ghost predicate AllSound(m: Metadata, root: Id) {
    forall key | Reachable(m, root, key) :: Fault(m, key).None?
  }

  lemma ReportsVisit(
    m: Metadata, limit: Version, root: Id, visited: set<Id>, w: Walked, key: Id, path: seq<Id>, w': Walked)
    requires Reports(m, limit, visited, w) && key !in visited
    requires ShortestPaths(m, root, w.findings) && Shortest(m, root, path, key)
    requires w'.external == if key in m.members then w.external else w.external + {key}
    requires w'.findings == if Offends(m, limit, key) then w.findings + [Finding(key, path)] else w.findings
    ensures Reports(m, limit, visited + {key}, w') && ShortestPaths(m, root, w'.findings)
  {
    hide Offends, Shortest;
    forall k | k in visited + {key} && Offends(m, limit, k)
      ensures Reported(w'.findings, k)
    {
      if k == key {
        assert w'.findings[|w.findings|].key == key;
      } else {
        assert Reported(w.findings, k);
        var i :| 0 <= i < |w.findings| && w.findings[i].key == k;
        assert w'.findings[i].key == k;
      }
    }
  }

  lemma WalkEnds(m: Metadata, limit: Version, root: Id, found: Found, w: Walked)
    requires Inv(m, root, [], found) && Reports(m, limit, found.Keys, w) && ShortestPaths(m, root, w.findings)
    ensures AllSound(m, root) && Exact(m, limit, root, w)
  {
    forall key
      ensures Reachable(m, root, key) <==> key in found
    {
      AllFound(m, root, found, key);
    }
    hide Reachable, Offends, Fault, Shortest;
  }

  // ---- The check as it is coded -------------------------------------------------------------------------------

  /** The dependencies to follow, or the first whose kinds are invalid. */
  method FollowDependencies(deps: seq<Dependency>, path: seq<Id>) returns (r: Result<seq<Entry>, Error>)
    ensures r.Ok? <==> FirstBadKinds(deps).None?
    ensures r.Ok? ==> r.value == Children(deps, path)
    ensures r.Err? ==> FirstBadKinds(deps) == Some(r.error)
  {
    var queued := [];
    for i := 0 to |deps|
      invariant queued == Children(deps[..i], path)
      invariant FirstBadKinds(deps) == FirstBadKinds(deps[i..])
    {
      assert deps[i..][1..] == deps[i + 1..];
      assert deps[..i + 1][..i] == deps[..i];
      var d := deps[i];
      if !ValidKinds(d) {
        return Err(InvalidKinds(d.pkg));
      }
      if Followed(d) {
        queued := queued + [Entry(d.pkg, path + [d.pkg])];
      }
    }
    assert deps[..|deps|] == deps;
    r := Ok(queued);
  }

  /** One package's visit: its fault, or its finding and whether it is external. */
  method Inspect(m: Metadata, limit: Version, key: Id, path: seq<Id>, w: Walked) returns (r: Result<Walked, Error>)
    ensures r.Err? ==> Fault(m, key) == Some(r.error)
    ensures r.Ok? ==> key in m.packages && Fault(m, key) == if key in m.nodes then FirstBadKinds(m.nodes[key]) else Some(InvalidMetadata)
    ensures r.Ok? ==> r.value.external == if key in m.members then w.external else w.external + {key}
    ensures r.Ok? ==> r.value.findings == if Offends(m, limit, key) then w.findings + [Finding(key, path)] else w.findings
  {
    hide ParseVersion, FirstBadKinds, Exceeds;
    if key !in m.packages {
      return Err(InvalidMetadata);
    }
    var required := m.packages[key].rustVersion;
    var w' := w;
    if key !in m.members {
      w' := w'.(external := w'.external + {key});
      if required.Some? {
        var parsed := ParseVersion(required.value);
        if parsed.None? {
          return Err(InvalidVersion(required.value));
        }
        if Exceeds(parsed.value, limit) {
          w' := w'.(findings := w'.findings + [Finding(key, path)]);
        }
      }
    }
    r := Ok(w');
  }

  lemma FaultIsReachable(m: Metadata, root: Id, pending: seq<Entry>, found: Found)
    requires Inv(m, root, pending, found) && pending != [] && Fault(m, pending[0].key).Some?
    ensures Reachable(m, root, pending[0].key) && !AllSound(m, root)
  {
    assert PathTo(m, root, pending[0].path, pending[0].key);
  }

  lemma StartInv(m: Metadata, root: Id)
    ensures Inv(m, root, [Entry(root, [root])], map[])
  {
    var pending := [Entry(root, [root])];
    assert pending[0].key == root;
  }

  ghost predicate FaultIs(m: Metadata, root: Id, error: Error) {
    exists key :: Reachable(m, root, key) && Fault(m, key) == Some(error)
  }

  /** The walk from one root: it succeeds exactly when everything reachable is sound, and then its report is exact. */
  method Walk(m: Metadata, limit: Version, root: Id) returns (r: Result<Walked, Error>)
    ensures r.Ok? <==> AllSound(m, root)
    ensures r.Ok? ==> Exact(m, limit, root, r.value)
    ensures r.Err? ==> FaultIs(m, root, r.error)
  {
    hide Inv, Fault, Offends, Reports, Children, FirstBadKinds, AllSound, Exact, Reachable, Shortest, ShortestPaths;
    var pending := [Entry(root, [root])];
    var seen := {};
    var w := Walked([], {});
    ghost var found: Found := map[];
    StartInv(m, root);
    NothingReported(m, limit, root);
    while pending != []
      invariant Inv(m, root, pending, found) && seen == found.Keys && seen <= m.nodes.Keys
      invariant Reports(m, limit, seen, w) && ShortestPaths(m, root, w.findings)
      decreases |m.nodes.Keys - seen|, |pending|
    {
      var e := pending[0];
      if e.key in seen {
        SkipKeepsInv(m, root, pending, found);
        pending := pending[1..];
      } else {
        var inspected := Inspect(m, limit, e.key, e.path, w);
        if inspected.Err? {
          FaultIsReachable(m, root, pending, found);
          return Err(inspected.error);
        }
        if e.key !in m.nodes {
          FaultIsReachable(m, root, pending, found);
          return Err(InvalidMetadata);
        }
        var followed := FollowDependencies(m.nodes[e.key], e.path);
        if followed.Err? {
          FaultIsReachable(m, root, pending, found);
          return Err(followed.error);
        }
        FrontIsShortest(m, root, pending, found);
        VisitKeepsInv(m, root, pending, found);
        ReportsVisit(m, limit, root, seen, w, e.key, e.path, inspected.value);
        SmallerRest(m.nodes.Keys, seen, e.key);
        found := found[e.key := e.path];
        seen := seen + {e.key};
        w := inspected.value;
        pending := pending[1..] + followed.value;
      }
    }
    WalkEnds(m, limit, root, found, w);
    r := Ok(w);
  }

  lemma NothingReported(m: Metadata, limit: Version, root: Id)
    ensures Reports(m, limit, {}, Walked([], {})) && ShortestPaths(m, root, [])
  {
  }

  lemma SmallerRest(all: set<Id>, seen: set<Id>, key: Id)
    requires key in all && key !in seen
    ensures |all - (seen + {key})| < |all - seen|
  {
    assert all - (seen + {key}) == (all - seen) - {key};
  }

  // ---- The two roots ----------------------------------------------------------------------------------------------

  ghost predicate MembersKnown(m: Metadata) {
    forall key | key in m.members :: key in m.packages
  }

  /** `root` is the one workspace member of that name. */
  ghost predicate OnlyMember(m: Metadata, name: string, root: Id)
    requires MembersKnown(m)
  {
    && root in m.members && m.packages[root].name == name
    && forall key | key in m.members && m.packages[key].name == name :: key == root
  }

  /** The workspace member of a name, in whatever order the members come. */
  method FindRoot(m: Metadata, name: string) returns (r: Result<Id, Error>)
    ensures r == Err(InvalidMetadata) <==> !MembersKnown(m)
    ensures MembersKnown(m) ==> match r
                                case Ok(root) => OnlyMember(m, name, root)
                                case Err(error) => error == NotOneMember(name) && forall root :: !OnlyMember(m, name, root)
  {
    var rest := m.members;
    var matches: seq<Id> := [];
    while rest != {}
      invariant rest <= m.members
      invariant forall key | key in m.members - rest :: key in m.packages
      invariant forall key | key in m.members - rest :: key in matches <==> m.packages[key].name == name
      invariant forall i | 0 <= i < |matches| :: matches[i] in m.members - rest
      invariant forall i, j | 0 <= i < j < |matches| :: matches[i] != matches[j]
    {
      var key :| key in rest;
      if key !in m.packages {
        return Err(InvalidMetadata);
      }
      rest := rest - {key};
      if m.packages[key].name == name {
        matches := matches + [key];
      }
    }
    assert forall i | 0 <= i < |matches| :: matches[i] in matches;
    if |matches| != 1 {
      assert |matches| > 1 ==> matches[0] != matches[1] && matches[1] in m.members;
      assert forall root | root in m.members && m.packages[root].name == name :: root in matches;
      return Err(NotOneMember(name));
    }
    r := Ok(matches[0]);
  }

  /** The graph can be judged: the floor reads, both roots are there once, and all they reach is sound. */
  ghost predicate Judgeable(m: Metadata, floor: string, chan: Id, desktop: Id) {
    && ParseVersion(floor).Some?
    && MembersKnown(m) && OnlyMember(m, "chan", chan) && OnlyMember(m, "chan-desktop", desktop)
    && AllSound(m, chan) && AllSound(m, desktop)
  }

  /** What is wrong with a graph that cannot be judged. */
  ghost predicate Explains(m: Metadata, floor: string, error: Error) {
    || (ParseVersion(floor).None? && error == InvalidVersion(floor))
    || (!MembersKnown(m) && error == InvalidMetadata)
    || (MembersKnown(m) && exists i :: 0 <= i < 2 && error == NotOneMember(ROOT_NAMES[i]) &&
                                       forall root :: !OnlyMember(m, ROOT_NAMES[i], root))
    || (MembersKnown(m) && exists i, root :: 0 <= i < 2 && OnlyMember(m, ROOT_NAMES[i], root) && FaultIs(m, root, error))
  }

  ghost predicate FromEither(m: Metadata, chan: Id, desktop: Id, key: Id) {
    Reachable(m, chan, key) || Reachable(m, desktop, key)
  }

  /** The whole verdict for the roots: their reports one after the other, and the externals counted once. */
  ghost predicate Verdict(m: Metadata, limit: Version, chan: Id, desktop: Id, findings: seq<Finding>, count: nat) {
    exists first: Walked, second: Walked ::
      && Exact(m, limit, chan, first) && Exact(m, limit, desktop, second)
      && findings == first.findings + second.findings && count == |first.external + second.external|
  }

  /** The check succeeds exactly on a judgeable graph, with both roots' exact reports. */
  method CheckMetadata(m: Metadata, floor: string) returns (r: Result<(seq<Finding>, nat), Error>)
    ensures r.Ok? <==> exists chan, desktop :: Judgeable(m, floor, chan, desktop)
    ensures r.Ok? ==> exists chan, desktop ::
                        Judgeable(m, floor, chan, desktop) &&
                        Verdict(m, ParseVersion(floor).value, chan, desktop, r.value.0, r.value.1)
    ensures r.Err? ==> Explains(m, floor, r.error)
  {
    hide ParseVersion, AllSound, Exact, FaultIs;
    var limit := ParseVersion(floor);
    if limit.None? {
      return Err(InvalidVersion(floor));
    }
    var chan := FindRoot(m, ROOT_NAMES[0]);
    if chan.Err? {
      return Err(chan.error);
    }
    var desktop := FindRoot(m, ROOT_NAMES[1]);
    if desktop.Err? {
      return Err(desktop.error);
    }
    var first := Walk(m, limit.value, chan.value);
    if first.Err? {
      return Err(first.error);
    }
    var second := Walk(m, limit.value, desktop.value);
    if second.Err? {
      return Err(second.error);
    }
    assert Judgeable(m, floor, chan.value, desktop.value);
    r := Ok((first.value.findings + second.value.findings, |first.value.external + second.value.external|));
    assert Verdict(m, limit.value, chan.value, desktop.value, r.value.0, r.value.1);
  }

  /** A root's report is empty exactly when it reaches no offender. */
  lemma NothingFoundIff(m: Metadata, limit: Version, root: Id, w: Walked)
    requires Exact(m, limit, root, w)
    ensures w.findings == [] <==> forall key | Reachable(m, root, key) :: !Offends(m, limit, key)
  {
    hide Reachable, Offends, ShortestPaths;
    if w.findings != [] {
      assert Reported(w.findings, w.findings[0].key);
    } else {
      forall key | Reachable(m, root, key)
        ensures !Offends(m, limit, key)
      {
        assert !Reported(w.findings, key);
      }
    }
  }

  /** The check passes exactly when nothing external that either root reaches needs more than the floor. */
  lemma PassesIff(m: Metadata, limit: Version, chan: Id, desktop: Id, findings: seq<Finding>, count: nat)
    requires Verdict(m, limit, chan, desktop, findings, count)
    ensures findings == [] <==> forall key | FromEither(m, chan, desktop, key) :: !Offends(m, limit, key)
  {
    hide Reachable, Offends, Exact;
    var first: Walked, second: Walked :|
      && Exact(m, limit, chan, first) && Exact(m, limit, desktop, second)
      && findings == first.findings + second.findings && count == |first.external + second.external|;
    NothingFoundIff(m, limit, chan, first);
    NothingFoundIff(m, limit, desktop, second);
    assert forall key :: FromEither(m, chan, desktop, key) <==> Reachable(m, chan, key) || Reachable(m, desktop, key);
  }

  /** A graph in which everything external requires at most the floor has no findings. */
  lemma AtMostTheFloorPasses(m: Metadata, limit: Version, chan: Id, desktop: Id, findings: seq<Finding>, count: nat)
    requires Verdict(m, limit, chan, desktop, findings, count)
    requires forall key | FromEither(m, chan, desktop, key) && Required(m, key).Some? ::
               Required(m, key).value == limit || Exceeds(limit, Required(m, key).value)
    ensures findings == []
  {
    hide FromEither, Offends, Required, Exceeds;
    PassesIff(m, limit, chan, desktop, findings, count);
    forall key | FromEither(m, chan, desktop, key)
      ensures !Offends(m, limit, key)
    {
      OffendsIff(m, limit, key);
    }
  }

  /** The count is the number of distinct external packages that the two roots reach. */
  lemma CountsDistinctExternals(
    m: Metadata, limit: Version, chan: Id, desktop: Id, findings: seq<Finding>, count: nat, externals: set<Id>)
    requires Verdict(m, limit, chan, desktop, findings, count)
    requires forall key :: key in externals <==> FromEither(m, chan, desktop, key) && key !in m.members
    ensures count == |externals|
  {
    hide Reachable, Offends, ShortestPaths, Reported;
    var first: Walked, second: Walked :|
      && Exact(m, limit, chan, first) && Exact(m, limit, desktop, second)
      && findings == first.findings + second.findings && count == |first.external + second.external|;
    assert first.external + second.external == externals;
  }

  /** An offender that both roots reach is reported for both, each time by a shortest path of its own. */
  lemma SharedOffenderTwice(m: Metadata, limit: Version, chan: Id, desktop: Id, findings: seq<Finding>, count: nat, key: Id)
    requires Verdict(m, limit, chan, desktop, findings, count) && Offends(m, limit, key)
    requires Reachable(m, chan, key) && Reachable(m, desktop, key)
    ensures exists i, j :: 0 <= i < j < |findings| && findings[i].key == key == findings[j].key &&
                           Shortest(m, chan, findings[i].path, key) && Shortest(m, desktop, findings[j].path, key)
  {
    hide Reachable, Offends, Shortest;
    var first: Walked, second: Walked :|
      && Exact(m, limit, chan, first) && Exact(m, limit, desktop, second)
      && findings == first.findings + second.findings && count == |first.external + second.external|;
    assert Reported(first.findings, key) && Reported(second.findings, key);
    var i :| 0 <= i < |first.findings| && first.findings[i].key == key;
    var j :| 0 <= j < |second.findings| && second.findings[j].key == key;
    assert findings[i].key == key && findings[|first.findings| + j].key == key;
    assert Shortest(m, desktop, second.findings[j].path, key);
  }
}
