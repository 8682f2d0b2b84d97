/** The published lockfile: buildShrinkwrap of scripts/generate-npm-shrinkwrap.ts, over NpmPaths. */
module Shrinkwrap {
  /*
   * The part of bun.lock the package needs, published so that Node finds in it what it would find in the whole
   * lock. The registry and semver are parameters.
   */

  import opened Forms
  import opened NpmPaths
  import opened Text

  const REGISTRY := "https://registry.npmjs.org"

  datatype Locked = Locked(name: string, version: string, integrity: string)

  datatype Kind = Dependency | Optional | Peer | OptionalPeer

  datatype Edge = Edge(name: string, range: string, kind: Kind)

  type DepMap = seq<(string, string)>

  datatype Manifest = Manifest(
    integrity: Option<string>, dependencies: DepMap, optionalDependencies: DepMap, peerDependencies: DepMap,
    optionalPeers: set<string>, hasInstallScript: bool)

  datatype World = World(
    locked: map<string, Locked>, fetch: (string, string) -> Manifest, satisfies: (Locked, string) -> bool,
    dependencies: DepMap, optionalDependencies: DepMap)

  // ---- Edges

  ghost predicate Lists(deps: DepMap, name: string, range: string) { (name, range) in deps }

  ghost predicate Names(deps: DepMap, name: string) { exists i :: 0 <= i < |deps| && deps[i].0 == name }

  /** What npm takes a manifest to ask for. */
  ghost predicate Declares(m: Manifest, e: Edge) {
    match e.kind
    case Dependency => Lists(m.dependencies, e.name, e.range) && !Names(m.optionalDependencies, e.name)
    case Optional => Lists(m.optionalDependencies, e.name, e.range)
    case Peer => Lists(m.peerDependencies, e.name, e.range) && e.name !in m.optionalPeers
    case OptionalPeer => Lists(m.peerDependencies, e.name, e.range) && e.name in m.optionalPeers
  }

  /** Every JavaScript object has these names, so `name in optional` holds for them whatever the map lists. */
  predicate Inherited(name: string) {
    name in {"constructor", "hasOwnProperty", "isPrototypeOf", "propertyIsEnumerable", "toLocaleString", "toString",
             "valueOf", "__proto__", "__defineGetter__", "__defineSetter__", "__lookupGetter__", "__lookupSetter__"}
  }

  /** A regular edge that edgesOf takes for an optional one. */
  ghost predicate Overlooked(e: Edge) { e.kind.Dependency? && Inherited(e.name) }

  method NamesOf(deps: DepMap) returns (names: set<string>)
    ensures forall name :: name in names <==> Names(deps, name)
  {
    names := {};
    for i := 0 to |deps|
      invariant forall name :: name in names <==> exists j :: 0 <= j < i && deps[j].0 == name
    {
      names := names + {deps[i].0};
    }
  }

  /** The edges of one dependency map: `kindOf` says which, None for a dropped one. */
  method Push(edges: seq<Edge>, deps: DepMap, kindOf: string -> Option<Kind>) returns (more: seq<Edge>)
    ensures forall e :: e in more <==> e in edges || (Lists(deps, e.name, e.range) && kindOf(e.name) == Some(e.kind))
  {
    more := edges;
    for i := 0 to |deps|
      invariant forall e :: e in more <==>
                e in edges || (Lists(deps[..i], e.name, e.range) && kindOf(e.name) == Some(e.kind))
    {
      assert deps[..i + 1] == deps[..i] + [deps[i]];
      var kind := kindOf(deps[i].0);
      if kind.Some? { more := more + [Edge(deps[i].0, deps[i].1, kind.value)]; }
    }
    assert deps[..|deps|] == deps;
  }

  /** edgesOf */
  method EdgesOf(m: Manifest) returns (edges: seq<Edge>)
    ensures forall e :: e in edges <==> Declares(m, e) && !Overlooked(e)
  {
    var optional := NamesOf(m.optionalDependencies);
    var optionalPeers := m.optionalPeers;
    edges := Push([], m.dependencies, name => if name in optional || Inherited(name) then None else Some(Dependency));
    edges := Push(edges, m.optionalDependencies, name => Some(Optional));
    edges := Push(edges, m.peerDependencies, name => Some(if name in optionalPeers then OptionalPeer else Peer));
  }

  function Root(w: World): Manifest { Manifest(None, w.dependencies, w.optionalDependencies, [], {}, false) }

  function ManifestAt(w: World, key: string): Manifest
    requires key in w.locked
  {
    w.fetch(w.locked[key].name, w.locked[key].version)
  }

  /** The package at `key` asks for `e`; the root has the key "". */
  ghost predicate Asks(w: World, key: string, e: Edge) {
    if key == "" then Declares(Root(w), e)
    else key in w.locked && w.locked[key].version != "" && Declares(ManifestAt(w, key), e)
  }

  /** The generator sees that it does. */
  ghost predicate HasEdge(w: World, key: string, e: Edge) { Asks(w, key, e) && !Overlooked(e) }

  method EdgesFrom(w: World, key: string) returns (edges: seq<Edge>)
    requires key == "" || key in w.locked
    ensures forall e :: e in edges <==> HasEdge(w, key, e)
  {
    if key == "" {
      edges := EdgesOf(Root(w));
    } else if w.locked[key].version == "" {
      edges := [];
    } else {
      edges := EdgesOf(ManifestAt(w, key));
    }
  }

  // ---- What is reachable

  ghost predicate Leads(w: World, follow: set<Kind>, from: string, e: Edge, to: string) {
    HasEdge(w, from, e) && e.kind in follow && Resolved(w.locked.Keys, from, e.name) == Some(to)
  }

  ghost predicate Follows(w: World, follow: set<Kind>, from: string, to: string) {
    exists e :: Leads(w, follow, from, e, to)
  }

  ghost predicate Expanded(w: World, follow: set<Kind>, from: string, s: set<string>) {
    forall to :: Follows(w, follow, from, to) ==> to in s
  }

  ghost predicate Closed(w: World, follow: set<Kind>, s: set<string>) {
    forall from :: from == "" || from in s ==> Expanded(w, follow, from, s)
  }

  /** The least set of keys that holds every target of the root and of its own members. */
  ghost predicate IsLeast(w: World, follow: set<Kind>, s: set<string>) {
    && s <= w.locked.Keys && Closed(w, follow, s)
    && forall t :: Closed(w, follow, t) ==> s <= t
  }

  lemma {:induction false} FoundIsThere(tree: set<string>, segments: seq<string>, name: string, depth: nat)
    requires depth <= |segments| && Nearest(tree, segments, name, depth).Some?
    ensures Nearest(tree, segments, name, depth).value in tree
  {
    if Candidate(segments, name, depth) !in tree && depth > 0 { FoundIsThere(tree, segments, name, depth - 1); }
  }

  /** The body of `frontier.forEach`. */
  method Expand(w: World, follow: set<Kind>, from: string, seen: set<string>, next: seq<string>)
    returns (more: set<string>, queue: seq<string>)
    requires from == "" || from in w.locked
    ensures seen <= more && Expanded(w, follow, from, more)
    ensures forall k :: k in more ==> k in seen || (Follows(w, follow, from, k) && k in w.locked)
    ensures forall k :: k in queue <==> k in next || k in more - seen
    ensures |queue| >= |next| && (queue == next ==> more == seen)
  {
    var edges := EdgesFrom(w, from);
    more, queue := seen, next;
    for i := 0 to |edges|
      invariant seen <= more && |queue| >= |next| && (|queue| == |next| ==> queue == next && more == seen)
      invariant forall j, to :: 0 <= j < i && Leads(w, follow, from, edges[j], to) ==> to in more
      invariant forall k :: k in more ==> k in seen || (Follows(w, follow, from, k) && k in w.locked)
      invariant forall k :: k in queue <==> k in next || k in more - seen
    {
      var edge := edges[i];
      assert HasEdge(w, from, edge);
      var target: Option<string> := None;
      if edge.kind in follow { target := ResolveKey(w.locked.Keys, from, edge.name); }
      if target.Some? && target.value !in more {
        assert Leads(w, follow, from, edge, target.value);
        FoundIsThere(w.locked.Keys, SegmentsOf(from), edge.name, |SegmentsOf(from)|);
        more, queue := more + {target.value}, queue + [target.value];
      }
    }
    forall to | Follows(w, follow, from, to) ensures to in more {
      var e :| Leads(w, follow, from, e, to);
      assert e in edges;
    }
  }

  ghost predicate Pending(w: World, follow: set<Kind>, seen: set<string>, waiting: seq<string>, next: seq<string>) {
    && (forall k :: k in waiting ==> k == "" || k in seen) && (forall k :: k in next ==> k in seen)
    && forall from :: from == "" || from in seen ==> from in waiting || from in next || Expanded(w, follow, from, seen)
  }

  ghost predicate BelowClosed(w: World, follow: set<Kind>, seen: set<string>) {
    seen <= w.locked.Keys && forall t :: Closed(w, follow, t) ==> seen <= t
  }

  lemma {:induction false} StaysBelow(w: World, follow: set<Kind>, from: string, seen: set<string>, more: set<string>)
    requires BelowClosed(w, follow, seen) && (from == "" || from in seen)
    requires forall k :: k in more ==> k in seen || (Follows(w, follow, from, k) && k in w.locked)
    ensures BelowClosed(w, follow, more)
  {
    forall t | Closed(w, follow, t) ensures more <= t {
      assert Expanded(w, follow, from, t);
    }
  }

  lemma {:induction false} StaysPending(w: World, follow: set<Kind>, seen: set<string>, more: set<string>,
                                        waiting: seq<string>, next: seq<string>, queue: seq<string>)
    requires waiting != [] && Pending(w, follow, seen, waiting, next) && seen <= more
             && Expanded(w, follow, waiting[0], more)
    requires forall k :: k in queue <==> k in next || k in more - seen
    ensures Pending(w, follow, more, waiting[1..], queue)
  {
    forall from | from == "" || from in more
      ensures from in waiting[1..] || from in queue || Expanded(w, follow, from, more)
    {
      if from in waiting {
        assert waiting == [waiting[0]] + waiting[1..];
      } else if Expanded(w, follow, from, seen) {
        assert forall to :: Follows(w, follow, from, to) ==> to in seen;
      }
    }
    forall k | k in waiting[1..] ensures k == "" || k in more {
      assert k in waiting;
    }
  }

  /** reach: the breadth-first loop finds the least fixpoint. */
  method Reach(w: World, follow: set<Kind>) returns (seen: set<string>)
    ensures IsLeast(w, follow, seen)
  {
    seen := {};
    var frontier := [""];
    while frontier != []
      invariant Pending(w, follow, seen, frontier, []) && BelowClosed(w, follow, seen)
      decreases w.locked.Keys - seen, |frontier|
    {
      seen, frontier := ReachNext(w, follow, seen, frontier);
    }
  }

  /** One round: everything in the frontier is expanded, and what is new waits for the next round. */
  method ReachNext(w: World, follow: set<Kind>, before: set<string>, frontier: seq<string>)
    returns (seen: set<string>, next: seq<string>)
    requires Pending(w, follow, before, frontier, []) && BelowClosed(w, follow, before)
    ensures Pending(w, follow, seen, next, []) && BelowClosed(w, follow, seen)
    ensures before <= seen && (next == [] || before < seen)
  {
    seen, next := before, [];
    for i := 0 to |frontier|
      invariant Pending(w, follow, seen, frontier[i..], next) && BelowClosed(w, follow, seen)
      invariant before <= seen && (next == [] || before < seen)
    {
      ghost var waiting := frontier[i..];
      assert frontier[i] in waiting && waiting[0] == frontier[i] && waiting[1..] == frontier[i + 1..];
      var more, queue := Expand(w, follow, frontier[i], seen, next);
      StaysBelow(w, follow, frontier[i], seen, more);
      StaysPending(w, follow, seen, more, waiting, next, queue);
      assert queue != [] && next == [] ==> queue[0] in more - seen;
      seen, next := more, queue;
    }
  }

  // ---- The same by trails

  ghost predicate IsTrail(w: World, follow: set<Kind>, trail: seq<string>) {
    |trail| > 0 && trail[0] == "" && forall i :: 0 <= i < |trail| - 1 ==> Follows(w, follow, trail[i], trail[i + 1])
  }

  ghost predicate Reaches(w: World, follow: set<Kind>, key: string) {
    exists trail :: IsTrail(w, follow, trail) && |trail| > 1 && trail[|trail| - 1] == key
  }

  lemma {:induction false} TrailStaysInside(w: World, follow: set<Kind>, s: set<string>, trail: seq<string>)
    requires Closed(w, follow, s) && IsTrail(w, follow, trail) && |trail| > 1
    ensures trail[|trail| - 1] in s
    decreases |trail|
  {
    var n := |trail| - 2;
    assert Follows(w, follow, trail[n], trail[n + 1]);
    if n > 0 { TrailStaysInside(w, follow, s, trail[..n + 1]); }
    assert Expanded(w, follow, trail[n], s);
  }

  lemma {:induction false} TrailGrows(w: World, follow: set<Kind>, from: string, to: string)
    requires (from == "" || Reaches(w, follow, from)) && Follows(w, follow, from, to)
    ensures Reaches(w, follow, to)
  {
    if from == "" {
      assert IsTrail(w, follow, ["", to]);
    } else {
      var trail :| IsTrail(w, follow, trail) && |trail| > 1 && trail[|trail| - 1] == from;
      assert IsTrail(w, follow, trail + [to]);
    }
  }

  /** The least fixpoint is what a trail of followed edges leads to. */
  lemma {:induction false} LeastIsReached(w: World, follow: set<Kind>, s: set<string>, key: string)
    requires IsLeast(w, follow, s)
    ensures key in s <==> Reaches(w, follow, key)
  {
    if key in s {
      var reached := set k | k in s && Reaches(w, follow, k);
      forall from, to | (from == "" || from in reached) && Follows(w, follow, from, to) ensures to in reached {
        assert Expanded(w, follow, from, s);
        TrailGrows(w, follow, from, to);
      }
      assert forall from :: from == "" || from in reached ==> Expanded(w, follow, from, reached);
      assert s <= reached;
    } else if Reaches(w, follow, key) {
      var trail :| IsTrail(w, follow, trail) && |trail| > 1 && trail[|trail| - 1] == key;
      TrailStaysInside(w, follow, s, trail);
    }
  }

  const REQUIRED_KINDS: set<Kind> := {Dependency, Peer}
  const TREE_KINDS: set<Kind> := {Dependency, Peer, Optional}

  lemma {:induction false} FewerKindsReachLess(w: World, required: set<string>, tree: set<string>)
    requires IsLeast(w, REQUIRED_KINDS, required) && IsLeast(w, TREE_KINDS, tree)
    ensures required <= tree
  {
    forall from, to | (from == "" || from in tree) && Follows(w, REQUIRED_KINDS, from, to) ensures to in tree {
      var e :| Leads(w, REQUIRED_KINDS, from, e, to);
      assert Leads(w, TREE_KINDS, from, e, to);
      assert Expanded(w, TREE_KINDS, from, tree);
    }
    assert forall from :: from == "" || from in tree ==> Expanded(w, REQUIRED_KINDS, from, tree);
  }

  /** Node finds in the tree what it finds in the whole lock, for every edge that was followed. */
  lemma {:induction false} TreeFindsTheSame(w: World, tree: set<string>, from: string, e: Edge)
    requires IsLeast(w, TREE_KINDS, tree) && (from == "" || from in tree) && HasEdge(w, from, e)
             && e.kind != OptionalPeer
    ensures Resolved(tree, from, e.name) == Resolved(w.locked.Keys, from, e.name)
  {
    var found := Resolved(w.locked.Keys, from, e.name);
    if found.Some? {
      assert Leads(w, TREE_KINDS, from, e, found.value);
      assert Expanded(w, TREE_KINDS, from, tree);
    }
    SubtreeFindsTheSame(tree, w.locked.Keys, SegmentsOf(from), e.name, |SegmentsOf(from)|);
  }

  // ---- Trees of package names

  /** What the registry holds its manifests to: every dependency is a package name. */
  ghost predicate NamesPackages(w: World) { forall key, e :: HasEdge(w, key, e) ==> PackageName(e.name) }

  ghost predicate NamedKey(key: string) {
    var segments := SegmentsOf(key);
    segments != [] && PackageNames(segments) && key == Join(segments, '/') && !Dangling(key)
  }

  ghost predicate HasFolders(tree: set<string>, key: string) {
    var segments := SegmentsOf(key);
    forall d :: 0 < d < |segments| ==> Join(segments[..d], '/') in tree
  }

  lemma {:induction false} TargetIsNamed(segments: seq<string>, name: string, depth: nat)
    requires depth <= |segments| && PackageNames(segments) && PackageName(name)
    ensures NamedKey(Candidate(segments, name, depth))
            && SegmentsOf(Candidate(segments, name, depth)) == segments[..depth] + [name]
  {
    SegmentsOfJoin(segments[..depth] + [name]);
  }

  lemma {:induction false} TargetHasFolders(tree: set<string>, from: string, name: string, depth: nat)
    requires PackageName(name) && depth <= |SegmentsOf(from)|
    requires from == "" || (from in tree && NamedKey(from) && HasFolders(tree, from))
    ensures NamedKey(Candidate(SegmentsOf(from), name, depth))
            && HasFolders(tree, Candidate(SegmentsOf(from), name, depth))
  {
    var segments := SegmentsOf(from);
    TargetIsNamed(segments, name, depth);
    var own := segments[..depth] + [name];
    forall d | 0 < d < |own| ensures Join(own[..d], '/') in tree {
      assert own[..d] == segments[..d];
      assert d == |segments| ==> segments[..d] == segments;
    }
  }

  /** The published tree is closed under folders: no package is nested in one that is not published. */
  lemma {:induction false} TreeHoldsItsFolders(w: World, tree: set<string>, key: string)
    requires NamesPackages(w) && IsLeast(w, TREE_KINDS, tree) && key in tree
    ensures NamedKey(key) && HasFolders(tree, key)
  {
    var good := set k | k in tree && NamedKey(k) && HasFolders(tree, k);
    forall from, to | (from == "" || from in good) && Follows(w, TREE_KINDS, from, to) ensures to in good {
      var e :| Leads(w, TREE_KINDS, from, e, to);
      assert Expanded(w, TREE_KINDS, from, tree);
      var segments := SegmentsOf(from);
      NearestIsNearest(w.locked.Keys, segments, e.name, |segments|);
      var d: nat :| d <= |segments| && IsNearest(w.locked.Keys, segments, e.name, d, |segments|)
        && Some(to) == Some(Candidate(segments, e.name, d));
      TargetHasFolders(tree, from, e.name, d);
    }
    assert forall from :: from == "" || from in good ==> Expanded(w, TREE_KINDS, from, good);
    assert tree <= good;
  }

  /** No two published packages share a folder. */
  lemma {:induction false} TreePathsAreDistinct(w: World, tree: set<string>, a: string, b: string)
    requires NamesPackages(w) && IsLeast(w, TREE_KINDS, tree) && a in tree && b in tree && NpmPath(a) == NpmPath(b)
    ensures a == b
  {
    TreeHoldsItsFolders(w, tree, a);
    TreeHoldsItsFolders(w, tree, b);
    if a != b { PathsMeetIff(a, b); }
  }

  // ---- Checks

  datatype Problem =
    | NotARelease(key: string)
    | DigestDiffers(name: string, version: string)
    | Missing(name: string, owner: string)
    | OutOfRange(owner: string, edge: Edge, target: string)

  ghost predicate OffersAnother(w: World, key: string) {
    key in w.locked && w.locked[key].version != "" && ManifestAt(w, key).integrity != Some(w.locked[key].integrity)
  }

  ghost predicate IsMismatch(w: World, tree: set<string>, key: string, e: Edge, target: string) {
    && (key == "" || key in tree) && HasEdge(w, key, e) && Resolved(tree, key, e.name) == Some(target)
    && target in w.locked && !w.satisfies(w.locked[target], e.range)
  }

  predicate IsPeer(kind: Kind) { kind == Peer || kind == OptionalPeer }

  ghost predicate IsMissing(w: World, tree: set<string>, key: string, e: Edge) {
    (key == "" || key in tree) && HasEdge(w, key, e) && Resolved(tree, key, e.name) == None && e.kind != OptionalPeer
  }

  ghost predicate PackageProblem(w: World, key: string, p: Problem) {
    match p
    case NotARelease(k) => k == key && key in w.locked && w.locked[key].version == ""
    case DigestDiffers(name, version) => OffersAnother(w, key) && name == w.locked[key].name
        && version == w.locked[key].version
    case _ => false
  }

  ghost predicate EdgeProblem(w: World, tree: set<string>, key: string, e: Edge, p: Problem) {
    match p
    case Missing(name, owner) => owner == key && name == e.name && IsMissing(w, tree, key, e)
    case OutOfRange(owner, edge, target) =>
      owner == key && edge == e && !IsPeer(e.kind) && IsMismatch(w, tree, key, e, target)
    case _ => false
  }

  ghost predicate IsProblem(w: World, tree: set<string>, p: Problem) {
    || (exists key :: key in tree && PackageProblem(w, key, p))
    || (exists key, e :: EdgeProblem(w, tree, key, e, p))
  }

  ghost predicate IsPeerMismatch(w: World, tree: set<string>, p: Problem) {
    p.OutOfRange? && IsPeer(p.edge.kind) && IsMismatch(w, tree, p.owner, p.edge, p.target)
  }

  lemma {:induction false} PackageProblemIs(w: World, key: string, p: Problem)
    requires key in w.locked
    ensures PackageProblem(w, key, p) <==> PackageProblemOf(w, key) == Some(p)
  {
  }

  /** What manifestOf adds. */
  function PackageProblemOf(w: World, key: string): Option<Problem>
    requires key in w.locked
  {
    var entry := w.locked[key];
    if entry.version == "" then Some(NotARelease(key))
    else if ManifestAt(w, key).integrity != Some(entry.integrity) then Some(DigestDiffers(entry.name, entry.version))
    else None
  }

  method CheckPackages(w: World, tree: set<string>) returns (problems: set<Problem>)
    requires tree <= w.locked.Keys
    ensures forall p :: p in problems <==> exists key :: key in tree && PackageProblem(w, key, p)
  {
    problems := {};
    var rest := tree;
    while rest != {}
      invariant rest <= tree
      invariant forall p :: p in problems <==> exists key :: key in tree - rest && PackageProblem(w, key, p)
      decreases rest
    {
      var key :| key in rest;
      ghost var had, left := problems, rest;
      var found := PackageProblemOf(w, key);
      rest := rest - {key};
      if found.Some? { problems := problems + {found.value}; }
      forall p ensures p in problems <==> exists k :: k in tree - rest && PackageProblem(w, k, p) {
        PackageProblemIs(w, key, p);
        assert forall k :: k in tree - rest <==> k in tree - left || k == key;
      }
    }
    assert tree - {} == tree;
  }

  /** One turn of the inner checking loop. */
  method CheckEdge(w: World, tree: set<string>, key: string, edge: Edge)
    returns (problem: Option<Problem>, peer: Option<Problem>)
    requires tree <= w.locked.Keys && (key == "" || key in tree) && HasEdge(w, key, edge)
    ensures forall p :: problem == Some(p) <==> EdgeProblem(w, tree, key, edge, p)
    ensures forall p :: peer == Some(p) <==>
            p.OutOfRange? && p.edge == edge && p.owner == key && IsPeerMismatch(w, tree, p)
  {
    problem, peer := None, None;
    var target := ResolveKey(tree, key, edge.name);
    if target.None? {
      if edge.kind != OptionalPeer { problem := Some(Missing(edge.name, key)); }
      return;
    }
    FoundIsThere(tree, SegmentsOf(key), edge.name, |SegmentsOf(key)|);
    if w.satisfies(w.locked[target.value], edge.range) { return; }
    var mismatch := OutOfRange(key, edge, target.value);
    if IsPeer(edge.kind) { peer := Some(mismatch); } else { problem := Some(mismatch); }
  }

  ghost predicate ChecksOf(w: World, tree: set<string>, keys: set<string>, problems: set<Problem>,
                           peers: set<Problem>) {
    && (forall p :: p in problems <==> exists key, e :: key in keys && EdgeProblem(w, tree, key, e, p))
    && (forall p :: p in peers <==> IsPeerMismatch(w, tree, p) && p.owner in keys)
  }

  method CheckKey(w: World, tree: set<string>, key: string) returns (problems: set<Problem>, peers: set<Problem>)
    requires tree <= w.locked.Keys && (key == "" || key in tree)
    ensures ChecksOf(w, tree, {key}, problems, peers)
  {
    var edges := EdgesFrom(w, key);
    problems, peers := {}, {};
    for i := 0 to |edges|
      invariant forall p :: p in problems <==> exists j :: 0 <= j < i && EdgeProblem(w, tree, key, edges[j], p)
      invariant forall p :: p in peers <==>
        exists j :: 0 <= j < i && p.OutOfRange? && p.edge == edges[j] && p.owner == key && IsPeerMismatch(w, tree, p)
    {
      assert HasEdge(w, key, edges[i]);
      var problem, peer := CheckEdge(w, tree, key, edges[i]);
      if problem.Some? { problems := problems + {problem.value}; }
      if peer.Some? { peers := peers + {peer.value}; }
    }
    forall p ensures p in problems <==> exists k, e :: k in {key} && EdgeProblem(w, tree, k, e, p) {
      if k, e :| k in {key} && EdgeProblem(w, tree, k, e, p) {
        assert e in edges;
      }
    }
    forall p ensures p in peers <==> IsPeerMismatch(w, tree, p) && p.owner in {key} {
      if IsPeerMismatch(w, tree, p) && p.owner == key {
        assert p.edge in edges;
      }
    }
  }

  method CheckEdges(w: World, tree: set<string>) returns (problems: set<Problem>, peers: set<Problem>)
    requires tree <= w.locked.Keys
    ensures ChecksOf(w, tree, tree + {""}, problems, peers)
  {
    problems, peers := {}, {};
    var rest := tree + {""};
    ghost var done: set<string> := {};
    while rest != {}
      invariant done + rest == tree + {""} && done !! rest && ChecksOf(w, tree, done, problems, peers)
      decreases rest
    {
      var key :| key in rest;
      var some, others := CheckKey(w, tree, key);
      ChecksAdd(w, tree, done, {key}, problems, peers, some, others);
      problems, peers, rest := problems + some, peers + others, rest - {key};
      done := done + {key};
    }
    assert done == tree + {""};
  }

  lemma {:induction false} ChecksAdd(w: World, tree: set<string>, a: set<string>, b: set<string>,
                                     problems: set<Problem>, peers: set<Problem>, some: set<Problem>,
                                     others: set<Problem>)
    requires ChecksOf(w, tree, a, problems, peers) && ChecksOf(w, tree, b, some, others)
    ensures ChecksOf(w, tree, a + b, problems + some, peers + others)
  {
    forall p ensures p in problems + some <==> exists key, e :: key in a + b && EdgeProblem(w, tree, key, e, p) {
      if key, e :| key in a + b && EdgeProblem(w, tree, key, e, p) {
        assert key in a || key in b;
      }
    }
  }

  // ---- The published file

  datatype Entry = Entry(
    alias: Option<string>, version: string, resolved: string, integrity: string, optional: bool, manifest: Manifest)

  /** `name.slice(name.lastIndexOf("/") + 1)` */
  function BaseName(name: string): string {
    var parts := Split(name, '/');
    parts[|parts| - 1]
  }

  function EntryOf(w: World, required: set<string>, key: string): Entry
    requires key in w.locked
  {
    var locked, segments := w.locked[key], SegmentsOf(key);
    Entry(if segments != [] && segments[|segments| - 1] == locked.name then None else Some(locked.name),
          locked.version,
          REGISTRY + "/" + locked.name + "/-/" + BaseName(locked.name) + "-" + locked.version + ".tgz",
          locked.integrity, key !in required, ManifestAt(w, key))
  }

  /** The registry's tarball of a package: its name without the scope, and its version. */
  lemma {:induction false} TarballHasNoScope(scope: string, name: string)
    requires '/' !in scope && '/' !in name
    ensures BaseName(name) == name && BaseName(scope + ("/" + name)) == name
  {
    SplitWhole(name, '/');
    SplitWhole(scope, '/');
    SplitConcat(scope, name, '/');
    assert scope + "/" + name == scope + ("/" + name);
  }

  /** An entry names its tarball by the release, and an alias exactly when the folder's name is another one. */
  lemma {:induction false} EntrySays(w: World, required: set<string>, folders: seq<string>, scope: Option<string>,
                                     base: string)
    requires folders != [] && PackageNames(folders) && Join(folders, '/') in w.locked
    requires '/' !in base && (scope.Some? ==> '/' !in scope.value)
    requires w.locked[Join(folders, '/')].name == if scope.Some? then scope.value + ("/" + base) else base
    ensures var locked, entry := w.locked[Join(folders, '/')], EntryOf(w, required, Join(folders, '/'));
      && (entry.alias == None <==> folders[|folders| - 1] == locked.name)
      && (entry.alias.Some? ==> entry.alias.value == locked.name)
      && entry.version == locked.version && entry.integrity == locked.integrity
      && entry.resolved == "https://registry.npmjs.org/" + locked.name + "/-/" + base + "-" + locked.version + ".tgz"
      && (entry.optional <==> Join(folders, '/') !in required) && entry.manifest == ManifestAt(w, Join(folders, '/'))
  {
    SegmentsOfJoin(folders);
    TarballHasNoScope(if scope.Some? then scope.value else "", base);
    assert REGISTRY + "/" == "https://registry.npmjs.org/";
  }

  ghost predicate IsEntryAt(w: World, required: set<string>, tree: set<string>, path: string, entry: Entry) {
    exists key :: key in tree && key in w.locked && NpmPath(key) == path && entry == EntryOf(w, required, key)
  }

  ghost predicate Publishes(w: World, required: set<string>, tree: set<string>, packages: map<string, Entry>) {
    && (forall key :: key in tree ==> NpmPath(key) in packages)
    && (forall path :: path in packages ==> IsEntryAt(w, required, tree, path, packages[path]))
  }

  method Publish(w: World, required: set<string>, tree: set<string>) returns (packages: map<string, Entry>)
    requires tree <= w.locked.Keys
    ensures Publishes(w, required, tree, packages)
  {
    packages := map[];
    var rest := tree;
    while rest != {}
      invariant rest <= tree && Publishes(w, required, tree - rest, packages)
      decreases rest
    {
      var key :| key in rest;
      var entry := EntryOf(w, required, key);
      PublishOne(w, required, tree - rest, packages, key);
      packages := packages[NpmPath(key) := entry];
      assert tree - (rest - {key}) == tree - rest + {key};
      rest := rest - {key};
    }
    assert tree - {} == tree;
  }

  lemma {:induction false} PublishOne(w: World, required: set<string>, done: set<string>, packages: map<string, Entry>,
                                      key: string)
    requires Publishes(w, required, done, packages) && key in w.locked
    ensures Publishes(w, required, done + {key}, packages[NpmPath(key) := EntryOf(w, required, key)])
  {
    var after := packages[NpmPath(key) := EntryOf(w, required, key)];
    forall path | path in after ensures IsEntryAt(w, required, done + {key}, path, after[path]) {
      if path != NpmPath(key) {
        var k :| k in done && k in w.locked && NpmPath(k) == path && packages[path] == EntryOf(w, required, k);
        assert k in done + {key};
      } else {
        assert key in done + {key};
      }
    }
  }

  datatype Outcome =
    | Published(packages: map<string, Entry>, peerMismatches: set<Problem>)
    | Refused(problems: set<Problem>)

  /** The tree has no problem and is published, or it has and they are named. */
  ghost predicate IsOutcome(w: World, required: set<string>, tree: set<string>, r: Outcome) {
    && IsLeast(w, REQUIRED_KINDS, required) && IsLeast(w, TREE_KINDS, tree)
    && match r
       case Published(packages, peerMismatches) =>
         && (forall p :: !IsProblem(w, tree, p)) && Publishes(w, required, tree, packages)
         && forall p :: p in peerMismatches <==> IsPeerMismatch(w, tree, p)
       case Refused(problems) => problems != {} && forall p :: p in problems <==> IsProblem(w, tree, p)
  }

  /** buildShrinkwrap */
  method BuildShrinkwrap(w: World) returns (r: Outcome)
    ensures exists required, tree :: IsOutcome(w, required, tree, r)
  {
    var required := Reach(w, REQUIRED_KINDS);
    var tree := Reach(w, TREE_KINDS);
    var broken := CheckPackages(w, tree);
    var problems, peers := CheckEdges(w, tree);
    AllProblems(w, tree, broken, problems, peers);
    if broken + problems != {} {
      r := Refused(broken + problems);
    } else {
      var packages := Publish(w, required, tree);
      r := Published(packages, peers);
      assert forall p :: IsProblem(w, tree, p) ==> p in broken + problems;
    }
    assert IsOutcome(w, required, tree, r);
  }

  lemma {:induction false} LeastIsUnique(w: World, follow: set<Kind>, s: set<string>, t: set<string>)
    requires IsLeast(w, follow, s) && IsLeast(w, follow, t)
    ensures s == t
  {
    assert s <= t && t <= s;
  }

  ghost predicate MayEnd(w: World, r: Outcome) { exists required, tree :: IsOutcome(w, required, tree, r) }

  /**
   * The lock and the registry fix whether the tree is published, its problems and its peer mismatches, and with
   * package names the published file.
   */
  lemma {:induction false} OutcomeIsUnique(w: World, r: Outcome, t: Outcome)
    requires MayEnd(w, r) && MayEnd(w, t)
    ensures r.Published? <==> t.Published?
    ensures r.Refused? ==> r == t
    ensures r.Published? ==> r.peerMismatches == t.peerMismatches && r.packages.Keys == t.packages.Keys
    ensures r.Published? && NamesPackages(w) ==> r == t
  {
    var required, tree :| IsOutcome(w, required, tree, r);
    var required', tree' :| IsOutcome(w, required', tree', t);
    LeastIsUnique(w, REQUIRED_KINDS, required, required');
    LeastIsUnique(w, TREE_KINDS, tree, tree');
    if r.Refused? {
      var p :| p in r.problems;
      assert IsProblem(w, tree, p);
      assert t.Refused? && r.problems == t.problems;
    } else {
      assert t.Published?;
      SamePackages(w, required, tree, r.packages, t.packages);
    }
  }

  lemma {:induction false} SamePackages(w: World, required: set<string>, tree: set<string>,
                                        some: map<string, Entry>, others: map<string, Entry>)
    requires IsLeast(w, TREE_KINDS, tree)
    requires Publishes(w, required, tree, some) && Publishes(w, required, tree, others)
    ensures some.Keys == others.Keys
    ensures NamesPackages(w) ==> some == others
  {
    forall path | path in some ensures path in others { PathIsThere(w, required, tree, some, others, path); }
    forall path | path in others ensures path in some { PathIsThere(w, required, tree, others, some, path); }
    if NamesPackages(w) {
      forall path | path in some ensures some[path] == others[path] {
        OneEntryEach(w, required, tree, path, some[path], others[path]);
      }
    }
  }

  lemma {:induction false} PathIsThere(w: World, required: set<string>, tree: set<string>,
                                       some: map<string, Entry>, others: map<string, Entry>, path: string)
    requires Publishes(w, required, tree, some) && Publishes(w, required, tree, others) && path in some
    ensures path in others
  {
    assert IsEntryAt(w, required, tree, path, some[path]);
  }

  lemma {:induction false} OneEntryEach(w: World, required: set<string>, tree: set<string>, path: string, a: Entry,
                                        b: Entry)
    requires NamesPackages(w) && IsLeast(w, TREE_KINDS, tree)
    requires IsEntryAt(w, required, tree, path, a) && IsEntryAt(w, required, tree, path, b)
    ensures a == b
  {
    var k :| k in tree && k in w.locked && NpmPath(k) == path && a == EntryOf(w, required, k);
    var l :| l in tree && l in w.locked && NpmPath(l) == path && b == EntryOf(w, required, l);
    TreePathsAreDistinct(w, tree, k, l);
  }

  lemma {:induction false} AllProblems(w: World, tree: set<string>, broken: set<Problem>, problems: set<Problem>,
                                       peers: set<Problem>)
    requires forall p :: p in broken <==> exists key :: key in tree && PackageProblem(w, key, p)
    requires ChecksOf(w, tree, tree + {""}, problems, peers)
    ensures forall p :: p in broken + problems <==> IsProblem(w, tree, p)
    ensures forall p :: p in peers <==> IsPeerMismatch(w, tree, p)
  {
    forall p ensures p in broken + problems <==> IsProblem(w, tree, p) {
      if key, e :| EdgeProblem(w, tree, key, e, p) {
        assert key in tree + {""};
      }
    }
    forall p ensures p in peers <==> IsPeerMismatch(w, tree, p) {
      if IsPeerMismatch(w, tree, p) {
        assert p.owner in tree + {""};
      }
    }
  }

  // ---- What a published file is worth

  /** Nothing refused: every edge but an optional peer resolves in the tree, and regular ones are in range. */
  lemma {:induction false} PublishedEdgesHold(w: World, tree: set<string>, from: string, e: Edge)
    requires IsLeast(w, TREE_KINDS, tree) && forall p :: !IsProblem(w, tree, p)
    requires (from == "" || from in tree) && HasEdge(w, from, e) && e.kind != OptionalPeer
    ensures Resolved(tree, from, e.name).Some? && Resolved(tree, from, e.name).value in tree
    ensures e.kind != Peer ==> w.satisfies(w.locked[Resolved(tree, from, e.name).value], e.range)
  {
    var found := Resolved(tree, from, e.name);
    if found.None? {
      assert EdgeProblem(w, tree, from, e, Missing(e.name, from));
      assert IsProblem(w, tree, Missing(e.name, from));
    } else {
      FoundIsThere(tree, SegmentsOf(from), e.name, |SegmentsOf(from)|);
      if e.kind != Peer && !w.satisfies(w.locked[found.value], e.range) {
        assert EdgeProblem(w, tree, from, e, OutOfRange(from, e, found.value));
        assert IsProblem(w, tree, OutOfRange(from, e, found.value));
      }
    }
  }

  /** A published tree, and an edge that one of its packages asks for and that npm has to find in it. */
  ghost predicate MustHold(w: World, tree: set<string>, from: string, e: Edge) {
    && IsLeast(w, TREE_KINDS, tree) && (forall p :: !IsProblem(w, tree, p))
    && (from == "" || from in tree) && Asks(w, from, e) && e.kind != OptionalPeer
  }

  ghost predicate InTree(w: World, tree: set<string>, from: string, e: Edge) {
    var found := Resolved(tree, from, e.name);
    && found.Some? && found.value in tree && found.value in w.locked
    && (e.kind != Peer ==> w.satisfies(w.locked[found.value], e.range))
  }

  ghost predicate AlwaysInTree(name: string) {
    forall w, tree, from, e: Edge :: e.name == name && MustHold(w, tree, from, e) ==> InTree(w, tree, from, e)
  }

  /** A root whose one dependency has an inherited name: the empty tree is published without it. */
  lemma {:induction false} InheritedNameIsLost(name: string) returns (w: World, e: Edge)
    requires Inherited(name)
    ensures e == Edge(name, "*", Dependency) && MustHold(w, {}, "", e) && !InTree(w, {}, "", e)
  {
    e := Edge(name, "*", Dependency);
    w := World(map[], (_, _) => Manifest(None, [], [], [], {}, false), (_, _) => true, [(name, "*")], []);
    forall key, other | key == "" ensures !HasEdge(w, key, other) {
      if Asks(w, "", other) { assert other == e; }
    }
    assert forall to :: !Follows(w, TREE_KINDS, "", to);
    assert Closed(w, TREE_KINDS, {});
    forall p ensures !IsProblem(w, {}, p) {}
    assert Root(w).dependencies[0] == (name, "*");
  }

  /** Every published tree holds what it asks for under a name if and only if no object inherits that name. */
  lemma {:induction false} AskedIsHeldIff(name: string)
    ensures AlwaysInTree(name) <==> !Inherited(name)
  {
    if Inherited(name) {
      var w, e := InheritedNameIsLost(name);
    } else {
      forall w, tree, from, e: Edge | e.name == name && MustHold(w, tree, from, e) ensures InTree(w, tree, from, e) {
        PublishedEdgesHold(w, tree, from, e);
      }
    }
  }

  /** Every package is a registry release with bun.lock's digest. */
  lemma {:induction false} PublishedPackagesHold(w: World, tree: set<string>, key: string)
    requires IsLeast(w, TREE_KINDS, tree) && (forall p :: !IsProblem(w, tree, p)) && key in tree
    ensures var locked := w.locked[key];
      locked.version != "" && w.fetch(locked.name, locked.version).integrity == Some(locked.integrity)
  {
    var found := PackageProblemOf(w, key);
    if found.Some? {
      PackageProblemIs(w, key, found.value);
      assert IsProblem(w, tree, found.value);
    }
  }

  /** What is published: the packages that required and optional edges lead to from the root. */
  lemma {:induction false} PublishedTreeIs(w: World, tree: set<string>, key: string)
    requires IsLeast(w, TREE_KINDS, tree)
    ensures key in tree <==> Reaches(w, {Dependency, Peer, Optional}, key)
  {
    LeastIsReached(w, TREE_KINDS, tree, key);
  }

  /** The root's edges are its package.json's; it has no peers. */
  lemma {:induction false} RootAsks(w: World, e: Edge)
    ensures HasEdge(w, "", e) <==>
            || (e.kind == Optional && (e.name, e.range) in w.optionalDependencies)
            || (e.kind == Dependency && (e.name, e.range) in w.dependencies && !Names(w.optionalDependencies, e.name)
                && !Inherited(e.name))
  {
  }

  /** A resolved edge out of range is a problem of a regular or optional edge, and only a mismatch of a peer's. */
  lemma {:induction false} OutOfRangeIff(w: World, tree: set<string>, from: string, e: Edge, target: string)
    requires from == "" || from in tree
    requires HasEdge(w, from, e) && Resolved(tree, from, e.name) == Some(target) && target in w.locked
    ensures IsProblem(w, tree, OutOfRange(from, e, target)) <==>
            (e.kind == Dependency || e.kind == Optional) && !w.satisfies(w.locked[target], e.range)
    ensures IsPeerMismatch(w, tree, OutOfRange(from, e, target)) <==>
            (e.kind == Peer || e.kind == OptionalPeer) && !w.satisfies(w.locked[target], e.range)
  {
    var p := OutOfRange(from, e, target);
    assert EdgeProblem(w, tree, from, e, p) <==> !IsPeer(e.kind) && !w.satisfies(w.locked[target], e.range);
    assert forall key, other :: EdgeProblem(w, tree, key, other, p) ==> key == from && other == e;
  }

  /** With package names, each key has its own entry, and it is optional exactly when no required trail leads to it. */
  lemma {:induction false} PublishedEntryIs(w: World, required: set<string>, tree: set<string>,
                                            packages: map<string, Entry>, key: string)
    requires NamesPackages(w) && IsLeast(w, REQUIRED_KINDS, required) && IsLeast(w, TREE_KINDS, tree)
    requires Publishes(w, required, tree, packages) && key in tree
    ensures NpmPath(key) in packages && packages[NpmPath(key)] == EntryOf(w, required, key)
    ensures packages[NpmPath(key)].optional <==> !Reaches(w, {Dependency, Peer}, key)
  {
    var path := NpmPath(key);
    var k :| k in tree && k in w.locked && NpmPath(k) == path && packages[path] == EntryOf(w, required, k);
    TreePathsAreDistinct(w, tree, k, key);
    LeastIsReached(w, REQUIRED_KINDS, required, key);
  }

  ghost predicate FindsAt(w: World, required: set<string>, packages: map<string, Entry>, segments: seq<string>,
                          name: string, d: nat) {
    && d <= |segments| && Candidate(segments, name, d) in w.locked
    && NpmPath(Candidate(segments, name, d)) in packages
    && packages[NpmPath(Candidate(segments, name, d))] == EntryOf(w, required, Candidate(segments, name, d))
    && UnpublishedBelow(packages, segments, name, d)
  }

  lemma {:induction false} UnpublishedPath(w: World, required: set<string>, tree: set<string>,
                                           packages: map<string, Entry>, key: string)
    requires NamesPackages(w) && IsLeast(w, TREE_KINDS, tree) && Publishes(w, required, tree, packages)
    requires NamedKey(key) && key !in tree
    ensures NpmPath(key) !in packages
  {
    if NpmPath(key) in packages {
      var k :| k in tree && k in w.locked && NpmPath(k) == NpmPath(key);
      TreeHoldsItsFolders(w, tree, k);
      PathsMeetIff(k, key);
    }
  }

  ghost predicate UnpublishedBelow(packages: map<string, Entry>, segments: seq<string>, name: string, d: nat) {
    forall n: nat :: d < n <= |segments| ==> NpmPath(Candidate(segments, name, n)) !in packages
  }

  lemma {:induction false} DeeperIsUnpublished(w: World, required: set<string>, tree: set<string>,
                                               packages: map<string, Entry>, segments: seq<string>, name: string,
                                               d: nat)
    requires NamesPackages(w) && IsLeast(w, TREE_KINDS, tree) && Publishes(w, required, tree, packages)
    requires PackageNames(segments) && PackageName(name) && IsNearest(tree, segments, name, d, |segments|)
    ensures UnpublishedBelow(packages, segments, name, d)
  {
    forall n: nat | d < n <= |segments| ensures NpmPath(Candidate(segments, name, n)) !in packages {
      TargetIsNamed(segments, name, n);
      UnpublishedPath(w, required, tree, packages, Candidate(segments, name, n));
    }
  }

  lemma {:induction false} SegmentsAreNames(w: World, tree: set<string>, from: string)
    requires NamesPackages(w) && IsLeast(w, TREE_KINDS, tree) && (from == "" || from in tree)
    ensures PackageNames(SegmentsOf(from))
  {
    if from != "" { TreeHoldsItsFolders(w, tree, from); }
  }

  /**
   * Node, walking outward over the published folders from any published package, stops at the package
   * that the whole lock resolves the edge to.
   */
  lemma {:induction false} NodeFindsTheLockedPackage(w: World, required: set<string>, tree: set<string>,
                                                     packages: map<string, Entry>, from: string, e: Edge,
                                                     target: string)
    requires NamesPackages(w) && IsLeast(w, REQUIRED_KINDS, required) && IsLeast(w, TREE_KINDS, tree)
    requires Publishes(w, required, tree, packages) && (from == "" || from in tree)
    requires HasEdge(w, from, e) && e.kind != OptionalPeer && Resolved(w.locked.Keys, from, e.name) == Some(target)
    ensures exists d: nat :: FindsAt(w, required, packages, SegmentsOf(from), e.name, d) &&
                             Candidate(SegmentsOf(from), e.name, d) == target
  {
    var segments := SegmentsOf(from);
    TreeFindsTheSame(w, tree, from, e);
    NearestIsNearest(tree, segments, e.name, |segments|);
    var d: nat :| d <= |segments| && IsNearest(tree, segments, e.name, d, |segments|)
      && Some(target) == Some(Candidate(segments, e.name, d));
    PublishedEntryIs(w, required, tree, packages, target);
    SegmentsAreNames(w, tree, from);
    DeeperIsUnpublished(w, required, tree, packages, segments, e.name, d);
    assert FindsAt(w, required, packages, segments, e.name, d);
  }
}
