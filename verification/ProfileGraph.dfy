/**
 * linkParents of scripts/perf/analyzeProfilesCore.ts decides whether the nodes of a CPU profile form a forest,
 * so that every walk from a node up to its root ends.
 */
module ProfileGraph {
  import opened Forms

  datatype Frame = Frame(functionName: string, url: string, lineNumber: int, columnNumber: int)

  datatype Node = Node(id: int, frame: Frame, children: seq<int>, parent: Option<int>)

  predicate IsRootFrame(f: Frame) { f.functionName == "(root)" && f.url == "" }

  datatype Failure =
    | DuplicateId(id: int)
    | UnknownChild(id: int, child: int)
    | TwoParents(id: int)
    | UnknownParent(id: int, parent: int)
    | CycleThrough(id: int)
    | EndBeforeStart
    | LengthsDiffer
    | UnknownSample(index: nat)

  datatype Result<+T> = Ok(value: T) | Fail(reason: Failure)

  // ---- What a profile must be

  ghost predicate UniqueIds(nodes: seq<Node>) {
    forall i, j :: 0 <= i < j < |nodes| ==> nodes[i].id != nodes[j].id
  }

  ghost predicate HasId(nodes: seq<Node>, id: int) { exists i :: 0 <= i < |nodes| && nodes[i].id == id }

  /** Node `p` links node `c`, from above or from below. */
  ghost predicate Links(nodes: seq<Node>, p: int, c: int) {
    && 0 <= p < |nodes| && 0 <= c < |nodes|
    && (nodes[c].id in nodes[p].children || nodes[c].parent == Some(nodes[p].id))
  }

  ghost predicate NoDanglingLinks(nodes: seq<Node>) {
    forall i :: 0 <= i < |nodes| ==>
      && (forall k :: 0 <= k < |nodes[i].children| ==> HasId(nodes, nodes[i].children[k]))
      && (nodes[i].parent.Some? ==> HasId(nodes, nodes[i].parent.value))
  }

  ghost predicate OneParentEach(nodes: seq<Node>) {
    forall p, q, c :: Links(nodes, p, c) && Links(nodes, q, c) ==> p == q
  }

  /** `up[k + 1]` is linked as the parent of `up[k]`. */
  ghost predicate IsClimb(nodes: seq<Node>, up: seq<int>) {
    |up| > 0 && forall k :: 0 <= k < |up| - 1 ==> Links(nodes, up[k + 1], up[k])
  }

  ghost predicate HasCycle(nodes: seq<Node>) {
    exists up :: IsClimb(nodes, up) && |up| > 1 && up[0] == up[|up| - 1]
  }

  ghost predicate IsForest(nodes: seq<Node>) {
    UniqueIds(nodes) && NoDanglingLinks(nodes) && OneParentEach(nodes) && !HasCycle(nodes)
  }

  ghost predicate TwiceAs(nodes: seq<Node>, i: int, j: int, id: int) {
    0 <= i < j < |nodes| && nodes[i].id == id && nodes[j].id == id
  }

  ghost predicate ListsChild(nodes: seq<Node>, i: int, id: int, child: int) {
    0 <= i < |nodes| && nodes[i].id == id && child in nodes[i].children
  }

  ghost predicate NamesParent(nodes: seq<Node>, i: int, id: int, parent: int) {
    0 <= i < |nodes| && nodes[i].id == id && nodes[i].parent == Some(parent)
  }

  ghost predicate HasTwo(nodes: seq<Node>, c: int, p: int, q: int, id: int) {
    Links(nodes, p, c) && Links(nodes, q, c) && p != q && nodes[c].id == id
  }

  ghost predicate IsLoop(nodes: seq<Node>, up: seq<int>, id: int) {
    IsClimb(nodes, up) && |up| > 1 && up[0] == up[|up| - 1] && 0 <= up[0] < |nodes| && nodes[up[0]].id == id
  }

  /** The reason is a fault of the nodes. */
  ghost predicate Explains(nodes: seq<Node>, reason: Failure) {
    match reason
    case DuplicateId(id) => exists i, j :: TwiceAs(nodes, i, j, id)
    case UnknownChild(id, child) => !HasId(nodes, child) && exists i :: ListsChild(nodes, i, id, child)
    case TwoParents(id) => exists c, p, q :: HasTwo(nodes, c, p, q, id)
    case UnknownParent(id, parent) => !HasId(nodes, parent) && exists i :: NamesParent(nodes, i, id, parent)
    case CycleThrough(id) => exists up :: IsLoop(nodes, up, id)
    case _ => false
  }

  lemma {:induction false} ExplainedIsNoForest(nodes: seq<Node>, reason: Failure)
    requires Explains(nodes, reason)
    ensures !IsForest(nodes)
  {
    match reason
    case DuplicateId(id) =>
      var i, j :| TwiceAs(nodes, i, j, id);
    case UnknownChild(id, child) =>
      var i :| ListsChild(nodes, i, id, child);
      var k :| 0 <= k < |nodes[i].children| && nodes[i].children[k] == child;
    case TwoParents(id) =>
      var c, p, q :| HasTwo(nodes, c, p, q, id);
    case UnknownParent(id, parent) =>
      var i :| NamesParent(nodes, i, id, parent);
    case CycleThrough(id) =>
      var up :| IsLoop(nodes, up, id);
  }

  // ---- The parents array

  ghost predicate InRange(parents: seq<int>) {
    forall i :: 0 <= i < |parents| ==> -1 <= parents[i] < |parents|
  }

  /** `parents` says who links whom: -1 for nobody. */
  ghost predicate Parented(nodes: seq<Node>, parents: seq<int>) {
    && |parents| == |nodes| && InRange(parents)
    && forall c, p :: 0 <= c < |nodes| && 0 <= p < |nodes| ==> (parents[c] == p <==> Links(nodes, p, c))
  }

  /** `n` steps up from `at`, stopping at -1. */
  ghost function Up(parents: seq<int>, at: int, n: nat): (r: int)
    requires InRange(parents) && -1 <= at < |parents|
    ensures -1 <= r < |parents|
    decreases n
  {
    if n == 0 || at == -1 then at else Up(parents, parents[at], n - 1)
  }

  ghost predicate ReachesRoot(parents: seq<int>, at: int)
    requires InRange(parents) && -1 <= at < |parents|
  {
    exists n: nat :: Up(parents, at, n) == -1
  }

  ghost predicate AllReachRoot(parents: seq<int>)
    requires InRange(parents)
  {
    forall i :: 0 <= i < |parents| ==> ReachesRoot(parents, i)
  }

  lemma {:induction false} UpAdds(parents: seq<int>, at: int, m: nat, n: nat)
    requires InRange(parents) && -1 <= at < |parents|
    ensures Up(parents, at, m + n) == Up(parents, Up(parents, at, m), n)
    decreases m
  {
    if at == -1 {
      StaysOut(parents, n);
      StaysOut(parents, m + n);
    } else if m > 0 {
      UpAdds(parents, parents[at], m - 1, n);
    }
  }

  lemma {:induction false} StaysOut(parents: seq<int>, n: nat)
    requires InRange(parents)
    ensures Up(parents, -1, n) == -1
  {
  }

  /** A node that comes back to itself never reaches a root. */
  lemma {:induction false} LoopNeverEnds(parents: seq<int>, at: int, n: nat, m: nat)
    requires InRange(parents) && 0 <= at < |parents| && n > 0 && Up(parents, at, n) == at
    ensures Up(parents, at, m) != -1
    decreases m
  {
    if m < n {
      UpAdds(parents, at, m, n - m);
      StaysOut(parents, n - m);
    } else {
      UpAdds(parents, at, n, m - n);
      LoopNeverEnds(parents, at, n, m - n);
    }
  }

  lemma {:induction false} OneStepMore(parents: seq<int>, at: int)
    requires InRange(parents) && 0 <= at < |parents| && ReachesRoot(parents, parents[at])
    ensures ReachesRoot(parents, at)
  {
    var n: nat :| Up(parents, parents[at], n) == -1;
    assert Up(parents, at, n + 1) == -1;
  }

  lemma {:induction false} ClimbIsUp(nodes: seq<Node>, parents: seq<int>, up: seq<int>)
    requires Parented(nodes, parents) && IsClimb(nodes, up) && |up| > 1
    ensures 0 <= up[0] < |parents| && Up(parents, up[0], |up| - 1) == up[|up| - 1]
    decreases |up|
  {
    assert Links(nodes, up[1], up[0]) && parents[up[0]] == up[1];
    if |up| > 2 {
      ClimbIsUp(nodes, parents, up[1..]);
    } else {
      assert Up(parents, up[0], 1) == Up(parents, parents[up[0]], 0);
    }
  }

  lemma {:induction false} UpIsClimb(nodes: seq<Node>, parents: seq<int>, at: int, n: nat) returns (up: seq<int>)
    requires Parented(nodes, parents) && 0 <= at < |parents| && Up(parents, at, n) != -1
    ensures IsClimb(nodes, up) && |up| == n + 1 && up[0] == at && up[n] == Up(parents, at, n)
    decreases n
  {
    if n == 0 {
      up := [at];
    } else {
      StaysOut(parents, n - 1);
      var rest := UpIsClimb(nodes, parents, parents[at], n - 1);
      up := [at] + rest;
    }
  }

  /** Every node reaches a root exactly when no node comes back to itself. */
  lemma {:induction false} RootsOrCycle(nodes: seq<Node>, parents: seq<int>)
    requires Parented(nodes, parents) && AllReachRoot(parents)
    ensures !HasCycle(nodes)
  {
    if HasCycle(nodes) {
      var up :| IsClimb(nodes, up) && |up| > 1 && up[0] == up[|up| - 1];
      ClimbIsUp(nodes, parents, up);
      assert ReachesRoot(parents, up[0]);
      var m: nat :| Up(parents, up[0], m) == -1;
      LoopNeverEnds(parents, up[0], |up| - 1, m);
    }
  }

  // ---- linkParents

  ghost predicate Indexes(index: map<int, nat>, nodes: seq<Node>, n: nat) {
    && n <= |nodes|
    && (forall i :: 0 <= i < n ==> nodes[i].id in index && index[nodes[i].id] == i)
    && (forall id :: id in index ==> index[id] < n && nodes[index[id]].id == id)
  }

  method IndexNodes(nodes: seq<Node>) returns (r: Result<map<int, nat>>)
    ensures r.Ok? ==> Indexes(r.value, nodes, |nodes|) && UniqueIds(nodes)
    ensures r.Fail? ==> Explains(nodes, r.reason)
  {
    var index: map<int, nat> := map[];
    for i := 0 to |nodes|
      invariant Indexes(index, nodes, i)
    {
      if nodes[i].id in index {
        assert TwiceAs(nodes, index[nodes[i].id], i, nodes[i].id);
        return Fail(DuplicateId(nodes[i].id));
      }
      index := index[nodes[i].id := i];
    }
    r := Ok(index);
  }

  /** The parents array says exactly the links recorded so far, as (parent, child). */
  ghost predicate Says(parents: seq<int>, links: set<(int, int)>) {
    InRange(parents) && forall c, p :: 0 <= c < |parents| && 0 <= p < |parents| ==>
        (parents[c] == p <==> (p, c) in links)
  }

  ghost predicate Real(nodes: seq<Node>, links: set<(int, int)>) {
    forall l :: l in links ==> Links(nodes, l.0, l.1)
  }

  ghost predicate DownDone(nodes: seq<Node>, links: set<(int, int)>, i: int, k: int)
    requires 0 <= i < |nodes| && 0 <= k <= |nodes[i].children|
  {
    && (forall c :: 0 <= c < |nodes| && nodes[c].id in nodes[i].children[..k] ==> (i, c) in links)
    && (forall m :: 0 <= m < k ==> HasId(nodes, nodes[i].children[m]))
  }

  ghost predicate UpDone(nodes: seq<Node>, links: set<(int, int)>, c: int)
    requires 0 <= c < |nodes|
  {
    nodes[c].parent.Some? ==>
      HasId(nodes, nodes[c].parent.value) && forall p :: 0 <= p < |nodes| && nodes[p].id == nodes[c].parent.value ==>
          (p, c) in links
  }

  /** setParent: false when the child already has another parent. */
  method SetParent(parents: array<int>, child: int, parent: int, ghost links: set<(int, int)>) returns (ok: bool)
    requires 0 <= child < parents.Length && 0 <= parent < parents.Length && Says(parents[..], links)
    modifies parents
    ensures ok ==> Says(parents[..], links + {(parent, child)})
    ensures !ok ==> exists other :: 0 <= other < parents.Length && other != parent && (other, child) in links
  {
    var current := parents[child];
    assert parents[..][child] == current;
    if current != -1 && current != parent {
      assert (current, child) in links;
      return false;
    }
    ghost var before := parents[..];
    parents[child] := parent;
    assert parents[..] == before[child := parent];
    assert forall p :: 0 <= p < |before| && p != parent ==> (p, child) !in links;
    return true;
  }

  method LinkChildren(nodes: seq<Node>, index: map<int, nat>, parents: array<int>)
    returns (failure: Option<Failure>, ghost links: set<(int, int)>)
    requires Indexes(index, nodes, |nodes|) && UniqueIds(nodes) && parents.Length == |nodes| && Says(parents[..], {})
    modifies parents
    ensures failure.None? ==> Says(parents[..], links) && Real(nodes, links)
                              && forall i :: 0 <= i < |nodes| ==> DownDone(nodes, links, i, |nodes[i].children|)
    ensures failure.Some? ==> Explains(nodes, failure.value)
  {
    links := {};
    for i := 0 to |nodes|
      invariant Says(parents[..], links) && Real(nodes, links)
      invariant forall m :: 0 <= m < i ==> DownDone(nodes, links, m, |nodes[m].children|)
    {
      for k := 0 to |nodes[i].children|
        invariant Says(parents[..], links) && Real(nodes, links)
        invariant forall m :: 0 <= m < i ==> DownDone(nodes, links, m, |nodes[m].children|)
        invariant DownDone(nodes, links, i, k)
      {
        var child := nodes[i].children[k];
        if child !in index {
          assert ListsChild(nodes, i, nodes[i].id, child);
          return Some(UnknownChild(nodes[i].id, child)), links;
        }
        var c := index[child];
        assert Links(nodes, i, c);
        var ok := SetParent(parents, c, i, links);
        if !ok {
          ghost var other :| 0 <= other < parents.Length && other != i && (other, c) in links;
          assert HasTwo(nodes, c, i, other, child);
          return Some(TwoParents(child)), links;
        }
        OneMoreChild(nodes, links, i, k, c);
        links := links + {(i, c)};
      }
    }
    failure := None;
  }

  lemma {:induction false} OneMoreChild(nodes: seq<Node>, links: set<(int, int)>, i: int, k: int, c: int)
    requires UniqueIds(nodes) && 0 <= i < |nodes| && 0 <= k < |nodes[i].children| && DownDone(nodes, links, i, k)
    requires 0 <= c < |nodes| && nodes[c].id == nodes[i].children[k]
    ensures DownDone(nodes, links + {(i, c)}, i, k + 1)
    ensures forall m :: 0 <= m < |nodes| && DownDone(nodes, links, m, |nodes[m].children|) ==>
              DownDone(nodes, links + {(i, c)}, m, |nodes[m].children|)
  {
    var ids := nodes[i].children;
    assert ids[..k + 1] == ids[..k] + [ids[k]];
    assert HasId(nodes, ids[k]);
  }

  method LinkUp(nodes: seq<Node>, index: map<int, nat>, parents: array<int>, ghost links0: set<(int, int)>)
    returns (failure: Option<Failure>, ghost links: set<(int, int)>)
    requires Indexes(index, nodes, |nodes|) && UniqueIds(nodes) && parents.Length == |nodes|
    requires Says(parents[..], links0) && Real(nodes, links0)
    modifies parents
    ensures failure.None? ==> Says(parents[..], links) && Real(nodes, links) && links0 <= links
                              && forall c :: 0 <= c < |nodes| ==> UpDone(nodes, links, c)
    ensures failure.Some? ==> Explains(nodes, failure.value)
  {
    links := links0;
    for i := 0 to |nodes|
      invariant Says(parents[..], links) && Real(nodes, links) && links0 <= links
      invariant forall c :: 0 <= c < i ==> UpDone(nodes, links, c)
    {
      if nodes[i].parent.None? { assert UpDone(nodes, links, i); continue; }
      ghost var before := links;
      var parent := nodes[i].parent.value;
      if parent !in index {
        assert NamesParent(nodes, i, nodes[i].id, parent);
        return Some(UnknownParent(nodes[i].id, parent)), links;
      }
      var p := index[parent];
      assert Links(nodes, p, i);
      var ok := SetParent(parents, i, p, links);
      if !ok {
        ghost var other :| 0 <= other < parents.Length && other != p && (other, i) in links;
        assert HasTwo(nodes, i, p, other, nodes[i].id);
        return Some(TwoParents(nodes[i].id)), links;
      }
      links := links + {(p, i)};
      assert HasId(nodes, parent);
      assert forall q :: 0 <= q < |nodes| && nodes[q].id == parent ==> q == p;
      assert UpDone(nodes, links, i);
      assert forall c :: 0 <= c < i && UpDone(nodes, before, c) ==> UpDone(nodes, links, c);
    }
    failure := None;
  }

  /** What the two passes record is every link. */
  lemma {:induction false} AllLinksRecorded(nodes: seq<Node>, parents: seq<int>, links: set<(int, int)>)
    requires UniqueIds(nodes) && |parents| == |nodes| && Says(parents, links) && Real(nodes, links)
    requires forall i :: 0 <= i < |nodes| ==> DownDone(nodes, links, i, |nodes[i].children|)
    requires forall c :: 0 <= c < |nodes| ==> UpDone(nodes, links, c)
    ensures Parented(nodes, parents) && NoDanglingLinks(nodes) && OneParentEach(nodes)
  {
    forall p, c | Links(nodes, p, c) ensures (p, c) in links {
      if nodes[c].id in nodes[p].children {
        assert nodes[p].children[..|nodes[p].children|] == nodes[p].children;
        assert DownDone(nodes, links, p, |nodes[p].children|);
      } else {
        assert UpDone(nodes, links, c);
      }
    }
    forall c, p | 0 <= c < |nodes| && 0 <= p < |nodes| ensures parents[c] == p <==> Links(nodes, p, c) {
      if (p, c) in links { assert Links(nodes, (p, c).0, (p, c).1); }
    }
    forall i | 0 <= i < |nodes|
        ensures (forall k :: 0 <= k < |nodes[i].children| ==> HasId(nodes, nodes[i].children[k]))
                                        && (nodes[i].parent.Some? ==> HasId(nodes, nodes[i].parent.value)) {
      assert DownDone(nodes, links, i, |nodes[i].children|) && UpDone(nodes, links, i);
    }
  }

  // ---- The cycle check

  /** The nodes of the current walk, from its start up to just below `at`. */
  ghost predicate IsWalk(walk: seq<int>, at: int, parents: seq<int>) {
    && InRange(parents) && (forall k :: 0 <= k < |walk| ==> 0 <= walk[k] < |parents|)
    && (forall k :: 0 <= k < |walk| - 1 ==> parents[walk[k]] == walk[k + 1])
    && (|walk| > 0 ==> parents[walk[|walk| - 1]] == at)
  }

  ghost predicate Known(state: seq<int>, walk: seq<int>, parents: seq<int>) {
    && |state| == |parents| && InRange(parents)
    && (forall i :: 0 <= i < |state| ==> state[i] in {0, 1, 2})
    && (forall i :: 0 <= i < |state| ==> (state[i] == 1 <==> i in walk))
    && (forall i :: 0 <= i < |state| && state[i] == 2 ==> ReachesRoot(parents, i))
  }

  lemma {:induction false} WalkGoesUp(walk: seq<int>, at: int, parents: seq<int>, k: nat)
    requires IsWalk(walk, at, parents) && k < |walk| && -1 <= at < |parents|
    ensures Up(parents, walk[k], |walk| - k) == at
    decreases |walk| - k
  {
    if k + 1 < |walk| {
      WalkGoesUp(walk, at, parents, k + 1);
    } else {
      assert Up(parents, walk[k], 1) == Up(parents, parents[walk[k]], 0);
    }
  }

  lemma {:induction false} WalkReachesRoot(walk: seq<int>, at: int, parents: seq<int>)
    requires IsWalk(walk, at, parents) && -1 <= at < |parents| && ReachesRoot(parents, at)
    ensures forall k :: 0 <= k < |walk| ==> ReachesRoot(parents, walk[k])
    decreases |walk|
  {
    if walk != [] {
      var last := walk[|walk| - 1];
      OneStepMore(parents, last);
      assert IsWalk(walk[..|walk| - 1], last, parents);
      WalkReachesRoot(walk[..|walk| - 1], last, parents);
      assert forall k :: 0 <= k < |walk| - 1 ==> walk[k] == walk[..|walk| - 1][k];
    }
  }

  /** One upward walk: the node it met again, or -1. */
  method WalkUp(start: int, parents: seq<int>, state: array<int>) returns (again: int)
    requires InRange(parents) && 0 <= start < |parents| && state.Length == |parents| && Known(state[..], [], parents)
    modifies state
    ensures again == -1 ==> Known(state[..], [], parents) && state[start] == 2
    ensures again == -1 ==> forall i :: 0 <= i < state.Length && old(state[i]) == 2 ==> state[i] == 2
    ensures again != -1 ==> 0 <= again < |parents| && exists n: nat :: n > 0 && Up(parents, again, n) == again
  {
    var walk: seq<int> := [];
    var at := start;
    while at != -1 && state[at] != 2
      invariant -1 <= at < |parents| && IsWalk(walk, at, parents) && Known(state[..], walk, parents)
      invariant if walk == [] then at == start else walk[0] == start
      invariant forall i :: 0 <= i < state.Length && old(state[i]) == 2 ==> state[i] == 2
      decreases Zeros(state[..]) + if at == -1 || state[at] != 0 then 0 else 1
    {
      if state[at] == 1 {
        assert state[..][at] == 1 && at in walk;
        var k :| 0 <= k < |walk| && walk[k] == at;
        WalkGoesUp(walk, at, parents, k);
        return at;
      }
      ghost var before := state[..];
      state[at] := 1;
      assert state[..] == before[at := 1];
      OneZeroLess(before, at);
      walk := walk + [at];
      at := parents[at];
    }
    if at != -1 { assert state[..][at] == 2; } else { assert Up(parents, -1, 0) == -1; }
    WalkReachesRoot(walk, at, parents);
    MarkKnown(walk, state, parents);
    assert walk == [] ==> state[start] == 2;
    assert walk != [] ==> walk[0] in walk;
    return -1;
  }

  /** `for (const visited of walk) state[visited] = 2`. */
  method MarkKnown(walk: seq<int>, state: array<int>, parents: seq<int>)
    requires state.Length == |parents| && Known(state[..], walk, parents)
    requires forall k :: 0 <= k < |walk| ==> 0 <= walk[k] < |parents| && ReachesRoot(parents, walk[k])
    modifies state
    ensures Known(state[..], [], parents)
    ensures forall i :: 0 <= i < state.Length ==> (state[i] == 2 <==> old(state[i]) == 2 || i in walk)
  {
    for m := 0 to |walk|
      invariant forall i :: 0 <= i < state.Length ==> state[i] == if i in walk[..m] then 2 else old(state[i])
    {
      state[walk[m]] := 2;
      assert walk[..m + 1] == walk[..m] + [walk[m]];
    }
    assert walk[..|walk|] == walk;
  }

  ghost function Zeros(state: seq<int>): nat {
    if state == [] then 0 else (if state[0] == 0 then 1 else 0) + Zeros(state[1..])
  }

  lemma {:induction false} OneZeroLess(state: seq<int>, at: int)
    requires 0 <= at < |state| && state[at] == 0
    ensures Zeros(state[at := 1]) == Zeros(state) - 1
    decreases |state|
  {
    if at == 0 {
      assert state[at := 1][1..] == state[1..];
    } else {
      assert state[at := 1][1..] == state[1..][at - 1 := 1];
      OneZeroLess(state[1..], at - 1);
    }
  }

  method FindCycle(parents: seq<int>) returns (again: int)
    requires InRange(parents)
    ensures again == -1 ==> AllReachRoot(parents)
    ensures again != -1 ==> 0 <= again < |parents| && exists n: nat :: n > 0 && Up(parents, again, n) == again
  {
    var state := new int[|parents|](_ => 0);
    for start := 0 to |parents|
      invariant Known(state[..], [], parents)
      invariant forall i :: 0 <= i < start ==> state[i] == 2
    {
      again := WalkUp(start, parents, state);
      if again != -1 { return; }
    }
    assert forall i :: 0 <= i < |parents| ==> state[..][i] == 2;
    again := -1;
  }

  /** linkParents accepts exactly the forests, and otherwise names a fault. */
  method LinkParents(nodes: seq<Node>) returns (r: Result<(seq<int>, map<int, nat>)>)
    ensures r.Ok? <==> IsForest(nodes)
    ensures r.Ok? ==> Parented(nodes, r.value.0) && AllReachRoot(r.value.0) && Indexes(r.value.1, nodes, |nodes|)
    ensures r.Fail? ==> Explains(nodes, r.reason)
  {
    r := LinkOrExplain(nodes);
    if r.Fail? { ExplainedIsNoForest(nodes, r.reason); }
  }

  method LinkOrExplain(nodes: seq<Node>) returns (r: Result<(seq<int>, map<int, nat>)>)
    ensures r.Ok? ==>
            IsForest(nodes) && Parented(nodes, r.value.0) && AllReachRoot(r.value.0)
            && Indexes(r.value.1, nodes, |nodes|)
    ensures r.Fail? ==> Explains(nodes, r.reason)
  {
    var indexed := IndexNodes(nodes);
    if indexed.Fail? { return Fail(indexed.reason); }
    var index := indexed.value;
    var parents := new int[|nodes|](_ => -1);
    var failure: Option<Failure>;
    ghost var links;
    failure, links := LinkChildren(nodes, index, parents);
    if failure.Some? { return Fail(failure.value); }
    failure, links := LinkUp(nodes, index, parents, links);
    if failure.Some? { return Fail(failure.value); }
    AllLinksRecorded(nodes, parents[..], links);
    var again := FindCycle(parents[..]);
    if again != -1 {
      ghost var n: nat :| n > 0 && Up(parents[..], again, n) == again;
      ghost var up := UpIsClimb(nodes, parents[..], again, n);
      assert IsLoop(nodes, up, nodes[again].id);
      return Fail(CycleThrough(nodes[again].id));
    }
    RootsOrCycle(nodes, parents[..]);
    r := Ok((parents[..], index));
  }
}
