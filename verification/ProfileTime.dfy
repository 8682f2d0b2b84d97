/**
 * From samples to stacks: readCpuProfile of scripts/perf/analyzeProfilesCore.ts. Each sampled node gets its stack,
 * and time is exact, so what goes in as sample deltas comes out as weight.
 */
module ProfileTime {
  import opened Forms
  import opened Lists
  import opened ProfileGraph

  datatype Profile = Profile(nodes: seq<Node>, startTime: real, endTime: real, samples: seq<int>, timeDeltas: seq<real>)

  /** One call stack, root to leaf, without the synthetic `(root)` frame. */
  datatype Stack = Stack(frames: seq<Frame>, weightUs: real, count: nat)

  datatype ReadProfile = ReadProfile(wallMs: real, stacks: seq<Stack>, negativeDeltas: nat)

  // ---- The stack above a node

  ghost function HeightFrom(parents: seq<int>, at: int, k: nat, n: nat): (r: nat)
    requires InRange(parents) && -1 <= at < |parents| && k <= n && Up(parents, at, n) == -1
    requires forall m: nat :: m < k ==> Up(parents, at, m) != -1
    ensures Up(parents, at, r) == -1 && forall m: nat :: m < r ==> Up(parents, at, m) != -1
    decreases n - k
  {
    if Up(parents, at, k) == -1 then k else HeightFrom(parents, at, k + 1, n)
  }

  /** How many nodes stand between `at` and the top, itself included. */
  ghost function Height(parents: seq<int>, at: int): (r: nat)
    requires InRange(parents) && -1 <= at < |parents| && ReachesRoot(parents, at)
    ensures Up(parents, at, r) == -1 && forall m: nat :: m < r ==> Up(parents, at, m) != -1
  {
    var n: nat :| Up(parents, at, n) == -1;
    HeightFrom(parents, at, 0, n)
  }

  lemma {:induction false} ParentIsLower(parents: seq<int>, at: int)
    requires InRange(parents) && 0 <= at < |parents| && ReachesRoot(parents, at)
    ensures ReachesRoot(parents, parents[at]) && Height(parents, parents[at]) < Height(parents, at)
  {
    var h := Height(parents, at);
    assert Up(parents, at, 0) != -1 && Up(parents, parents[at], h - 1) == -1;
  }

  ghost predicate Good(nodes: seq<Node>, parents: seq<int>) {
    |parents| == |nodes| && InRange(parents) && AllReachRoot(parents)
  }

  /** The frames from the top down to `at`, without root frames. */
  ghost function FramesTo(nodes: seq<Node>, parents: seq<int>, at: int): seq<Frame>
    requires Good(nodes, parents) && -1 <= at < |nodes|
    decreases if at == -1 then 0 else Height(parents, at) + 1
  {
    if at == -1 then []
    else
      ParentIsLower(parents, at);
      FramesTo(nodes, parents, parents[at]) + if IsRootFrame(nodes[at].frame) then [] else [nodes[at].frame]
  }

  /** `n` steps up from node `i` there is a node that is not a root frame. */
  ghost predicate ShowsAt(nodes: seq<Node>, parents: seq<int>, i: int, n: nat)
    requires Good(nodes, parents) && -1 <= i < |nodes|
  {
    Up(parents, i, n) != -1 &&
    var frame := nodes[Up(parents, i, n)].frame;
      frame.functionName != "(root)" || frame.url != ""
  }

  /** `frames` are those of the nodes on the way from the top down to `i`; `ups` tells how far above `i` each stands. */
  ghost predicate IsClimbTo(nodes: seq<Node>, parents: seq<int>, i: int, frames: seq<Frame>, ups: seq<nat>)
    requires Good(nodes, parents) && -1 <= i < |nodes|
  {
    && |ups| == |frames|
    && (forall k :: 0 <= k < |ups| ==>
          ShowsAt(nodes, parents, i, ups[k]) && frames[k] == nodes[Up(parents, i, ups[k])].frame)
    && (forall k, l :: 0 <= k < l < |ups| ==> ups[k] > ups[l])
    && forall n: nat :: ShowsAt(nodes, parents, i, n) ==> n in ups
  }

  ghost function OneUp(ups: seq<nat>): (more: seq<nat>)
    ensures |more| == |ups| && forall k :: 0 <= k < |ups| ==> more[k] == ups[k] + 1
  {
    seq(|ups|, k requires 0 <= k < |ups| => ups[k] + 1)
  }

  lemma {:induction false} ShowsFromBelow(nodes: seq<Node>, parents: seq<int>, i: int, n: nat)
    requires Good(nodes, parents) && 0 <= i < |nodes|
    ensures ShowsAt(nodes, parents, i, 0) <==> !IsRootFrame(nodes[i].frame)
    ensures Up(parents, i, 0) == i && Up(parents, i, n + 1) == Up(parents, parents[i], n)
    ensures ShowsAt(nodes, parents, i, n + 1) <==> ShowsAt(nodes, parents, parents[i], n)
  {
  }

  lemma {:induction false} AllAboveAreIn(nodes: seq<Node>, parents: seq<int>, i: int, above: seq<Frame>, ups: seq<nat>,
                                         n: nat)
    requires Good(nodes, parents) && 0 <= i < |nodes| && IsClimbTo(nodes, parents, parents[i], above, ups)
    requires ShowsAt(nodes, parents, i, n) && n > 0
    ensures n in OneUp(ups)
  {
    ShowsFromBelow(nodes, parents, i, n - 1);
    var k :| 0 <= k < |ups| && ups[k] == n - 1;
    assert OneUp(ups)[k] == n;
  }

  lemma {:induction false} ClimbGrows(nodes: seq<Node>, parents: seq<int>, i: int, above: seq<Frame>, ups: seq<nat>)
    requires Good(nodes, parents) && 0 <= i < |nodes| && IsClimbTo(nodes, parents, parents[i], above, ups)
    ensures IsClimbTo(nodes, parents, i, above + if IsRootFrame(nodes[i].frame) then [] else [nodes[i].frame],
                      OneUp(ups) + if IsRootFrame(nodes[i].frame) then [] else [0])
  {
    var root := IsRootFrame(nodes[i].frame);
    var more, frames := OneUp(ups) + (if root then [] else [0]), above + if root then [] else [nodes[i].frame];
    forall k | 0 <= k < |more|
      ensures ShowsAt(nodes, parents, i, more[k]) && frames[k] == nodes[Up(parents, i, more[k])].frame
    {
      ShowsFromBelow(nodes, parents, i, if k < |ups| then ups[k] else 0);
    }
    forall n: nat | ShowsAt(nodes, parents, i, n) ensures n in more {
      if n > 0 {
        AllAboveAreIn(nodes, parents, i, above, ups, n);
      } else {
        ShowsFromBelow(nodes, parents, i, 0);
        assert more[|ups|] == 0;
      }
    }
  }

  /** The stack of a node, told without a walk: every frame on the way up but root frames, the top one first. */
  lemma {:induction false} FramesAreTheClimb(nodes: seq<Node>, parents: seq<int>, i: int) returns (ups: seq<nat>)
    requires Good(nodes, parents) && -1 <= i < |nodes|
    ensures IsClimbTo(nodes, parents, i, FramesTo(nodes, parents, i), ups)
    decreases if i == -1 then 0 else Height(parents, i) + 1
  {
    if i == -1 {
      ups := [];
    } else {
      ParentIsLower(parents, i);
      var above := FramesAreTheClimb(nodes, parents, parents[i]);
      ClimbGrows(nodes, parents, i, FramesTo(nodes, parents, parents[i]), above);
      ups := OneUp(above) + if IsRootFrame(nodes[i].frame) then [] else [0];
    }
  }

  /** The nearest node at or above `i` that is not a root frame. */
  ghost predicate IsLeafStep(nodes: seq<Node>, parents: seq<int>, i: int, n: nat)
    requires Good(nodes, parents) && -1 <= i < |nodes|
  {
    ShowsAt(nodes, parents, i, n) && forall m: nat :: m < n ==> !ShowsAt(nodes, parents, i, m)
  }

  /** The last frame of a stack is that of the nearest node: the sampled one itself, unless that is a root frame. */
  lemma {:induction false} LeafIsNearest(nodes: seq<Node>, parents: seq<int>, i: int, n: nat)
    requires Good(nodes, parents) && -1 <= i < |nodes|
    requires IsLeafStep(nodes, parents, i, n)
    ensures var frames := FramesTo(nodes, parents, i);
      frames != [] && frames[|frames| - 1] == nodes[Up(parents, i, n)].frame
  {
    var ups := FramesAreTheClimb(nodes, parents, i);
    var k :| 0 <= k < |ups| && ups[k] == n;
    var last := ups[|ups| - 1];
    assert ShowsAt(nodes, parents, i, last) && (k < |ups| - 1 ==> last < n);
  }

  lemma {:induction false} StackHasALeaf(nodes: seq<Node>, parents: seq<int>, i: int) returns (n: nat)
    requires Good(nodes, parents) && -1 <= i < |nodes| && FramesTo(nodes, parents, i) != []
    ensures IsLeafStep(nodes, parents, i, n)
  {
    var ups := FramesAreTheClimb(nodes, parents, i);
    n := ups[|ups| - 1];
    forall m: nat | ShowsAt(nodes, parents, i, m) ensures m >= n {
      var k :| 0 <= k < |ups| && ups[k] == m;
    }
  }

  /** `for (let at = i; at !== -1; at = parents[at])`, then `frames.reverse()`. */
  method StackOf(nodes: seq<Node>, parents: seq<int>, i: int) returns (frames: seq<Frame>)
    requires Good(nodes, parents) && 0 <= i < |nodes|
    ensures frames == FramesTo(nodes, parents, i)
  {
    frames := [];
    var at := i;
    while at != -1
      invariant -1 <= at < |nodes|
      invariant FramesTo(nodes, parents, at) + Reverse(frames) == FramesTo(nodes, parents, i)
      decreases if at == -1 then 0 else Height(parents, at) + 1
    {
      ParentIsLower(parents, at);
      if !IsRootFrame(nodes[at].frame) {
        ReverseAppend(frames, nodes[at].frame);
        assert FramesTo(nodes, parents, parents[at]) + ([nodes[at].frame] + Reverse(frames))
            == FramesTo(nodes, parents, at) + Reverse(frames);
        frames := frames + [nodes[at].frame];
      }
      at := parents[at];
    }
    frames := Reverse(frames);
  }

  // ---- Weights

  function Clamp(delta: real): real { if delta < 0.0 then 0.0 else delta }

  /** The time of the first `n` samples that hit node `id`. */
  ghost function WeightOf(p: Profile, id: int, n: nat): real
    requires n <= |p.samples| == |p.timeDeltas|
  {
    if n == 0 then 0.0 else WeightOf(p, id, n - 1) + if p.samples[n - 1] == id then Clamp(p.timeDeltas[n - 1]) else 0.0
  }

  ghost function CountOf(p: Profile, id: int, n: nat): nat
    requires n <= |p.samples|
  {
    if n == 0 then 0 else CountOf(p, id, n - 1) + if p.samples[n - 1] == id then 1 else 0
  }

  /** One stack per node that was sampled, in node order. */
  ghost function StacksOf(p: Profile, parents: seq<int>, m: nat): seq<Stack>
    requires Good(p.nodes, parents) && m <= |p.nodes| && |p.samples| == |p.timeDeltas|
  {
    if m == 0 then []
    else
      var id := p.nodes[m - 1].id;
      StacksOf(p, parents, m - 1)
      + if CountOf(p, id, |p.samples|) == 0 then []
        else [Stack(FramesTo(p.nodes, parents, m - 1), WeightOf(p, id, |p.samples|), CountOf(p, id, |p.samples|))]
  }

  /** `frames` is the stack of node `i`. */
  ghost predicate IsStackOf(nodes: seq<Node>, parents: seq<int>, i: int, frames: seq<Frame>)
    requires Good(nodes, parents) && -1 <= i < |nodes|
  {
    exists ups :: IsClimbTo(nodes, parents, i, frames, ups)
  }

  ghost predicate IsStackAt(p: Profile, parents: seq<int>, i: nat, s: Stack)
    requires Good(p.nodes, parents) && |p.samples| == |p.timeDeltas|
  {
    && i < |p.nodes| && IsStackOf(p.nodes, parents, i, s.frames)
    && s.weightUs == WeightOf(p, p.nodes[i].id, |p.samples|) && s.count == CountOf(p, p.nodes[i].id, |p.samples|)
  }

  /** One stack for each of the first `m` nodes that a sample names, in node order; `owners` are those nodes. */
  ghost predicate AreStacksOf(p: Profile, parents: seq<int>, m: nat, stacks: seq<Stack>, owners: seq<nat>)
    requires Good(p.nodes, parents) && m <= |p.nodes| && |p.samples| == |p.timeDeltas|
  {
    && |owners| == |stacks|
    && (forall k :: 0 <= k < |owners| ==> owners[k] < m && IsStackAt(p, parents, owners[k], stacks[k]))
    && (forall k, l :: 0 <= k < l < |owners| ==> owners[k] < owners[l])
    && forall i: nat :: i < m ==> (i in owners <==> p.nodes[i].id in p.samples)
  }

  lemma {:induction false} CountedIffSampled(p: Profile, id: int, n: nat)
    requires n <= |p.samples|
    ensures CountOf(p, id, n) > 0 <==> id in p.samples[..n]
  {
    if n > 0 {
      CountedIffSampled(p, id, n - 1);
      assert p.samples[..n] == p.samples[..n - 1] + [p.samples[n - 1]];
    }
  }

  lemma {:induction false} OneStackMore(p: Profile, parents: seq<int>, i: nat, stacks: seq<Stack>, owners: seq<nat>,
                                        s: Stack)
    requires Good(p.nodes, parents) && i < |p.nodes| && |p.samples| == |p.timeDeltas|
    requires AreStacksOf(p, parents, i, stacks, owners) && IsStackAt(p, parents, i, s) && p.nodes[i].id in p.samples
    ensures AreStacksOf(p, parents, i + 1, stacks + [s], owners + [i])
  {
    var more := owners + [i];
    assert forall j: nat :: j < i ==> (j in more <==> j in owners);
    assert more[|owners|] == i;
  }

  lemma {:induction false} StacksAreOfSampledNodes(p: Profile, parents: seq<int>, m: nat) returns (owners: seq<nat>)
    requires Good(p.nodes, parents) && m <= |p.nodes| && |p.samples| == |p.timeDeltas|
    ensures AreStacksOf(p, parents, m, StacksOf(p, parents, m), owners)
  {
    if m == 0 {
      owners := [];
    } else {
      owners := StacksAreOfSampledNodes(p, parents, m - 1);
      var id, before := p.nodes[m - 1].id, StacksOf(p, parents, m - 1);
      CountedIffSampled(p, id, |p.samples|);
      assert p.samples[..|p.samples|] == p.samples;
      if CountOf(p, id, |p.samples|) > 0 {
        var ups := FramesAreTheClimb(p.nodes, parents, m - 1);
        var s := Stack(FramesTo(p.nodes, parents, m - 1), WeightOf(p, id, |p.samples|), CountOf(p, id, |p.samples|));
        assert IsStackAt(p, parents, m - 1, s);
        OneStackMore(p, parents, m - 1, before, owners, s);
        owners := owners + [m - 1];
      } else {
        assert StacksOf(p, parents, m) == before + [] == before;
      }
    }
  }

  ghost predicate Reads(p: Profile, parents: seq<int>, r: ReadProfile) {
    && |p.samples| == |p.timeDeltas| && Good(p.nodes, parents) && Parented(p.nodes, parents)
    && r.stacks == StacksOf(p, parents, |p.nodes|) && r.wallMs == (p.endTime - p.startTime) / 1000.0
    && r.negativeDeltas == NegativesIn(p.timeDeltas)
  }

  ghost predicate KnownUpTo(p: Profile, n: nat) {
    n <= |p.samples| && forall j :: 0 <= j < n ==> HasId(p.nodes, p.samples[j])
  }

  /** The reason is a fault of the profile; a sample's is the first unknown one. */
  ghost predicate IsReason(p: Profile, reason: Failure) {
    match reason
    case EndBeforeStart => p.endTime < p.startTime
    case LengthsDiffer => |p.samples| != |p.timeDeltas|
    case UnknownSample(index) => index < |p.samples| && !HasId(p.nodes, p.samples[index]) && KnownUpTo(p, index)
    case _ => Explains(p.nodes, reason)
  }

  ghost predicate KnownSamples(p: Profile) { KnownUpTo(p, |p.samples|) }

  ghost function NegativesIn(deltas: seq<real>): nat {
    if deltas == [] then 0 else NegativesIn(deltas[..|deltas| - 1]) + if deltas[|deltas| - 1] < 0.0 then 1 else 0
  }

  ghost predicate Weighed(p: Profile, weights: seq<real>, counts: seq<nat>, j: nat) {
    && j <= |p.samples| == |p.timeDeltas| && |weights| == |counts| == |p.nodes|
    && forall i :: 0 <= i < |p.nodes| ==>
         weights[i] == WeightOf(p, p.nodes[i].id, j) && counts[i] == CountOf(p, p.nodes[i].id, j)
  }

  lemma {:induction false} AddSample(p: Profile, weights: seq<real>, counts: seq<nat>, j: nat, at: nat)
    requires Weighed(p, weights, counts, j) && UniqueIds(p.nodes) && j < |p.samples|
    requires at < |p.nodes| && p.nodes[at].id == p.samples[j]
    ensures Weighed(p, weights[at := weights[at] + Clamp(p.timeDeltas[j])], counts[at := counts[at] + 1], j + 1)
  {
    var n := j + 1;
    forall i | 0 <= i < |p.nodes|
      ensures WeightOf(p, p.nodes[i].id, n) == WeightOf(p, p.nodes[i].id, j)
              + (if i == at then Clamp(p.timeDeltas[j]) else 0.0)
      ensures CountOf(p, p.nodes[i].id, n) == CountOf(p, p.nodes[i].id, j) + (if i == at then 1 else 0)
    {
      assert i < at || i == at || at < i;
    }
  }

  lemma {:induction false} IndexIsId(p: Profile, index: map<int, nat>, id: int)
    requires Indexes(index, p.nodes, |p.nodes|)
    ensures id in index <==> HasId(p.nodes, id)
    ensures id in index ==> index[id] < |p.nodes| && p.nodes[index[id]].id == id
  {
  }

  lemma {:induction false} OneMoreDelta(deltas: seq<real>, j: nat)
    requires j < |deltas|
    ensures NegativesIn(deltas[..j + 1]) == NegativesIn(deltas[..j]) + if deltas[j] < 0.0 then 1 else 0
  {
    assert deltas[..j + 1][..j] == deltas[..j];
  }

  ghost predicate Weighing(p: Profile, weights: seq<real>, counts: seq<nat>, negativeDeltas: nat, j: nat) {
    && Weighed(p, weights, counts, j) && KnownUpTo(p, j)
    && negativeDeltas == NegativesIn(p.timeDeltas[..j])
  }

  lemma {:induction false} WeighOneMore(p: Profile, weights: seq<real>, counts: seq<nat>, negativeDeltas: nat, j: nat,
                                        at: nat)
    requires Weighing(p, weights, counts, negativeDeltas, j) && UniqueIds(p.nodes) && j < |p.samples|
    requires at < |p.nodes| && p.nodes[at].id == p.samples[j]
    ensures Weighing(p, weights[at := weights[at] + Clamp(p.timeDeltas[j])], counts[at := counts[at] + 1],
                     negativeDeltas + if p.timeDeltas[j] < 0.0 then 1 else 0, j + 1)
  {
    AddSample(p, weights, counts, j, at);
    OneMoreDelta(p.timeDeltas, j);
  }

  method Weigh(p: Profile, index: map<int, nat>)
    returns (failure: Option<Failure>, weights: seq<real>, counts: seq<nat>, negativeDeltas: nat)
    requires |p.samples| == |p.timeDeltas| && Indexes(index, p.nodes, |p.nodes|) && UniqueIds(p.nodes)
    ensures failure.Some? <==> !KnownSamples(p)
    ensures failure.Some? ==> IsReason(p, failure.value)
    ensures failure.None? ==> Weighed(p, weights, counts, |p.samples|) && negativeDeltas == NegativesIn(p.timeDeltas)
  {
    var weightUs, count := new real[|p.nodes|](_ => 0.0), new nat[|p.nodes|](_ => 0);
    negativeDeltas := 0;
    for j := 0 to |p.samples|
      invariant Weighing(p, weightUs[..], count[..], negativeDeltas, j)
    {
      var known := p.samples[j] in index;
      IndexIsId(p, index, p.samples[j]);
      if !known { return Some(UnknownSample(j)), [], [], 0; }
      var at := index[p.samples[j]];
      var delta := p.timeDeltas[j];
      WeighOneMore(p, weightUs[..], count[..], negativeDeltas, j, at);
      if delta < 0.0 {
        negativeDeltas := negativeDeltas + 1;
        delta := 0.0;
      }
      AddAt(weightUs, at, delta);
      CountAt(count, at);
    }
    assert p.timeDeltas[..|p.samples|] == p.timeDeltas;
    return None, weightUs[..], count[..], negativeDeltas;
  }

  /** `weightUs[nodeIndex] += delta` */
  method AddAt(a: array<real>, at: nat, delta: real)
    requires at < a.Length
    modifies a
    ensures a[..] == old(a[..])[at := old(a[at]) + delta]
  {
    a[at] := a[at] + delta;
  }

  /** `counts[nodeIndex]++` */
  method CountAt(a: array<nat>, at: nat)
    requires at < a.Length
    modifies a
    ensures a[..] == old(a[..])[at := old(a[at]) + 1]
  {
    a[at] := a[at] + 1;
  }

  method BuildStacks(p: Profile, parents: seq<int>, weights: seq<real>, counts: seq<nat>) returns (stacks: seq<Stack>)
    requires Good(p.nodes, parents) && Weighed(p, weights, counts, |p.samples|)
    ensures stacks == StacksOf(p, parents, |p.nodes|)
  {
    stacks := [];
    for i := 0 to |p.nodes|
      invariant stacks == StacksOf(p, parents, i)
    {
      if counts[i] == 0 { continue; }
      var frames := StackOf(p.nodes, parents, i);
      stacks := stacks + [Stack(frames, weights[i], counts[i])];
    }
  }

  /** readCpuProfile, after the schema check: it reads exactly the consistent forests whose samples are known. */
  method ReadCpuProfile(p: Profile) returns (r: Result<ReadProfile>, ghost parents: seq<int>)
    ensures r.Ok? <==> p.startTime <= p.endTime && |p.samples| == |p.timeDeltas| && IsForest(p.nodes) && KnownSamples(p)
    ensures r.Ok? ==> Reads(p, parents, r.value)
    ensures r.Ok? ==> exists owners :: AreStacksOf(p, parents, |p.nodes|, r.value.stacks, owners)
    ensures r.Fail? ==> IsReason(p, r.reason)
  {
    parents := [];
    if p.endTime < p.startTime { return Fail(EndBeforeStart), parents; }
    if |p.samples| != |p.timeDeltas| { return Fail(LengthsDiffer), parents; }
    var linked := LinkParents(p.nodes);
    if linked.Fail? { return Fail(linked.reason), parents; }
    var up, index := linked.value.0, linked.value.1;
    parents := up;
    var failure, weights, counts, negativeDeltas := Weigh(p, index);
    if failure.Some? { return Fail(failure.value), parents; }
    var stacks := BuildStacks(p, up, weights, counts);
    ghost var owners := StacksAreOfSampledNodes(p, up, |p.nodes|);
    r := Ok(ReadProfile((p.endTime - p.startTime) / 1000.0, stacks, negativeDeltas));
  }

  // ---- Conservation

  /** The weight of the stacks that have a frame; the others stood on the root alone. */
  ghost function SampledUs(stacks: seq<Stack>): real {
    if stacks == [] then 0.0
    else
      var last := stacks[|stacks| - 1];
      SampledUs(stacks[..|stacks| - 1]) + if last.frames == [] then 0.0 else last.weightUs
  }

  lemma {:induction false} SampledOneMore(stacks: seq<Stack>, s: Stack)
    ensures SampledUs(stacks + [s]) == SampledUs(stacks) + if s.frames == [] then 0.0 else s.weightUs
  {
    assert (stacks + [s])[..|stacks|] == stacks;
  }

  /** A node under which a sample shows up in the leaderboard. */
  ghost predicate OffRootNode(p: Profile, parents: seq<int>, i: int)
    requires Good(p.nodes, parents)
  {
    0 <= i < |p.nodes| && exists n: nat :: ShowsAt(p.nodes, parents, i, n)
  }

  lemma {:induction false} OffRootIffFrames(p: Profile, parents: seq<int>, i: nat)
    requires Good(p.nodes, parents) && i < |p.nodes|
    ensures OffRootNode(p, parents, i) <==> FramesTo(p.nodes, parents, i) != []
  {
    var ups := FramesAreTheClimb(p.nodes, parents, i);
    if ups != [] { assert ShowsAt(p.nodes, parents, i, ups[0]); }
  }

  /** Some node that is shown has the id. */
  ghost predicate ShownId(p: Profile, shown: seq<bool>, id: int)
    requires |shown| == |p.nodes|
  {
    exists i :: 0 <= i < |p.nodes| && shown[i] && p.nodes[i].id == id
  }

  /** The clamped time of the first `n` samples that were at shown nodes. */
  ghost function TimeAt(p: Profile, shown: seq<bool>, n: nat): real
    requires |shown| == |p.nodes| && n <= |p.samples| == |p.timeDeltas|
  {
    if n == 0 then 0.0
    else TimeAt(p, shown, n - 1) + if ShownId(p, shown, p.samples[n - 1]) then Clamp(p.timeDeltas[n - 1]) else 0.0
  }

  /** The clamped time of the first `n` samples that were not on the root. */
  ghost function OffRootTime(p: Profile, parents: seq<int>, n: nat): real
    requires Good(p.nodes, parents) && n <= |p.samples| == |p.timeDeltas|
  {
    TimeAt(p, Shown(p, parents), n)
  }

  /** Which nodes have a frame in their stack. */
  ghost function Shown(p: Profile, parents: seq<int>): (shown: seq<bool>)
    requires Good(p.nodes, parents)
    ensures |shown| == |p.nodes| && forall i :: 0 <= i < |p.nodes| ==> shown[i] == OffRootNode(p, parents, i)
  {
    seq(|p.nodes|, i requires 0 <= i < |p.nodes| => OffRootNode(p, parents, i))
  }

  /** The time of the first `n` samples, gathered by those of the first `m` nodes that are shown. */
  ghost function NodeTime(p: Profile, shown: seq<bool>, m: nat, n: nat): real
    requires |shown| == |p.nodes| && m <= |p.nodes| && n <= |p.samples| == |p.timeDeltas|
  {
    if m == 0 then 0.0
    else NodeTime(p, shown, m - 1, n) + if shown[m - 1] then WeightOf(p, p.nodes[m - 1].id, n) else 0.0
  }

  lemma {:induction false} NoCountNoWeight(p: Profile, id: int, n: nat)
    requires n <= |p.samples| == |p.timeDeltas| && CountOf(p, id, n) == 0
    ensures WeightOf(p, id, n) == 0.0
  {
    if n > 0 { NoCountNoWeight(p, id, n - 1); }
  }

  lemma {:induction false} NodeAddsItsStack(p: Profile, parents: seq<int>, i: nat)
    requires Good(p.nodes, parents) && i < |p.nodes| && |p.samples| == |p.timeDeltas|
    ensures SampledUs(StacksOf(p, parents, i + 1))
         == SampledUs(StacksOf(p, parents, i))
            + if OffRootNode(p, parents, i) then WeightOf(p, p.nodes[i].id, |p.samples|) else 0.0
  {
    var id, before := p.nodes[i].id, StacksOf(p, parents, i);
    OffRootIffFrames(p, parents, i);
    if CountOf(p, id, |p.samples|) == 0 {
      NoCountNoWeight(p, id, |p.samples|);
      assert StacksOf(p, parents, i + 1) == before + [] == before;
    } else {
      SampledOneMore(before,
          Stack(FramesTo(p.nodes, parents, i), WeightOf(p, id, |p.samples|), CountOf(p, id, |p.samples|)));
    }
  }

  lemma {:induction false} StacksHoldNodeTime(p: Profile, parents: seq<int>, m: nat)
    requires Good(p.nodes, parents) && m <= |p.nodes| && |p.samples| == |p.timeDeltas|
    ensures SampledUs(StacksOf(p, parents, m)) == NodeTime(p, Shown(p, parents), m, |p.samples|)
  {
    if m > 0 {
      StacksHoldNodeTime(p, parents, m - 1);
      NodeAddsItsStack(p, parents, m - 1);
    }
  }

  lemma {:induction false} HitOnlyAt(p: Profile, i: nat, n: nat, at: nat)
    requires n < |p.samples| == |p.timeDeltas| && i < |p.nodes|
    requires UniqueIds(p.nodes) && at < |p.nodes| && p.nodes[at].id == p.samples[n]
    ensures WeightOf(p, p.nodes[i].id, n + 1) == WeightOf(p, p.nodes[i].id, n)
            + if i == at then Clamp(p.timeDeltas[n]) else 0.0
  {
    assert p.nodes[i].id == p.samples[n] <==> i == at;
  }

  /** One more sample adds its time to the one node it hit. */
  lemma {:induction false} OneSampleMore(p: Profile, shown: seq<bool>, m: nat, n: nat, at: nat)
    requires |shown| == |p.nodes| && m <= |p.nodes| && n < |p.samples| == |p.timeDeltas|
    requires UniqueIds(p.nodes) && at < |p.nodes| && p.nodes[at].id == p.samples[n]
    ensures NodeTime(p, shown, m, n + 1)
         == NodeTime(p, shown, m, n) + if at < m && shown[at] then Clamp(p.timeDeltas[n]) else 0.0
  {
    if m > 0 {
      OneSampleMore(p, shown, m - 1, n, at);
      HitOnlyAt(p, m - 1, n, at);
    }
  }

  lemma {:induction false} NoSampleNoTime(p: Profile, shown: seq<bool>, m: nat)
    requires |shown| == |p.nodes| && m <= |p.nodes| && |p.samples| == |p.timeDeltas|
    ensures NodeTime(p, shown, m, 0) == 0.0
  {
    if m > 0 { NoSampleNoTime(p, shown, m - 1); }
  }

  lemma {:induction false} SampleAddsItsTime(p: Profile, shown: seq<bool>, n: nat)
    requires UniqueIds(p.nodes) && |shown| == |p.nodes| && n < |p.samples| == |p.timeDeltas|
    requires HasId(p.nodes, p.samples[n])
    ensures NodeTime(p, shown, |p.nodes|, n + 1)
         == NodeTime(p, shown, |p.nodes|, n)
            + if ShownId(p, shown, p.samples[n]) then Clamp(p.timeDeltas[n]) else 0.0
  {
    var at :| 0 <= at < |p.nodes| && p.nodes[at].id == p.samples[n];
    OneSampleMore(p, shown, |p.nodes|, n, at);
    assert ShownId(p, shown, p.samples[n]) <==> shown[at];
  }

  /** Time gathered node by node is time gathered sample by sample. */
  lemma {:induction false} NodesHoldSampleTime(p: Profile, shown: seq<bool>, n: nat)
    requires UniqueIds(p.nodes) && |shown| == |p.nodes| && KnownUpTo(p, n) && |p.samples| == |p.timeDeltas|
    ensures NodeTime(p, shown, |p.nodes|, n) == TimeAt(p, shown, n)
  {
    if n == 0 {
      NoSampleNoTime(p, shown, |p.nodes|);
    } else {
      NodesHoldSampleTime(p, shown, n - 1);
      SampleAddsItsTime(p, shown, n - 1);
    }
  }

  /** No sample time is lost or made up: the stacks weigh what the samples off the root lasted. */
  lemma {:induction false} StacksHoldTheSampleTime(p: Profile, parents: seq<int>, r: ReadProfile)
    requires Reads(p, parents, r) && UniqueIds(p.nodes) && KnownSamples(p)
    ensures SampledUs(r.stacks) == OffRootTime(p, parents, |p.samples|)
  {
    StacksHoldNodeTime(p, parents, |p.nodes|);
    NodesHoldSampleTime(p, Shown(p, parents), |p.samples|);
  }

  lemma {:induction false} WeightsAreNotNegative(p: Profile, id: int, n: nat)
    requires n <= |p.samples| == |p.timeDeltas|
    ensures WeightOf(p, id, n) >= 0.0
  {
    if n > 0 { WeightsAreNotNegative(p, id, n - 1); }
  }

  ghost predicate NoNegativeWeight(stacks: seq<Stack>) {
    forall i :: 0 <= i < |stacks| ==> stacks[i].weightUs >= 0.0
  }

  lemma {:induction false} StackWeightsAreNotNegative(p: Profile, parents: seq<int>, m: nat)
    requires Good(p.nodes, parents) && m <= |p.nodes| && |p.samples| == |p.timeDeltas|
    ensures NoNegativeWeight(StacksOf(p, parents, m))
  {
    if m > 0 {
      StackWeightsAreNotNegative(p, parents, m - 1);
      WeightsAreNotNegative(p, p.nodes[m - 1].id, |p.samples|);
    }
  }
}
