/**
 * The module-graph warmer: warmModuleGraph of scripts/warmViteModules.ts. A concurrent walk of a module graph behind a
 * semaphore that hands a slot straight to the next waiter. The code between two awaits is one step, and any visit that
 * can go on may take the next step, so a run is a sequence of actions. The server's answers are a function of the key.
 */
module WarmModules {

  const MAX_MODULES := 20000

  /** The path and query of a module on Vite's origin. */
  datatype Key = Key(text: string)

  const ROOT := Key("/")

  /** What the server answers for a key. `children` are the same-origin keys that the body names. */
  datatype Answer =
    | Served(children: seq<Key>)
    | NotFound                    // 4xx
    | Failed                      // 3xx, 5xx or a network failure
    | BrokenBody                  // 2xx, but its body cannot be read

  type Server = Key -> Answer

  datatype Phase =
    | Queued     // in `waiting`
    | Slotted    // holds a slot, fetch not started
    | Fetching   // holds a slot, fetch or body read in flight
    | Closed     // visit has released its slot
    | Orphaned   // claimed, but a sibling's claim threw before the visit began

  datatype State = State(seen: set<Key>, phase: map<Key, Phase>, waiting: seq<Key>, active: nat,
                         served: nat, notFound: nat, failures: nat, thrown: bool)

  ghost predicate HasSlot(s: State, k: Key) { k in s.phase && (s.phase[k].Slotted? || s.phase[k].Fetching?) }

  ghost function Busy(s: State): set<Key> { set k | k in s.phase && (s.phase[k].Slotted? || s.phase[k].Fetching?) }

  // ---- The semaphore

  ghost function Acquire(s: State, k: Key, concurrency: real): State {
    if s.active as real < concurrency then
      s.(active := s.active + 1, phase := s.phase[k := Slotted])
    else
      s.(waiting := s.waiting + [k], phase := s.phase[k := Queued])
  }

  /** The visit of `k` gives its slot to the first waiter, or back. */
  ghost function Release(s: State, k: Key): State
    requires s.waiting == [] ==> s.active > 0
  {
    var closed := s.(phase := s.phase[k := Closed]);
    if s.waiting != [] then
      closed.(phase := closed.phase[s.waiting[0] := Slotted], waiting := s.waiting[1..])
    else
      closed.(active := s.active - 1)
  }

  // ---- Claims and visits

  /** `.filter(claim)`: the keys of `ks` that were new; `overflow` when a claim threw. */
  datatype Claims = Claims(seen: set<Key>, added: seq<Key>, overflow: bool)

  ghost function Claim(seen: set<Key>, ks: seq<Key>): Claims
    decreases |ks|
  {
    if ks == [] then Claims(seen, [], false)
    else if ks[0] in seen then Claim(seen, ks[1..])
    else if |seen| >= MAX_MODULES then Claims(seen, [], true)
    else
      var rest := Claim(seen + {ks[0]}, ks[1..]);
      rest.(added := [ks[0]] + rest.added)
  }

  /** `children.map(visit)`, each up to its first await. */
  ghost function VisitAll(s: State, ks: seq<Key>, concurrency: real): State
    decreases |ks|
  {
    if ks == [] then s else VisitAll(Acquire(s.(seen := s.seen + {ks[0]}), ks[0], concurrency), ks[1..], concurrency)
  }

  ghost function Orphan(s: State, ks: seq<Key>): State
    decreases |ks|
  {
    if ks == [] then s.(thrown := true)
    else Orphan(s.(seen := s.seen + {ks[0]}, phase := s.phase[ks[0] := Orphaned]), ks[1..])
  }

  ghost function Children(answer: Answer): seq<Key> { if answer.Served? then answer.children else [] }

  datatype Action =
    | Fetch(k: Key)
    | Finish(k: Key)   // the answer is in and its body was read, or the fetch failed
    | Abort(k: Key)    // the signal aborted the visit before or during its fetch

  ghost predicate Enabled(s: State, a: Action) {
    match a
    case Fetch(k) => k in s.phase && s.phase[k].Slotted?
    case Finish(k) => k in s.phase && s.phase[k].Fetching?
    case Abort(k) => HasSlot(s, k)
  }

  ghost function Count(s: State, answer: Answer): State {
    match answer
    case Served(_) => s.(served := s.served + 1)
    case NotFound => s.(notFound := s.notFound + 1)
    case Failed => s.(failures := s.failures + 1)
    case BrokenBody => s.(served := s.served + 1, failures := s.failures + 1)
  }

  ghost function Apply(s: State, a: Action, server: Server, concurrency: real): State
    requires Enabled(s, a) && (s.waiting == [] ==> s.active > 0)
  {
    match a
    case Fetch(k) => s.(phase := s.phase[k := Fetching])
    case Abort(k) => Release(s, k).(thrown := true)
    case Finish(k) =>
      var t := Release(Count(s, server(k)), k);
      var claims := Claim(t.seen, Children(server(k)));
      if claims.overflow then Orphan(t, claims.added) else VisitAll(t, claims.added, concurrency)
  }

  const EMPTY := State({}, map[], [], 0, 0, 0, 0, false)

  /** `claim("/"); visit("/")`. */
  ghost function Initial(concurrency: real): State { VisitAll(EMPTY, [ROOT], concurrency) }

  // ---- Invariant

  ghost predicate Waits(s: State, i: nat) {
    i < |s.waiting| && s.waiting[i] in s.phase && s.phase[s.waiting[i]].Queued?
  }

  ghost predicate Apart(s: State, i: nat, j: nat) { i < |s.waiting| && j < |s.waiting| && s.waiting[i] != s.waiting[j] }

  /** The semaphore's own invariant. */
  ghost predicate Slots(s: State, concurrency: real) {
    && s.active == |Busy(s)|
    && (s.active as real) < concurrency + 1.0
    && (s.waiting != [] ==> s.active as real >= concurrency)
    && (forall i: nat :: i < |s.waiting| ==> Waits(s, i))
    && (forall i: nat, j: nat :: i < j < |s.waiting| ==> Apart(s, i, j))
    && (forall k :: k in s.phase && s.phase[k].Queued? ==> k in s.waiting)
    && s.seen == s.phase.Keys
  }

  lemma {:induction false} BusyIs(s: State, keys: set<Key>)
    requires forall k :: k in keys <==> HasSlot(s, k)
    ensures Busy(s) == keys
  {
  }

  lemma {:induction false} AcquireKeepsSlots(s: State, k: Key, concurrency: real)
    requires Slots(s, concurrency) && k !in s.seen
    ensures Slots(Acquire(s.(seen := s.seen + {k}), k, concurrency), concurrency)
  {
    var t := Acquire(s.(seen := s.seen + {k}), k, concurrency);
    BusyIs(t, if s.active as real < concurrency then Busy(s) + {k} else Busy(s));
    forall i: nat | i < |t.waiting| ensures Waits(t, i) { if i < |s.waiting| { assert Waits(s, i); } }
    forall i: nat, j: nat | i < j < |t.waiting| ensures Apart(t, i, j) {
      if j < |s.waiting| { assert Apart(s, i, j); } else { assert Waits(s, i); }
    }
    forall q | q in t.phase && t.phase[q].Queued? ensures q in t.waiting {
      if q == k { assert t.waiting[|s.waiting|] == k; }
      else { assert q in s.waiting; var i :| 0 <= i < |s.waiting| && s.waiting[i] == q; assert t.waiting[i] == q; }
    }
  }

  lemma {:induction false} ReleaseKeepsSlots(s: State, k: Key, concurrency: real)
    requires Slots(s, concurrency) && concurrency >= 1.0 && HasSlot(s, k)
    ensures (s.waiting == [] ==> s.active > 0) && Slots(Release(s, k), concurrency)
  {
    assert k in Busy(s);
    if s.waiting != [] {
      HandOverKeepsSlots(s, k, concurrency);
    } else {
      BusyIs(Release(s, k), Busy(s) - {k});
    }
  }

  lemma {:induction false} HandOverKeepsSlots(s: State, k: Key, concurrency: real)
    requires Slots(s, concurrency) && HasSlot(s, k) && s.waiting != []
    ensures Slots(Release(s, k), concurrency)
  {
    var t, next := Release(s, k), s.waiting[0];
    assert Waits(s, 0) && k in Busy(s) && next !in Busy(s);
    BusyIs(t, Busy(s) - {k} + {next});
    forall i: nat | i < |t.waiting| ensures Waits(t, i) { assert Waits(s, i + 1) && Apart(s, 0, i + 1); }
    forall i: nat, j: nat | i < j < |t.waiting| ensures Apart(t, i, j) { assert Apart(s, i + 1, j + 1); }
    forall q | q in t.phase && t.phase[q].Queued? ensures q in t.waiting {
      var i :| 0 <= i < |s.waiting| && s.waiting[i] == q;
      assert t.waiting[i - 1] == q;
    }
  }

  // ---- What a claim and its visits do

  ghost predicate Fresh(seen: set<Key>, ks: seq<Key>) {
    && (forall i :: 0 <= i < |ks| ==> ks[i] !in seen)
    && (forall i, j :: 0 <= i < j < |ks| ==> ks[i] != ks[j])
  }

  ghost function Elements(ks: seq<Key>): set<Key> { set k | k in ks }

  ghost predicate ClaimsWell(seen: set<Key>, ks: seq<Key>, c: Claims) {
    && Fresh(seen, c.added) && Elements(c.added) <= Elements(ks)
    && (!c.overflow ==> Elements(ks) <= seen + Elements(c.added))
    && |seen + Elements(c.added)| <= MAX_MODULES
  }

  lemma {:induction false} ElementsCons(k: Key, ks: seq<Key>)
    ensures Elements([k] + ks) == {k} + Elements(ks)
  {
  }

  lemma {:induction false} FreshCons(seen: set<Key>, k: Key, ks: seq<Key>)
    requires k !in seen && Fresh(seen + {k}, ks)
    ensures Fresh(seen, [k] + ks)
  {
  }

  lemma {:induction false} Regroup(a: set<Key>, b: set<Key>, c: set<Key>)
    ensures a + (b + c) == a + b + c
  {
  }

  lemma {:induction false} ClaimOne(seen: set<Key>, k: Key, ks: seq<Key>, rest: Claims)
    requires k !in seen && ClaimsWell(seen + {k}, ks, rest)
    ensures ClaimsWell(seen, [k] + ks, rest.(added := [k] + rest.added))
  {
    FreshCons(seen, k, rest.added);
    ElementsCons(k, ks);
    ElementsCons(k, rest.added);
    Regroup(seen, {k}, Elements(rest.added));
  }

  lemma {:induction false} ClaimSkip(seen: set<Key>, k: Key, ks: seq<Key>, rest: Claims)
    requires k in seen && ClaimsWell(seen, ks, rest)
    ensures ClaimsWell(seen, [k] + ks, rest)
  {
    ElementsCons(k, ks);
  }

  lemma {:induction false} ClaimNone(seen: set<Key>, ks: seq<Key>, overflow: bool)
    requires |seen| <= MAX_MODULES && (ks == [] || overflow)
    ensures ClaimsWell(seen, ks, Claims(seen, [], overflow))
  {
    assert Elements([]) == {};
    assert seen + {} == seen;
  }

  lemma {:induction false} ClaimSpec(seen: set<Key>, ks: seq<Key>)
    requires |seen| <= MAX_MODULES
    ensures ClaimsWell(seen, ks, Claim(seen, ks))
    decreases |ks|
  {
    if ks == [] {
      ClaimNone(seen, ks, false);
    } else {
      var k, tail := ks[0], ks[1..];
      assert ks == [k] + tail;
      if k in seen {
        ClaimSpec(seen, tail);
        ClaimSkip(seen, k, tail, Claim(seen, tail));
      } else if |seen| >= MAX_MODULES {
        ClaimNone(seen, ks, true);
      } else {
        ClaimSpec(seen + {k}, tail);
        ClaimOne(seen, k, tail, Claim(seen + {k}, tail));
      }
    }
  }

  /** Nothing but the new keys changed. */
  ghost predicate Extends(s: State, t: State, ks: seq<Key>) {
    && t.seen == s.seen + Elements(ks) && t.phase.Keys == s.phase.Keys + Elements(ks)
    && (forall k :: k in s.phase ==> t.phase[k] == s.phase[k])
    && t.served == s.served && t.notFound == s.notFound && t.failures == s.failures
  }

  lemma {:induction false} VisitAllSpec(s: State, ks: seq<Key>, concurrency: real)
    requires Slots(s, concurrency) && Fresh(s.seen, ks)
    ensures var t := VisitAll(s, ks, concurrency);
      && Slots(t, concurrency) && Extends(s, t, ks) && t.thrown == s.thrown
      && forall k :: k in ks ==> t.phase[k].Queued? || t.phase[k].Slotted?
    decreases |ks|
  {
    if ks != [] {
      var n := Acquire(s.(seen := s.seen + {ks[0]}), ks[0], concurrency);
      AcquireKeepsSlots(s, ks[0], concurrency);
      assert Fresh(n.seen, ks[1..]);
      VisitAllSpec(n, ks[1..], concurrency);
      assert Elements(ks) == {ks[0]} + Elements(ks[1..]);
    }
  }

  lemma {:induction false} OrphanSpec(s: State, ks: seq<Key>, concurrency: real)
    requires Slots(s, concurrency) && Fresh(s.seen, ks)
    ensures var t := Orphan(s, ks);
      && Slots(t, concurrency) && Extends(s, t, ks) && t.thrown
      && forall k :: k in ks ==> t.phase[k].Orphaned?
    decreases |ks|
  {
    if ks == [] {
      BusyIs(Orphan(s, ks), Busy(s));
      SameSlots(s, Orphan(s, ks), concurrency);
    } else {
      var n := s.(seen := s.seen + {ks[0]}, phase := s.phase[ks[0] := Orphaned]);
      BusyIs(n, Busy(s));
      SameSlots(s, n, concurrency);
      OrphanSpec(n, ks[1..], concurrency);
      assert Elements(ks) == {ks[0]} + Elements(ks[1..]);
    }
  }

  lemma {:induction false} SameSlots(s: State, n: State, concurrency: real)
    requires Slots(s, concurrency) && n.active == s.active && n.waiting == s.waiting && Busy(n) == Busy(s)
             && n.seen == n.phase.Keys
    requires forall k :: k in s.phase ==> k in n.phase && n.phase[k] == s.phase[k]
    requires forall k :: k in n.phase && n.phase[k].Queued? ==> k in s.phase
    ensures Slots(n, concurrency)
  {
    forall i: nat | i < |n.waiting| ensures Waits(n, i) { assert Waits(s, i); }
    forall i: nat, j: nat | i < j < |n.waiting| ensures Apart(n, i, j) { assert Apart(s, i, j); }
  }

  // ---- The walk

  ghost predicate IsPath(p: seq<Key>, server: Server) {
    && |p| > 0 && p[0] == ROOT
    && forall i :: 0 <= i < |p| - 1 ==> p[i + 1] in Children(server(p[i]))
  }

  /** The import closure of the page. */
  ghost predicate InClosure(k: Key, server: Server) { exists p :: IsPath(p, server) && p[|p| - 1] == k }

  ghost function ClosedAs(s: State, server: Server, kinds: set<int>): set<Key> {
    set k | k in s.phase && s.phase[k].Closed? && KindOf(server(k)) in kinds
  }

  ghost function KindOf(answer: Answer): int {
    match answer case Served(_) => 0 case NotFound => 1 case Failed => 2 case BrokenBody => 3
  }

  ghost predicate Followed(s: State, server: Server, k: Key) {
    k in s.phase && (s.phase[k].Closed? ==> Elements(Children(server(k))) <= s.seen) && !s.phase[k].Orphaned?
  }

  ghost predicate AllInClosure(s: State, server: Server) { forall k :: k in s.seen ==> InClosure(k, server) }

  ghost predicate AllFollowed(s: State, server: Server) { forall k :: k in s.phase ==> Followed(s, server, k) }

  ghost function Tally(s: State, server: Server, kinds: set<int>): nat { |ClosedAs(s, server, kinds)| }

  ghost predicate Counted(s: State, server: Server) {
    && s.served == Tally(s, server, {0, 3}) && s.notFound == Tally(s, server, {1})
    && s.failures == Tally(s, server, {2, 3})
  }

  ghost predicate Walk(s: State, server: Server) {
    && ROOT in s.seen && |s.seen| <= MAX_MODULES && AllInClosure(s, server)
    && (!s.thrown ==> AllFollowed(s, server) && Counted(s, server))
  }

  ghost predicate Inv(s: State, server: Server, concurrency: real) {
    Slots(s, concurrency) && Walk(s, server)
  }

  lemma {:induction false} FetchKeepsSlots(s: State, k: Key, concurrency: real)
    requires Slots(s, concurrency) && Enabled(s, Fetch(k))
    ensures Slots(s.(phase := s.phase[k := Fetching]), concurrency)
  {
    var t := s.(phase := s.phase[k := Fetching]);
    BusyIs(t, Busy(s));
    forall i: nat | i < |t.waiting| ensures Waits(t, i) { assert Waits(s, i); }
    forall i: nat, j: nat | i < j < |t.waiting| ensures Apart(t, i, j) { assert Apart(s, i, j); }
  }

  lemma {:induction false} FetchKeepsTally(s: State, k: Key, server: Server, kinds: set<int>)
    requires Enabled(s, Fetch(k))
    ensures Tally(s.(phase := s.phase[k := Fetching]), server, kinds) == Tally(s, server, kinds)
  {
    assert ClosedAs(s.(phase := s.phase[k := Fetching]), server, kinds) == ClosedAs(s, server, kinds);
  }

  lemma {:induction false} FetchKeepsInv(s: State, k: Key, server: Server, concurrency: real)
    requires Inv(s, server, concurrency) && Enabled(s, Fetch(k))
    ensures Inv(s.(phase := s.phase[k := Fetching]), server, concurrency)
  {
    var t := s.(phase := s.phase[k := Fetching]);
    FetchKeepsSlots(s, k, concurrency);
    if !s.thrown {
      forall q | q in t.phase ensures Followed(t, server, q) { assert Followed(s, server, q); }
      FetchKeepsTally(s, k, server, {0, 3});
      FetchKeepsTally(s, k, server, {1});
      FetchKeepsTally(s, k, server, {2, 3});
    }
  }

  lemma {:induction false} AbortKeepsInv(s: State, k: Key, server: Server, concurrency: real)
    requires Inv(s, server, concurrency) && concurrency >= 1.0 && Enabled(s, Abort(k))
    ensures (s.waiting == [] ==> s.active > 0) && Inv(Release(s, k).(thrown := true), server, concurrency)
  {
    ReleaseKeepsSlots(s, k, concurrency);
    var t := Release(s, k);
    BusyIs(t.(thrown := true), Busy(t));
    SameSlots(t, t.(thrown := true), concurrency);
  }

  /** The state of a finished visit before its children are claimed. */
  ghost function Answered(s: State, k: Key, server: Server): State
    requires s.waiting == [] ==> s.active > 0
  {
    Release(Count(s, server(k)), k)
  }

  lemma {:induction false} AnsweredKeepsSlots(s: State, k: Key, server: Server, concurrency: real)
    requires Slots(s, concurrency) && concurrency >= 1.0 && Enabled(s, Finish(k))
    ensures (s.waiting == [] ==> s.active > 0) && Slots(Answered(s, k, server), concurrency)
  {
    var c := Count(s, server(k));
    BusyIs(c, Busy(s));
    SameSlots(s, c, concurrency);
    ReleaseKeepsSlots(c, k, concurrency);
  }

  ghost function Adds(kind: int, kinds: set<int>): nat { if kind in kinds then 1 else 0 }

  /** Phases come in this order. */
  ghost function Rank(p: Phase): nat { if p.Queued? then 0 else if p.Slotted? then 1 else 2 }

  /** What the answer to `k` changes before any child is claimed. */
  ghost predicate AnswerStep(s: State, t: State, k: Key, server: Server) {
    && k in s.phase && s.phase[k].Fetching? && t.seen == s.seen && t.phase.Keys == s.phase.Keys && t.phase[k].Closed?
    && (forall q :: q in s.phase ==> Rank(t.phase[q]) >= Rank(s.phase[q]))
    && (forall q :: q in s.phase && q != k ==>
         (t.phase[q].Closed? <==> s.phase[q].Closed?) && (t.phase[q].Orphaned? <==> s.phase[q].Orphaned?))
    && t.served == s.served + Adds(KindOf(server(k)), {0, 3})
    && t.notFound == s.notFound + Adds(KindOf(server(k)), {1})
    && t.failures == s.failures + Adds(KindOf(server(k)), {2, 3})
    && t.thrown == s.thrown
  }

  /** The part of an answer that is about phases. */
  ghost predicate ReleaseStep(s: State, t: State, k: Key) {
    && k in s.phase && s.phase[k].Fetching? && t.seen == s.seen && t.phase.Keys == s.phase.Keys && t.phase[k].Closed?
    && (forall q :: q in s.phase ==> Rank(t.phase[q]) >= Rank(s.phase[q]))
    && (forall q :: q in s.phase && q != k ==>
         (t.phase[q].Closed? <==> s.phase[q].Closed?) && (t.phase[q].Orphaned? <==> s.phase[q].Orphaned?))
    && t.served == s.served && t.notFound == s.notFound && t.failures == s.failures && t.thrown == s.thrown
  }

  lemma {:induction false} ReleaseSteps(s: State, k: Key)
    requires (s.waiting == [] ==> s.active > 0) && k in s.phase && s.phase[k].Fetching?
    requires s.waiting != [] ==> s.waiting[0] in s.phase && s.phase[s.waiting[0]].Queued?
    ensures ReleaseStep(s, Release(s, k), k)
  {
    var t := Release(s, k);
    var next := if s.waiting != [] then s.waiting[0] else k;
    assert t.phase == s.phase[k := Closed] || t.phase == s.phase[k := Closed][next := Slotted];
    assert t.phase.Keys == s.phase.Keys;
  }

  ghost predicate CountStep(s: State, c: State, k: Key, server: Server) {
    && c.phase == s.phase && c.seen == s.seen && c.waiting == s.waiting && c.active == s.active && c.thrown == s.thrown
    && c.served == s.served + Adds(KindOf(server(k)), {0, 3})
    && c.notFound == s.notFound + Adds(KindOf(server(k)), {1})
    && c.failures == s.failures + Adds(KindOf(server(k)), {2, 3})
  }

  lemma {:induction false} CountSteps(s: State, k: Key, server: Server)
    ensures CountStep(s, Count(s, server(k)), k, server)
  {
  }

  lemma {:induction false} BothSteps(s: State, c: State, t: State, k: Key, server: Server)
    requires CountStep(s, c, k, server) && ReleaseStep(c, t, k)
    ensures AnswerStep(s, t, k, server)
  {
  }

  lemma {:induction false} AnsweredSteps(s: State, k: Key, server: Server)
    requires (s.waiting == [] ==> s.active > 0) && k in s.phase && s.phase[k].Fetching?
    requires s.waiting != [] ==> s.waiting[0] in s.phase && s.phase[s.waiting[0]].Queued?
    ensures AnswerStep(s, Answered(s, k, server), k, server)
  {
    var c := Count(s, server(k));
    CountSteps(s, k, server);
    ReleaseSteps(c, k);
    BothSteps(s, c, Release(c, k), k, server);
  }

  lemma {:induction false} OneMoreTally(s: State, t: State, k: Key, server: Server, kinds: set<int>)
    requires AnswerStep(s, t, k, server)
    ensures Tally(t, server, kinds) == Tally(s, server, kinds) + Adds(KindOf(server(k)), kinds)
  {
    assert k !in ClosedAs(s, server, kinds);
    assert ClosedAs(t, server, kinds) == ClosedAs(s, server, kinds) + if KindOf(server(k)) in kinds then {k} else {};
  }

  lemma {:induction false} AnsweredCounts(s: State, t: State, k: Key, server: Server)
    requires AnswerStep(s, t, k, server) && Counted(s, server)
    ensures Counted(t, server)
  {
    OneMoreTally(s, t, k, server, {0, 3});
    OneMoreTally(s, t, k, server, {1});
    OneMoreTally(s, t, k, server, {2, 3});
  }

  lemma {:induction false} ExtendsKeepsTally(s: State, t: State, ks: seq<Key>, server: Server, kinds: set<int>)
    requires Extends(s, t, ks) && s.seen == s.phase.Keys && Fresh(s.seen, ks)
    requires forall k :: k in ks ==> !t.phase[k].Closed?
    ensures Tally(t, server, kinds) == Tally(s, server, kinds)
  {
    forall k | k in ks ensures k !in s.phase {
      var i :| 0 <= i < |ks| && ks[i] == k;
    }
    assert ClosedAs(t, server, kinds) == ClosedAs(s, server, kinds);
  }

  lemma {:induction false} ExtendsKeepsCounted(s: State, t: State, ks: seq<Key>, server: Server)
    requires Counted(s, server) && Extends(s, t, ks) && s.seen == s.phase.Keys && Fresh(s.seen, ks)
    requires forall k :: k in ks ==> !t.phase[k].Closed?
    ensures Counted(t, server)
  {
    ExtendsKeepsTally(s, t, ks, server, {0, 3});
    ExtendsKeepsTally(s, t, ks, server, {1});
    ExtendsKeepsTally(s, t, ks, server, {2, 3});
  }

  lemma {:induction false} ChildIsInClosure(k: Key, child: Key, server: Server)
    requires InClosure(k, server) && child in Children(server(k))
    ensures InClosure(child, server)
  {
    var p :| IsPath(p, server) && p[|p| - 1] == k;
    var q := p + [child];
    assert IsPath(q, server) && q[|q| - 1] == child;
  }

  /** After the answer only `k` itself may lack its children. */
  ghost predicate FollowedBut(s: State, server: Server, k: Key) {
    forall q :: q in s.phase && q != k ==> Followed(s, server, q)
  }

  lemma {:induction false} AnsweredFollows(s: State, t: State, k: Key, server: Server)
    requires AnswerStep(s, t, k, server) && AllFollowed(s, server)
    ensures FollowedBut(t, server, k)
  {
    forall q | q in t.phase && q != k ensures Followed(t, server, q) { assert Followed(s, server, q); }
  }

  lemma {:induction false} VisitedFollows(t: State, u: State, k: Key, ks: seq<Key>, server: Server)
    requires FollowedBut(t, server, k) && Extends(t, u, ks) && k in t.phase && t.phase[k].Closed?
    requires forall q :: q in ks ==> u.phase[q].Queued? || u.phase[q].Slotted?
    requires Elements(Children(server(k))) <= t.seen + Elements(ks)
    requires t.seen == t.phase.Keys && Fresh(t.seen, ks)
    ensures AllFollowed(u, server)
  {
    forall q | q in u.phase ensures Followed(u, server, q) {
      if q in t.phase && q != k { assert Followed(t, server, q); }
    }
  }

  lemma {:induction false} StillInClosure(s: State, u: State, k: Key, ks: seq<Key>, server: Server)
    requires AllInClosure(s, server) && k in s.seen && Elements(ks) <= Elements(Children(server(k)))
    requires u.seen == s.seen + Elements(ks)
    ensures AllInClosure(u, server)
  {
    forall q | q in u.seen ensures InClosure(q, server) {
      if q !in s.seen {
        assert q in Elements(Children(server(k)));
        ChildIsInClosure(k, q, server);
      }
    }
  }

  /** The children of `k` were claimed as `ks` and, unless a claim threw, visited. */
  ghost predicate ClaimStep(t: State, u: State, k: Key, ks: seq<Key>, overflow: bool, server: Server) {
    && t.seen == t.phase.Keys && Fresh(t.seen, ks) && Extends(t, u, ks)
    && Elements(ks) <= Elements(Children(server(k))) && |u.seen| <= MAX_MODULES
    && (overflow ==> u.thrown)
    && (!overflow ==> u.thrown == t.thrown && Elements(Children(server(k))) <= t.seen + Elements(ks)
                      && forall q :: q in ks ==> u.phase[q].Queued? || u.phase[q].Slotted?)
  }

  lemma {:induction false} FinishKeepsWalk(s: State, t: State, u: State, k: Key, ks: seq<Key>, overflow: bool,
                                           server: Server)
    requires Walk(s, server) && s.seen == s.phase.Keys
    requires AnswerStep(s, t, k, server) && ClaimStep(t, u, k, ks, overflow, server)
    ensures Walk(u, server)
  {
    StillInClosure(s, u, k, ks, server);
    if !u.thrown {
      AnsweredFollows(s, t, k, server);
      VisitedFollows(t, u, k, ks, server);
      AnsweredCounts(s, t, k, server);
      ExtendsKeepsCounted(t, u, ks, server);
    }
  }

  lemma {:induction false} ClaimsStep(t: State, k: Key, server: Server, concurrency: real)
    requires Slots(t, concurrency) && |t.seen| <= MAX_MODULES
    ensures var c := Claim(t.seen, Children(server(k)));
      var u := if c.overflow then Orphan(t, c.added) else VisitAll(t, c.added, concurrency);
      Slots(u, concurrency) && ClaimStep(t, u, k, c.added, c.overflow, server)
  {
    var c := Claim(t.seen, Children(server(k)));
    ClaimSpec(t.seen, Children(server(k)));
    if c.overflow { OrphanSpec(t, c.added, concurrency); } else { VisitAllSpec(t, c.added, concurrency); }
  }

  /** A finished visit: the answer, then the children. */
  ghost predicate FinishStep(s: State, u: State, k: Key, server: Server) {
    exists t, ks, overflow :: AnswerStep(s, t, k, server) && ClaimStep(t, u, k, ks, overflow, server)
  }

  lemma {:induction false} FinishKeepsInv(s: State, k: Key, server: Server, concurrency: real)
    requires Inv(s, server, concurrency) && concurrency >= 1.0 && Enabled(s, Finish(k))
    ensures (s.waiting == [] ==> s.active > 0) && Inv(Apply(s, Finish(k), server, concurrency), server, concurrency)
    ensures FinishStep(s, Apply(s, Finish(k), server, concurrency), k, server)
  {
    AnsweredKeepsSlots(s, k, server, concurrency);
    assert s.waiting != [] ==> Waits(s, 0);
    var t := Answered(s, k, server);
    AnsweredSteps(s, k, server);
    ClaimsStep(t, k, server, concurrency);
    var c := Claim(t.seen, Children(server(k)));
    FinishKeepsWalk(s, t, Apply(s, Finish(k), server, concurrency), k, c.added, c.overflow, server);
  }

  lemma {:induction false} StepKeepsInv(s: State, a: Action, server: Server, concurrency: real)
    requires Inv(s, server, concurrency) && concurrency >= 1.0 && Enabled(s, a)
    ensures (s.waiting == [] ==> s.active > 0) && Inv(Apply(s, a, server, concurrency), server, concurrency)
  {
    match a
    case Fetch(k) =>
      FetchKeepsInv(s, k, server, concurrency);
      ReleaseKeepsSlots(s, k, concurrency);
    case Finish(k) => FinishKeepsInv(s, k, server, concurrency);
    case Abort(k) => AbortKeepsInv(s, k, server, concurrency);
  }

  lemma {:induction false} InitialInv(server: Server, concurrency: real)
    requires concurrency >= 1.0
    ensures Inv(Initial(concurrency), server, concurrency)
  {
    var ks: seq<Key> := [ROOT];
    BusyIs(EMPTY, {});
    VisitAllSpec(EMPTY, ks, concurrency);
    var s := Initial(concurrency);
    assert s.seen == {ROOT} by { assert Elements(ks) == {ROOT}; }
    assert IsPath(ks, server) && ks[|ks| - 1] == ROOT;
    forall k | k in s.phase ensures Followed(s, server, k) {}
    forall kinds: set<int> ensures ClosedAs(s, server, kinds) == {} {
      assert forall k :: k in s.phase ==> !s.phase[k].Closed?;
    }
  }

  // ---- Whole runs

  ghost predicate Run(s: State, actions: seq<Action>, t: State, server: Server, concurrency: real)
    decreases |actions|
  {
    if actions == [] then s == t
    else Enabled(s, actions[0]) && (s.waiting == [] ==> s.active > 0)
         && Run(Apply(s, actions[0], server, concurrency), actions[1..], t, server, concurrency)
  }

  ghost predicate Reachable(s: State, server: Server, concurrency: real) {
    exists actions :: Run(Initial(concurrency), actions, s, server, concurrency)
  }

  lemma {:induction false} RunKeepsInv(s: State, actions: seq<Action>, t: State, server: Server, concurrency: real)
    requires Inv(s, server, concurrency) && concurrency >= 1.0 && Run(s, actions, t, server, concurrency)
    ensures Inv(t, server, concurrency)
    decreases |actions|
  {
    if actions != [] {
      StepKeepsInv(s, actions[0], server, concurrency);
      RunKeepsInv(Apply(s, actions[0], server, concurrency), actions[1..], t, server, concurrency);
    }
  }

  lemma {:induction false} ReachableInv(s: State, server: Server, concurrency: real)
    requires concurrency >= 1.0 && Reachable(s, server, concurrency)
    ensures Inv(s, server, concurrency)
  {
    var actions :| Run(Initial(concurrency), actions, s, server, concurrency);
    InitialInv(server, concurrency);
    RunKeepsInv(Initial(concurrency), actions, s, server, concurrency);
  }

  /**
   * In every run the slots in use are the ones counted, handed-over slots included. They stay below
   * `concurrency` rounded up, which is `concurrency` itself when it is a whole number, and a request
   * waits only while every slot is taken.
   */
  lemma {:induction false} SlotsAreBounded(s: State, server: Server, concurrency: real)
    requires concurrency >= 1.0 && Reachable(s, server, concurrency)
    ensures |Busy(s)| == s.active && (s.active as real) < concurrency + 1.0
    ensures concurrency == concurrency.Floor as real ==> s.active <= concurrency.Floor
    ensures s.waiting != [] ==> s.active as real >= concurrency
  {
    ReachableInv(s, server, concurrency);
  }

  lemma {:induction false} VisitOne(s: State, k: Key, concurrency: real)
    ensures VisitAll(s, [k], concurrency) == Acquire(s.(seen := s.seen + {k}), k, concurrency)
  {
    assert [k][1..] == [];
    var t := Acquire(s.(seen := s.seen + {k}), k, concurrency);
    assert VisitAll(t, [], concurrency) == t;
  }

  // ---- When `concurrency` is a limit

  /** The page is alone until it is done, so what runs later leaves it out. */
  ghost predicate RootFirst(s: State) {
    ROOT in s.phase && (s.phase[ROOT].Closed? || (HasSlot(s, ROOT) && s.seen == {ROOT}))
  }

  lemma {:induction false} ReleaseKeepsRootFirst(s: State, k: Key, concurrency: real)
    requires Slots(s, concurrency) && concurrency >= 1.0 && HasSlot(s, k) && RootFirst(s)
    ensures (s.waiting == [] ==> s.active > 0) && RootFirst(Release(s, k))
  {
    ReleaseKeepsSlots(s, k, concurrency);
    if s.waiting != [] { assert Waits(s, 0); }
    assert k in s.seen;
  }

  lemma {:induction false} FetchKeepsRootFirst(s: State, k: Key)
    requires RootFirst(s) && Enabled(s, Fetch(k))
    ensures RootFirst(s.(phase := s.phase[k := Fetching]))
  {
  }

  lemma {:induction false} FinishKeepsRootFirst(s: State, k: Key, server: Server, concurrency: real)
    requires Inv(s, server, concurrency) && concurrency >= 1.0 && Enabled(s, Finish(k)) && RootFirst(s)
    ensures (s.waiting == [] ==> s.active > 0) && RootFirst(Apply(s, Finish(k), server, concurrency))
  {
    FinishKeepsInv(s, k, server, concurrency);
    assert k in s.seen;
    FinishedRootIsClosed(s, Apply(s, Finish(k), server, concurrency), k, server);
  }

  lemma {:induction false} StepKeepsRootFirst(s: State, a: Action, server: Server, concurrency: real)
    requires Inv(s, server, concurrency) && concurrency >= 1.0 && Enabled(s, a) && RootFirst(s)
    ensures (s.waiting == [] ==> s.active > 0) && RootFirst(Apply(s, a, server, concurrency))
  {
    match a
    case Fetch(k) =>
      ReleaseKeepsRootFirst(s, k, concurrency);
      FetchKeepsRootFirst(s, k);
    case Abort(k) => ReleaseKeepsRootFirst(s, k, concurrency);
    case Finish(k) => FinishKeepsRootFirst(s, k, server, concurrency);
  }

  lemma {:induction false} FinishedRootIsClosed(s: State, u: State, k: Key, server: Server)
    requires FinishStep(s, u, k, server) && ROOT in s.phase && (s.phase[ROOT].Closed? || k == ROOT)
    ensures RootFirst(u)
  {
    var t, ks, overflow :| AnswerStep(s, t, k, server) && ClaimStep(t, u, k, ks, overflow, server);
  }

  lemma {:induction false} RunKeepsRootFirst(s: State, actions: seq<Action>, t: State, server: Server,
                                             concurrency: real)
    requires Inv(s, server, concurrency) && concurrency >= 1.0 && Run(s, actions, t, server, concurrency)
             && RootFirst(s)
    ensures RootFirst(t)
    decreases |actions|
  {
    if actions != [] {
      StepKeepsInv(s, actions[0], server, concurrency);
      StepKeepsRootFirst(s, actions[0], server, concurrency);
      RunKeepsRootFirst(Apply(s, actions[0], server, concurrency), actions[1..], t, server, concurrency);
    }
  }

  lemma {:induction false} StartsAtRoot(concurrency: real)
    requires concurrency >= 1.0
    ensures Initial(concurrency) == State({ROOT}, map[ROOT := Slotted], [], 1, 0, 0, 0, false)
  {
    VisitOne(EMPTY, ROOT, concurrency);
  }

  /** No run holds more slots than there are modules besides the page. */
  lemma {:induction false} FewerThanModules(s: State, server: Server, concurrency: real)
    requires concurrency >= 1.0 && Reachable(s, server, concurrency)
    ensures s.active <= MAX_MODULES - 1
  {
    ReachableInv(s, server, concurrency);
    var actions :| Run(Initial(concurrency), actions, s, server, concurrency);
    InitialInv(server, concurrency);
    StartsAtRoot(concurrency);
    RunKeepsRootFirst(Initial(concurrency), actions, s, server, concurrency);
    if s.phase[ROOT].Closed? {
      SmallerSet(Busy(s), s.seen - {ROOT});
    } else {
      SmallerSet(Busy(s), {ROOT});
    }
  }

  lemma {:induction false} SmallerSet(a: set<Key>, b: set<Key>)
    requires a <= b
    ensures |a| <= |b|
  {
    assert |b - a| == |b| - |a|;
  }

  // A page that names `n` modules.

  ghost function Dots(n: nat): (s: string)
    ensures |s| == n
  {
    if n == 0 then "" else "." + Dots(n - 1)
  }

  ghost function Many(n: nat): (ks: seq<Key>)
    ensures |ks| == n && Fresh({ROOT}, ks)
  {
    var ks := seq(n, i requires 0 <= i < n => Key("/m" + Dots(i)));
    assert forall i :: 0 <= i < n ==> |ks[i].text| == i + 2 && |ROOT.text| == 1;
    assert forall i, j :: 0 <= i < j < n ==> |ks[i].text| != |ks[j].text|;
    ks
  }

  ghost function PageOf(n: nat): Server { (k: Key) => if k == ROOT then Served(Many(n)) else NotFound }

  lemma {:induction false} ClaimTakesAll(seen: set<Key>, ks: seq<Key>)
    requires Fresh(seen, ks) && |seen| + |ks| <= MAX_MODULES
    ensures Claim(seen, ks).added == ks && !Claim(seen, ks).overflow
    decreases |ks|
  {
    if ks != [] {
      assert ks == [ks[0]] + ks[1..] && Fresh(seen + {ks[0]}, ks[1..]);
      ClaimTakesAll(seen + {ks[0]}, ks[1..]);
    }
  }

  /** Below the limit every visit gets a slot at once. */
  lemma {:induction false} VisitsFillSlots(s: State, ks: seq<Key>, concurrency: real)
    requires s.active + |ks| <= concurrency.Floor + 1 && concurrency != concurrency.Floor as real
    ensures VisitAll(s, ks, concurrency).active == s.active + |ks|
    decreases |ks|
  {
    if ks != [] {
      VisitsFillSlots(Acquire(s.(seen := s.seen + {ks[0]}), ks[0], concurrency), ks[1..], concurrency);
    }
  }

  /** A fractional `concurrency` below the module limit is exceeded by a page that names enough modules. */
  lemma {:induction false} FractionalConcurrencyIsExceeded(concurrency: real) returns (s: State, server: Server)
    requires 1.0 <= concurrency < (MAX_MODULES - 1) as real && concurrency != concurrency.Floor as real
    ensures Reachable(s, server, concurrency) && s.active as real > concurrency
  {
    var n := concurrency.Floor + 1;
    server := PageOf(n);
    var s0 := Initial(concurrency);
    StartsAtRoot(concurrency);
    var s1 := Apply(s0, Fetch(ROOT), server, concurrency);
    s := Apply(s1, Finish(ROOT), server, concurrency);
    var t := Answered(s1, ROOT, server);
    assert t.seen == {ROOT} && t.active == 0;
    ClaimTakesAll(t.seen, Many(n));
    VisitsFillSlots(t, Many(n), concurrency);
    assert s.active == n;
    var actions := [Fetch(ROOT), Finish(ROOT)];
    assert actions[1..] == [Finish(ROOT)] && actions[1..][1..] == [];
    assert Run(s1, actions[1..], s, server, concurrency);
    assert Run(s0, actions, s, server, concurrency);
  }

  ghost predicate IsLimit(concurrency: real) {
    forall s, server :: Reachable(s, server, concurrency) ==> s.active as real <= concurrency
  }

  /** `concurrency` bounds the slots in every run if and only if it is whole, or no run can have that many visits. */
  lemma {:induction false} LimitIffWhole(concurrency: real)
    requires concurrency >= 1.0
    ensures IsLimit(concurrency) <==>
            concurrency == concurrency.Floor as real || concurrency >= (MAX_MODULES - 1) as real
  {
    if concurrency == concurrency.Floor as real || concurrency >= (MAX_MODULES - 1) as real {
      forall s, server | Reachable(s, server, concurrency) ensures s.active as real <= concurrency {
        SlotsAreBounded(s, server, concurrency);
        FewerThanModules(s, server, concurrency);
      }
    } else {
      var s, server := FractionalConcurrencyIsExceeded(concurrency);
    }
  }

  /** While a visit is open, some visit holds a slot and can go on: no waiter waits for nobody. */
  lemma {:induction false} NoStall(s: State, server: Server, concurrency: real, k: Key) returns (a: Action)
    requires concurrency >= 1.0 && Reachable(s, server, concurrency)
    requires k in s.phase && !s.phase[k].Closed? && !s.phase[k].Orphaned?
    ensures Enabled(s, a) && !a.Abort?
  {
    ReachableInv(s, server, concurrency);
    var q := k;
    if s.phase[k].Queued? {
      assert k in s.waiting;
      assert |Busy(s)| > 0;
      q :| q in Busy(s);
    }
    a := if s.phase[q].Slotted? then Fetch(q) else Finish(q);
  }

  // ---- Each key is fetched once

  lemma {:induction false} ReleaseAdvances(s: State, q: Key, k: Key)
    requires HasSlot(s, q) && k in s.phase && (s.waiting == [] ==> s.active > 0)
    requires s.waiting != [] ==> s.waiting[0] in s.phase && s.phase[s.waiting[0]].Queued?
    ensures k in Release(s, q).phase && Rank(Release(s, q).phase[k]) >= Rank(s.phase[k])
  {
  }

  lemma {:induction false} PhasesOnlyAdvance(s: State, a: Action, server: Server, concurrency: real, k: Key)
    requires Inv(s, server, concurrency) && concurrency >= 1.0 && Enabled(s, a) && (s.waiting == [] ==> s.active > 0)
    requires k in s.phase
    ensures var t := Apply(s, a, server, concurrency); k in t.phase && Rank(t.phase[k]) >= Rank(s.phase[k])
  {
    assert s.waiting != [] ==> Waits(s, 0);
    match a
    case Fetch(_) =>
    case Abort(q) => ReleaseAdvances(s, q, k);
    case Finish(q) =>
      FinishKeepsInv(s, q, server, concurrency);
      FinishAdvances(s, Apply(s, a, server, concurrency), q, server, k);
  }

  lemma {:induction false} FinishAdvances(s: State, u: State, q: Key, server: Server, k: Key)
    requires FinishStep(s, u, q, server) && k in s.phase
    ensures k in u.phase && Rank(u.phase[k]) >= Rank(s.phase[k])
  {
    var t, ks, overflow :| AnswerStep(s, t, q, server) && ClaimStep(t, u, q, ks, overflow, server);
  }

  ghost function Fetches(actions: seq<Action>, k: Key): nat {
    if actions == [] then 0 else (if actions[0] == Fetch(k) then 1 else 0) + Fetches(actions[1..], k)
  }

  lemma {:induction false} FetchedOnce(s: State, actions: seq<Action>, t: State, server: Server, concurrency: real,
                                       k: Key)
    requires Inv(s, server, concurrency) && concurrency >= 1.0 && Run(s, actions, t, server, concurrency)
    ensures Fetches(actions, k) <= if k in s.phase && Rank(s.phase[k]) == 2 then 0 else 1
    decreases |actions|
  {
    if actions != [] {
      StepKeepsInv(s, actions[0], server, concurrency);
      if k in s.phase { PhasesOnlyAdvance(s, actions[0], server, concurrency, k); }
      FetchedOnce(Apply(s, actions[0], server, concurrency), actions[1..], t, server, concurrency, k);
    }
  }

  /** No key is ever fetched twice. */
  lemma {:induction false} EachKeyIsFetchedAtMostOnce(actions: seq<Action>, s: State, server: Server,
                                                      concurrency: real, k: Key)
    requires concurrency >= 1.0 && Run(Initial(concurrency), actions, s, server, concurrency)
    ensures Fetches(actions, k) <= 1
  {
    InitialInv(server, concurrency);
    FetchedOnce(Initial(concurrency), actions, s, server, concurrency, k);
  }

  // ---- The result

  /** `return { served, notFound }`: every visit ended and nothing threw or failed. */
  ghost predicate ReturnsNormally(s: State) {
    !s.thrown && s.failures == 0 && forall k :: k in s.phase ==> s.phase[k].Closed?
  }

  lemma {:induction false} PathIsSeen(s: State, server: Server, p: seq<Key>)
    requires ROOT in s.seen && s.seen == s.phase.Keys && AllFollowed(s, server) && IsPath(p, server)
    requires forall k :: k in s.phase ==> s.phase[k].Closed?
    ensures p[|p| - 1] in s.seen
    decreases |p|
  {
    if |p| > 1 {
      var q := p[..|p| - 1];
      PathIsSeen(s, server, q);
      assert Followed(s, server, q[|q| - 1]) && q[|q| - 1] == p[|p| - 2];
      assert p[|p| - 2 + 1] in Elements(Children(server(p[|p| - 2])));
    }
  }

  /** A normal return has asked for exactly the import closure of the page, and counted every answer. */
  lemma {:induction false} WarmsTheClosure(s: State, server: Server, concurrency: real)
    requires concurrency >= 1.0 && Reachable(s, server, concurrency) && ReturnsNormally(s)
    ensures forall k :: k in s.seen <==> InClosure(k, server)
    ensures s.served == |set k | k in s.seen && server(k).Served?|
    ensures s.notFound == |set k | k in s.seen && server(k).NotFound?|
    ensures s.served + s.notFound == |s.seen| && forall k :: k in s.seen ==> server(k).Served? || server(k).NotFound?
    ensures |s.seen| <= MAX_MODULES
  {
    ReachableInv(s, server, concurrency);
    forall k | InClosure(k, server) ensures k in s.seen {
      var p :| IsPath(p, server) && p[|p| - 1] == k;
      PathIsSeen(s, server, p);
    }
    SeenIsCounted(s, server);
  }

  lemma {:induction false} SeenIsCounted(s: State, server: Server)
    requires Counted(s, server) && s.seen == s.phase.Keys && ReturnsNormally(s)
    ensures s.served == |set k | k in s.seen && server(k).Served?|
    ensures s.notFound == |set k | k in s.seen && server(k).NotFound?|
    ensures s.served + s.notFound == |s.seen| && forall k :: k in s.seen ==> server(k).Served? || server(k).NotFound?
  {
    var good, missing := ClosedAs(s, server, {0, 3}), ClosedAs(s, server, {1});
    assert ClosedAs(s, server, {2, 3}) == {};
    forall k | k in s.seen ensures k in good || k in missing {
      assert k !in ClosedAs(s, server, {2, 3});
    }
    assert good + missing == s.seen;
    assert good !! missing;
    assert good == set k | k in s.seen && server(k).Served?;
    assert missing == set k | k in s.seen && server(k).NotFound?;
  }

  // ---- Exactly when it returns

  ghost predicate Aborted(actions: seq<Action>) { exists a :: a in actions && a.Abort? }

  /** The closure has at most 20000 keys. */
  ghost predicate IsSmall(server: Server) { exists keys :: |keys| <= 20000 && HoldsClosure(keys, server) }

  ghost predicate HoldsClosure(keys: set<Key>, server: Server) { forall k :: InClosure(k, server) ==> k in keys }

  ghost predicate IsServable(server: Server) {
    forall k :: InClosure(k, server) ==> server(k).Served? || server(k).NotFound?
  }

  /** A claim throws only when the limit is reached and a further key is new. */
  lemma {:induction false} OverflowNeedsMore(seen: set<Key>, ks: seq<Key>)
    requires Claim(seen, ks).overflow
    ensures |seen + Elements(Claim(seen, ks).added)| >= MAX_MODULES
    ensures exists more :: more in ks && more !in seen + Elements(Claim(seen, ks).added)
    decreases |ks|
  {
    var k, tail := ks[0], ks[1..];
    assert ks == [k] + tail;
    if k in seen {
      OverflowNeedsMore(seen, tail);
    } else if |seen| >= MAX_MODULES {
      assert seen + Elements([]) == seen;
    } else {
      var rest := Claim(seen + {k}, tail);
      OverflowNeedsMore(seen + {k}, tail);
      ElementsCons(k, rest.added);
      Regroup(seen, {k}, Elements(rest.added));
    }
  }

  lemma {:induction false} SmallClosureNeverOverflows(seen: set<Key>, ks: seq<Key>, server: Server)
    requires IsSmall(server) && |seen| <= MAX_MODULES
    requires forall k :: k in seen || k in ks ==> InClosure(k, server)
    ensures !Claim(seen, ks).overflow
  {
    var c := Claim(seen, ks);
    if c.overflow {
      OverflowNeedsMore(seen, ks);
      ClaimSpec(seen, ks);
      var keys :| |keys| <= 20000 && HoldsClosure(keys, server);
      var more :| more in ks && more !in seen + Elements(c.added);
      SmallerSet(seen + Elements(c.added) + {more}, keys);
      assert false;
    }
  }

  lemma {:induction false} VisitAllThrowsNothing(s: State, ks: seq<Key>, concurrency: real)
    ensures VisitAll(s, ks, concurrency).thrown == s.thrown
    decreases |ks|
  {
    if ks != [] {
      VisitAllThrowsNothing(Acquire(s.(seen := s.seen + {ks[0]}), ks[0], concurrency), ks[1..], concurrency);
    }
  }

  lemma {:induction false} OrphanThrows(s: State, ks: seq<Key>)
    ensures Orphan(s, ks).thrown
    decreases |ks|
  {
    if ks != [] { OrphanThrows(s.(seen := s.seen + {ks[0]}, phase := s.phase[ks[0] := Orphaned]), ks[1..]); }
  }

  /** What `claim` and `visit` do after the answer for `k`. */
  lemma {:induction false} ClaimThrows(t: State, k: Key, server: Server, concurrency: real)
    requires |t.seen| <= MAX_MODULES && InClosure(k, server) && forall q :: q in t.seen ==> InClosure(q, server)
    ensures var c := Claim(t.seen, Children(server(k)));
      var u := if c.overflow then Orphan(t, c.added) else VisitAll(t, c.added, concurrency);
      (t.thrown ==> u.thrown) && (IsSmall(server) && !t.thrown ==> !u.thrown)
  {
    var ks := Children(server(k));
    VisitAllThrowsNothing(t, Claim(t.seen, ks).added, concurrency);
    OrphanThrows(t, Claim(t.seen, ks).added);
    if IsSmall(server) {
      forall q | q in t.seen || q in ks ensures InClosure(q, server) {
        if q in ks { ChildIsInClosure(k, q, server); }
      }
      SmallClosureNeverOverflows(t.seen, ks, server);
    }
  }

  lemma {:induction false} AnsweredThrowsNothing(s: State, k: Key, server: Server)
    requires s.waiting == [] ==> s.active > 0
    ensures Answered(s, k, server).thrown == s.thrown && Answered(s, k, server).seen == s.seen
  {
  }

  lemma {:induction false} StepThrows(s: State, a: Action, server: Server, concurrency: real)
    requires Inv(s, server, concurrency) && concurrency >= 1.0 && Enabled(s, a) && (s.waiting == [] ==> s.active > 0)
    ensures s.thrown || a.Abort? ==> Apply(s, a, server, concurrency).thrown
    ensures IsSmall(server) && !s.thrown && !a.Abort? ==> !Apply(s, a, server, concurrency).thrown
  {
    if a.Finish? {
      AnsweredThrowsNothing(s, a.k, server);
      ClaimThrows(Answered(s, a.k, server), a.k, server, concurrency);
    }
  }

  lemma {:induction false} RunThrows(s: State, actions: seq<Action>, t: State, server: Server, concurrency: real)
    requires Inv(s, server, concurrency) && concurrency >= 1.0 && Run(s, actions, t, server, concurrency)
    ensures s.thrown || Aborted(actions) ==> t.thrown
    ensures IsSmall(server) && !s.thrown && !Aborted(actions) ==> !t.thrown
    decreases |actions|
  {
    if actions != [] {
      var a, rest := actions[0], actions[1..];
      StepThrows(s, a, server, concurrency);
      StepKeepsInv(s, a, server, concurrency);
      RunThrows(Apply(s, a, server, concurrency), rest, t, server, concurrency);
      assert actions == [a] + rest;
      assert Aborted(actions) <==> a.Abort? || Aborted(rest);
    }
  }

  lemma {:induction false} GoodRunReturns(s: State, server: Server, concurrency: real)
    requires concurrency >= 1.0 && Reachable(s, server, concurrency) && forall a :: !Enabled(s, a)
    requires !s.thrown && IsServable(server)
    ensures ReturnsNormally(s)
  {
    ReachableInv(s, server, concurrency);
    assert ClosedAs(s, server, {2, 3}) == {};
    forall k | k in s.phase ensures s.phase[k].Closed? {
      assert Followed(s, server, k);
      if !s.phase[k].Closed? { var a := NoStall(s, server, concurrency, k); }
    }
  }

  lemma {:induction false} ReturnedIsSmallAndServable(s: State, server: Server, concurrency: real)
    requires concurrency >= 1.0 && Reachable(s, server, concurrency) && ReturnsNormally(s)
    ensures IsSmall(server) && IsServable(server)
  {
    WarmsTheClosure(s, server, concurrency);
    assert HoldsClosure(s.seen, server);
  }

  /**
   * A run that can make no further step returns its counts exactly when nothing aborted it, the closure has at most
   * 20000 keys, and the server has every one of them or says that it has not.
   */
  lemma {:induction false} ReturnsIff(actions: seq<Action>, s: State, server: Server, concurrency: real)
    requires concurrency >= 1.0 && Run(Initial(concurrency), actions, s, server, concurrency)
    requires forall a :: !Enabled(s, a)
    ensures ReturnsNormally(s) <==> !Aborted(actions) && IsSmall(server) && IsServable(server)
  {
    InitialInv(server, concurrency);
    VisitAllThrowsNothing(EMPTY, [ROOT], concurrency);
    RunThrows(Initial(concurrency), actions, s, server, concurrency);
    assert Reachable(s, server, concurrency);
    if ReturnsNormally(s) { ReturnedIsSmallAndServable(s, server, concurrency); }
    if !s.thrown && IsServable(server) { GoodRunReturns(s, server, concurrency); }
  }
}
