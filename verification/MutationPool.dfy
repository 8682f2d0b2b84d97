/** The worker pool: run_all of scripts/mutate/mutate_report.py. */
module MutationPool {
  /*
   * A pool of threads runs the sites on worker copies that pass through one queue. Every statement that
   * touches shared state is one step, and any thread may take the next step, so a run is a sequence of actions.
   */

  /** What the queue holds: a worker copy, or Python's None once no worker is left. */
  datatype Token = Worker(id: nat) | Nobody

  datatype Outcome = NoTest | NoWorkerLeft | Ran | Crashed

  datatype Row = Row(site: nat, outcome: Outcome)

  /** How far one call of `one(site)` got. */
  datatype Phase =
    | Pending                      // not started
    | Blocked                      // at free.get()
    | Holding(w: nat)              // inside runner()
    | Returning(w: nat, row: Row)  // in `finally`, about to put the worker back
    | Retiring(w: nat, row: Row)   // in `finally`, the worker's copy is mutated or unreadable
    | Bouncing                     // got None, about to put it back
    | Finished(row: Row)

  /** `dirty` holds the workers whose copy of the last mutated file differs from the root's. */
  datatype State = State(planned: seq<bool>, threads: nat, next: nat, phases: seq<Phase>, queue: seq<Token>,
                         alive: int, dirty: set<nat>)

  datatype Action =
    | Start                                        // a free thread takes the next site
    | Get(i: nat)
    | Bounce(i: nat)
    | Return(i: nat)                               // the runner returned and restored the file
    | Crash(i: nat, mutated: bool, readable: bool) // the runner raised; did the copy stay mutated, can it be read
    | PutBack(i: nat)
    | Retire(i: nat)

  predicate Busy(p: Phase) { !p.Pending? && !p.Finished? }

  ghost function Running(s: State): set<nat> { set i: nat | i < |s.phases| && Busy(s.phases[i]) }

  ghost predicate At(s: State, i: nat) { i < |s.phases| }

  ghost predicate Enabled(s: State, a: Action) {
    match a
    case Start => s.next < |s.phases| && s.next < |s.planned| && |Running(s)| < s.threads
    case Get(i) => At(s, i) && s.phases[i].Blocked? && s.queue != []
    case Bounce(i) => At(s, i) && s.phases[i].Bouncing?
    case Return(i) => At(s, i) && s.phases[i].Holding?
    case Crash(i, _, _) => At(s, i) && s.phases[i].Holding?
    case PutBack(i) => At(s, i) && s.phases[i].Returning?
    case Retire(i) => At(s, i) && s.phases[i].Retiring?
  }

  ghost function Apply(s: State, a: Action): State
    requires Enabled(s, a)
  {
    match a
    case Start =>
      s.(phases := s.phases[s.next := if s.planned[s.next] then Blocked else Finished(Row(s.next, NoTest))],
          next := s.next + 1)
    case Get(i) =>
      s.(phases := s.phases[i := match s.queue[0] case Worker(w) => Holding(w) case Nobody => Bouncing],
          queue := s.queue[1..])
    case Bounce(i) =>
      s.(phases := s.phases[i := Finished(Row(i, NoWorkerLeft))], queue := s.queue + [Nobody])
    case Return(i) =>
      s.(phases := s.phases[i := Returning(s.phases[i].w, Row(i, Ran))])
    case Crash(i, mutated, readable) =>
      var w, row := s.phases[i].w, Row(i, Crashed);
      s.(phases := s.phases[i := if readable && !mutated then Returning(w, row) else Retiring(w, row)],
         dirty := if mutated then s.dirty + {w} else s.dirty)
    case PutBack(i) =>
      s.(phases := s.phases[i := Finished(s.phases[i].row)], queue := s.queue + [Worker(s.phases[i].w)])
    case Retire(i) =>
      s.(phases := s.phases[i := Finished(s.phases[i].row)], alive := s.alive - 1,
         queue := if s.alive - 1 == 0 then s.queue + [Nobody] else s.queue)
  }

  ghost function Initial(planned: seq<bool>, workers: nat): State {
    State(planned, workers, 0, seq(|planned|, _ => Pending), seq(workers, i requires 0 <= i < workers => Worker(i)),
        workers, {})
  }

  // ---- Where every worker is

  datatype Place = InQueue | With(i: nat)

  ghost predicate Has(p: Phase, w: nat) { (p.Holding? || p.Returning? || p.Retiring?) && p.w == w }

  ghost predicate Located(s: State, place: map<nat, Place>, w: nat) {
    w in place && match place[w]
      case InQueue => Worker(w) in s.queue
      case With(i) => At(s, i) && Has(s.phases[i], w)
  }

  ghost predicate QueueSlot(s: State, place: map<nat, Place>, k: nat) {
    k < |s.queue| && (s.queue[k].Worker? ==> s.queue[k].id in place && place[s.queue[k].id] == InQueue)
  }

  ghost predicate PhaseSlot(s: State, place: map<nat, Place>, i: nat) {
    && At(s, i) && i < |s.planned|
    && (s.phases[i].Pending? <==> i >= s.next)
    && match s.phases[i]
      case Holding(w) => w in place && place[w] == With(i) && s.planned[i]
      case Returning(w, row) => w in place && place[w] == With(i) && s.planned[i] && row.site == i
          && row.outcome in {Ran, Crashed}
      case Retiring(w, row) => w in place && place[w] == With(i) && s.planned[i] && row == Row(i, Crashed)
      case Finished(row) => row.site == i && (row.outcome.NoTest? <==> !s.planned[i])
          && (row.outcome.NoWorkerLeft? ==> s.alive == 0)
      case Bouncing => s.alive == 0 && s.planned[i]
      case Blocked => s.planned[i]
      case Pending => true
  }

  ghost predicate Untouched(s: State, place: map<nat, Place>, w: nat) {
    w in place ==> place[w].With? && At(s, place[w].i) && s.phases[place[w].i].Retiring?
  }

  ghost predicate SoleToken(s: State, k: nat, l: nat) { k < |s.queue| && l < |s.queue| && s.queue[k] != s.queue[l] }

  ghost predicate SoleBounce(s: State, i: nat, j: nat) {
    At(s, i) && At(s, j) && !(s.phases[i].Bouncing? && s.phases[j].Bouncing?)
  }

  /** A None is on its way: in the queue, or with a thread that is about to put it back. */
  ghost predicate NobodyAround(s: State) {
    Nobody in s.queue || exists i: nat :: At(s, i) && s.phases[i].Bouncing?
  }

  ghost predicate Inv(s: State, place: map<nat, Place>) {
    && s.threads > 0 && |s.planned| == |s.phases| && s.next <= |s.phases|
    && s.alive == |place|
    && (forall w: nat :: w in place ==> Located(s, place, w))
    && (forall k: nat :: k < |s.queue| ==> QueueSlot(s, place, k))
    && (forall i: nat :: At(s, i) ==> PhaseSlot(s, place, i))
    && (forall w: nat :: w in s.dirty ==> Untouched(s, place, w))
    && (forall k: nat, l: nat :: k < l < |s.queue| ==> SoleToken(s, k, l))
    && (forall i: nat, j: nat :: i < j && At(s, j) ==> SoleBounce(s, i, j))
    && (Nobody in s.queue ==> s.alive == 0 && forall i: nat :: At(s, i) ==> !s.phases[i].Bouncing?)
    && (s.alive == 0 ==> NobodyAround(s))
  }

  /** The placement after an action. */
  ghost function Moved(s: State, place: map<nat, Place>, a: Action): map<nat, Place>
    requires Enabled(s, a)
  {
    match a
    case Get(i) => (match s.queue[0] case Worker(w) => place[w := With(i)] case Nobody => place)
    case PutBack(i) => place[s.phases[i].w := InQueue]
    case Retire(i) => place - {s.phases[i].w}
    case _ => place
  }

  lemma {:induction false} StartKeepsInv(s: State, place: map<nat, Place>)
    requires Inv(s, place) && Enabled(s, Start)
    ensures Inv(Apply(s, Start), Moved(s, place, Start))
  {
    var t := Apply(s, Start);
    assert PhaseSlot(s, place, s.next);
    forall w: nat | w in place ensures Located(t, place, w) { assert Located(s, place, w); }
    forall k: nat | k < |t.queue| ensures QueueSlot(t, place, k) { assert QueueSlot(s, place, k); }
    forall i: nat | At(t, i) ensures PhaseSlot(t, place, i) { assert PhaseSlot(s, place, i); }
    forall w: nat | w in t.dirty ensures Untouched(t, place, w) { assert Untouched(s, place, w); }
    forall k: nat, l: nat | k < l < |t.queue| ensures SoleToken(t, k, l) { assert SoleToken(s, k, l); }
    forall i: nat, j: nat | i < j && At(t, j) ensures SoleBounce(t, i, j) { assert SoleBounce(s, i, j); }
    NobodyStays(s, t, s.next);
  }

  /** A step of thread `at` that touches no None leaves the None where it was. */
  lemma {:induction false} NobodyStays(s: State, t: State, at: nat)
    requires At(s, at) && !s.phases[at].Bouncing? && |s.phases| == |t.phases|
    requires forall i: nat :: At(s, i) && i != at ==> t.phases[i] == s.phases[i]
    requires Nobody in s.queue ==> Nobody in t.queue
    ensures NobodyAround(s) ==> NobodyAround(t)
  {
    if NobodyAround(s) && Nobody !in s.queue {
      var i: nat :| At(s, i) && s.phases[i].Bouncing?;
      assert At(t, i) && t.phases[i].Bouncing?;
    }
  }

  lemma {:induction false} GetKeepsInv(s: State, place: map<nat, Place>, i: nat)
    requires Inv(s, place) && Enabled(s, Get(i))
    ensures Inv(Apply(s, Get(i)), Moved(s, place, Get(i)))
  {
    var t, p := Apply(s, Get(i)), Moved(s, place, Get(i));
    assert QueueSlot(s, place, 0) && PhaseSlot(s, place, i);
    assert p.Keys == place.Keys && |p| == |p.Keys| && |place| == |place.Keys|;
    forall w: nat | w in p ensures Located(t, p, w) {
      assert Located(s, place, w);
      if place[w].InQueue? && s.queue[0] != Worker(w) {
        var k :| 0 <= k < |s.queue| && s.queue[k] == Worker(w);
        assert t.queue[k - 1] == Worker(w);
      }
    }
    forall k: nat | k < |t.queue| ensures QueueSlot(t, p, k) {
      assert QueueSlot(s, place, k + 1) && SoleToken(s, 0, k + 1);
    }
    forall j: nat | At(t, j) ensures PhaseSlot(t, p, j) { assert PhaseSlot(s, place, j); }
    forall w: nat | w in t.dirty ensures Untouched(t, p, w) { assert Untouched(s, place, w); }
    forall k: nat, l: nat | k < l < |t.queue| ensures SoleToken(t, k, l) { assert SoleToken(s, k + 1, l + 1); }
    forall j: nat, l: nat | j < l && At(t, l) ensures SoleBounce(t, j, l) { assert SoleBounce(s, j, l); }
    if s.queue[0].Nobody? {
      assert At(t, i) && t.phases[i].Bouncing?;
      forall k: nat | k < |t.queue| ensures t.queue[k] != Nobody { assert SoleToken(s, 0, k + 1); }
    } else {
      assert s.queue[0].id in place.Keys;
    }
  }

  lemma {:induction false} BounceKeepsInv(s: State, place: map<nat, Place>, i: nat)
    requires Inv(s, place) && Enabled(s, Bounce(i))
    ensures Inv(Apply(s, Bounce(i)), place)
  {
    var t := Apply(s, Bounce(i));
    assert PhaseSlot(s, place, i);
    assert place == map[];
    forall k: nat | k < |t.queue| ensures QueueSlot(t, place, k) {
      if k < |s.queue| { assert QueueSlot(s, place, k); }
    }
    forall j: nat | At(t, j) ensures PhaseSlot(t, place, j) { assert PhaseSlot(s, place, j); }
    forall w: nat | w in t.dirty ensures Untouched(t, place, w) { assert Untouched(s, place, w); }
    forall k: nat, l: nat | k < l < |t.queue| ensures SoleToken(t, k, l) {
      if l < |s.queue| { assert SoleToken(s, k, l); } else { assert s.queue[k] in s.queue; }
    }
    forall j: nat, l: nat | j < l && At(t, l) ensures SoleBounce(t, j, l) { assert SoleBounce(s, j, l); }
    assert t.queue[|s.queue|] == Nobody;
    forall j: nat | At(t, j) ensures !t.phases[j].Bouncing? {
      if j < i { assert SoleBounce(s, j, i); }
      if i < j { assert SoleBounce(s, i, j); }
    }
  }

  /** The runner ends: the worker stays with its thread. */
  lemma {:induction false} EndKeepsInv(s: State, place: map<nat, Place>, a: Action)
    requires Inv(s, place) && Enabled(s, a) && (a.Return? || a.Crash?)
    ensures Inv(Apply(s, a), place)
  {
    var t, i := Apply(s, a), a.i;
    assert PhaseSlot(s, place, i);
    forall w: nat | w in place ensures Located(t, place, w) { assert Located(s, place, w); }
    forall k: nat | k < |t.queue| ensures QueueSlot(t, place, k) { assert QueueSlot(s, place, k); }
    forall j: nat | At(t, j) ensures PhaseSlot(t, place, j) { assert PhaseSlot(s, place, j); }
    forall w: nat | w in t.dirty ensures Untouched(t, place, w) {
      if w in s.dirty { assert Untouched(s, place, w); }
    }
    forall k: nat, l: nat | k < l < |t.queue| ensures SoleToken(t, k, l) { assert SoleToken(s, k, l); }
    forall j: nat, l: nat | j < l && At(t, l) ensures SoleBounce(t, j, l) { assert SoleBounce(s, j, l); }
    NobodyStays(s, t, i);
  }

  lemma {:induction false} PutBackKeepsInv(s: State, place: map<nat, Place>, i: nat)
    requires Inv(s, place) && Enabled(s, PutBack(i))
    ensures Inv(Apply(s, PutBack(i)), Moved(s, place, PutBack(i)))
  {
    var t, p, v := Apply(s, PutBack(i)), Moved(s, place, PutBack(i)), s.phases[i].w;
    assert PhaseSlot(s, place, i) && Located(s, place, v);
    assert p.Keys == place.Keys && |p| == |p.Keys| && |place| == |place.Keys|;
    assert t.queue[|s.queue|] == Worker(v);
    forall w: nat | w in p ensures Located(t, p, w) {
      assert Located(s, place, w);
      if place[w].InQueue? {
        var k :| 0 <= k < |s.queue| && s.queue[k] == Worker(w);
        assert t.queue[k] == Worker(w);
      }
    }
    forall k: nat | k < |t.queue| ensures QueueSlot(t, p, k) {
      if k < |s.queue| { assert QueueSlot(s, place, k); }
    }
    forall j: nat | At(t, j) ensures PhaseSlot(t, p, j) { assert PhaseSlot(s, place, j); }
    forall w: nat | w in t.dirty ensures Untouched(t, p, w) { assert Untouched(s, place, w); }
    forall k: nat, l: nat | k < l < |t.queue| ensures SoleToken(t, k, l) {
      if l < |s.queue| { assert SoleToken(s, k, l); } else { assert QueueSlot(s, place, k); }
    }
    forall j: nat, l: nat | j < l && At(t, l) ensures SoleBounce(t, j, l) { assert SoleBounce(s, j, l); }
    assert v in place.Keys;
  }

  lemma {:induction false} RetireKeepsPlaces(s: State, place: map<nat, Place>, i: nat)
    requires Inv(s, place) && Enabled(s, Retire(i))
    ensures var t, p := Apply(s, Retire(i)), Moved(s, place, Retire(i));
      && (forall w: nat :: w in p ==> Located(t, p, w))
      && (forall w: nat :: w in t.dirty ==> Untouched(t, p, w))
  {
    var t, p := Apply(s, Retire(i)), Moved(s, place, Retire(i));
    forall w: nat | w in p ensures Located(t, p, w) {
      assert Located(s, place, w);
      if place[w].InQueue? {
        var k :| 0 <= k < |s.queue| && s.queue[k] == Worker(w);
        assert t.queue[k] == Worker(w);
      }
    }
    forall w: nat | w in t.dirty ensures Untouched(t, p, w) { assert Untouched(s, place, w); }
  }

  lemma {:induction false} RetireKeepsTokens(s: State, place: map<nat, Place>, i: nat)
    requires Inv(s, place) && Enabled(s, Retire(i))
    ensures var t, p := Apply(s, Retire(i)), Moved(s, place, Retire(i));
      && (forall k: nat :: k < |t.queue| ==> QueueSlot(t, p, k))
      && (forall k: nat, l: nat :: k < l < |t.queue| ==> SoleToken(t, k, l))
  {
    var t, p := Apply(s, Retire(i)), Moved(s, place, Retire(i));
    assert PhaseSlot(s, place, i);
    forall k: nat | k < |t.queue| ensures QueueSlot(t, p, k) {
      if k < |s.queue| { assert QueueSlot(s, place, k); }
    }
    forall k: nat, l: nat | k < l < |t.queue| ensures SoleToken(t, k, l) {
      if l < |s.queue| { assert SoleToken(s, k, l); } else { assert s.queue[k] in s.queue; }
    }
  }

  lemma {:induction false} RetireKeepsInv(s: State, place: map<nat, Place>, i: nat)
    requires Inv(s, place) && Enabled(s, Retire(i))
    ensures Inv(Apply(s, Retire(i)), Moved(s, place, Retire(i)))
  {
    var t, p, v := Apply(s, Retire(i)), Moved(s, place, Retire(i)), s.phases[i].w;
    assert PhaseSlot(s, place, i) && Located(s, place, v);
    assert p.Keys == place.Keys - {v} && |p| == |p.Keys| && |place| == |place.Keys|;
    RetireKeepsPlaces(s, place, i);
    RetireKeepsTokens(s, place, i);
    forall j: nat | At(t, j) ensures PhaseSlot(t, p, j) { assert PhaseSlot(s, place, j); }
    forall j: nat, l: nat | j < l && At(t, l) ensures SoleBounce(t, j, l) { assert SoleBounce(s, j, l); }
    if t.alive == 0 {
      assert t.queue[|s.queue|] == Nobody;
      forall j: nat | At(t, j) ensures !t.phases[j].Bouncing? { assert PhaseSlot(s, place, j); }
    }
  }

  /** Every step of every thread keeps the invariant. */
  lemma {:induction false} StepKeepsInv(s: State, place: map<nat, Place>, a: Action)
    requires Inv(s, place) && Enabled(s, a)
    ensures Inv(Apply(s, a), Moved(s, place, a))
  {
    match a
    case Start => StartKeepsInv(s, place);
    case Get(i) => GetKeepsInv(s, place, i);
    case Bounce(i) => BounceKeepsInv(s, place, i);
    case Return(i) => EndKeepsInv(s, place, a);
    case Crash(i, _, _) => EndKeepsInv(s, place, a);
    case PutBack(i) => PutBackKeepsInv(s, place, i);
    case Retire(i) => RetireKeepsInv(s, place, i);
  }

  // ---- Whole runs

  ghost predicate Run(s: State, actions: seq<Action>, t: State)
    decreases |actions|
  {
    if actions == [] then s == t else Enabled(s, actions[0]) && Run(Apply(s, actions[0]), actions[1..], t)
  }

  ghost predicate Reachable(s: State) {
    exists planned, workers: nat, actions :: workers > 0 && Run(Initial(planned, workers), actions, s)
  }

  lemma {:induction false} InitialInv(planned: seq<bool>, workers: nat) returns (place: map<nat, Place>)
    requires workers > 0
    ensures Inv(Initial(planned, workers), place)
  {
    var s := Initial(planned, workers);
    place := map w | w in Below(workers) :: InQueue;
    assert place.Keys == Below(workers) && |place| == |place.Keys|;
    forall w: nat | w in place ensures Located(s, place, w) { assert s.queue[w] == Worker(w); }
    forall k: nat | k < |s.queue| ensures QueueSlot(s, place, k) { assert k in place.Keys; }
    forall i: nat | At(s, i) ensures PhaseSlot(s, place, i) {}
    forall k: nat, l: nat | k < l < |s.queue| ensures SoleToken(s, k, l) {}
    forall i: nat, j: nat | i < j && At(s, j) ensures SoleBounce(s, i, j) {}
  }

  ghost function Below(n: nat): (r: set<nat>)
    ensures |r| == n && forall w: nat :: w in r <==> w < n
  {
    if n == 0 then {} else Below(n - 1) + {n - 1}
  }

  lemma {:induction false} RunKeepsInv(s: State, place: map<nat, Place>, actions: seq<Action>, t: State)
    returns (end: map<nat, Place>)
    requires Inv(s, place) && Run(s, actions, t)
    ensures Inv(t, end)
    decreases |actions|
  {
    if actions == [] {
      end := place;
    } else {
      StepKeepsInv(s, place, actions[0]);
      end := RunKeepsInv(Apply(s, actions[0]), Moved(s, place, actions[0]), actions[1..], t);
    }
  }

  lemma {:induction false} ReachableInv(s: State) returns (place: map<nat, Place>)
    requires Reachable(s)
    ensures Inv(s, place)
  {
    var planned, workers: nat, actions :| workers > 0 && Run(Initial(planned, workers), actions, s);
    place := InitialInv(planned, workers);
    place := RunKeepsInv(Initial(planned, workers), place, actions, s);
  }

  ghost function Queued(s: State): set<nat> { set k | 0 <= k < |s.queue| && s.queue[k].Worker? :: s.queue[k].id }

  ghost function InHands(s: State): set<nat> {
    set i | 0 <= i < |s.phases|
        && (s.phases[i].Holding? || s.phases[i].Returning? || s.phases[i].Retiring?) :: s.phases[i].w
  }

  /** Free plus held workers are the ones alive, and no worker is in two places. */
  lemma {:induction false} FreePlusHeldIsAlive(s: State)
    requires Reachable(s)
    ensures s.alive == |Queued(s)| + |InHands(s)|
    ensures Queued(s) !! InHands(s)
    ensures forall w: nat, i: nat, j: nat :: At(s, i) && At(s, j) && Has(s.phases[i], w) && Has(s.phases[j], w) ==>
            i == j
  {
    var place := ReachableInv(s);
    forall w | w in Queued(s) ensures w in place && place[w] == InQueue {
      var k :| 0 <= k < |s.queue| && s.queue[k] == Worker(w);
      assert QueueSlot(s, place, k);
    }
    forall w | w in InHands(s) ensures w in place && place[w].With? {
      var i :| 0 <= i < |s.phases| && (s.phases[i].Holding? || s.phases[i].Returning? || s.phases[i].Retiring?)
          && s.phases[i].w == w;
      assert PhaseSlot(s, place, i);
    }
    forall w | w in place ensures w in Queued(s) + InHands(s) { assert Located(s, place, w); }
    assert Queued(s) + InHands(s) == place.Keys;
    forall w: nat, i: nat, j: nat | At(s, i) && At(s, j) && Has(s.phases[i], w) && Has(s.phases[j], w) ensures i == j {
      assert PhaseSlot(s, place, i) && PhaseSlot(s, place, j);
    }
  }

  /** A worker that free.get() hands out, or that a runner works with, has no mutated copy. */
  lemma {:induction false} HandedOutIsClean(s: State, w: nat)
    requires Reachable(s)
    requires Worker(w) in s.queue || exists i: nat :: At(s, i) && s.phases[i].Holding? && s.phases[i].w == w
    ensures w !in s.dirty
  {
    var place := ReachableInv(s);
    if Worker(w) in s.queue {
      var k :| 0 <= k < |s.queue| && s.queue[k] == Worker(w);
      assert QueueSlot(s, place, k);
    } else {
      var i: nat :| At(s, i) && s.phases[i].Holding? && s.phases[i].w == w;
      assert PhaseSlot(s, place, i);
    }
    assert w in s.dirty ==> Untouched(s, place, w);
  }

  ghost predicate AllFinished(s: State) { forall i: nat :: At(s, i) ==> s.phases[i].Finished? }

  /** In no reachable state do all unfinished threads wait at free.get() for a worker that never comes. */
  lemma {:induction false} NoDeadlock(s: State) returns (a: Action)
    requires Reachable(s) && !AllFinished(s)
    ensures Enabled(s, a)
  {
    var place := ReachableInv(s);
    var i: nat :| At(s, i) && !s.phases[i].Finished?;
    if Running(s) == {} {
      assert i !in Running(s) && PhaseSlot(s, place, i);
      a := Start;
    } else if s.queue != [] {
      i :| i in Running(s);
      a := EnabledBy(s, i);
    } else if s.alive == 0 {
      i :| At(s, i) && s.phases[i].Bouncing?;
      a := Bounce(i);
    } else {
      assert place.Keys != {};
      var w :| w in place;
      assert Located(s, place, w);
      a := EnabledBy(s, place[w].i);
    }
  }

  lemma {:induction false} EnabledBy(s: State, i: nat) returns (a: Action)
    requires At(s, i) && Busy(s.phases[i]) && (s.phases[i].Blocked? ==> s.queue != [])
    ensures Enabled(s, a)
  {
    match s.phases[i]
    case Blocked => a := Get(i);
    case Holding(_) => a := Return(i);
    case Returning(_, _) => a := PutBack(i);
    case Retiring(_, _) => a := Retire(i);
    case Bouncing => a := Bounce(i);
  }

  // ---- Every run ends

  ghost function Rank(p: Phase): nat {
    match p
    case Pending => 4
    case Blocked => 3
    case Holding(_) => 2
    case Returning(_, _) => 1
    case Retiring(_, _) => 1
    case Bouncing => 1
    case Finished(_) => 0
  }

  ghost function Ranks(phases: seq<Phase>): nat {
    if phases == [] then 0 else Rank(phases[0]) + Ranks(phases[1..])
  }

  lemma {:induction false} RanksOfUpdate(phases: seq<Phase>, i: nat, p: Phase)
    requires i < |phases|
    ensures Ranks(phases[i := p]) + Rank(phases[i]) == Ranks(phases) + Rank(p)
  {
    var after := phases[i := p];
    if i > 0 {
      assert after[1..] == phases[1..][i - 1 := p];
      RanksOfUpdate(phases[1..], i - 1, p);
    } else {
      assert after[1..] == phases[1..];
    }
  }

  lemma {:induction false} StepGoesDown(s: State, place: map<nat, Place>, a: Action)
    requires Inv(s, place) && Enabled(s, a)
    ensures Ranks(Apply(s, a).phases) < Ranks(s.phases)
  {
    var i := if a.Start? then s.next else a.i;
    assert PhaseSlot(s, place, i);
    RanksOfUpdate(s.phases, i, Apply(s, a).phases[i]);
  }

  lemma {:induction false} RunIsBounded(s: State, place: map<nat, Place>, actions: seq<Action>, t: State)
    requires Inv(s, place) && Run(s, actions, t)
    ensures |actions| + Ranks(t.phases) <= Ranks(s.phases) && |t.phases| == |s.phases| && t.planned == s.planned
    decreases |actions|
  {
    if actions != [] {
      StepGoesDown(s, place, actions[0]);
      StepKeepsInv(s, place, actions[0]);
      RunIsBounded(Apply(s, actions[0]), Moved(s, place, actions[0]), actions[1..], t);
    }
  }

  lemma {:induction false} RanksOfPending(n: nat)
    ensures Ranks(seq(n, _ => Pending)) == 4 * n
  {
    var phases := seq(n, _ => Pending);
    if n > 0 {
      assert phases[1..] == seq(n - 1, _ => Pending);
      RanksOfPending(n - 1);
    }
  }

  /** The rows in input order, once every call has returned. */
  ghost function Rows(s: State): seq<Row>
    requires AllFinished(s)
  {
    seq(|s.phases|, i requires 0 <= i < |s.phases| => s.phases[i].row)
  }

  /**
   * A run makes at most four steps per site, and one that can make no more has a row for every site, in
   * input order: "no-test" exactly for the sites without a plan, and "no worker left" only when every
   * worker is retired.
   */
  lemma {:induction false} EverySiteGetsItsRow(planned: seq<bool>, workers: nat, actions: seq<Action>, s: State)
    requires workers > 0 && Run(Initial(planned, workers), actions, s)
    ensures |actions| <= 4 * |planned|
    ensures (forall a :: !Enabled(s, a)) ==> AllFinished(s)
    ensures AllFinished(s) ==> |Rows(s)| == |planned|
    ensures AllFinished(s) ==> forall i :: 0 <= i < |planned| ==>
              Rows(s)[i].site == i && (Rows(s)[i].outcome.NoTest? <==> !planned[i])
                  && (Rows(s)[i].outcome.NoWorkerLeft? ==> s.alive == 0)
  {
    var first := Initial(planned, workers);
    var place := InitialInv(planned, workers);
    RunIsBounded(first, place, actions, s);
    RanksOfPending(|planned|);
    assert first.phases == seq(|planned|, _ => Pending);
    assert Reachable(s);
    if !AllFinished(s) {
      var a := NoDeadlock(s);
    } else {
      var end := ReachableInv(s);
      forall i | 0 <= i < |planned|
        ensures Rows(s)[i].site == i && (Rows(s)[i].outcome.NoTest? <==> !planned[i])
                && (Rows(s)[i].outcome.NoWorkerLeft? ==> s.alive == 0)
      {
        assert PhaseSlot(s, end, i);
      }
    }
  }

  /** No more calls run at once than the pool has threads. */
  lemma {:induction false} RunningIsBounded(planned: seq<bool>, workers: nat, actions: seq<Action>, s: State)
    requires workers > 0 && Run(Initial(planned, workers), actions, s)
    ensures |Running(s)| <= workers
  {
    var first := Initial(planned, workers);
    var place := InitialInv(planned, workers);
    assert Running(first) == {};
    RunKeepsRunning(first, place, actions, s);
  }

  lemma {:induction false} RunKeepsRunning(s: State, place: map<nat, Place>, actions: seq<Action>, t: State)
    requires Inv(s, place) && Run(s, actions, t) && |Running(s)| <= s.threads
    ensures |Running(t)| <= t.threads == s.threads
    decreases |actions|
  {
    if actions != [] {
      StepKeepsRunning(s, place, actions[0]);
      StepKeepsInv(s, place, actions[0]);
      RunKeepsRunning(Apply(s, actions[0]), Moved(s, place, actions[0]), actions[1..], t);
    }
  }

  lemma {:induction false} StepKeepsRunning(s: State, place: map<nat, Place>, a: Action)
    requires Inv(s, place) && Enabled(s, a) && |Running(s)| <= s.threads
    ensures |Running(Apply(s, a))| <= s.threads == Apply(s, a).threads
  {
    var t := Apply(s, a);
    var most := if a.Start? then Running(s) + {s.next} else Running(s);
    var at := if a.Start? then s.next else a.i;
    forall i | i in Running(t) ensures i in most {
      assert i == at || t.phases[i] == s.phases[i];
    }
    assert |most - Running(t)| == |most| - |Running(t)|;
  }

  // ---- Each row says what happened

  ghost predicate HasOutcome(s: State, i: nat, o: Outcome) {
    At(s, i) && (s.phases[i].Returning? || s.phases[i].Retiring? || s.phases[i].Finished?)
        && s.phases[i].row.outcome == o
  }

  /** The runner of site `i` returned, or raised, or the site's thread got None. */
  ghost predicate Decides(a: Action, i: nat, o: Outcome) {
    match o
    case Ran => a == Return(i)
    case Crashed => a.Crash? && a.i == i
    case NoWorkerLeft => a == Bounce(i)
    case NoTest => false
  }

  ghost predicate Raised(actions: seq<Action>, i: nat) { exists a :: a in actions && a.Crash? && a.i == i }

  lemma {:induction false} WhatHappened(actions: seq<Action>, i: nat)
    ensures Happened(actions, i, Ran) <==> Return(i) in actions
    ensures Happened(actions, i, NoWorkerLeft) <==> Bounce(i) in actions
    ensures Happened(actions, i, Crashed) <==> Raised(actions, i)
  {
    if Return(i) in actions { assert Decides(Return(i), i, Ran); }
    if Bounce(i) in actions { assert Decides(Bounce(i), i, NoWorkerLeft); }
    if a :| a in actions && a.Crash? && a.i == i { assert Decides(a, i, Crashed); }
    if a :| a in actions && Decides(a, i, Crashed) { assert a.Crash? && a.i == i; }
  }

  ghost predicate Happened(actions: seq<Action>, i: nat, o: Outcome) { exists a :: a in actions && Decides(a, i, o) }

  lemma {:induction false} StepDecides(s: State, place: map<nat, Place>, a: Action, i: nat, o: Outcome)
    requires Inv(s, place) && Enabled(s, a) && o != NoTest
    ensures HasOutcome(Apply(s, a), i, o) <==> HasOutcome(s, i, o) || Decides(a, i, o)
  {
    if a.Start? { assert PhaseSlot(s, place, s.next); }
  }

  lemma {:induction false} RunDecides(s: State, place: map<nat, Place>, actions: seq<Action>, t: State, i: nat,
                                      o: Outcome)
    requires Inv(s, place) && Run(s, actions, t) && o != NoTest
    ensures HasOutcome(t, i, o) <==> HasOutcome(s, i, o) || Happened(actions, i, o)
    decreases |actions|
  {
    if actions != [] {
      var a, rest := actions[0], actions[1..];
      StepDecides(s, place, a, i, o);
      StepKeepsInv(s, place, a);
      RunDecides(Apply(s, a), Moved(s, place, a), rest, t, i, o);
      assert actions == [a] + rest;
      assert Happened(actions, i, o) <==> Decides(a, i, o) || Happened(rest, i, o);
    }
  }

  /** The runner raised and left the worker's copy mutated, or it cannot be read. */
  ghost predicate SpoilsItsCopy(a: Action, i: nat) { a.Crash? && a.i == i && (a.mutated || !a.readable) }

  ghost predicate Spoiled(actions: seq<Action>, i: nat) { exists a :: a in actions && SpoilsItsCopy(a, i) }

  ghost predicate IsRetiring(s: State, i: nat) { At(s, i) && s.phases[i].Retiring? }

  lemma {:induction false} RunRetires(s: State, place: map<nat, Place>, actions: seq<Action>, t: State, i: nat)
    requires Inv(s, place) && Run(s, actions, t)
    ensures IsRetiring(t, i) || Retire(i) in actions <==> IsRetiring(s, i) || Spoiled(actions, i)
    decreases |actions|
  {
    if actions != [] {
      var a, rest := actions[0], actions[1..];
      if a.Start? { assert PhaseSlot(s, place, s.next); }
      StepKeepsInv(s, place, a);
      RunRetires(Apply(s, a), Moved(s, place, a), rest, t, i);
      assert actions == [a] + rest;
      assert Spoiled(actions, i) <==> SpoilsItsCopy(a, i) || Spoiled(rest, i);
      assert IsRetiring(Apply(s, a), i) <==> (IsRetiring(s, i) && a != Retire(i)) || SpoilsItsCopy(a, i);
    }
  }

  /**
   * A row has the runner's result exactly when the runner returned, an error exactly when it raised, and "no worker
   * left" exactly when its thread got None; a worker is retired exactly when a runner spoiled its copy.
   */
  lemma {:induction false} RowsSayWhatHappened(planned: seq<bool>, workers: nat, actions: seq<Action>, s: State, i: nat)
    requires workers > 0 && Run(Initial(planned, workers), actions, s) && AllFinished(s) && i < |Rows(s)|
    ensures Rows(s)[i].outcome.Ran? <==> Return(i) in actions
    ensures Rows(s)[i].outcome.Crashed? <==> Raised(actions, i)
    ensures Rows(s)[i].outcome.NoWorkerLeft? <==> Bounce(i) in actions
    ensures Retire(i) in actions <==> Spoiled(actions, i)
  {
    var first := Initial(planned, workers);
    var place := InitialInv(planned, workers);
    RunDecides(first, place, actions, s, i, Ran);
    RunDecides(first, place, actions, s, i, Crashed);
    RunDecides(first, place, actions, s, i, NoWorkerLeft);
    WhatHappened(actions, i);
    RunRetires(first, place, actions, s, i);
  }
}
