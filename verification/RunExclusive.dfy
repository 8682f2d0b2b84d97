/** The per-user lock: scripts/lib/run_exclusive.js. */
module RunExclusive {
  /*
   * A directory made by mkdir, an owner file in it, and waiters that move a stale lock aside. Every file
   * operation and every liveness test is one step of one process, any process may take the next step, and a
   * wrapper may be killed between any two steps.
   */

  import opened Forms

  const OWNERLESS_STALE_MS := 10000

  type Pid = nat

  datatype Owner = Owner(pid: Pid, child: Option<Pid>)

  /** `maker` is the process whose mkdir made the directory; no process reads it. */
  datatype Lock = Free | Taken(owner: Option<Owner>, mtime: nat, maker: Pid)

  /**
   * What a wrapper does next. `tested` and `seen` name the maker of the lock that stood there at the
   * staleness test and at the second read; no process reads them.
   */
  datatype Phase =
    | Trying                       // mkdir
    | Made                         // write owner.json
    | Blocked                      // read the owner of the existing lock
    | Read(owner: Option<Owner>)   // isStale on what was read
    | Stale(owner: Option<Owner>, tested: Option<Pid>) // removeStale reads the owner again
    | Moving(seen: Option<Pid>)    // removeStale renames the lock aside
    | Holding                      // spawn the command
    | Spawned(child: Pid)          // write childPid
    | Running(child: Pid)          // wait for the child
    | Exiting                      // release reads the owner
    | Removing                     // release deletes the lock
    | Done

  /** `wrappers` never forgets a process; one that is not in `alive` is dead. */
  datatype State = State(now: nat, lock: Lock, wrappers: map<Pid, Phase>, alive: set<Pid>, used: set<Pid>)

  datatype Action =
    | Begin(p: Pid)
    | Mkdir(p: Pid)
    | WriteOwner(p: Pid)
    | ReadOwner(p: Pid)
    | Judge(p: Pid)
    | Confirm(p: Pid)
    | Rename(p: Pid)
    | Spawn(p: Pid, child: Pid)
    | SpawnFails(p: Pid)
    | WriteChild(p: Pid)
    | ChildExits(p: Pid)
    | Notice(p: Pid)
    | CheckOwner(p: Pid)
    | Remove(p: Pid)
    | Kill(p: Pid)
    | Tick(ms: nat)

  /** The assumptions under which the lock is a lock. Each can be dropped on its own. */
  datatype Assumptions = Assumptions(
    timelyOwner: bool,     // owner.json is written within OWNERLESS_STALE_MS of the mkdir, or its writer is dead
    noKillAtSpawn: bool,   // no wrapper dies between the spawn and the childPid write
    steadyOwner: bool,     // no childPid is written between the two reads of one owner's file
    steadyOwnerless: bool, // no new ownerless lock replaces a tested one before the second read
    steadyMove: bool)      // no new lock is put in place between the second read and the rename

  const ALL := Assumptions(true, true, true, true, true)

  ghost predicate In(s: State, p: Pid) { p in s.wrappers && p in s.alive }

  ghost function OwnerNow(s: State): Option<Owner> { if s.lock.Taken? then s.lock.owner else None }

  ghost function MakerNow(s: State): Option<Pid> { if s.lock.Taken? then Some(s.lock.maker) else None }

  ghost function PidOf(owner: Option<Owner>): Option<Pid> { if owner.Some? then Some(owner.value.pid) else None }

  ghost predicate IsStale(s: State, owner: Option<Owner>) {
    match owner
    case Some(o) => o.pid !in s.alive && !(o.child.Some? && o.child.value in s.alive)
    case None => s.lock.Taken? && s.now - s.lock.mtime > OWNERLESS_STALE_MS
  }

  ghost predicate Enabled(s: State, a: Action) {
    match a
    case Begin(p) => p !in s.used
    case Mkdir(p) => In(s, p) && s.wrappers[p].Trying?
    case WriteOwner(p) => In(s, p) && s.wrappers[p].Made?
    case ReadOwner(p) => In(s, p) && s.wrappers[p].Blocked?
    case Judge(p) => In(s, p) && s.wrappers[p].Read?
    case Confirm(p) => In(s, p) && s.wrappers[p].Stale?
    case Rename(p) => In(s, p) && s.wrappers[p].Moving?
    case Spawn(p, child) => In(s, p) && s.wrappers[p].Holding? && child !in s.used
    case SpawnFails(p) => In(s, p) && s.wrappers[p].Holding?
    case WriteChild(p) => In(s, p) && s.wrappers[p].Spawned?
    case ChildExits(p) => p in s.wrappers && HasChild(s.wrappers[p]) && s.wrappers[p].child in s.alive
    case Notice(p) => In(s, p) && s.wrappers[p].Running? && s.wrappers[p].child !in s.alive
    case CheckOwner(p) => In(s, p) && s.wrappers[p].Exiting?
    case Remove(p) => In(s, p) && s.wrappers[p].Removing?
    case Kill(p) => In(s, p)
    case Tick(_) => true
  }

  ghost predicate HasChild(phase: Phase) { phase.Spawned? || phase.Running? }

  ghost predicate Allowed(s: State, a: Action, given: Assumptions) {
    && Enabled(s, a)
    && (given.noKillAtSpawn && a.Kill? ==> !s.wrappers[a.p].Spawned?)
    && (given.steadyOwner && a.Confirm? && s.wrappers[a.p].owner.Some?
         && PidOf(OwnerNow(s)) == PidOf(s.wrappers[a.p].owner) ==>
          OwnerNow(s) == s.wrappers[a.p].owner)
    && (given.steadyOwnerless && a.Confirm? && s.wrappers[a.p].owner.None? && s.lock.Taken? && s.lock.owner.None? ==>
          s.wrappers[a.p].tested == MakerNow(s))
    && (given.steadyMove && a.Rename? && s.lock.Taken? ==> s.wrappers[a.p].seen == MakerNow(s))
    && (given.timelyOwner && a.Tick? ==>
          forall p :: In(s, p) && s.wrappers[p].Made? && s.lock.Taken? ==>
              s.now + a.ms - s.lock.mtime <= OWNERLESS_STALE_MS)
  }

  /** writeOwner into whatever directory is at the path; without one it throws and the wrapper ends. */
  ghost function Write(s: State, p: Pid, owner: Owner, next: Phase): State {
    if s.lock.Taken? then
      s.(lock := s.lock.(owner := Some(owner), mtime := s.now), wrappers := s.wrappers[p := next])
    else
      s.(alive := s.alive - {p})
  }

  ghost function Goes(s: State, p: Pid, next: Phase): State { s.(wrappers := s.wrappers[p := next]) }

  ghost function Apply(s: State, a: Action): State
    requires Enabled(s, a)
  {
    match a
    case Begin(p) => s.(wrappers := s.wrappers[p := Trying], alive := s.alive + {p}, used := s.used + {p})
    case Mkdir(p) => if s.lock.Free? then Goes(s, p, Made).(lock := Taken(None, s.now, p)) else Goes(s, p, Blocked)
    case WriteOwner(p) => Write(s, p, Owner(p, None), Holding)
    case ReadOwner(p) => Goes(s, p, Read(OwnerNow(s)))
    case Judge(p) => Goes(s, p,
        if IsStale(s, s.wrappers[p].owner) then Stale(s.wrappers[p].owner, MakerNow(s)) else Trying)
    case Confirm(p) => Goes(s, p,
        if PidOf(OwnerNow(s)) == PidOf(s.wrappers[p].owner) then Moving(MakerNow(s)) else Trying)
    case Rename(p) => Goes(s, p, Trying).(lock := Free)
    case Spawn(p, child) => Goes(s, p, Spawned(child)).(alive := s.alive + {child}, used := s.used + {child})
    case SpawnFails(p) => Goes(s, p, Exiting)
    case WriteChild(p) => Write(s, p, Owner(p, Some(s.wrappers[p].child)), Running(s.wrappers[p].child))
    case ChildExits(p) => s.(alive := s.alive - {s.wrappers[p].child})
    case Notice(p) => Goes(s, p, Exiting)
    case CheckOwner(p) => if PidOf(OwnerNow(s)) == Some(p) then Goes(s, p, Removing)
        else Goes(s, p, Done).(alive := s.alive - {p})
    case Remove(p) => Goes(s, p, Done).(lock := Free, alive := s.alive - {p})
    case Kill(p) => s.(alive := s.alive - {p})
    case Tick(ms) => s.(now := s.now + ms)
  }

  const START := State(0, Free, map[], {}, {})

  // ---- Mutual exclusion

  ghost predicate Critical(phase: Phase) {
    phase.Made? || phase.Holding? || HasChild(phase) || phase.Exiting? || phase.Removing?
  }

  /** The wrapper of `p`, or the command it runs, is alive under the lock. */
  ghost predicate Active(s: State, p: Pid) {
    p in s.wrappers
        && ((p in s.alive && Critical(s.wrappers[p])) || (HasChild(s.wrappers[p]) && s.wrappers[p].child in s.alive))
  }

  ghost predicate AtMostOne(s: State) { forall p, q :: Active(s, p) && Active(s, q) ==> p == q }

  /** The pids a wrapper stands for are its own: nobody else uses them. */
  ghost predicate Registered(s: State, p: Pid) {
    p in s.wrappers && p in s.used
    && (HasChild(s.wrappers[p]) ==> s.wrappers[p].child in s.used && s.wrappers[p].child !in s.wrappers)
  }

  ghost predicate OwnChild(s: State, p: Pid, q: Pid) {
    p in s.wrappers && q in s.wrappers
    && (HasChild(s.wrappers[p]) && HasChild(s.wrappers[q]) && s.wrappers[p].child == s.wrappers[q].child ==> p == q)
  }

  ghost predicate OwnsLock(s: State, p: Pid) {
    Active(s, p) ==> s.lock.Taken? && s.lock.maker == p
  }

  /** The wrapper has made its lock, once and for all. */
  ghost predicate Passed(s: State, p: Pid) { p in s.wrappers && (Critical(s.wrappers[p]) || s.wrappers[p].Done?) }

  /** What the owner file says about the maker of the lock. */
  ghost predicate OwnerFile(s: State) {
    s.lock.Taken? ==>
      && Passed(s, s.lock.maker)
      && match s.lock.owner
         case None => s.wrappers[s.lock.maker].Made?
                      && (s.lock.maker in s.alive ==> s.now - s.lock.mtime <= OWNERLESS_STALE_MS)
         case Some(o) => o.pid == s.lock.maker && !s.wrappers[s.lock.maker].Made? && UsedPids(s, o)
                         && (s.wrappers[s.lock.maker].Running? ==> o.child == Some(s.wrappers[s.lock.maker].child))
                         && (s.wrappers[s.lock.maker].Spawned? ==> s.lock.maker in s.alive)
  }

  ghost predicate UsedPids(s: State, o: Owner) { o.pid in s.used && (o.child.Some? ==> o.child.value in s.used) }

  ghost predicate DeadOwner(s: State, o: Owner) {
    UsedPids(s, o) && o.pid !in s.alive && (o.child.Some? ==> o.child.value !in s.alive)
  }

  ghost predicate DeadMaker(s: State, m: Pid) {
    m in s.wrappers && m !in s.alive && (HasChild(s.wrappers[m]) ==> s.wrappers[m].child !in s.alive)
  }

  /** What a waiter has read and tested: dead owners stay dead, and no wrapper makes two locks. */
  ghost predicate WaitsWell(s: State, r: Pid) {
    r in s.wrappers && match s.wrappers[r]
      case Read(Some(o)) => UsedPids(s, o)
      case Stale(Some(o), _) => DeadOwner(s, o)
      case Stale(None, tested) =>
        tested.Some? && Passed(s, tested.value)
            && (MakerNow(s) == tested && s.lock.owner.None? ==> tested.value !in s.alive)
      case Moving(seen) => seen.Some? ==> Passed(s, seen.value) && DeadMaker(s, seen.value)
      case _ => true
  }

  ghost predicate Inv(s: State) {
    && s.alive <= s.used
    && (forall p :: p in s.wrappers ==> Registered(s, p))
    && (forall p, q :: p in s.wrappers && q in s.wrappers ==> OwnChild(s, p, q))
    && (forall p :: p in s.wrappers ==> OwnsLock(s, p))
    && OwnerFile(s)
    && (forall r :: r in s.wrappers ==> WaitsWell(s, r))
  }

  lemma {:induction false} InvIsSafe(s: State)
    requires Inv(s)
    ensures AtMostOne(s)
  {
    forall p, q | Active(s, p) && Active(s, q) ensures p == q {
      assert OwnsLock(s, p) && OwnsLock(s, q);
    }
  }

  /** The facts about one wrapper that a step has to keep. */
  ghost predicate Each(s: State, p: Pid) { Registered(s, p) && OwnsLock(s, p) && WaitsWell(s, p) }

  lemma {:induction false} Assemble(s: State)
    requires s.alive <= s.used && OwnerFile(s)
    requires forall p :: p in s.wrappers ==> Each(s, p)
    requires forall p, q :: p in s.wrappers && q in s.wrappers ==> OwnChild(s, p, q)
    ensures Inv(s)
  {
    forall p | p in s.wrappers ensures Registered(s, p) && OwnsLock(s, p) && WaitsWell(s, p) { assert Each(s, p); }
  }

  lemma {:induction false} Take(s: State, p: Pid)
    requires Inv(s) && p in s.wrappers
    ensures Each(s, p)
  {
  }

  lemma {:induction false} TakePair(s: State, p: Pid, q: Pid)
    requires Inv(s) && p in s.wrappers && q in s.wrappers
    ensures OwnChild(s, p, q)
  {
  }

  lemma {:induction false} BeginKeepsInv(s: State, p: Pid)
    requires Inv(s) && Enabled(s, Begin(p))
    ensures Inv(Apply(s, Begin(p)))
  {
    var t := Apply(s, Begin(p));
    forall q | q in t.wrappers
      ensures Each(t, q)
    {
      if q != p { Take(s, q); if s.lock.Taken? { Take(s, s.lock.maker); } }
    }
    forall q, r | q in t.wrappers && r in t.wrappers
      ensures OwnChild(t, q, r)
    {
      if q != p && r != p { TakePair(s, q, r); }
    }
    if s.lock.Taken? { Take(s, s.lock.maker); }
    Assemble(t);
  }

  lemma {:induction false} FileStepKeepsInv(s: State, a: Action)
    requires Inv(s) && Allowed(s, a, ALL) && (a.Mkdir? || a.WriteOwner? || a.WriteChild? || a.Rename? || a.Remove?)
    ensures Inv(Apply(s, a))
  {
    var t, p := Apply(s, a), a.p;
    if s.lock.Taken? { Take(s, s.lock.maker); TakePair(s, p, s.lock.maker); }
    Take(s, p);
    forall q | q in t.wrappers ensures Each(t, q) { Take(s, q); TakePair(s, p, q); }
    forall q, r | q in t.wrappers && r in t.wrappers ensures OwnChild(t, q, r) { TakePair(s, q, r); }
    Assemble(t);
  }

  lemma {:induction false} WaitStepKeepsInv(s: State, a: Action)
    requires Inv(s) && Allowed(s, a, ALL)
    requires a.ReadOwner? || a.Judge? || a.Confirm?
    ensures Inv(Apply(s, a))
  {
    var t, p := Apply(s, a), a.p;
    if s.lock.Taken? { Take(s, s.lock.maker); TakePair(s, p, s.lock.maker); }
    Take(s, p);
    forall q | q in t.wrappers ensures Each(t, q) { Take(s, q); TakePair(s, p, q); }
    forall q, r | q in t.wrappers && r in t.wrappers ensures OwnChild(t, q, r) { TakePair(s, q, r); }
    Assemble(t);
  }

  lemma {:induction false} LeaveStepKeepsInv(s: State, a: Action)
    requires Inv(s) && Allowed(s, a, ALL)
    requires a.SpawnFails? || a.Notice? || a.CheckOwner?
    ensures Inv(Apply(s, a))
  {
    var t, p := Apply(s, a), a.p;
    if s.lock.Taken? { Take(s, s.lock.maker); TakePair(s, p, s.lock.maker); }
    Take(s, p);
    forall q | q in t.wrappers ensures Each(t, q) { Take(s, q); TakePair(s, p, q); }
    forall q, r | q in t.wrappers && r in t.wrappers ensures OwnChild(t, q, r) { TakePair(s, q, r); }
    Assemble(t);
  }

  lemma {:induction false} EndStepKeepsInv(s: State, a: Action)
    requires Inv(s) && Allowed(s, a, ALL)
    requires a.ChildExits? || a.Kill?
    ensures Inv(Apply(s, a))
  {
    var t, p := Apply(s, a), a.p;
    if s.lock.Taken? { Take(s, s.lock.maker); TakePair(s, p, s.lock.maker); }
    Take(s, p);
    forall q | q in t.wrappers ensures Each(t, q) { Take(s, q); TakePair(s, p, q); }
    forall q, r | q in t.wrappers && r in t.wrappers ensures OwnChild(t, q, r) { TakePair(s, q, r); }
    Assemble(t);
  }

  lemma {:induction false} SpawnKeepsInv(s: State, p: Pid, child: Pid)
    requires Inv(s) && Enabled(s, Spawn(p, child))
    ensures Inv(Apply(s, Spawn(p, child)))
  {
    var t := Apply(s, Spawn(p, child));
    if s.lock.Taken? { Take(s, s.lock.maker); }
    Take(s, p);
    forall q | q in t.wrappers ensures Each(t, q) { Take(s, q); }
    forall q, r | q in t.wrappers && r in t.wrappers
      ensures OwnChild(t, q, r)
    {
      TakePair(s, q, r); Take(s, q); Take(s, r);
    }
    Assemble(t);
  }

  lemma {:induction false} TickKeepsInv(s: State, ms: nat)
    requires Inv(s) && Allowed(s, Tick(ms), ALL)
    ensures Inv(Apply(s, Tick(ms)))
  {
    var t := Apply(s, Tick(ms));
    forall q | q in t.wrappers ensures Each(t, q) { Take(s, q); }
    forall q, r | q in t.wrappers && r in t.wrappers ensures OwnChild(t, q, r) { TakePair(s, q, r); }
    Assemble(t);
  }

  lemma {:induction false} StepKeepsInv(s: State, a: Action)
    requires Inv(s) && Allowed(s, a, ALL)
    ensures Inv(Apply(s, a))
  {
    match a
    case Begin(p) => BeginKeepsInv(s, p);
    case Spawn(p, child) => SpawnKeepsInv(s, p, child);
    case Tick(ms) => TickKeepsInv(s, ms);
    case Mkdir(_) => FileStepKeepsInv(s, a);
    case WriteOwner(_) => FileStepKeepsInv(s, a);
    case WriteChild(_) => FileStepKeepsInv(s, a);
    case Rename(_) => FileStepKeepsInv(s, a);
    case Remove(_) => FileStepKeepsInv(s, a);
    case ReadOwner(_) => WaitStepKeepsInv(s, a);
    case Judge(_) => WaitStepKeepsInv(s, a);
    case Confirm(_) => WaitStepKeepsInv(s, a);
    case ChildExits(_) => EndStepKeepsInv(s, a);
    case Kill(_) => EndStepKeepsInv(s, a);
    case _ => LeaveStepKeepsInv(s, a);
  }

  // ---- Runs

  ghost predicate Run(s: State, actions: seq<Action>, t: State, given: Assumptions)
    decreases |actions|
  {
    if actions == [] then s == t
    else Allowed(s, actions[0], given) && Run(Apply(s, actions[0]), actions[1..], t, given)
  }

  ghost predicate Reachable(s: State, given: Assumptions) { exists actions :: Run(START, actions, s, given) }

  lemma {:induction false} RunKeepsInv(s: State, actions: seq<Action>, t: State)
    requires Inv(s) && Run(s, actions, t, ALL)
    ensures Inv(t)
    decreases |actions|
  {
    if actions != [] {
      StepKeepsInv(s, actions[0]);
      RunKeepsInv(Apply(s, actions[0]), actions[1..], t);
    }
  }

  lemma {:induction false} ReachableInv(s: State)
    requires Reachable(s, ALL)
    ensures Inv(s)
  {
    var actions :| Run(START, actions, s, ALL);
    RunKeepsInv(START, actions, s);
  }

  /** Under the five assumptions, at most one wrapper or command is alive under the lock, in every run. */
  lemma {:induction false} MutualExclusion(s: State)
    requires Reachable(s, ALL)
    ensures AtMostOne(s)
  {
    ReachableInv(s);
    InvIsSafe(s);
  }

  /** `release` deletes nobody else's lock, and a waiter moves aside only one whose maker and command are dead. */
  lemma {:induction false} OnlyOwnOrDeadLocksGo(s: State, a: Action)
    requires Reachable(s, ALL) && Allowed(s, a, ALL)
    ensures a.Remove? ==> s.lock.Taken? && s.lock.maker == a.p && PidOf(s.lock.owner) == Some(a.p)
    ensures a.Rename? && s.lock.Taken? ==> DeadMaker(s, s.lock.maker) && forall p :: !Active(s, p)
  {
    ReachableInv(s);
    if a.Remove? || a.Rename? { Take(s, a.p); }
    if a.Rename? && s.lock.Taken? {
      forall p | p in s.wrappers ensures !Active(s, p) { Take(s, p); }
    }
  }

  /** A wrapper that ends normally leaves no lock of its own behind. */
  lemma {:induction false} EveryReleaseFrees(s: State, p: Pid)
    requires Reachable(s, ALL) && Enabled(s, CheckOwner(p))
    ensures Apply(s, CheckOwner(p)).wrappers[p] == Removing
  {
    ReachableInv(s);
    Take(s, p);
  }

  /** In any state whatever, a wrapper goes on to remove the lock only when the owner file names it. */
  lemma {:induction false} ReleaseAsksForItsName(s: State, p: Pid)
    requires Enabled(s, CheckOwner(p))
    ensures var t := Apply(s, CheckOwner(p));
      && t.lock == s.lock
      && (t.wrappers[p] == Removing <==> s.lock.Taken? && s.lock.owner.Some? && s.lock.owner.value.pid == p)
      && (t.wrappers[p] == Removing || (t.wrappers[p] == Done && p !in t.alive))
  {
  }

  // ---- A run on its own

  /** What a wrapper does from its start to its release: with its command, or when the command cannot be started. */
  ghost function WholeRun(p: Pid, child: Pid): seq<Action> {
    [Begin(p), Mkdir(p), WriteOwner(p), Spawn(p, child), WriteChild(p), ChildExits(p), Notice(p), CheckOwner(p),
        Remove(p)]
  }

  ghost function FailedRun(p: Pid): seq<Action> {
    [Begin(p), Mkdir(p), WriteOwner(p), SpawnFails(p), CheckOwner(p), Remove(p)]
  }

  /** `p` has made the lock and written its name. */
  ghost function Owned(s: State, p: Pid): State {
    s.(lock := Taken(Some(Owner(p, None)), s.now, p), wrappers := s.wrappers[p := Holding], alive := s.alive + {p},
       used := s.used + {p})
  }

  /** It runs its command, and the lock names both. */
  ghost function HeldBy(s: State, p: Pid, child: Pid): State {
    Owned(s, p).(lock := Taken(Some(Owner(p, Some(child))), s.now, p), wrappers := s.wrappers[p := Running(child)],
                 alive := s.alive + {p} + {child}, used := s.used + {p} + {child})
  }

  ghost predicate CanRun(s: State, p: Pid, child: Pid) {
    s.lock.Free? && p !in s.used && child !in s.used && p != child && s.alive <= s.used
  }

  /** A free lock is taken, names the wrapper and its command while that runs, and is free again afterwards. */
  lemma {:induction false} WholeRunFrees(s: State, p: Pid, child: Pid)
    requires CanRun(s, p, child)
    ensures Run(s, WholeRun(p, child)[..5], HeldBy(s, p, child), ALL)
    ensures Run(s, WholeRun(p, child),
                HeldBy(s, p, child).(lock := Free, wrappers := s.wrappers[p := Done], alive := s.alive), ALL)
  {
    var whole, held := WholeRun(p, child), HeldBy(s, p, child);
    RunHolds(s, p, child);
    RunEnds(s, held, whole, p, child);
    assert held.wrappers[p := Done] == s.wrappers[p := Done] && held.alive - {child} - {p} == s.alive;
    assert whole[..9] == whole;
  }

  lemma {:induction false} RunHolds(s: State, p: Pid, child: Pid)
    requires CanRun(s, p, child)
    ensures Run(s, WholeRun(p, child)[..5], HeldBy(s, p, child), ALL)
  {
    var whole := WholeRun(p, child);
    RunTakes(s, p, child, whole);
    var held := OnRun(s, Owned(s, p), whole, 3);
    held := OnRun(s, held, whole, 4);
    assert held.wrappers == s.wrappers[p := Running(child)];
    assert held == HeldBy(s, p, child);
  }

  lemma {:induction false} RunTakes(s: State, p: Pid, child: Pid, whole: seq<Action>)
    requires CanRun(s, p, child) && |whole| >= 3 && whole[..3] == [Begin(p), Mkdir(p), WriteOwner(p)]
    ensures Run(s, whole[..3], Owned(s, p), ALL)
  {
    assert Run(s, whole[..0], s, ALL);
    assert whole[0] == whole[..3][0] && whole[1] == whole[..3][1] && whole[2] == whole[..3][2];
    var t := OnRun(s, s, whole, 0);
    t := OnRun(s, t, whole, 1);
    t := OnRun(s, t, whole, 2);
    assert t.wrappers == s.wrappers[p := Holding];
  }

  lemma {:induction false} RunEnds(s: State, held: State, whole: seq<Action>, p: Pid, child: Pid)
    requires |whole| == 9 && whole[5] == ChildExits(p) && whole[6] == Notice(p)
    requires whole[7] == CheckOwner(p) && whole[8] == Remove(p)
    requires Run(s, whole[..5], held, ALL) && In(held, p) && held.wrappers[p] == Running(child)
    requires child in held.alive && p != child && PidOf(OwnerNow(held)) == Some(p)
    ensures Run(s, whole[..9],
                held.(lock := Free, wrappers := held.wrappers[p := Done], alive := held.alive - {child} - {p}), ALL)
  {
    var exited := OnRun(s, held, whole, 5);
    var exiting := OnRun(s, exited, whole, 6);
    var t := Releases(s, exiting, whole, 7, p);
    assert held.wrappers[p := Exiting][p := Done] == held.wrappers[p := Done];
  }

  /** A wrapper whose command ended finds its own name and removes its lock. */
  lemma {:induction false} Releases(s: State, now: State, whole: seq<Action>, n: nat, p: Pid) returns (t: State)
    requires n + 1 < |whole| && whole[n] == CheckOwner(p) && whole[n + 1] == Remove(p)
    requires Run(s, whole[..n], now, ALL) && In(now, p) && now.wrappers[p].Exiting?
    requires PidOf(OwnerNow(now)) == Some(p)
    ensures t == now.(lock := Free, wrappers := now.wrappers[p := Done], alive := now.alive - {p})
    ensures Run(s, whole[..n + 2], t, ALL)
  {
    t := OnRun(s, now, whole, n);
    t := OnRun(s, t, whole, n + 1);
    assert now.wrappers[p := Removing][p := Done] == now.wrappers[p := Done];
  }

  /** The lock is free again when the command cannot be started. */
  lemma {:induction false} FailedRunFrees(s: State, p: Pid, child: Pid)
    requires CanRun(s, p, child)
    ensures Run(s, FailedRun(p),
                Owned(s, p).(lock := Free, wrappers := s.wrappers[p := Done], alive := s.alive), ALL)
  {
    var failed := FailedRun(p);
    RunTakes(s, p, child, failed);
    var exiting := OnRun(s, Owned(s, p), failed, 3);
    var t := Releases(s, exiting, failed, 4, p);
    assert t.wrappers == s.wrappers[p := Done] && t.alive == s.alive && failed[..6] == failed;
  }

  /** One more step of `whole`. */
  lemma {:induction false} OnRun(s: State, now: State, whole: seq<Action>, n: nat) returns (t: State)
    requires n < |whole| && Run(s, whole[..n], now, ALL) && Allowed(now, whole[n], ALL)
    ensures t == Apply(now, whole[n]) && Run(s, whole[..n + 1], t, ALL)
  {
    RunGrows(s, whole[..n], now, whole[n], ALL);
    t := Apply(now, whole[n]);
    assert whole[..n + 1] == whole[..n] + [whole[n]];
  }

  // ---- When a lock is taken over

  /** Its holder and command are dead or, without an owner file, it is older than ten seconds. */
  ghost predicate IsDeadLock(s: State) {
    s.lock.Taken? && match s.lock.owner
      case Some(o) => o.pid !in s.alive && (o.child.Some? ==> o.child.value !in s.alive)
      case None => s.now - s.lock.mtime > 10000
  }

  /** `p` waits, and goes on alone: mkdir, read, test, read again, rename, mkdir. */
  ghost function Attempt(p: Pid): seq<Action> { [Mkdir(p), ReadOwner(p), Judge(p), Confirm(p), Rename(p), Mkdir(p)] }

  /** One attempt takes over a dead lock, and leaves any other one to its holder. */
  lemma {:induction false} DeadLockIsTakenOver(s: State, p: Pid)
    requires In(s, p) && s.wrappers[p].Trying? && s.lock.Taken?
    ensures IsDeadLock(s) ==>
            Run(s, Attempt(p), s.(wrappers := s.wrappers[p := Made], lock := Taken(None, s.now, p)), ALL)
    ensures !IsDeadLock(s) ==> Run(s, Attempt(p)[..3], s, ALL)
  {
    var t1 := Apply(s, Mkdir(p));
    var t2 := Apply(t1, ReadOwner(p));
    var t3 := Apply(t2, Judge(p));
    assert Run(s, [], s, ALL);
    RunGrows(s, [], s, Mkdir(p), ALL);
    RunGrows(s, [] + [Mkdir(p)], t1, ReadOwner(p), ALL);
    RunGrows(s, [] + [Mkdir(p)] + [ReadOwner(p)], t2, Judge(p), ALL);
    assert Attempt(p)[..3] == [] + [Mkdir(p)] + [ReadOwner(p)] + [Judge(p)];
    WaiterJudges(s, p);
    if IsDeadLock(s) { TakesOverFrom(s, p, t3); }
  }

  lemma {:induction false} WaiterJudges(s: State, p: Pid)
    requires In(s, p) && s.wrappers[p].Trying? && s.lock.Taken?
    ensures var t := Apply(Apply(Apply(s, Mkdir(p)), ReadOwner(p)), Judge(p));
      t == if IsDeadLock(s) then s.(wrappers := s.wrappers[p := Stale(s.lock.owner, Some(s.lock.maker))]) else s
  {
    var read := s.wrappers[p := Blocked][p := Read(s.lock.owner)];
    assert read == s.wrappers[p := Read(s.lock.owner)];
    assert read[p := Trying] == s.wrappers;
    var stale := Stale(s.lock.owner, Some(s.lock.maker));
    assert read[p := stale] == s.wrappers[p := stale];
  }

  lemma {:induction false} TakesOverFrom(s: State, p: Pid, t: State)
    requires In(s, p) && s.wrappers[p].Trying? && s.lock.Taken?
    requires t == s.(wrappers := s.wrappers[p := Stale(s.lock.owner, Some(s.lock.maker))])
    requires Run(s, Attempt(p)[..3], t, ALL)
    ensures Run(s, Attempt(p), s.(wrappers := s.wrappers[p := Made], lock := Taken(None, s.now, p)), ALL)
  {
    var t4 := Apply(t, Confirm(p));
    var t5 := Apply(t4, Rename(p));
    RunGrows(s, Attempt(p)[..3], t, Confirm(p), ALL);
    RunGrows(s, Attempt(p)[..3] + [Confirm(p)], t4, Rename(p), ALL);
    RunGrows(s, Attempt(p)[..3] + [Confirm(p)] + [Rename(p)], t5, Mkdir(p), ALL);
    assert Attempt(p) == Attempt(p)[..3] + [Confirm(p)] + [Rename(p)] + [Mkdir(p)];
    assert Apply(t5, Mkdir(p)).wrappers == s.wrappers[p := Made];
  }

  // ---- Why each assumption is needed

  lemma {:induction false} RunGrows(s: State, actions: seq<Action>, t: State, a: Action, given: Assumptions)
    requires Run(s, actions, t, given) && Allowed(t, a, given)
    ensures Run(s, actions + [a], Apply(t, a), given)
    decreases |actions|
  {
    var more := actions + [a];
    if actions == [] {
      assert more[0] == a && more[1..] == [];
    } else {
      assert more[0] == actions[0] && more[1..] == actions[1..] + [a];
      RunGrows(Apply(s, actions[0]), actions[1..], t, a, given);
    }
  }

  lemma {:induction false} Then(s: State, a: Action, given: Assumptions) returns (t: State)
    requires Reachable(s, given) && Allowed(s, a, given)
    ensures t == Apply(s, a) && Reachable(t, given)
  {
    var actions :| Run(START, actions, s, given);
    RunGrows(START, actions, s, a, given);
    t := Apply(s, a);
  }

  lemma {:induction false} Nothing(given: Assumptions)
    ensures Reachable(START, given)
  {
    assert Run(START, [], START, given);
  }

  /** Wrapper 1 makes the lock. */
  lemma {:induction false} FirstMakes(given: Assumptions) returns (s: State)
    ensures Reachable(s, given)
    ensures s == State(0, Taken(None, 0, 1), map[1 := Made], {1}, {1})
  {
    Nothing(given);
    s := Then(START, Begin(1), given);
    s := Then(s, Mkdir(1), given);
  }

  /** A new wrapper finds the lock taken and reads its owner. */
  lemma {:induction false} Waits(s: State, p: Pid, given: Assumptions) returns (t: State)
    requires Reachable(s, given) && s.lock.Taken? && p !in s.used
    ensures Reachable(t, given)
    ensures t == s.(wrappers := s.wrappers[p := Read(s.lock.owner)], alive := s.alive + {p}, used := s.used + {p})
  {
    t := Then(s, Begin(p), given);
    t := Then(t, Mkdir(p), given);
    t := Then(t, ReadOwner(p), given);
    assert s.wrappers[p := Trying][p := Blocked][p := Read(s.lock.owner)] == s.wrappers[p := Read(s.lock.owner)];
  }

  /** The wrapper judges the lock stale, moves it aside and makes its own. */
  lemma {:induction false} TakesOver(s: State, p: Pid, given: Assumptions) returns (t: State)
    requires Reachable(s, given) && In(s, p) && s.wrappers[p].Read? && s.lock.Taken? && Allowed(s, Judge(p), given)
    requires IsStale(s, s.wrappers[p].owner) && PidOf(s.lock.owner) == PidOf(s.wrappers[p].owner)
    requires given.steadyOwner ==> s.lock.owner == s.wrappers[p].owner
    ensures Reachable(t, given)
    ensures t == s.(wrappers := s.wrappers[p := Made], lock := Taken(None, s.now, p))
  {
    t := Then(s, Judge(p), given);
    t := Then(t, Confirm(p), given);
    t := Then(t, Rename(p), given);
    t := Then(t, Mkdir(p), given);
    var m := Some(s.lock.maker);
    assert s.wrappers[p := Stale(s.wrappers[p].owner, m)][p := Moving(m)][p := Trying][p := Made]
        == s.wrappers[p := Made];
  }

  /** A wrapper that takes over 10 seconds from its mkdir to its owner file loses the lock it is making to a waiter. */
  lemma {:induction false} SlowOwnerBreaksTheLock() returns (s: State)
    ensures Reachable(s, ALL.(timelyOwner := false)) && Active(s, 1) && Active(s, 2)
  {
    var given := ALL.(timelyOwner := false);
    s := FirstMakes(given);
    s := Then(s, Tick(OWNERLESS_STALE_MS + 1), given);
    s := Waits(s, 2, given);
    s := TakesOver(s, 2, given);
  }

  /** A wrapper killed after the spawn and before the childPid write frees the lock while its command runs. */
  lemma {:induction false} KillAtSpawnBreaksTheLock() returns (s: State)
    ensures Reachable(s, ALL.(noKillAtSpawn := false)) && Active(s, 1) && Active(s, 2)
  {
    var given := ALL.(noKillAtSpawn := false);
    s := FirstMakes(given);
    s := Then(s, WriteOwner(1), given);
    s := Then(s, Spawn(1, 10), given);
    s := Then(s, Kill(1), given);
    s := Waits(s, 2, given);
    s := TakesOver(s, 2, given);
  }

  const DEAD := Some(Owner(1, None))

  /** Wrapper 1 makes the lock, writes its name and dies. */
  lemma {:induction false} HolderDies(given: Assumptions) returns (s: State)
    ensures Reachable(s, given)
    ensures s == State(0, Taken(DEAD, 0, 1), map[1 := Holding], {}, {1})
  {
    s := FirstMakes(given);
    s := Then(s, WriteOwner(1), given);
    s := Then(s, Kill(1), given);
  }

  /** Waiters 2 and 3 have read the dead holder's name. */
  lemma {:induction false} TwoWaitForTheDead(given: Assumptions) returns (s: State)
    ensures Reachable(s, given)
    ensures s == State(0, Taken(DEAD, 0, 1), map[1 := Holding, 2 := Read(DEAD), 3 := Read(DEAD)], {2, 3}, {1, 2, 3})
  {
    s := HolderDies(given);
    s := Waits(s, 2, given);
    s := Waits(s, 3, given);
  }

  /** The race the comment concedes: the lock is replaced between the second read and the rename. */
  lemma {:induction false} LateRenameBreaksTheLock() returns (s: State)
    ensures Reachable(s, ALL.(steadyMove := false)) && Active(s, 2) && Active(s, 3)
  {
    var given := ALL.(steadyMove := false);
    s := TwoWaitForTheDead(given);
    s := Then(s, Judge(3), given);
    s := Then(s, Confirm(3), given);
    s := TakesOver(s, 2, given);
    s := Then(s, Rename(3), given);
    s := Then(s, Mkdir(3), given);
  }

  /** Wrapper 1 dies before its owner file, and two waiters find its lock after it went stale. */
  lemma {:induction false} TwoWaitForTheOwnerless(given: Assumptions) returns (s: State)
    ensures Reachable(s, given)
    ensures s == State(OWNERLESS_STALE_MS + 1, Taken(None, 0, 1), map[1 := Made, 2 := Read(None), 3 := Read(None)],
                       {2, 3}, {1, 2, 3})
  {
    s := FirstMakes(given);
    s := Then(s, Kill(1), given);
    s := Then(s, Tick(OWNERLESS_STALE_MS + 1), given);
    s := Waits(s, 2, given);
    s := Waits(s, 3, given);
  }

  /** Two ownerless locks look alike to the second read: the new one goes instead of the tested one. */
  lemma {:induction false} OwnerlessTwinBreaksTheLock() returns (s: State)
    ensures Reachable(s, ALL.(steadyOwnerless := false)) && Active(s, 2) && Active(s, 3)
  {
    var given := ALL.(steadyOwnerless := false);
    s := TwoWaitForTheOwnerless(given);
    s := Then(s, Judge(3), given);
    s := TakesOver(s, 2, given);
    s := Then(s, Confirm(3), given);
    s := Then(s, Rename(3), given);
    s := Then(s, Mkdir(3), given);
  }

  /**
   * A waiter reads the owner before the childPid is written and tests it after the wrapper was killed: the
   * second read in removeStale compares only the wrapper's pid, so the lock goes while the command runs.
   */
  lemma {:induction false} OldReadBreaksTheLock() returns (s: State)
    ensures Reachable(s, ALL.(steadyOwner := false)) && Active(s, 1) && Active(s, 2)
  {
    var given := ALL.(steadyOwner := false);
    s := FirstMakes(given);
    s := Then(s, WriteOwner(1), given);
    s := Waits(s, 2, given);
    s := Then(s, Spawn(1, 10), given);
    s := Then(s, WriteChild(1), given);
    s := Then(s, Kill(1), given);
    s := TakesOver(s, 2, given);
  }

  /** What the second read is for: two waiters judge one lock stale, and the slower one spares the other's new lock. */
  lemma {:induction false} SecondReadSparesTheNewLock() returns (s: State)
    ensures Reachable(s, ALL) && Active(s, 2) && Enabled(s, Confirm(3)) && Allowed(s, Confirm(3), ALL)
    ensures Apply(s, Confirm(3)).wrappers[3] == Trying && Apply(s, Confirm(3)).lock == s.lock
  {
    s := TwoWaitForTheDead(ALL);
    s := Then(s, Judge(3), ALL);
    s := TakesOver(s, 2, ALL);
    s := Then(s, WriteOwner(2), ALL);
  }

  // ---- Exactly these assumptions

  /** Whatever `strong` assumes, or less. */
  ghost predicate AssumesLess(weak: Assumptions, strong: Assumptions) {
    && (weak.timelyOwner ==> strong.timelyOwner) && (weak.noKillAtSpawn ==> strong.noKillAtSpawn)
    && (weak.steadyOwner ==> strong.steadyOwner) && (weak.steadyOwnerless ==> strong.steadyOwnerless)
    && (weak.steadyMove ==> strong.steadyMove)
  }

  lemma {:induction false} FewerAssumptionsMoreRuns(s: State, actions: seq<Action>, t: State, weak: Assumptions,
                                                    strong: Assumptions)
    requires AssumesLess(weak, strong) && Run(s, actions, t, strong)
    ensures Run(s, actions, t, weak)
    decreases |actions|
  {
    if actions != [] { FewerAssumptionsMoreRuns(Apply(s, actions[0]), actions[1..], t, weak, strong); }
  }

  lemma {:induction false} StillReachable(s: State, weak: Assumptions, strong: Assumptions)
    requires AssumesLess(weak, strong) && Reachable(s, strong)
    ensures Reachable(s, weak)
  {
    var actions :| Run(START, actions, s, strong);
    FewerAssumptionsMoreRuns(START, actions, s, weak, strong);
  }

  ghost predicate IsLock(given: Assumptions) { forall s :: Reachable(s, given) ==> AtMostOne(s) }

  /** A run under all assumptions but one that is not in `given` breaks the lock under `given`. */
  lemma {:induction false} BrokenUnder(given: Assumptions, strong: Assumptions, s: State, p: Pid, q: Pid)
    requires AssumesLess(given, strong) && Reachable(s, strong) && Active(s, p) && Active(s, q) && p != q
    ensures !IsLock(given)
  {
    StillReachable(s, given, strong);
    assert !AtMostOne(s);
  }

  /** The lock excludes in every run if and only if all five assumptions are made. */
  lemma {:induction false} LockIffAllAssumed(given: Assumptions)
    ensures IsLock(given) <==> given == ALL
  {
    if given == ALL {
      forall s | Reachable(s, given) ensures AtMostOne(s) { MutualExclusion(s); }
    } else if !given.timelyOwner {
      var s := SlowOwnerBreaksTheLock();
      BrokenUnder(given, ALL.(timelyOwner := false), s, 1, 2);
    } else if !given.noKillAtSpawn {
      var s := KillAtSpawnBreaksTheLock();
      BrokenUnder(given, ALL.(noKillAtSpawn := false), s, 1, 2);
    } else if !given.steadyOwner {
      var s := OldReadBreaksTheLock();
      BrokenUnder(given, ALL.(steadyOwner := false), s, 1, 2);
    } else if !given.steadyOwnerless {
      var s := OwnerlessTwinBreaksTheLock();
      BrokenUnder(given, ALL.(steadyOwnerless := false), s, 2, 3);
    } else {
      var s := LateRenameBreaksTheLock();
      BrokenUnder(given, ALL.(steadyMove := false), s, 2, 3);
    }
  }
}
