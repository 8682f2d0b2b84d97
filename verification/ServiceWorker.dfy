/** The PWA worker of public/service-worker.js: install, activate and fetch of every build. */
module ServiceWorker {
  /*
   * Every build that one scope ever served, over that scope's caches. The browser and the network choose the
   * next step.
   */

  import opened Forms

  // ---- Requests and responses

  datatype Response = Response(status: int, opaqueType: bool, redirected: bool, html: bool, noStore: bool, body: string)

  predicate IsShellResponse(r: Response) { r.status == 200 && !r.opaqueType && r.html }

  predicate IsCacheableResponse(r: Response) { 200 <= r.status <= 299 && !r.opaqueType && !r.noStore }

  predicate Includes(text: string, part: string) {
    exists i :: 0 <= i <= |text| && part <= text[i..]
  }

  /** A stamped worker: scripts/stamp-service-worker.ts writes the three values into it. */
  datatype Build = Build(id: string, entry: string, precache: seq<string>)

  predicate LoadsThisBuild(b: Build, r: Response) { b.entry == "" || Includes(r.body, b.entry) }

  predicate IsInstallShell(b: Build, r: Response) { IsShellResponse(r) && !r.redirected && LoadsThisBuild(b, r) }

  /** `./`, or a path and query under the scope. */
  datatype Key = Root | File(path: string, query: string)

  datatype Request = Request(get: bool, path: Option<string>, query: string, token: bool, navigate: bool)

  function Lower(s: string): (r: string)
    ensures |r| == |s|
    ensures forall i :: 0 <= i < |s| ==> r[i] == if 'A' <= s[i] <= 'Z' then (s[i] as int + 32) as char else s[i]
  {
    if s == [] then [] else [if 'A' <= s[0] <= 'Z' then (s[0] as int + 32) as char else s[0]] + Lower(s[1..])
  }

  const UNCACHEABLE_PREFIXES: set<string> := {"auth/", "orpc/", "api/"}

  predicate IsUncacheable(token: bool, path: string) {
    token || exists prefix :: prefix in UNCACHEABLE_PREFIXES && (prefix <= Lower(path) || Lower(path) + "/" == prefix)
  }

  predicate HashChar(c: char) { 'A' <= c <= 'Z' || 'a' <= c <= 'z' || '0' <= c <= '9' || c == '_' || c == '-' }

  predicate ExtensionChar(c: char) { 'a' <= c <= 'z' || '0' <= c <= '9' || c == '.' }

  /** `^[^/]+-[A-Za-z0-9_-]{8}\.[a-z0-9.]+$`; `i` is where the hash's dash stands. */
  predicate HashedAt(path: string, i: int) {
    && 1 <= i && i + 10 < |path| && path[i] == '-' && path[i + 9] == '.'
    && (forall j :: 0 <= j < i ==> path[j] != '/')
    && (forall j :: i < j < i + 9 ==> HashChar(path[j]))
    && (forall j :: i + 9 < j < |path| ==> ExtensionChar(path[j]))
  }

  predicate IsHashed(path: string) { exists i :: 0 <= i < |path| && HashedAt(path, i) }

  const SHELL_PUBLIC_FILES: set<string> :=
    {"manifest.json", "favicon.ico", "favicon-dark.ico", "apple-touch-icon.png", "icon-192.png", "icon-512.png"}

  predicate AllowListed(path: string) { IsHashed(path) || path in SHELL_PUBLIC_FILES }

  /** What the fetch handler does: nothing, `respondWith(fetch(...))`, or networkFirst under a cache key. */
  datatype Handling = LeftAlone | Forwarded | NetworkFirst(key: Key)

  function Handle(req: Request): Handling {
    if !req.get then Forwarded
    else if req.path.None? || IsUncacheable(req.token, req.path.value) then LeftAlone
    else if req.navigate then if req.path.value == "" then NetworkFirst(Root) else LeftAlone
    else if AllowListed(req.path.value) then NetworkFirst(File(req.path.value, req.query))
    else LeftAlone
  }

  predicate MayStore(b: Build, key: Key, r: Response) {
    if key.Root? then IsShellResponse(r) && LoadsThisBuild(b, r) else IsCacheableResponse(r)
  }

  // ---- State

  type Cache = map<Key, Response>

  datatype Progress = Pending | Stored | Lost

  /** One running install. `attached` is false once its open cache was deleted by name. */
  datatype Install = Install(id: string, shell: Progress, files: map<string, Progress>, attached: bool)

  datatype Write = Write(id: string, key: Key, response: Response)

  datatype State = State(caches: map<string, Cache>, installing: Option<Install>, waiting: Option<string>,
                         active: Option<string>, writes: set<Write>)

  /** Every build this scope ever serves, by its id. */
  type Builds = map<string, Build>

  datatype Action =
    | Begin(id: string)                        // an update check finds another worker
    | Shell(fetched: Option<Response>)         // the install's fetch of ./ ends; None when it fails
    | Precache(name: string, fetched: Option<Response>)
    | Settle                                   // every install write ended
    | Activate
    | Answer(req: Request, fetched: Option<Response>) // the active worker handles a request; None: the network fails
    | Put(w: Write)                            // a write under waitUntil ends
    | Drop(w: Write)                           // or fails

  datatype Assumptions = Assumptions(
    distinctIds: bool,      // a stamped worker that installs has another BUILD_ID than the waiting and the active one
    quietActivate: bool)    // no install runs while another worker activates

  const ALL := Assumptions(true, true)

  ghost function Names(b: Build): set<string> {
    (set n | n in b.precache) + if b.entry == "" then {} else {b.entry}
  }

  predicate IsScript(name: string) { |name| >= 3 && name[|name| - 3..] == ".js" }

  ghost predicate Required(b: Build, name: string) { name in Names(b) && (name == b.entry || IsScript(name)) }

  ghost predicate Enabled(s: State, a: Action, builds: Builds) {
    match a
    case Begin(id) => id in builds && s.installing.None?
    case Shell(_) => s.installing.Some? && s.installing.value.shell.Pending?
    case Precache(name, _) => s.installing.Some? && name in s.installing.value.files
        && s.installing.value.files[name].Pending?
    case Settle =>
      s.installing.Some? && !s.installing.value.shell.Pending?
      && forall n :: n in s.installing.value.files ==> !s.installing.value.files[n].Pending?
    case Activate => s.waiting.Some?
    case Answer(_, _) => s.active.Some?
    case Put(w) => w in s.writes
    case Drop(w) => w in s.writes
  }

  ghost predicate Allowed(s: State, a: Action, builds: Builds, given: Assumptions) {
    && Enabled(s, a, builds)
    && (given.distinctIds && a.Begin? && a.id != "dev" ==> Some(a.id) != s.active && Some(a.id) != s.waiting)
    && (given.quietActivate && a.Activate? ==> s.installing.None?)
  }

  ghost function Named(caches: map<string, Cache>, id: string): Cache { if id in caches then caches[id] else map[] }

  ghost function Store(caches: map<string, Cache>, id: string, key: Key, r: Response): map<string, Cache> {
    caches[id := Named(caches, id)[key := r]]
  }

  ghost predicate Complete(b: Build, i: Install) {
    i.shell.Stored? && forall n :: n in i.files && Required(b, n) ==> i.files[n].Stored?
  }

  ghost function Apply(s: State, a: Action, builds: Builds): State
    requires Enabled(s, a, builds)
    requires s.installing.Some? ==> s.installing.value.id in builds
    requires s.active.Some? ==> s.active.value in builds
  {
    match a
    case Begin(id) =>
      s.(caches := s.caches[id := Named(s.caches, id)],
         installing := Some(Install(id, Pending, map n | n in Names(builds[id]) :: Pending, true)))
    case Shell(r) =>
      var i := s.installing.value;
      if r.Some? && IsInstallShell(builds[i.id], r.value) then
        s.(caches := if i.attached then Store(s.caches, i.id, Root, r.value) else s.caches,
           installing := Some(i.(shell := Stored)))
      else s.(installing := Some(i.(shell := Lost)))
    case Precache(name, r) =>
      var i := s.installing.value;
      if r.Some? && IsCacheableResponse(r.value) then
        s.(caches := if i.attached then Store(s.caches, i.id, File(name, ""), r.value) else s.caches,
           installing := Some(i.(files := i.files[name := Stored])))
      else s.(installing := Some(i.(files := i.files[name := Lost])))
    case Settle =>
      var i := s.installing.value;
      if Complete(builds[i.id], i) then s.(installing := None, waiting := Some(i.id))
      else if i.id == "dev" then s.(installing := None)
      else s.(installing := None, caches := s.caches - {i.id})
    case Activate =>
      var id := s.waiting.value;
      s.(active := Some(id), waiting := None,
         caches := if id in s.caches then map[id := s.caches[id]] else map[],
         installing := if s.installing.Some? && s.installing.value.id != id
             then Some(s.installing.value.(attached := false)) else s.installing)
    case Answer(req, fetched) =>
      var how := Handle(req);
      if how.NetworkFirst? && fetched.Some? && MayStore(builds[s.active.value], how.key, fetched.value) then
        s.(writes := s.writes + {Write(s.active.value, how.key, fetched.value)})
      else s
    case Put(w) => s.(caches := Store(s.caches, w.id, w.key, w.response), writes := s.writes - {w})
    case Drop(w) => s.(writes := s.writes - {w})
  }

  const START := State(map[], None, None, None, {})

  // ---- What an offline launch needs

  /** The cached shell loads this build, and its entry and every script of the first load are there. */
  ghost predicate Launchable(b: Build, cache: Cache) {
    && Root in cache && IsShellResponse(cache[Root]) && LoadsThisBuild(b, cache[Root])
    && forall n :: Required(b, n) ==> File(n, "") in cache && IsCacheableResponse(cache[File(n, "")])
  }

  ghost predicate Served(caches: map<string, Cache>, builds: Builds, id: string) {
    id in builds && id in caches && Launchable(builds[id], caches[id])
  }

  /** What an attached install has stored so far is in its cache. */
  ghost predicate InstallInv(s: State, builds: Builds) {
    s.installing.Some? ==>
      var i := s.installing.value;
      && i.id in builds && i.attached && i.files.Keys == Names(builds[i.id]) && i.id in s.caches
      && (i.shell.Stored? ==> Root in s.caches[i.id] && IsShellResponse(s.caches[i.id][Root])
                              && LoadsThisBuild(builds[i.id], s.caches[i.id][Root]))
      && (forall n :: n in i.files && i.files[n].Stored? ==>
            File(n, "") in s.caches[i.id] && IsCacheableResponse(s.caches[i.id][File(n, "")]))
      && (i.id == "dev" || (Some(i.id) != s.active && Some(i.id) != s.waiting))
  }

  ghost predicate WriteInv(builds: Builds, w: Write) {
    w.id in builds && MayStore(builds[w.id], w.key, w.response)
        && (w.key.File? ==> AllowListed(w.key.path) && !IsUncacheable(false, w.key.path))
  }

  /** No cache holds anything off the allow-list, but for what the stamp names itself. */
  ghost predicate KeysInv(builds: Builds, id: string, cache: Cache) {
    id in builds && forall k :: k in cache && k.File? ==>
      (AllowListed(k.path) && !IsUncacheable(false, k.path)) || k.path in Names(builds[id])
  }

  ghost predicate Inv(s: State, builds: Builds) {
    && (s.active.Some? ==> Served(s.caches, builds, s.active.value))
    && (s.waiting.Some? ==> Served(s.caches, builds, s.waiting.value))
    && InstallInv(s, builds)
    && (forall w :: w in s.writes ==> WriteInv(builds, w))
    && (forall id :: id in s.caches ==> KeysInv(builds, id, s.caches[id]))
  }

  /** Unstamped workers all carry the id "dev", no entry and no precache list. */
  ghost predicate WellStamped(builds: Builds) {
    forall id :: id in builds ==> builds[id].id == id && (id == "dev" ==> builds[id] == Build("dev", "", []))
  }

  lemma {:induction false} StoreKeepsLaunchable(b: Build, cache: Cache, key: Key, r: Response)
    requires Launchable(b, cache) && MayStore(b, key, r)
    ensures Launchable(b, cache[key := r])
  {
  }

  lemma {:induction false} StoreKeepsServed(caches: map<string, Cache>, builds: Builds, at: string, key: Key,
                                            r: Response, id: string)
    requires Served(caches, builds, id) && at in builds && MayStore(builds[at], key, r)
    ensures Served(Store(caches, at, key, r), builds, id)
  {
    if at == id { StoreKeepsLaunchable(builds[id], caches[id], key, r); }
  }

  lemma {:induction false} StoreKeepsKeys(caches: map<string, Cache>, builds: Builds, at: string, key: Key, r: Response)
    requires at in builds && forall id :: id in caches ==> KeysInv(builds, id, caches[id])
    requires key.File? ==> (AllowListed(key.path) && !IsUncacheable(false, key.path)) || key.path in Names(builds[at])
    ensures forall id :: id in Store(caches, at, key, r) ==> KeysInv(builds, id, Store(caches, at, key, r)[id])
  {
  }

  lemma {:induction false} StoreKeepsInstall(s: State, builds: Builds, at: string, key: Key, r: Response)
    requires InstallInv(s, builds) && at in builds && MayStore(builds[at], key, r)
    ensures InstallInv(s.(caches := Store(s.caches, at, key, r)), builds)
  {
  }

  lemma {:induction false} ShellKeepsInv(s: State, builds: Builds, fetched: Option<Response>)
    requires Inv(s, builds) && Enabled(s, Shell(fetched), builds)
    ensures Inv(Apply(s, Shell(fetched), builds), builds)
  {
    var i := s.installing.value;
    if fetched.Some? && IsInstallShell(builds[i.id], fetched.value) {
      StoreKeepsInstall(s, builds, i.id, Root, fetched.value);
      StoreKeepsKeys(s.caches, builds, i.id, Root, fetched.value);
      if s.active.Some? { StoreKeepsServed(s.caches, builds, i.id, Root, fetched.value, s.active.value); }
      if s.waiting.Some? { StoreKeepsServed(s.caches, builds, i.id, Root, fetched.value, s.waiting.value); }
    }
  }

  lemma {:induction false} PrecacheKeepsInv(s: State, builds: Builds, name: string, fetched: Option<Response>)
    requires Inv(s, builds) && Enabled(s, Precache(name, fetched), builds)
    ensures Inv(Apply(s, Precache(name, fetched), builds), builds)
  {
    var i := s.installing.value;
    if fetched.Some? && IsCacheableResponse(fetched.value) {
      var key := File(name, "");
      StoreKeepsInstall(s, builds, i.id, key, fetched.value);
      StoreKeepsKeys(s.caches, builds, i.id, key, fetched.value);
      if s.active.Some? { StoreKeepsServed(s.caches, builds, i.id, key, fetched.value, s.active.value); }
      if s.waiting.Some? { StoreKeepsServed(s.caches, builds, i.id, key, fetched.value, s.waiting.value); }
    }
  }

  lemma {:induction false} SettleKeepsInv(s: State, builds: Builds)
    requires Inv(s, builds) && Enabled(s, Settle, builds) && WellStamped(builds)
    ensures Inv(Apply(s, Settle, builds), builds)
  {
    var i := s.installing.value;
    if Complete(builds[i.id], i) {
      forall n | Required(builds[i.id], n)
        ensures File(n, "") in s.caches[i.id] && IsCacheableResponse(s.caches[i.id][File(n, "")])
      {
        assert n in i.files;
      }
      assert Launchable(builds[i.id], s.caches[i.id]);
    }
  }

  lemma {:induction false} ActivateKeepsInv(s: State, builds: Builds)
    requires Inv(s, builds) && Enabled(s, Activate, builds) && s.installing.None?
    ensures Inv(Apply(s, Activate, builds), builds)
  {
  }

  lemma {:induction false} BeginKeepsInv(s: State, builds: Builds, id: string)
    requires Inv(s, builds) && Allowed(s, Begin(id), builds, ALL) && WellStamped(builds)
    ensures Inv(Apply(s, Begin(id), builds), builds)
  {
    var t := Apply(s, Begin(id), builds);
    forall c | c in t.caches ensures KeysInv(builds, c, t.caches[c]) {
      if c in s.caches { assert KeysInv(builds, c, s.caches[c]); }
    }
  }

  lemma {:induction false} AnswerKeepsInv(s: State, builds: Builds, req: Request, fetched: Option<Response>)
    requires Inv(s, builds) && Enabled(s, Answer(req, fetched), builds)
    ensures Inv(Apply(s, Answer(req, fetched), builds), builds)
  {
    var how := Handle(req);
    if how.NetworkFirst? && how.key.File? {
      assert AllowListed(how.key.path) && !IsUncacheable(false, how.key.path);
    }
  }

  lemma {:induction false} WriteKeepsInv(s: State, builds: Builds, a: Action)
    requires Inv(s, builds) && Enabled(s, a, builds) && (a.Put? || a.Drop?)
    ensures Inv(Apply(s, a, builds), builds)
  {
    var w := a.w;
    assert WriteInv(builds, w);
    if a.Put? {
      StoreKeepsInstall(s, builds, w.id, w.key, w.response);
      StoreKeepsKeys(s.caches, builds, w.id, w.key, w.response);
      if s.active.Some? { StoreKeepsServed(s.caches, builds, w.id, w.key, w.response, s.active.value); }
      if s.waiting.Some? { StoreKeepsServed(s.caches, builds, w.id, w.key, w.response, s.waiting.value); }
    }
  }

  lemma {:induction false} StepKeepsInv(s: State, a: Action, builds: Builds)
    requires Inv(s, builds) && Allowed(s, a, builds, ALL) && WellStamped(builds)
    ensures Inv(Apply(s, a, builds), builds)
  {
    match a
    case Begin(id) => BeginKeepsInv(s, builds, id);
    case Shell(fetched) => ShellKeepsInv(s, builds, fetched);
    case Precache(name, fetched) => PrecacheKeepsInv(s, builds, name, fetched);
    case Settle => SettleKeepsInv(s, builds);
    case Activate => ActivateKeepsInv(s, builds);
    case Answer(req, fetched) => AnswerKeepsInv(s, builds, req, fetched);
    case Put(w) => WriteKeepsInv(s, builds, a);
    case Drop(w) => WriteKeepsInv(s, builds, a);
  }

  // ---- Whole runs

  ghost predicate Run(s: State, actions: seq<Action>, t: State, builds: Builds, given: Assumptions)
    decreases |actions|
  {
    if actions == [] then s == t
    else
      && Allowed(s, actions[0], builds, given)
      && (s.installing.Some? ==> s.installing.value.id in builds) && (s.active.Some? ==> s.active.value in builds)
      && Run(Apply(s, actions[0], builds), actions[1..], t, builds, given)
  }

  ghost predicate Reachable(s: State, builds: Builds, given: Assumptions) {
    exists actions :: Run(START, actions, s, builds, given)
  }

  lemma {:induction false} RunKeepsInv(s: State, actions: seq<Action>, t: State, builds: Builds)
    requires Inv(s, builds) && WellStamped(builds) && Run(s, actions, t, builds, ALL)
    ensures Inv(t, builds)
    decreases |actions|
  {
    if actions != [] {
      StepKeepsInv(s, actions[0], builds);
      RunKeepsInv(Apply(s, actions[0], builds), actions[1..], t, builds);
    }
  }

  lemma {:induction false} ReachableInv(s: State, builds: Builds)
    requires WellStamped(builds) && Reachable(s, builds, ALL)
    ensures Inv(s, builds)
  {
    var actions :| Run(START, actions, s, builds, ALL);
    RunKeepsInv(START, actions, s, builds);
  }

  // ---- The page's side

  /** What a page gets: the network's answer or error, the cached copy, or the 503 of offlineResponse. */
  datatype Reply = Answered(r: Response) | NetworkError | Cached(r: Response) | Offline

  /** The answer to a request that the active worker handles; `fetched` is None when the network fails. */
  ghost function ReplyTo(s: State, req: Request, fetched: Option<Response>): Reply
    requires s.active.Some?
  {
    var how, cache := Handle(req), Named(s.caches, s.active.value);
    if fetched.Some? then Answered(fetched.value)
    else if how.NetworkFirst? then if how.key in cache then Cached(cache[how.key]) else Offline
    else NetworkError
  }

  /** The installed app starts: a navigation to the scope's root, with any query that holds no token. */
  ghost predicate IsLaunch(req: Request) { req.get && req.navigate && req.path == Some("") && !req.token }

  /** A page loads the file `name` of the scope. */
  ghost predicate LoadsFile(req: Request, name: string) { req == Request(true, Some(name), "", false, false) }

  /** The stamped entry, and the scripts that it imports. */
  ghost predicate IsFirstLoad(b: Build, name: string) {
    (b.entry != "" && name == b.entry) || (name in b.precache && exists stem :: name == stem + ".js")
  }

  ghost predicate IsShellOf(b: Build, r: Response) {
    r.status == 200 && r.html && !r.opaqueType && exists i :: 0 <= i <= |r.body| && b.entry <= r.body[i..]
  }

  ghost predicate IsKept(r: Response) { 200 <= r.status < 300 && !r.opaqueType && !r.noStore }

  ghost predicate StartsFrom(reply: Reply, b: Build) { reply.Cached? && IsShellOf(b, reply.r) }

  ghost predicate LoadsFrom(reply: Reply) { reply.Cached? && IsKept(reply.r) }

  /** Offline, a launch gets a shell of the active build, and its entry and every first-load script are answered. */
  ghost predicate Launches(s: State, builds: Builds)
    requires s.active.Some?
  {
    && s.active.value in builds
    && (forall req :: IsLaunch(req) ==> StartsFrom(ReplyTo(s, req, None), builds[s.active.value]))
    && forall req, name :: IsFirstLoad(builds[s.active.value], name) && LoadsFile(req, name) ==>
         LoadsFrom(ReplyTo(s, req, None))
  }

  lemma {:induction false} LaunchIsHandled(req: Request)
    requires IsLaunch(req)
    ensures Handle(req) == NetworkFirst(Root)
  {
    assert |Lower("")| == 0;
    assert forall prefix :: prefix in UNCACHEABLE_PREFIXES ==> |prefix| > 1;
  }

  lemma {:induction false} FirstLoadIsRequired(b: Build, name: string)
    requires IsFirstLoad(b, name)
    ensures Required(b, name)
  {
    if stem :| name == stem + ".js" { EndsWith(stem, ".js"); }
  }

  lemma {:induction false} EndsWith(stem: string, end: string)
    ensures (stem + end)[|stem + end| - |end|..] == end
  {
  }

  /**
   * Through failed installs, redirects, rolling deploys, late writes and shell refreshes, the active
   * worker can launch its own build offline.
   */
  lemma {:induction false} ActiveBuildLaunchesOffline(s: State, builds: Builds)
    requires WellStamped(builds) && StampedFromDist(builds) && Reachable(s, builds, ALL) && s.active.Some?
    ensures Launches(s, builds)
  {
    ReachableInv(s, builds);
    var b := builds[s.active.value];
    forall req | IsLaunch(req) ensures StartsFrom(ReplyTo(s, req, None), b) {
      LaunchIsHandled(req);
      ShellIsShell(b, s.caches[s.active.value][Root]);
    }
    forall req, name | IsFirstLoad(b, name) && LoadsFile(req, name) ensures LoadsFrom(ReplyTo(s, req, None)) {
      FirstLoadIsRequired(b, name);
      assert name in Names(b) && AllowListed(name);
      AllowListedIsCacheable(name);
    }
  }

  lemma {:induction false} ShellIsShell(b: Build, r: Response)
    ensures IsShellResponse(r) && LoadsThisBuild(b, r) <==> IsShellOf(b, r)
  {
    if b.entry == "" { assert b.entry <= r.body[0..]; }
  }

  /** A root navigation that the network answers with a shell of this build refreshes what the next launch gets. */
  lemma {:induction false} RootNavigationRefreshes(s: State, builds: Builds, req: Request, r: Response)
    requires s.active.Some? && s.active.value in builds && IsLaunch(req) && IsShellOf(builds[s.active.value], r)
    requires s.installing.Some? ==> s.installing.value.id in builds
    ensures var t, w := Apply(s, Answer(req, Some(r)), builds), Write(s.active.value, Root, r);
      && ReplyTo(s, req, Some(r)) == Answered(r) && w in t.writes
      && forall later :: IsLaunch(later) ==> ReplyTo(Apply(t, Put(w), builds), later, None) == Cached(r)
  {
    LaunchIsHandled(req);
    ShellIsShell(builds[s.active.value], r);
    var t, w := Apply(s, Answer(req, Some(r)), builds), Write(s.active.value, Root, r);
    forall later | IsLaunch(later) ensures ReplyTo(Apply(t, Put(w), builds), later, None) == Cached(r) {
      LaunchIsHandled(later);
    }
  }

  /** An allow-listed file that the network answers is what its URL gets offline. */
  lemma {:induction false} AllowListedIsRefreshed(s: State, builds: Builds, req: Request, name: string, r: Response)
    requires s.active.Some? && s.active.value in builds && IsKept(r)
    requires AllowListed(name) && req == Request(true, Some(name), req.query, false, false)
    requires s.installing.Some? ==> s.installing.value.id in builds
    ensures var t, w := Apply(s, Answer(req, Some(r)), builds), Write(s.active.value, File(name, req.query), r);
      && ReplyTo(s, req, Some(r)) == Answered(r) && w in t.writes
      && ReplyTo(Apply(t, Put(w), builds), req, None) == Cached(r)
  {
    AllowListedIsCacheable(name);
  }

  // ---- When an install succeeds

  /** The ids that a step may look up are served by this scope. */
  ghost predicate Known(s: State, builds: Builds) {
    && (s.installing.Some? ==>
         s.installing.value.id in builds && s.installing.value.files.Keys == Names(builds[s.installing.value.id]))
    && (s.active.Some? ==> s.active.value in builds)
  }

  /** Install stores the shell of its build, unless it was redirected, and every file that any cache may keep. */
  lemma {:induction false} InstallStores(s: State, builds: Builds, name: string, fetched: Option<Response>)
    requires Known(s, builds) && s.installing.Some?
    ensures var i := s.installing.value;
      && (Enabled(s, Shell(fetched), builds) ==>
            (Apply(s, Shell(fetched), builds).installing.value.shell.Stored? <==>
               fetched.Some? && IsShellOf(builds[i.id], fetched.value) && !fetched.value.redirected))
      && (Enabled(s, Precache(name, fetched), builds) ==>
            (Apply(s, Precache(name, fetched), builds).installing.value.files[name].Stored? <==>
               fetched.Some? && IsKept(fetched.value)))
  {
    if fetched.Some? { ShellIsShell(builds[s.installing.value.id], fetched.value); }
  }

  /** Everything that the first load needs was stored. */
  ghost predicate HasFirstLoad(b: Build, i: Install) {
    i.shell.Stored? && forall name :: IsFirstLoad(b, name) ==> name in i.files && i.files[name].Stored?
  }

  lemma {:induction false} CompleteIffFirstLoad(builds: Builds, i: Install)
    requires StampedFromDist(builds) && i.id in builds && i.files.Keys == Names(builds[i.id])
    ensures Complete(builds[i.id], i) <==> HasFirstLoad(builds[i.id], i)
  {
    var b := builds[i.id];
    forall name ensures name in i.files && Required(b, name) <==> IsFirstLoad(b, name) {
      if IsFirstLoad(b, name) { FirstLoadIsRequired(b, name); }
      if name in i.files && Required(b, name) {
        assert IsHashed(name);
        if IsScript(name) { assert name == name[..|name| - 3] + ".js"; }
      }
    }
  }

  /**
   * An install whose writes ended waits to be activated exactly when the shell and the first load were stored; the
   * stylesheet and the font may fail. A failed one drops its cache, but not the one that unstamped workers share.
   */
  lemma {:induction false} InstallSucceedsIff(s: State, builds: Builds)
    requires Known(s, builds) && StampedFromDist(builds) && Enabled(s, Settle, builds)
    ensures var i, t := s.installing.value, Apply(s, Settle, builds);
      && t.installing.None? && t.active == s.active
      && (HasFirstLoad(builds[i.id], i) ==> t.waiting == Some(i.id) && t.caches == s.caches)
      && (!HasFirstLoad(builds[i.id], i) ==>
            t.waiting == s.waiting && t.caches == if i.id == "dev" then s.caches else s.caches - {i.id})
  {
    CompleteIffFirstLoad(builds, s.installing.value);
  }

  /** Activation makes the waiting build the active one, and its cache the only one of the scope. */
  lemma {:induction false} ActivateDropsTheOthers(s: State, builds: Builds)
    requires Known(s, builds) && Enabled(s, Activate, builds)
    ensures var id, t := s.waiting.value, Apply(s, Activate, builds);
      && t.active == Some(id) && t.waiting.None? && t.caches.Keys == s.caches.Keys * {id}
      && (id in s.caches ==> t.caches[id] == s.caches[id])
  {
  }

  // ---- What the worker must not touch

  ghost predicate SameLetter(c: char, small: char) { c == small || c as int + 32 == small as int }

  /** The path of an OAuth, oRPC or REST route, in capitals or not. */
  ghost predicate IsRoute(path: string, route: string) {
    && route in {"auth", "orpc", "api"} && |route| <= |path|
    && (forall i :: 0 <= i < |route| ==> SameLetter(path[i], route[i]))
    && (|path| == |route| || path[|route|] == '/')
  }

  lemma {:induction false} RouteIsUncacheable(path: string, route: string)
    requires IsRoute(path, route)
    ensures IsUncacheable(false, path)
  {
    var prefix := route + "/";
    assert prefix in UNCACHEABLE_PREFIXES by {
      if route == "auth" { assert prefix == "auth/"; }
      else if route == "orpc" { assert prefix == "orpc/"; }
      else { assert prefix == "api/"; }
    }
    LowerStarts(path, route);
    if |path| == |route| {
      assert Lower(path) + "/" == prefix;
    } else {
      assert Lower(path)[..|prefix|] == prefix;
    }
  }

  lemma {:induction false} LowerStarts(path: string, route: string)
    requires |route| <= |path| && forall i :: 0 <= i < |route| ==> SameLetter(path[i], route[i])
    requires forall i :: 0 <= i < |route| ==> 'a' <= route[i] <= 'z'
    ensures Lower(path)[..|route|] == route
  {
  }

  /** Token URLs, other methods, foreign paths, the routes, and pages below the root. */
  ghost predicate IsPrivate(req: Request) {
    || !req.get || req.token || req.path.None?
    || (req.navigate && req.path != Some(""))
    || (exists route :: IsRoute(req.path.value, route))
    || (!req.navigate && !AllowListed(req.path.value))
  }

  /** They pass through: nothing of them is stored, and none is answered from the cache. */
  lemma {:induction false} PrivateRequestsPassThrough(s: State, builds: Builds, req: Request, fetched: Option<Response>)
    requires IsPrivate(req) && s.active.Some? && s.active.value in builds
    requires s.installing.Some? ==> s.installing.value.id in builds
    ensures Apply(s, Answer(req, fetched), builds) == s
    ensures ReplyTo(s, req, fetched) == if fetched.Some? then Answered(fetched.value) else NetworkError
  {
    if req.get && req.path.Some? {
      if route :| IsRoute(req.path.value, route) { RouteIsUncacheable(req.path.value, route); }
    }
  }

  /** A hashed name: something, a dash, eight characters of base64url, a dot and an extension. */
  ghost predicate IsHashedAs(path: string, name: string, hash: string, extension: string) {
    && path == name + ("-" + (hash + ("." + extension)))
    && name != "" && '/' !in name && |hash| == 8 && extension != ""
    && (forall c :: c in hash ==> 'A' <= c <= 'Z' || 'a' <= c <= 'z' || '0' <= c <= '9' || c == '_' || c == '-')
    && forall c :: c in extension ==> 'a' <= c <= 'z' || '0' <= c <= '9' || c == '.'
  }

  lemma {:induction false} HashedIff(path: string)
    ensures IsHashed(path) <==> exists name, hash, extension :: IsHashedAs(path, name, hash, extension)
  {
    if i :| 0 <= i < |path| && HashedAt(path, i) {
      var name, hash, extension := path[..i], path[i + 1..i + 9], path[i + 10..];
      assert path == name + ("-" + (hash + ("." + extension)));
      assert IsHashedAs(path, name, hash, extension);
    }
    if name, hash, extension :| IsHashedAs(path, name, hash, extension) {
      NameHasHash(path, name, hash, extension);
    }
  }

  /** What may be cached: hashed names, and six public files. */
  lemma {:induction false} AllowListedIff(path: string)
    ensures AllowListed(path) <==>
            || (exists name, hash, extension :: IsHashedAs(path, name, hash, extension))
            || path == "manifest.json" || path == "favicon.ico" || path == "favicon-dark.ico"
            || path == "apple-touch-icon.png" || path == "icon-192.png" || path == "icon-512.png"
  {
    HashedIff(path);
  }

  lemma {:induction false} NameHasHash(path: string, name: string, hash: string, extension: string)
    requires IsHashedAs(path, name, hash, extension)
    ensures HashedAt(path, |name|)
  {
    var i := |name|;
    assert path[..i] == name && path[i + 1..i + 9] == hash && path[i + 10..] == extension;
    forall j | 0 <= j < i ensures path[j] != '/' { assert path[j] == name[j]; }
    forall j | i < j < i + 9 ensures HashChar(path[j]) {
      assert path[j] == hash[j - i - 1] && hash[j - i - 1] in hash;
    }
    forall j | i + 9 < j < |path| ensures ExtensionChar(path[j]) {
      assert path[j] == extension[j - i - 10] && extension[j - i - 10] in extension;
    }
  }

  lemma {:induction false} PrefixEndsInside(prefix: string, text: string)
    requires prefix != [] && prefix <= text
    ensures prefix[|prefix| - 1] in text
  {
    assert text[|prefix| - 1] == prefix[|prefix| - 1];
  }

  lemma {:induction false} LowerKeepsSlashes(path: string)
    requires '/' in Lower(path)
    ensures '/' in path
  {
    var i :| 0 <= i < |path| && Lower(path)[i] == '/';
    assert path[i] == '/';
  }

  /** A prefix needs a slash, and a bare "auth", "orpc" or "api" is shorter than any allow-listed name. */
  lemma {:induction false} LongNameIsNotUncacheable(path: string)
    requires '/' !in path && |path| > 4
    ensures !IsUncacheable(false, path)
  {
    if IsUncacheable(false, path) {
      var prefix :| prefix in UNCACHEABLE_PREFIXES && (prefix <= Lower(path) || Lower(path) + "/" == prefix);
      assert |prefix| <= 5 && prefix[|prefix| - 1] == '/';
      PrefixEndsInside(prefix, Lower(path));
      LowerKeepsSlashes(path);
    }
  }

  lemma {:induction false} AllowListedIsCacheable(path: string)
    requires AllowListed(path)
    ensures !IsUncacheable(false, path)
  {
    if IsHashed(path) {
      var i :| 0 <= i < |path| && HashedAt(path, i);
      forall j | 0 <= j < |path| ensures path[j] != '/' {}
      LongNameIsNotUncacheable(path);
    } else {
      PublicNames(path);
      LongNameIsNotUncacheable(path);
    }
  }

  lemma {:induction false} PublicNames(path: string)
    requires path in SHELL_PUBLIC_FILES
    ensures '/' !in path && |path| > 4
  {
    if path == "manifest.json" {}
    else if path == "favicon.ico" {}
    else if path == "favicon-dark.ico" {}
    else if path == "apple-touch-icon.png" {}
    else if path == "icon-192.png" {}
    else { assert path == "icon-512.png"; }
  }

  /** The stamp script refuses a precache name off the hashed allow-list, and an entry off the list. */
  ghost predicate StampedFromDist(builds: Builds) {
    forall id, n :: id in builds && n in Names(builds[id]) ==> IsHashed(n)
  }

  // ---- What is stored, in every run

  /** What holds of the storage whatever is assumed. */
  ghost predicate StorageInv(s: State, builds: Builds) {
    && (s.installing.Some? ==>
         s.installing.value.id in builds && s.installing.value.files.Keys == Names(builds[s.installing.value.id]))
    && (s.active.Some? ==> s.active.value in builds) && (s.waiting.Some? ==> s.waiting.value in builds)
    && (forall w :: w in s.writes ==> WriteInv(builds, w))
    && (forall id :: id in s.caches ==> KeysInv(builds, id, s.caches[id]))
  }

  lemma {:induction false} InstallStepKeepsStorage(s: State, builds: Builds, a: Action)
    requires StorageInv(s, builds) && Enabled(s, a, builds) && (a.Shell? || a.Precache?)
    ensures StorageInv(Apply(s, a, builds), builds)
  {
    var i := s.installing.value;
    match a
    case Shell(Some(r)) => StoreKeepsKeys(s.caches, builds, i.id, Root, r);
    case Precache(name, Some(r)) => StoreKeepsKeys(s.caches, builds, i.id, File(name, ""), r);
    case _ =>
  }

  lemma {:induction false} StepKeepsStorage(s: State, builds: Builds, a: Action)
    requires StorageInv(s, builds) && Enabled(s, a, builds)
    ensures StorageInv(Apply(s, a, builds), builds)
  {
    match a
    case Shell(_) => InstallStepKeepsStorage(s, builds, a);
    case Precache(_, _) => InstallStepKeepsStorage(s, builds, a);
    case Put(w) =>
      assert WriteInv(builds, w);
      StoreKeepsKeys(s.caches, builds, w.id, w.key, w.response);
    case _ =>
  }

  lemma {:induction false} RunKeepsStorage(s: State, actions: seq<Action>, t: State, builds: Builds, given: Assumptions)
    requires StorageInv(s, builds) && Run(s, actions, t, builds, given)
    ensures StorageInv(t, builds)
    decreases |actions|
  {
    if actions != [] {
      StepKeepsStorage(s, builds, actions[0]);
      RunKeepsStorage(Apply(s, actions[0], builds), actions[1..], t, builds, given);
    }
  }

  /** In every run, no cache holds an API, oRPC or auth path, or anything but the shell and allow-listed files. */
  lemma {:induction false} OnlyAllowListedIsStored(s: State, builds: Builds, given: Assumptions, id: string, key: Key)
    requires StampedFromDist(builds) && Reachable(s, builds, given)
    requires id in s.caches && key in s.caches[id]
    ensures key.Root? || (AllowListed(key.path) && !IsUncacheable(false, key.path))
  {
    var actions :| Run(START, actions, s, builds, given);
    RunKeepsStorage(START, actions, s, builds, given);
    assert KeysInv(builds, id, s.caches[id]);
    if key.File? {
      assert AllowListed(key.path);
      AllowListedIsCacheable(key.path);
    }
  }

  // ---- Why the assumptions are needed

  lemma {:induction false} RunGrows(s: State, actions: seq<Action>, t: State, a: Action, builds: Builds,
                                    given: Assumptions)
    requires Run(s, actions, t, builds, given) && Allowed(t, a, builds, given)
    requires (t.installing.Some? ==> t.installing.value.id in builds) && (t.active.Some? ==> t.active.value in builds)
    ensures Run(s, actions + [a], Apply(t, a, builds), builds, given)
    decreases |actions|
  {
    var more := actions + [a];
    if actions == [] {
      assert more[0] == a && more[1..] == [];
    } else {
      assert more[0] == actions[0] && more[1..] == actions[1..] + [a];
      RunGrows(Apply(s, actions[0], builds), actions[1..], t, a, builds, given);
    }
  }

  lemma {:induction false} Then(s: State, a: Action, builds: Builds, given: Assumptions) returns (t: State)
    requires Reachable(s, builds, given) && Allowed(s, a, builds, given)
    requires (s.installing.Some? ==> s.installing.value.id in builds) && (s.active.Some? ==> s.active.value in builds)
    ensures t == Apply(s, a, builds) && Reachable(t, builds, given)
  {
    var actions :| Run(START, actions, s, builds, given);
    RunGrows(START, actions, s, a, builds, given);
    t := Apply(s, a, builds);
  }

  const ENTRY := "main-AbCd1234.js"

  const PAGE := Response(200, false, false, true, true, ENTRY)

  const SCRIPT := Response(200, false, false, false, false, "")

  ghost predicate TwoBuilds(builds: Builds) {
    builds == map["a" := Build("a", ENTRY, []), "b" := Build("b", ENTRY, [])]
  }

  lemma {:induction false} Starts(s: State, id: string, builds: Builds, given: Assumptions) returns (t: State)
    requires Reachable(s, builds, given) && s.installing.None? && Allowed(s, Begin(id), builds, given)
    requires TwoBuilds(builds) && (s.active.Some? ==> s.active.value in builds)
    ensures Reachable(t, builds, given)
    ensures t == s.(caches := s.caches[id := Named(s.caches, id)],
                    installing := Some(Install(id, Pending, map[ENTRY := Pending], true)))
  {
    t := Then(s, Begin(id), builds, given);
    assert Names(builds[id]) == {ENTRY};
    assert (map n | n in Names(builds[id]) :: Pending) == map[ENTRY := Pending];
  }

  lemma {:induction false} ShellArrives(s: State, builds: Builds, given: Assumptions) returns (t: State)
    requires Reachable(s, builds, given) && TwoBuilds(builds) && (s.active.Some? ==> s.active.value in builds)
    requires s.installing.Some? && s.installing.value.id in builds
    requires s.installing.value == Install(s.installing.value.id, Pending, map[ENTRY := Pending], true)
    ensures Reachable(t, builds, given)
    ensures t == s.(caches := Store(s.caches, s.installing.value.id, Root, PAGE),
                    installing := Some(Install(s.installing.value.id, Stored, map[ENTRY := Pending], true)))
  {
    assert ENTRY <= PAGE.body[0..];
    t := Then(s, Shell(Some(PAGE)), builds, given);
  }

  lemma {:induction false} EntryArrives(s: State, builds: Builds, given: Assumptions) returns (t: State)
    requires Reachable(s, builds, given) && TwoBuilds(builds) && (s.active.Some? ==> s.active.value in builds)
    requires s.installing.Some? && s.installing.value.id in builds
    requires s.installing.value == Install(s.installing.value.id, Stored, map[ENTRY := Pending], true)
    ensures Reachable(t, builds, given)
    ensures t == s.(caches := Store(s.caches, s.installing.value.id, File(ENTRY, ""), SCRIPT),
                    installing := Some(Install(s.installing.value.id, Stored, map[ENTRY := Stored], true)))
  {
    t := Then(s, Precache(ENTRY, Some(SCRIPT)), builds, given);
    assert map[ENTRY := Pending][ENTRY := Stored] == map[ENTRY := Stored];
  }

  lemma {:induction false} Settles(s: State, builds: Builds, given: Assumptions) returns (t: State)
    requires Reachable(s, builds, given) && TwoBuilds(builds) && (s.active.Some? ==> s.active.value in builds)
    requires s.installing.Some? && s.installing.value.id in builds
    requires s.installing.value.shell.Stored? && s.installing.value.files == map[ENTRY := Stored]
    ensures Reachable(t, builds, given)
    ensures t == s.(installing := None, waiting := Some(s.installing.value.id))
  {
    t := Then(s, Settle, builds, given);
  }

  lemma {:induction false} Nothing(builds: Builds, given: Assumptions)
    ensures Reachable(START, builds, given)
  {
    assert Run(START, [], START, builds, given);
  }

  /** Build "a" is installed and waits. */
  lemma {:induction false} AWaits(builds: Builds, given: Assumptions) returns (s: State)
    requires TwoBuilds(builds)
    ensures Reachable(s, builds, given)
    ensures "a" in s.caches && s == State(s.caches, None, Some("a"), None, {}) && s.caches.Keys == {"a"}
  {
    Nothing(builds, given);
    s := Starts(START, "a", builds, given);
    s := ShellArrives(s, builds, given);
    s := EntryArrives(s, builds, given);
    s := Settles(s, builds, given);
  }

  /** A build that installs again while it is active, and fails, deletes the cache it serves from. */
  lemma {:induction false} SameIdBreaksTheLaunch(builds: Builds) returns (s: State)
    requires TwoBuilds(builds)
    ensures Reachable(s, builds, ALL.(distinctIds := false)) && s.active == Some("a") && !Launches(s, builds)
  {
    var given := ALL.(distinctIds := false);
    s := AWaits(builds, given);
    s := Then(s, Activate, builds, given);
    s := Starts(s, "a", builds, given);
    s := Then(s, Shell(None), builds, given);
    s := Then(s, Precache(ENTRY, None), builds, given);
    s := Then(s, Settle, builds, given);
    NoShellNoLaunch(s, builds);
  }

  /** An activation deletes the cache of an install that runs beside it, whose writes are then lost. */
  lemma {:induction false} BusyActivateBreaksTheLaunch(builds: Builds) returns (s: State)
    requires TwoBuilds(builds)
    ensures Reachable(s, builds, ALL.(quietActivate := false)) && s.active == Some("b") && !Launches(s, builds)
  {
    var given := ALL.(quietActivate := false);
    s := AWaits(builds, given);
    s := Starts(s, "b", builds, given);
    s := ShellArrives(s, builds, given);
    s := EntryArrives(s, builds, given);
    s := Then(s, Activate, builds, given);
    s := Settles(s, builds, given);
    s := Then(s, Activate, builds, given);
    NoShellNoLaunch(s, builds);
  }

  // ---- Exactly these assumptions

  ghost predicate AssumesLess(weak: Assumptions, strong: Assumptions) {
    (weak.distinctIds ==> strong.distinctIds) && (weak.quietActivate ==> strong.quietActivate)
  }

  lemma {:induction false} FewerAssumptionsMoreRuns(s: State, actions: seq<Action>, t: State, builds: Builds,
                                                    weak: Assumptions, strong: Assumptions)
    requires AssumesLess(weak, strong) && Run(s, actions, t, builds, strong)
    ensures Run(s, actions, t, builds, weak)
    decreases |actions|
  {
    if actions != [] { FewerAssumptionsMoreRuns(Apply(s, actions[0], builds), actions[1..], t, builds, weak, strong); }
  }

  ghost predicate AlwaysLaunches(given: Assumptions) {
    forall builds, s: State ::
      WellStamped(builds) && StampedFromDist(builds) && Reachable(s, builds, given) && s.active.Some? ==>
        Launches(s, builds)
  }

  lemma {:induction false} EntryIsHashed()
    ensures IsHashed(ENTRY)
  {
    assert ENTRY == "main" + ("-" + ("AbCd1234" + ("." + "js")));
    assert IsHashedAs(ENTRY, "main", "AbCd1234", "js");
    HashedIff(ENTRY);
  }

  lemma {:induction false} TwoBuildsAreStamped(builds: Builds)
    requires TwoBuilds(builds)
    ensures WellStamped(builds) && StampedFromDist(builds)
  {
    EntryIsHashed();
    forall id, n | id in builds && n in Names(builds[id]) ensures IsHashed(n) { assert n == ENTRY; }
  }

  lemma {:induction false} NoShellNoLaunch(s: State, builds: Builds)
    requires s.active.Some? && Root !in Named(s.caches, s.active.value)
    ensures !Launches(s, builds)
  {
    var req := Request(true, Some(""), "", false, true);
    LaunchIsHandled(req);
    assert !StartsFrom(ReplyTo(s, req, None),
        if s.active.value in builds then builds[s.active.value] else Build("", "", []));
  }

  lemma {:induction false} FailsUnder(given: Assumptions, strong: Assumptions, builds: Builds, s: State)
    requires AssumesLess(given, strong) && WellStamped(builds) && StampedFromDist(builds)
    requires Reachable(s, builds, strong) && s.active.Some? && !Launches(s, builds)
    ensures !AlwaysLaunches(given)
  {
    var actions :| Run(START, actions, s, builds, strong);
    FewerAssumptionsMoreRuns(START, actions, s, builds, given, strong);
    assert Reachable(s, builds, given);
  }

  lemma {:induction false} AlwaysLaunchesUnderAll()
    ensures AlwaysLaunches(ALL)
  {
    forall bs, s: State | WellStamped(bs) && StampedFromDist(bs) && Reachable(s, bs, ALL) && s.active.Some?
      ensures Launches(s, bs)
    {
      ActiveBuildLaunchesOffline(s, bs);
    }
  }

  /** Every active build launches offline in every run if and only if both assumptions are made. */
  lemma {:induction false} LaunchesIffAllAssumed(given: Assumptions)
    ensures AlwaysLaunches(given) <==> given == ALL
  {
    var builds := map["a" := Build("a", ENTRY, []), "b" := Build("b", ENTRY, [])];
    TwoBuildsAreStamped(builds);
    if given == ALL {
      AlwaysLaunchesUnderAll();
    } else if !given.distinctIds {
      var s := SameIdBreaksTheLaunch(builds);
      FailsUnder(given, ALL.(distinctIds := false), builds, s);
    } else {
      var s := BusyActivateBreaksTheLaunch(builds);
      FailsUnder(given, ALL.(quietActivate := false), builds, s);
    }
  }
}
