/**
 * The startup import guard (scripts/check-startup-imports.ts): a breadth-first walk that reports shortest chains.
 */
module StartupImports {
  import opened Forms
  import opened Lists

  datatype Result<+T> = Ok(value: T) | MissingFile(file: string)

  // ---- Names

  /** The index after the last occurrence of `part`, or 0: where `split(part).pop()` starts. */
  function AfterLast(s: string, part: string): (n: nat)
    requires part != []
    ensures n <= |s|
  {
    if |s| < |part| then 0
    else if part <= s[|s| - |part|..] then |s|
    else AfterLast(s[..|s| - 1], part)
  }

  function IndexOf(s: string, c: char): (n: nat)
    ensures n <= |s| && c !in s[..n] && (n < |s| ==> s[n] == c)
  {
    if s == [] || s[0] == c then 0 else 1 + IndexOf(s[1..], c)
  }

  /** "@scope/pkg/sub" -> "@scope/pkg", "pkg/sub" -> "pkg". */
  function PackageNameOf(specifier: string): string {
    var first := IndexOf(specifier, '/');
    if "@" <= specifier && first < |specifier| then specifier[..first + 1 + IndexOf(specifier[first + 1..], '/')]
    else specifier[..first]
  }

  function PackageNameOfFile(file: string): string { PackageNameOf(file[AfterLast(file, "node_modules/")..]) }

  predicate IsInNodeModules(file: string) {
    "node_modules/" <= file || exists i :: 0 <= i < |file| && "/" + "node_modules/" <= file[i..]
  }

  predicate EndsWithScope(pattern: string) { |pattern| >= 2 && pattern[|pattern| - 2..] == "/*" }

  predicate Matches(pattern: string, name: string) {
    if EndsWithScope(pattern) then pattern[..|pattern| - 1] <= name else name == pattern
  }

  predicate IsBannedPackage(name: string, banned: seq<string>) {
    exists i :: 0 <= i < |banned| && Matches(banned[i], name)
  }

  lemma {:induction false} IndexOfConcat(a: string, b: string, c: char)
    requires c !in a
    ensures IndexOf(a + b, c) == |a| + IndexOf(b, c)
  {
    if a == [] {
      assert a + b == b;
    } else {
      assert (a + b)[0] == a[0] && (a + b)[1..] == a[1..] + b;
      IndexOfConcat(a[1..], b, c);
    }
  }

  /** Every module of an unscoped package is counted under the package's own name. */
  lemma {:induction false} SubpathKeepsTheName(name: string, sub: string)
    requires '/' !in name && !("@" <= name) && (sub == "" || sub[0] == '/')
    ensures PackageNameOf(name + sub) == name
  {
    IndexOfConcat(name, sub, '/');
    assert name != "" ==> (name + sub)[0] == name[0];
    assert (name + sub)[..|name|] == name;
  }

  lemma {:induction false} TakeThrough(a: string, b: string, c: string, d: string)
    ensures (a + (b + (c + d)))[..|a| + |b| + |c|] == a + b + c
    ensures (a + (b + (c + d)))[|a| + |b|..] == c + d
  {
  }

  lemma {:induction false} ScopedSubpathKeepsTheName(scope: string, name: string, sub: string)
    requires '/' !in scope && '/' !in name && "@" <= scope && (sub == "" || sub[0] == '/')
    ensures PackageNameOf(scope + ("/" + (name + sub))) == scope + "/" + name
  {
    IndexOfConcat(scope, "/" + (name + sub), '/');
    IndexOfConcat(name, sub, '/');
    TakeThrough(scope, "/", name, sub);
  }

  /** `file` has a path segment node_modules with something behind it. */
  ghost predicate Below(file: string, before: string, rest: string) {
    file == before + ("node_modules/" + rest) && (before == "" || before[|before| - 1] == '/')
  }

  lemma {:induction false} BelowIsIn(file: string, before: string, rest: string)
    requires Below(file, before, rest)
    ensures IsInNodeModules(file)
  {
    if before == "" {
      assert file == "node_modules/" + rest;
    } else {
      var i := |before| - 1;
      assert file[i..] == ['/'] + ("node_modules/" + rest) == ("/" + "node_modules/") + rest;
    }
  }

  lemma {:induction false} InIsBelow(file: string) returns (before: string, rest: string)
    requires IsInNodeModules(file)
    ensures Below(file, before, rest)
  {
    if "node_modules/" <= file {
      before, rest := "", file[13..];
      SplitAt(file, "node_modules/");
    } else {
      var i :| 0 <= i < |file| && "/" + "node_modules/" <= file[i..];
      before, rest := CutAt(file, i, "node_modules/");
    }
  }

  lemma {:induction false} CutAt(file: string, i: nat, part: string) returns (before: string, rest: string)
    requires i < |file| && "/" + part <= file[i..]
    ensures file == before + (part + rest) && before != "" && before[|before| - 1] == '/'
  {
    before, rest := file[..i] + ['/'], file[i + 1 + |part|..];
    SplitAt(file[i..], ['/'] + part);
    assert file[i..][1 + |part|..] == file[i + 1 + |part|..];
    assert file == file[..i] + file[i..];
  }

  lemma {:induction false} SplitAt(s: string, part: string)
    requires part <= s
    ensures s == part + s[|part|..]
  {
  }

  lemma {:induction false} InNodeModulesIff(file: string)
    ensures IsInNodeModules(file) <==> exists before, rest :: Below(file, before, rest)
  {
    if IsInNodeModules(file) { var before, rest := InIsBelow(file); }
    if before, rest :| Below(file, before, rest) { BelowIsIn(file, before, rest); }
  }

  ghost predicate Occurs(part: string, s: string) { exists i :: 0 <= i <= |s| && part <= s[i..] }

  /** An occurrence that ends behind the last one would overlap it, and only its last character is a slash. */
  lemma {:induction false} NoLaterOccurrence(before: string, rest: string)
    requires rest != [] && !Occurs("node_modules/", rest)
    ensures var s := before + "node_modules/" + rest; s[|s| - 13..] != "node_modules/"
  {
    var s := before + "node_modules/" + rest;
    var tail := s[|s| - 13..];
    if |rest| >= 13 {
      assert tail == rest[|rest| - 13..];
    } else {
      assert tail[12 - |rest|] == s[|before| + 12] == '/';
      assert "node_modules/"[12 - |rest|] != '/';
    }
  }

  lemma {:induction false} AfterLastOccurrence(before: string, rest: string)
    requires !Occurs("node_modules/", rest)
    ensures AfterLast(before + "node_modules/" + rest, "node_modules/") == |before| + 13
    decreases |rest|
  {
    var part, s := "node_modules/", before + "node_modules/" + rest;
    if rest == [] {
      assert s[|s| - 13..] == part;
    } else {
      NoLaterOccurrence(before, rest);
      var shorter := rest[..|rest| - 1];
      assert s[..|s| - 1] == before + part + shorter;
      OccursInLonger(part, rest);
      AfterLastOccurrence(before, shorter);
    }
  }

  lemma {:induction false} OccursInLonger(part: string, s: string)
    requires s != []
    ensures Occurs(part, s[..|s| - 1]) ==> Occurs(part, s)
  {
    var shorter := s[..|s| - 1];
    if i :| 0 <= i <= |shorter| && part <= shorter[i..] {
      assert s[i..] == shorter[i..] + [s[|s| - 1]];
      assert part <= s[i..];
    }
  }

  /** A file belongs to the package below the innermost node_modules folder of its path. */
  lemma {:induction false} OwningPackage(before: string, rest: string)
    requires !Occurs("node_modules/", rest)
    ensures PackageNameOfFile(before + "node_modules/" + rest) == PackageNameOf(rest)
  {
    AfterLastOccurrence(before, rest);
    assert (before + "node_modules/" + rest)[|before| + 13..] == rest;
  }

  lemma {:induction false} MatchesIff(pattern: string, name: string)
    ensures Matches(pattern, name) <==>
            (pattern == name && !EndsWithScope(name)) || exists scope :: pattern == scope + "/*" && scope + "/" <= name
  {
    if EndsWithScope(pattern) {
      var scope := pattern[..|pattern| - 2];
      assert pattern == scope + "/*" && pattern[..|pattern| - 1] == scope + "/";
    }
    forall scope | pattern == scope + "/*" ensures EndsWithScope(pattern) && pattern[..|pattern| - 1] == scope + "/" {
      assert pattern[|pattern| - 2..] == "/*";
    }
  }

  ghost predicate InScope(name: string, banned: seq<string>, scope: string) {
    scope + "/*" in banned && scope + "/" <= name
  }

  /** A banned package is listed by its name, or lies in a scope that is listed with a star. */
  lemma {:induction false} BannedIff(name: string, banned: seq<string>)
    ensures IsBannedPackage(name, banned) <==>
            (name in banned && !EndsWithScope(name)) || exists scope :: InScope(name, banned, scope)
  {
    if i :| 0 <= i < |banned| && Matches(banned[i], name) {
      MatchesIff(banned[i], name);
      if scope :| banned[i] == scope + "/*" && scope + "/" <= name { assert InScope(name, banned, scope); }
    }
    if name in banned && !EndsWithScope(name) {
      var i :| 0 <= i < |banned| && banned[i] == name;
      MatchesIff(banned[i], name);
    }
    if scope :| InScope(name, banned, scope) {
      var i :| 0 <= i < |banned| && banned[i] == scope + "/*";
      MatchesIff(banned[i], name);
    }
  }

  // ---- Edges

  datatype ImportKind = ImportStatement | RequireCall | OtherKind

  datatype Import = Import(kind: ImportKind, path: string, original: Option<string>, external: bool)

  /** What the walk does with one import of a file. */
  datatype Edge = Skips | Bans(package: string, target: string) | Visits(file: string)

  function EdgeOf(file: string, imp: Import, banned: seq<string>,
                  resolvedBanned: set<(string, ImportKind, string)>): Edge {
    var eager := imp.kind == ImportStatement || (IsInNodeModules(file) && imp.kind == RequireCall);
    var specifier := if imp.original.Some? then imp.original.value else imp.path;
    if !eager then Skips
    else if imp.external then
      if (file, imp.kind, specifier) in resolvedBanned then Bans(PackageNameOf(specifier), specifier) else Skips
    else if IsInNodeModules(imp.path) && IsBannedPackage(PackageNameOfFile(imp.path), banned) then
      Bans(PackageNameOfFile(imp.path), imp.path)
    else Visits(imp.path)
  }

  type Graph = map<string, seq<Edge>>

  function GraphOf(inputs: map<string, seq<Import>>, banned: seq<string>,
                   resolvedBanned: set<(string, ImportKind, string)>): Graph {
    map file | file in inputs ::
        seq(|inputs[file]|, i requires 0 <= i < |inputs[file]| => EdgeOf(file, inputs[file][i], banned, resolvedBanned))
  }

  // ---- What the build reports

  /** esbuild's metafile, the banned list, and the banned imports that were really resolved. */
  datatype Setup = Setup(inputs: map<string, seq<Import>>, banned: seq<string>,
                         resolvedBanned: set<(string, ImportKind, string)>)

  /** An import that loads with `file`: a statement, or a require call inside node_modules. */
  ghost predicate Eager(o: Setup, file: string, imp: Import) {
    && file in o.inputs && imp in o.inputs[file]
    && (imp.kind == ImportStatement || (imp.kind == RequireCall && IsInNodeModules(file)))
  }

  ghost predicate Enters(o: Setup, imp: Import) {
    !imp.external && IsInNodeModules(imp.path) && IsBannedPackage(PackageNameOfFile(imp.path), o.banned)
  }

  ghost predicate IsNamedAs(imp: Import, specifier: string) {
    imp.original == Some(specifier) || (imp.original == None && imp.path == specifier)
  }

  /** `from` imports a banned package: by its name, or by a file in its folder. */
  ghost predicate ImportsBanned(o: Setup, from: string, package: string, target: string) {
    || (exists imp :: Eager(o, from, imp) && imp.external && IsNamedAs(imp, target)
                      && (from, imp.kind, target) in o.resolvedBanned && package == PackageNameOf(target))
    || (exists imp :: Eager(o, from, imp) && Enters(o, imp)
                      && target == imp.path && package == PackageNameOfFile(imp.path))
  }

  /** `from` loads `to`, a bundled file outside every banned package. */
  ghost predicate Loads(o: Setup, from: string, to: string) {
    exists imp :: Eager(o, from, imp) && !imp.external && !Enters(o, imp) && imp.path == to
  }

  ghost predicate IsLoadPath(p: seq<string>, entry: string, o: Setup) {
    |p| > 0 && p[0] == entry && forall i :: 0 <= i < |p| - 1 ==> Loads(o, p[i], p[i + 1])
  }

  /** Eager imports from `entry` to a banned one. */
  ghost predicate IsImportChain(chain: seq<string>, package: string, entry: string, o: Setup) {
    && |chain| >= 2 && IsLoadPath(chain[..|chain| - 1], entry, o)
    && ImportsBanned(o, chain[|chain| - 2], package, chain[|chain| - 1])
  }

  ghost predicate IsLoaded(file: string, entry: string, o: Setup) {
    exists p :: IsLoadPath(p, entry, o) && p[|p| - 1] == file
  }

  ghost predicate ReportsBanned(o: Setup, files: set<string>, package: string) {
    exists from, target :: from in files && ImportsBanned(o, from, package, target)
  }

  // ---- Paths

  /** An eager path of non-banned files from `entry`. */
  ghost predicate IsPath(p: seq<string>, entry: string, g: Graph) {
    && |p| > 0 && p[0] == entry
    && forall i :: 0 <= i < |p| - 1 ==> p[i] in g && Visits(p[i + 1]) in g[p[i]]
  }

  ghost predicate IsChain(chain: seq<string>, package: string, entry: string, g: Graph) {
    && |chain| >= 2 && IsPath(chain[..|chain| - 1], entry, g)
    && chain[|chain| - 2] in g && Bans(package, chain[|chain| - 1]) in g[chain[|chain| - 2]]
  }

  ghost predicate Reachable(file: string, entry: string, g: Graph) {
    exists p :: IsPath(p, entry, g) && p[|p| - 1] == file
  }

  datatype Violation = Violation(package: string, chain: seq<string>)

  /** A violation's chain is real, and no chain to its package is shorter. */
  ghost predicate Shortest(v: Violation, entry: string, g: Graph) {
    && IsChain(v.chain, v.package, entry, g)
    && forall chain :: IsChain(chain, v.package, entry, g) ==> |v.chain| <= |chain|
  }

  // ---- The search

  /**
   * `order` lists the files in the order they were visited, `dist` their chain lengths. The files before
   * `head` are done, the queue is the rest.
   */
  datatype Search = Search(order: seq<string>, dist: map<string, nat>, parent: map<string, string>)

  ghost predicate Ascends(s: Search, i: nat, j: nat) {
    i < |s.order| && j < |s.order| && s.order[i] in s.dist && s.order[j] in s.dist
    && s.dist[s.order[i]] <= s.dist[s.order[j]] && s.order[i] != s.order[j]
  }

  ghost predicate Near(s: Search, head: nat, j: nat) {
    head < |s.order| && j < |s.order| && s.order[head] in s.dist && s.order[j] in s.dist
    && s.dist[s.order[j]] <= s.dist[s.order[head]] + 1
  }

  /** Files come in layers: the queue holds the rest of one layer and the start of the next. */
  ghost predicate Layered(s: Search, head: nat) {
    && head <= |s.order|
    && (forall f :: f in s.order <==> f in s.dist)
    && (forall i: nat, j: nat :: i < j < |s.order| ==> Ascends(s, i, j))
    && (forall j: nat :: head < |s.order| && j < |s.order| ==> Near(s, head, j))
  }

  ghost predicate Linked(s: Search, file: string, g: Graph) {
    && file in s.dist && file in s.parent && s.parent[file] in s.dist && s.dist[file] == s.dist[s.parent[file]] + 1
    && s.parent[file] in g && Visits(file) in g[s.parent[file]]
  }

  ghost predicate Rooted(s: Search, entry: string, g: Graph) {
    && entry in s.dist && s.dist[entry] == 0 && entry !in s.parent
    && forall f :: f in s.dist && f != entry ==> Linked(s, f, g)
  }

  /** The edge was followed: its package is reported, or its file is visited no further than one step away. */
  ghost predicate Followed(s: Search, file: string, edge: Edge, reported: set<string>) {
    match edge
    case Skips => true
    case Bans(package, _) => package in reported
    case Visits(next) => next in s.dist && file in s.dist && s.dist[next] <= s.dist[file] + 1
  }

  ghost predicate FollowedUpTo(s: Search, file: string, k: nat, reported: set<string>, g: Graph) {
    file in g && k <= |g[file]| && forall i :: 0 <= i < k ==> Followed(s, file, g[file][i], reported)
  }

  ghost predicate DoneAt(s: Search, i: nat, reported: set<string>, g: Graph) {
    i < |s.order| && s.order[i] in g && FollowedUpTo(s, s.order[i], |g[s.order[i]]|, reported, g)
  }

  ghost predicate Done(s: Search, head: nat, reported: set<string>, g: Graph) {
    forall i: nat :: i < head ==> DoneAt(s, i, reported, g)
  }

  ghost predicate AllShortest(violations: seq<Violation>, entry: string, g: Graph) {
    forall i :: 0 <= i < |violations| ==> Shortest(violations[i], entry, g)
  }

  ghost predicate OncePerPackage(violations: seq<Violation>) {
    forall i, j :: 0 <= i < j < |violations| ==> violations[i].package != violations[j].package
  }

  ghost predicate Names(violations: seq<Violation>, package: string) {
    exists i :: 0 <= i < |violations| && violations[i].package == package
  }

  ghost predicate Reported(violations: seq<Violation>, reported: set<string>, entry: string, g: Graph) {
    && AllShortest(violations, entry, g) && OncePerPackage(violations)
    && forall p :: p in reported <==> Names(violations, p)
  }

  /** A path shorter than the current layer ends in a done file; its index is `i`. */
  lemma {:induction false} ShortPathIsDone(s: Search, head: nat, reported: set<string>, entry: string, g: Graph,
                                           p: seq<string>)
    returns (i: nat)
    requires Layered(s, head) && Rooted(s, entry, g) && Done(s, head, reported, g)
    requires IsPath(p, entry, g)
    requires head == |s.order| || |p| - 1 < s.dist[s.order[head]]
    ensures i < head && s.order[i] == p[|p| - 1] && DoneAt(s, i, reported, g)
    ensures p[|p| - 1] in s.dist && s.dist[p[|p| - 1]] <= |p| - 1
    decreases |p|
  {
    var last := p[|p| - 1];
    if |p| > 1 {
      var q := p[..|p| - 1];
      var from := q[|q| - 1];
      assert from == p[|p| - 2];
      var h := ShortPathIsDone(s, head, reported, entry, g, q);
      var k :| 0 <= k < |g[from]| && g[from][k] == Visits(last);
      assert Followed(s, from, g[from][k], reported);
    }
    assert last in s.order;
    i :| 0 <= i < |s.order| && s.order[i] == last;
    assert head < |s.order| && head < i ==> Ascends(s, head, i);
    assert DoneAt(s, i, reported, g);
  }

  lemma {:induction false} PrependStep(path: seq<string>, pushed: seq<string>, from: string, target: string, g: Graph)
    requires |path| > 0 && IsPath(path, path[0], g) && from in g && Visits(path[0]) in g[from]
    requires Reverse(pushed) == path + [target]
    ensures IsPath([from] + path, from, g)
    ensures Reverse(pushed + [from]) == [from] + path + [target]
  {
    assert Reverse(pushed + [from]) == [from] + Reverse(pushed);
  }

  /** The chain from `entry` through `file` to `target`, pushed while the parents are followed and then reversed. */
  method ChainTo(ghost s: Search, parent: map<string, string>, file: string, target: string, entry: string, g: Graph)
    returns (chain: seq<string>)
    requires Rooted(s, entry, g) && file in s.dist && parent == s.parent
    ensures |chain| == s.dist[file] + 2 && chain[|chain| - 1] == target && chain[|chain| - 2] == file
    ensures IsPath(chain[..|chain| - 1], entry, g)
  {
    var pushed := [target, file];
    ghost var path := [file];
    var at := file;
    while at in parent
      invariant at in s.dist && |path| == s.dist[file] - s.dist[at] + 1
      invariant path[0] == at && path[|path| - 1] == file && IsPath(path, at, g)
      invariant Reverse(pushed) == path + [target]
      decreases s.dist[at]
    {
      assert Linked(s, at, g);
      at := parent[at];
      PrependStep(path, pushed, at, target, g);
      pushed := pushed + [at];
      path := [at] + path;
    }
    chain := Reverse(pushed);
    assert chain[..|chain| - 1] == path;
  }

  lemma {:induction false} FirstReportIsShortest(s: Search, head: nat, reported: set<string>, entry: string, g: Graph,
                                                 v: Violation)
    requires Layered(s, head) && Rooted(s, entry, g) && Done(s, head, reported, g) && head < |s.order|
    requires v.package !in reported
    requires IsChain(v.chain, v.package, entry, g) && |v.chain| == s.dist[s.order[head]] + 2
    ensures Shortest(v, entry, g)
  {
    forall chain | IsChain(chain, v.package, entry, g) && |chain| < |v.chain| ensures false {
      ReportedBefore(s, head, reported, entry, g, v.package, chain);
    }
  }

  lemma {:induction false} ReportedBefore(s: Search, head: nat, reported: set<string>, entry: string, g: Graph,
                                          package: string, chain: seq<string>)
    requires Layered(s, head) && Rooted(s, entry, g) && Done(s, head, reported, g)
    requires IsChain(chain, package, entry, g) && (head == |s.order| || |chain| < s.dist[s.order[head]] + 2)
    ensures package in reported
  {
    var p := chain[..|chain| - 1];
    var i := ShortPathIsDone(s, head, reported, entry, g, p);
    var from := s.order[i];
    assert from == chain[|chain| - 2];
    var e :| 0 <= e < |g[from]| && g[from][e] == Bans(package, chain[|chain| - 1]);
    assert Followed(s, from, g[from][e], reported);
  }

  /** What holds while the first `k` edges of the file at `head` were followed. */
  ghost predicate Walking(s: Search, head: nat, k: nat, visited: set<string>, queue: seq<string>, reported: set<string>,
                          violations: seq<Violation>, entry: string, g: Graph) {
    && Layered(s, head) && head < |s.order| && Rooted(s, entry, g) && Done(s, head, reported, g)
    && FollowedUpTo(s, s.order[head], k, reported, g)
    && visited == s.dist.Keys && queue == s.order[head + 1..]
    && Reported(violations, reported, entry, g)
  }

  lemma {:induction false} DoneStays(s: Search, t: Search, head: nat, reported: set<string>, now: set<string>, g: Graph)
    requires Done(s, head, reported, g) && reported <= now
    requires |s.order| <= |t.order| && s.order == t.order[..|s.order|]
    requires forall f :: f in s.dist ==> f in t.dist && t.dist[f] == s.dist[f]
    ensures Done(t, head, now, g)
  {
    forall i: nat | i < head ensures DoneAt(t, i, now, g) {
      assert DoneAt(s, i, reported, g);
      FollowedStays(s, t, s.order[i], |g[s.order[i]]|, reported, now, g);
    }
  }

  lemma {:induction false} FollowedStays(s: Search, t: Search, file: string, k: nat, reported: set<string>,
                                         now: set<string>, g: Graph)
    requires FollowedUpTo(s, file, k, reported, g) && reported <= now
    requires forall f :: f in s.dist ==> f in t.dist && t.dist[f] == s.dist[f]
    ensures FollowedUpTo(t, file, k, now, g)
  {
    forall i | 0 <= i < k ensures Followed(t, file, g[file][i], now) {
      assert Followed(s, file, g[file][i], reported);
    }
  }

  lemma {:induction false} OneMoreName(violations: seq<Violation>, v: Violation, package: string)
    ensures Names(violations + [v], package) <==> Names(violations, package) || package == v.package
  {
    var more := violations + [v];
    assert more[|violations|] == v;
    if Names(violations, package) {
      var i :| 0 <= i < |violations| && violations[i].package == package;
      assert more[i] == violations[i];
    }
  }

  lemma {:induction false} OneMoreShortest(violations: seq<Violation>, entry: string, g: Graph, v: Violation)
    requires AllShortest(violations, entry, g) && Shortest(v, entry, g)
    ensures AllShortest(violations + [v], entry, g)
  {
  }

  lemma {:induction false} OneMoreReport(violations: seq<Violation>, reported: set<string>, entry: string, g: Graph,
                                         v: Violation)
    requires Reported(violations, reported, entry, g) && v.package !in reported && Shortest(v, entry, g)
    ensures Reported(violations + [v], reported + {v.package}, entry, g)
  {
    OneMoreShortest(violations, entry, g, v);
    forall i | 0 <= i < |violations| ensures violations[i].package != v.package {
      assert Names(violations, violations[i].package);
    }
    forall p ensures p in reported + {v.package} <==> Names(violations + [v], p) {
      OneMoreName(violations, v, p);
    }
  }

  lemma {:induction false} Report(s: Search, head: nat, k: nat, visited: set<string>, queue: seq<string>,
                                  reported: set<string>, violations: seq<Violation>, entry: string, g: Graph,
                                  v: Violation)
    requires Walking(s, head, k, visited, queue, reported, violations, entry, g)
    requires k < |g[s.order[head]]| && g[s.order[head]][k].Bans? && v.package == g[s.order[head]][k].package
    requires v.package !in reported && Shortest(v, entry, g)
    ensures Walking(s, head, k + 1, visited, queue, reported + {v.package}, violations + [v], entry, g)
  {
    var now, file := reported + {v.package}, s.order[head];
    DoneStays(s, s, head, reported, now, g);
    FollowedStays(s, s, file, k, reported, now, g);
    FollowedMore(s, file, k, now, g);
    OneMoreReport(violations, reported, entry, g, v);
  }

  lemma {:induction false} FollowedMore(s: Search, file: string, k: nat, reported: set<string>, g: Graph)
    requires FollowedUpTo(s, file, k, reported, g) && k < |g[file]| && Followed(s, file, g[file][k], reported)
    ensures FollowedUpTo(s, file, k + 1, reported, g)
  {
  }

  ghost function Enqueued(s: Search, file: string, next: string): Search
    requires file in s.dist
  {
    Search(s.order + [next], s.dist[next := s.dist[file] + 1], s.parent[next := file])
  }

  lemma {:induction false} EnqueuedIsLayered(s: Search, head: nat, next: string)
    requires Layered(s, head) && head < |s.order| && next !in s.dist
    ensures s.order[head] in s.dist && Layered(Enqueued(s, s.order[head], next), head)
  {
    assert s.order[head] in s.order;
    var t := Enqueued(s, s.order[head], next);
    forall i: nat, j: nat | i < j < |t.order| ensures Ascends(t, i, j) {
      if j < |s.order| { assert Ascends(s, i, j); } else { assert Near(s, head, i); assert s.order[i] in s.order; }
    }
    forall j: nat | j < |t.order| ensures Near(t, head, j) {
      if j < |s.order| { assert Near(s, head, j); assert s.order[j] in s.order; }
    }
    assert forall f :: f in t.order <==> f in s.order || f == next;
  }

  lemma {:induction false} EnqueuedIsRooted(s: Search, file: string, next: string, entry: string, g: Graph)
    requires Rooted(s, entry, g) && file in s.dist && next !in s.dist && file in g && Visits(next) in g[file]
    ensures Rooted(Enqueued(s, file, next), entry, g)
  {
    var t := Enqueued(s, file, next);
    forall f | f in t.dist && f != entry ensures Linked(t, f, g) {
      if f != next { assert Linked(s, f, g); }
    }
    assert entry != next;
  }

  lemma {:induction false} Enqueue(s: Search, head: nat, k: nat, visited: set<string>, queue: seq<string>,
                                   reported: set<string>, violations: seq<Violation>, entry: string, g: Graph,
                                   next: string)
    requires Walking(s, head, k, visited, queue, reported, violations, entry, g)
    requires k < |g[s.order[head]]| && g[s.order[head]][k] == Visits(next) && next !in visited
    ensures s.order[head] in s.dist
    ensures Walking(Enqueued(s, s.order[head], next), head, k + 1, visited + {next}, queue + [next], reported,
            violations, entry, g)
  {
    var file := s.order[head];
    EnqueuedIsLayered(s, head, next);
    EnqueuedIsRooted(s, file, next, entry, g);
    var t := Enqueued(s, file, next);
    DoneStays(s, t, head, reported, reported, g);
    FollowedStays(s, t, file, k, reported, reported, g);
    assert t.order[head] == file && t.order[head + 1..] == queue + [next];
  }

  lemma {:induction false} VisitedIsReachable(s: Search, file: string, entry: string, g: Graph) returns (p: seq<string>)
    requires Rooted(s, entry, g) && file in s.dist
    ensures IsPath(p, entry, g) && p[|p| - 1] == file && |p| == s.dist[file] + 1
    decreases s.dist[file]
  {
    if file == entry {
      p := [entry];
    } else {
      assert Linked(s, file, g);
      var q := VisitedIsReachable(s, s.parent[file], entry, g);
      p := q + [file];
    }
  }

  lemma {:induction false} StepHead(s: Search, head: nat, reported: set<string>, g: Graph)
    requires Layered(s, head) && head < |s.order| && Done(s, head, reported, g) && DoneAt(s, head, reported, g)
    ensures Layered(s, head + 1) && Done(s, head + 1, reported, g)
  {
    var next := head + 1;
    forall j: nat | next < |s.order| && j < |s.order| ensures Near(s, next, j) {
      assert Near(s, head, j) && Ascends(s, head, next);
    }
  }

  /** The queue is empty: what was visited and reported is all there is. */
  lemma {:induction false} Finished(s: Search, visited: set<string>, reported: set<string>, violations: seq<Violation>,
                                    entry: string, g: Graph)
    requires Layered(s, |s.order|) && Rooted(s, entry, g) && Done(s, |s.order|, reported, g)
    requires visited == s.dist.Keys && Reported(violations, reported, entry, g)
    ensures forall package, chain :: IsChain(chain, package, entry, g) ==> Names(violations, package)
    ensures forall file :: file in visited <==> Reachable(file, entry, g)
    ensures visited <= g.Keys
  {
    forall package, chain | IsChain(chain, package, entry, g) ensures Names(violations, package) {
      ReportedBefore(s, |s.order|, reported, entry, g, package, chain);
    }
    forall file ensures file in visited <==> Reachable(file, entry, g) {
      if file in visited {
        var p := VisitedIsReachable(s, file, entry, g);
      }
      if Reachable(file, entry, g) {
        var p :| IsPath(p, entry, g) && p[|p| - 1] == file;
        var i := ShortPathIsDone(s, |s.order|, reported, entry, g, p);
      }
    }
    forall file | file in visited ensures file in g {
      assert file in s.order;
      var i :| 0 <= i < |s.order| && s.order[i] == file;
      assert DoneAt(s, i, reported, g);
    }
  }

  ghost function Targets(g: Graph): set<string> {
    set f, i | f in g && 0 <= i < |g[f]| && g[f][i].Visits? :: g[f][i].file
  }

  ghost function Files(entry: string, g: Graph): set<string> { g.Keys + {entry} + Targets(g) }

  /** What holds between two files of the queue. */
  ghost predicate Between(s: Search, head: nat, visited: set<string>, queue: seq<string>, reported: set<string>,
                          violations: seq<Violation>, entry: string, g: Graph) {
    && Layered(s, head) && Rooted(s, entry, g) && Done(s, head, reported, g)
    && visited == s.dist.Keys && queue == s.order[head..]
    && Reported(violations, reported, entry, g)
  }

  /** The guard's promise for one entry: each reachable banned package once, with a shortest chain, and nothing else. */
  ghost predicate Exact(violations: seq<Violation>, visited: set<string>, entry: string, g: Graph) {
    && AllShortest(violations, entry, g) && OncePerPackage(violations)
    && (forall package, chain :: IsChain(chain, package, entry, g) ==> Names(violations, package))
    && (forall file :: file in visited <==> Reachable(file, entry, g))
    && visited <= g.Keys
  }

  /** One entry: `while (queue.length > 0)`. */
  method Analyze(entry: string, g: Graph) returns (r: Result<seq<Violation>>, visited: set<string>)
    ensures match r
      case Ok(violations) => Exact(violations, visited, entry, g)
      case MissingFile(file) => file !in g && Reachable(file, entry, g)
  {
    visited := {entry};
    var queue, parent, reported: set<string>, violations := [entry], map[], {}, [];
    ghost var s, head := Search([entry], map[entry := 0], map[]), 0;
    while queue != []
      invariant Between(s, head, visited, queue, reported, violations, entry, g)
      invariant parent == s.parent && visited <= Files(entry, g)
      decreases Files(entry, g) - visited, |queue|
    {
      var file := queue[0];
      assert file == s.order[head] && file in s.order;
      if file !in g {
        ghost var p := VisitedIsReachable(s, file, entry, g);
        return MissingFile(file), visited;
      }
      s, visited, queue, parent, reported, violations :=
        Follow(s, head, file, visited, queue[1..], parent, reported, violations, entry, g);
      StepHead(s, head, reported, g);
      head := head + 1;
    }
    r := Ok(violations);
    assert head == |s.order|;
    Finished(s, visited, reported, violations, entry, g);
  }

  /** `for (const imp of input.imports)`. */
  method Follow(ghost s0: Search, ghost head: nat, file: string, visited0: set<string>, queue0: seq<string>,
                parent0: map<string, string>, reported0: set<string>, violations0: seq<Violation>, entry: string,
                g: Graph)
    returns (ghost s: Search, visited: set<string>, queue: seq<string>, parent: map<string, string>,
        reported: set<string>, violations: seq<Violation>)
    requires Walking(s0, head, 0, visited0, queue0, reported0, violations0, entry, g) && file == s0.order[head]
             && parent0 == s0.parent
    requires visited0 <= Files(entry, g)
    ensures Walking(s, head, |g[file]|, visited, queue, reported, violations, entry, g) && s.order[head] == file
            && parent == s.parent
    ensures visited0 <= visited <= Files(entry, g)
    ensures visited == visited0 ==> queue == queue0
  {
    s, visited, queue, parent, reported, violations := s0, visited0, queue0, parent0, reported0, violations0;
    for k := 0 to |g[file]|
      invariant Walking(s, head, k, visited, queue, reported, violations, entry, g) && s.order[head] == file
                && parent == s.parent
      invariant visited0 <= visited <= Files(entry, g)
      invariant visited == visited0 ==> queue == queue0
    {
      assert file in s.order;
      match g[file][k]
      case Skips =>
      case Bans(package, target) =>
        if package in reported { continue; }
        var chain := ChainTo(s, parent, file, target, entry, g);
        FirstReportIsShortest(s, head, reported, entry, g, Violation(package, chain));
        Report(s, head, k, visited, queue, reported, violations, entry, g, Violation(package, chain));
        reported := reported + {package};
        violations := violations + [Violation(package, chain)];
      case Visits(next) =>
        if next in visited { KnownIsNear(s, head, next); continue; }
        Enqueue(s, head, k, visited, queue, reported, violations, entry, g, next);
        assert g[file][k].Visits? && next in Targets(g);
        s := Enqueued(s, file, next);
        visited := visited + {next};
        parent := parent[next := file];
        queue := queue + [next];
    }
  }

  lemma {:induction false} KnownIsNear(s: Search, head: nat, next: string)
    requires Layered(s, head) && head < |s.order| && next in s.dist
    ensures s.order[head] in s.dist && s.dist[next] <= s.dist[s.order[head]] + 1
  {
    assert next in s.order;
    var j :| 0 <= j < |s.order| && s.order[j] == next;
    assert Near(s, head, j);
  }

  // ---- The same over imports

  lemma {:induction false} EdgesAreImports(o: Setup, from: string, package: string, target: string)
    requires from in o.inputs
    ensures var edges := GraphOf(o.inputs, o.banned, o.resolvedBanned)[from];
      && (Visits(target) in edges <==> Loads(o, from, target))
      && (Bans(package, target) in edges <==> ImportsBanned(o, from, package, target))
  {
    var imports, edges := o.inputs[from], GraphOf(o.inputs, o.banned, o.resolvedBanned)[from];
    forall i | 0 <= i < |imports|
      ensures edges[i] == EdgeOf(from, imports[i], o.banned, o.resolvedBanned) && imports[i] in imports
    {
    }
    forall imp | imp in imports ensures EdgeOf(from, imp, o.banned, o.resolvedBanned) in edges {
      var i :| 0 <= i < |imports| && imports[i] == imp;
      assert edges[i] in edges;
    }
  }

  lemma {:induction false} PathsAreLoads(p: seq<string>, entry: string, o: Setup)
    ensures IsPath(p, entry, GraphOf(o.inputs, o.banned, o.resolvedBanned)) <==> IsLoadPath(p, entry, o)
  {
    var g := GraphOf(o.inputs, o.banned, o.resolvedBanned);
    if IsPath(p, entry, g) {
      forall i | 0 <= i < |p| - 1 ensures Loads(o, p[i], p[i + 1]) { EdgesAreImports(o, p[i], "", p[i + 1]); }
    }
    if IsLoadPath(p, entry, o) {
      forall i | 0 <= i < |p| - 1 ensures p[i] in g && Visits(p[i + 1]) in g[p[i]] {
        assert Loads(o, p[i], p[i + 1]);
        EdgesAreImports(o, p[i], "", p[i + 1]);
      }
    }
  }

  lemma {:induction false} ChainsAreImports(chain: seq<string>, package: string, entry: string, o: Setup)
    ensures IsChain(chain, package, entry, GraphOf(o.inputs, o.banned, o.resolvedBanned)) <==>
            IsImportChain(chain, package, entry, o)
  {
    if |chain| >= 2 {
      PathsAreLoads(chain[..|chain| - 1], entry, o);
      var from := chain[|chain| - 2];
      if from in o.inputs { EdgesAreImports(o, from, package, chain[|chain| - 1]); }
    }
  }

  /** The guard's promise for one entry, over the imports of the metafile. */
  ghost predicate ReportIsExact(r: EntryReport, o: Setup) {
    && OncePerPackage(r.violations) && r.visited <= o.inputs.Keys
    && (forall file :: file in r.visited <==> IsLoaded(file, r.entry, o))
    && r.entry in r.visited && (forall from, to :: from in r.visited && Loads(o, from, to) ==> to in r.visited)
    && (forall package :: Names(r.violations, package) <==> ReportsBanned(o, r.visited, package))
    && (forall i :: 0 <= i < |r.violations| ==> ChainIsShortest(r.violations[i], r.entry, o))
  }

  ghost predicate ChainIsShortest(v: Violation, entry: string, o: Setup) {
    && IsImportChain(v.chain, v.package, entry, o)
    && forall chain :: IsImportChain(chain, v.package, entry, o) ==> |v.chain| <= |chain|
  }

  lemma {:induction false} LoadsOn(o: Setup, entry: string, from: string, to: string)
    requires IsLoaded(from, entry, o) && Loads(o, from, to)
    ensures IsLoaded(to, entry, o)
  {
    var p :| IsLoadPath(p, entry, o) && p[|p| - 1] == from;
    assert IsLoadPath(p + [to], entry, o);
  }

  lemma {:induction false} LoadedIsReachable(file: string, entry: string, o: Setup)
    ensures IsLoaded(file, entry, o) <==> Reachable(file, entry, GraphOf(o.inputs, o.banned, o.resolvedBanned))
  {
    var g := GraphOf(o.inputs, o.banned, o.resolvedBanned);
    if p :| IsLoadPath(p, entry, o) && p[|p| - 1] == file { PathsAreLoads(p, entry, o); }
    if p :| IsPath(p, entry, g) && p[|p| - 1] == file { PathsAreLoads(p, entry, o); }
  }

  lemma {:induction false} ShortestOverImports(v: Violation, entry: string, o: Setup)
    requires Shortest(v, entry, GraphOf(o.inputs, o.banned, o.resolvedBanned))
    ensures ChainIsShortest(v, entry, o)
  {
    ChainsAreImports(v.chain, v.package, entry, o);
    forall chain | IsImportChain(chain, v.package, entry, o) ensures |v.chain| <= |chain| {
      ChainsAreImports(chain, v.package, entry, o);
    }
  }

  lemma {:induction false} ChainEndsInReport(chain: seq<string>, package: string, visited: set<string>, entry: string,
                                             o: Setup)
    requires IsImportChain(chain, package, entry, o) && forall file :: IsLoaded(file, entry, o) ==> file in visited
    ensures ReportsBanned(o, visited, package)
  {
    var p, from := chain[..|chain| - 1], chain[|chain| - 2];
    assert p[|p| - 1] == from;
    assert IsLoaded(from, entry, o);
  }

  lemma {:induction false} ImportedHasAChain(o: Setup, entry: string, from: string, package: string, target: string)
    returns (chain: seq<string>)
    requires IsLoaded(from, entry, o) && ImportsBanned(o, from, package, target)
    ensures IsChain(chain, package, entry, GraphOf(o.inputs, o.banned, o.resolvedBanned))
  {
    var p :| IsLoadPath(p, entry, o) && p[|p| - 1] == from;
    chain := p + [target];
    assert chain[..|chain| - 1] == p;
    assert IsImportChain(chain, package, entry, o);
    ChainsAreImports(chain, package, entry, o);
  }

  /** A package is reported exactly when a visited file imports it. */
  lemma {:induction false} ReportedIffImported(r: EntryReport, o: Setup, package: string)
    requires Exact(r.violations, r.visited, r.entry, GraphOf(o.inputs, o.banned, o.resolvedBanned))
    requires forall file :: file in r.visited <==> IsLoaded(file, r.entry, o)
    ensures Names(r.violations, package) <==> ReportsBanned(o, r.visited, package)
  {
    if i :| 0 <= i < |r.violations| && r.violations[i].package == package {
      assert Shortest(r.violations[i], r.entry, GraphOf(o.inputs, o.banned, o.resolvedBanned));
      ChainsAreImports(r.violations[i].chain, package, r.entry, o);
      ChainEndsInReport(r.violations[i].chain, package, r.visited, r.entry, o);
    }
    if from, target :| from in r.visited && ImportsBanned(o, from, package, target) {
      var chain := ImportedHasAChain(o, r.entry, from, package, target);
    }
  }

  lemma {:induction false} ExactOverImports(r: EntryReport, o: Setup)
    requires Exact(r.violations, r.visited, r.entry, GraphOf(o.inputs, o.banned, o.resolvedBanned))
    ensures ReportIsExact(r, o)
  {
    forall file ensures file in r.visited <==> IsLoaded(file, r.entry, o) { LoadedIsReachable(file, r.entry, o); }
    assert IsLoadPath([r.entry], r.entry, o);
    forall from, to | from in r.visited && Loads(o, from, to) ensures to in r.visited { LoadsOn(o, r.entry, from, to); }
    forall package ensures Names(r.violations, package) <==> ReportsBanned(o, r.visited, package) {
      ReportedIffImported(r, o, package);
    }
    forall i | 0 <= i < |r.violations| ensures ChainIsShortest(r.violations[i], r.entry, o) {
      ShortestOverImports(r.violations[i], r.entry, o);
    }
  }

  datatype EntryReport = EntryReport(entry: string, violations: seq<Violation>, visited: set<string>)

  /** The report of one entry, or a file that it loads and the metafile does not list. */
  ghost predicate IsOutcome(r: Result<EntryReport>, entry: string, o: Setup) {
    match r
    case Ok(report) => report.entry == entry && ReportIsExact(report, o)
    case MissingFile(file) => file !in o.inputs && IsLoaded(file, entry, o)
  }

  ghost predicate AllOutcomes(reports: seq<EntryReport>, entries: seq<string>, o: Setup) {
    forall i :: 0 <= i < |reports| && i < |entries| ==> IsOutcome(Ok(reports[i]), entries[i], o)
  }

  method AnalyzeEntry(entry: string, g: Graph, ghost o: Setup) returns (r: Result<EntryReport>)
    requires g == GraphOf(o.inputs, o.banned, o.resolvedBanned)
    ensures IsOutcome(r, entry, o)
  {
    var one, visited := Analyze(entry, g);
    if one.MissingFile? {
      LoadedIsReachable(one.file, entry, o);
      return MissingFile(one.file);
    }
    var report := EntryReport(entry, one.value, visited);
    ExactOverImports(report, o);
    r := Ok(report);
  }

  /** `for (const entry of options.entries)`; the first failed assertion ends the run. */
  method AnalyzeStartupImports(inputs: map<string, seq<Import>>, entries: seq<string>, banned: seq<string>,
                               resolvedBanned: set<(string, ImportKind, string)>)
    returns (r: Result<seq<EntryReport>>)
    ensures var o := Setup(inputs, banned, resolvedBanned);
      match r
      case Ok(reports) => |reports| == |entries| && AllOutcomes(reports, entries, o)
      case MissingFile(file) => exists i :: 0 <= i < |entries| && IsOutcome(MissingFile(file), entries[i], o)
  {
    var g := GraphOf(inputs, banned, resolvedBanned);
    ghost var o := Setup(inputs, banned, resolvedBanned);
    var reports: seq<EntryReport> := [];
    for i := 0 to |entries|
      invariant |reports| == i && AllOutcomes(reports, entries, o)
    {
      var one := AnalyzeEntry(entries[i], g, o);
      if one.MissingFile? { return MissingFile(one.file); }
      reports := reports + [one.value];
    }
    r := Ok(reports);
  }
}
