/**
 * Lockfile keys, npm paths and Node's lookup: keySegments, npmPath and resolveKey of the shrinkwrap generator,
 * scripts/generate-npm-shrinkwrap.ts. Which keys share an npm path is said exactly.
 */
module NpmPaths {
  import opened Forms
  import opened Text

  // ---- Segments

  predicate Scoped(part: string) { part != "" && part[0] == '@' }

  function Parts(key: string): seq<string> { if key == "" then [] else Split(key, '/') }

  /** A scope takes the next part with it; a scope at the end takes JavaScript's `undefined`. */
  function Segments(parts: seq<string>): seq<string>
    decreases |parts|
  {
    if parts == [] then []
    else if !Scoped(parts[0]) then [parts[0]] + Segments(parts[1..])
    else if |parts| == 1 then [parts[0] + "/" + "undefined"]
    else [parts[0] + "/" + parts[1]] + Segments(parts[2..])
  }

  function SegmentsOf(key: string): seq<string> { Segments(Parts(key)) }

  /** The loop of keySegments, index and all. */
  method KeySegments(key: string) returns (segments: seq<string>)
    ensures segments == SegmentsOf(key)
  {
    if key == "" { return []; }
    var parts := Split(key, '/');
    segments := [];
    var i := 0;
    while i < |parts|
      invariant 0 <= i <= |parts| && segments + Segments(parts[i..]) == Segments(parts)
    {
      ghost var rest := parts[i..];
      if Scoped(parts[i]) {
        var scope := parts[i];
        i := i + 1;
        segments := segments + [scope + "/" + if i < |parts| then parts[i] else "undefined"];
        assert i < |parts| ==> rest[1] == parts[i] && rest[2..] == parts[i + 1..];
      } else {
        segments := segments + [parts[i]];
        assert rest[1..] == parts[i + 1..];
      }
      i := if i < |parts| then i + 1 else i;
    }
  }

  // ---- Paths

  function InFolders(segments: seq<string>): (r: seq<string>)
    ensures |r| == |segments|
  {
    if segments == [] then [] else ["node_modules" + "/" + segments[0]] + InFolders(segments[1..])
  }

  function NpmPath(key: string): string {
    var folders := InFolders(SegmentsOf(key));
    if folders == [] then "" else Join(folders, '/')
  }

  /** The parts a key's segments stand for. */
  ghost function Complete(parts: seq<string>): seq<string>
    decreases |parts|
  {
    if parts == [] then []
    else if !Scoped(parts[0]) then [parts[0]] + Complete(parts[1..])
    else if |parts| == 1 then [parts[0], "undefined"]
    else [parts[0], parts[1]] + Complete(parts[2..])
  }

  /** The key ends in a scope without a name. */
  ghost predicate Dangling(key: string) { Complete(Parts(key)) != Parts(key) }

  /** The parts of the npm path. */
  ghost function PathParts(parts: seq<string>): seq<string>
    decreases |parts|
  {
    if parts == [] then []
    else if !Scoped(parts[0]) then ["node_modules", parts[0]] + PathParts(parts[1..])
    else if |parts| == 1 then ["node_modules", parts[0], "undefined"]
    else ["node_modules", parts[0], parts[1]] + PathParts(parts[2..])
  }

  /** Reads the parts of a path back. */
  ghost function KeyParts(path: seq<string>): seq<string>
    decreases |path|
  {
    if |path| < 2 then []
    else if Scoped(path[1]) && |path| > 2 then [path[1], path[2]] + KeyParts(path[3..])
    else [path[1]] + KeyParts(path[2..])
  }

  lemma {:induction false} PathReadsBack(parts: seq<string>)
    ensures KeyParts(PathParts(parts)) == Complete(parts)
    decreases |parts|
  {
    var path := PathParts(parts);
    if parts != [] {
      if !Scoped(parts[0]) {
        PathReadsBack(parts[1..]);
        assert path[2..] == PathParts(parts[1..]);
      } else if |parts| == 1 {
        assert path[3..] == [];
      } else {
        PathReadsBack(parts[2..]);
        assert path[3..] == PathParts(parts[2..]);
      }
    }
  }

  ghost function Flat(list: seq<string>): seq<string> {
    if list == [] then [] else Split(list[0], '/') + Flat(list[1..])
  }

  lemma {:induction false} SplitJoined(list: seq<string>)
    requires list != []
    ensures Split(Join(list, '/'), '/') == Flat(list)
  {
    if |list| > 1 {
      SplitJoined(list[1..]);
      SplitConcat(list[0], Join(list[1..], '/'), '/');
    } else {
      assert Flat(list[1..]) == [];
    }
  }

  lemma {:induction false} SplitFolder(parts: seq<string>)
    requires 1 <= |parts| <= 2 && Without(parts, '/')
    ensures Split("node_modules" + "/" + Join(parts, '/'), '/') == ["node_modules"] + parts
  {
    SplitWhole("node_modules", '/');
    SplitConcat("node_modules", Join(parts, '/'), '/');
    SplitJoin(parts, '/');
  }

  lemma {:induction false} FlatFolders(parts: seq<string>)
    requires Without(parts, '/')
    ensures Flat(InFolders(Segments(parts))) == PathParts(parts)
    decreases |parts|
  {
    if parts == [] {
    } else if !Scoped(parts[0]) {
      FlatFolders(parts[1..]);
      FlatOne([parts[0]], Segments(parts[1..]));
    } else if |parts| == 1 {
      FlatOne([parts[0], "undefined"], []);
      JoinOfTwo(parts[0], "undefined");
    } else {
      FlatFolders(parts[2..]);
      FlatOne([parts[0], parts[1]], Segments(parts[2..]));
      JoinOfTwo(parts[0], parts[1]);
    }
  }

  lemma {:induction false} JoinOfTwo(a: string, b: string)
    ensures Join([a, b], '/') == a + "/" + b
  {
    assert [a, b][1..] == [b];
  }

  lemma {:induction false} FlatOne(parts: seq<string>, rest: seq<string>)
    requires 1 <= |parts| <= 2 && Without(parts, '/')
    ensures Flat(InFolders([Join(parts, '/')] + rest)) == ["node_modules"] + parts + Flat(InFolders(rest))
  {
    SplitFolder(parts);
    var all := [Join(parts, '/')] + rest;
    assert all[1..] == rest;
    assert InFolders(all)[1..] == InFolders(rest);
  }

  lemma {:induction false} SegmentsOfComplete(parts: seq<string>)
    ensures Segments(Complete(parts)) == Segments(parts)
    decreases |parts|
  {
    if parts != [] {
      var c := Complete(parts);
      if !Scoped(parts[0]) {
        SegmentsOfComplete(parts[1..]);
        assert c[1..] == Complete(parts[1..]);
      } else if |parts| == 1 {
        assert c[2..] == [];
      } else {
        SegmentsOfComplete(parts[2..]);
        assert c[2..] == Complete(parts[2..]);
      }
    }
  }

  lemma {:induction false} PathSplits(key: string)
    requires key != ""
    ensures Split(NpmPath(key), '/') == PathParts(Parts(key)) && NpmPath(key) != ""
  {
    SplitIsWithout(key, '/');
    FlatFolders(Parts(key));
    assert Segments(Parts(key)) != [];
    SplitJoined(InFolders(SegmentsOf(key)));
    assert Split("", '/') == [""];
    assert PathParts(Parts(key))[0] == "node_modules";
  }

  lemma {:induction false} SamePathIff(a: string, b: string)
    ensures NpmPath(a) == NpmPath(b) <==> Complete(Parts(a)) == Complete(Parts(b))
  {
    if NpmPath(a) == NpmPath(b) {
      if a != "" && b != "" {
        PathSplits(a);
        PathSplits(b);
        PathReadsBack(Parts(a));
        PathReadsBack(Parts(b));
      } else if a != "" {
        PathSplits(a);
      } else if b != "" {
        PathSplits(b);
      }
    }
    SegmentsOfComplete(Parts(a));
    SegmentsOfComplete(Parts(b));
  }

  lemma {:induction false} CompleteAddsAtMostOne(parts: seq<string>)
    ensures Complete(parts) == parts || Complete(parts) == parts + ["undefined"]
    decreases |parts|
  {
    if parts != [] {
      if !Scoped(parts[0]) {
        CompleteAddsAtMostOne(parts[1..]);
        assert parts == [parts[0]] + parts[1..];
      } else if |parts| > 1 {
        CompleteAddsAtMostOne(parts[2..]);
        assert parts == [parts[0], parts[1]] + parts[2..];
      }
    }
  }

  lemma {:induction false} CompleteIsComplete(parts: seq<string>)
    ensures Complete(Complete(parts)) == Complete(parts)
    decreases |parts|
  {
    if parts != [] {
      var c := Complete(parts);
      if !Scoped(parts[0]) {
        CompleteIsComplete(parts[1..]);
        assert c[1..] == Complete(parts[1..]);
      } else if |parts| == 1 {
        assert c[2..] == [];
      } else {
        CompleteIsComplete(parts[2..]);
        assert c[2..] == Complete(parts[2..]);
      }
    }
  }

  lemma {:induction false} PartsTellKeys(a: string, b: string)
    requires Parts(a) == Parts(b)
    ensures a == b
  {
    if a != "" && b != "" {
      JoinSplit(a, '/');
      JoinSplit(b, '/');
    }
  }

  lemma {:induction false} PartsOfLonger(key: string, last: string)
    requires key != "" && '/' !in last
    ensures Parts(key + ['/'] + last) == Parts(key) + [last]
  {
    SplitConcat(key, last, '/');
    SplitWhole(last, '/');
  }

  lemma {:induction false} SlashFirst(key: string)
    ensures key + "/undefined" == key + ['/'] + "undefined"
  {
  }

  lemma {:induction false} PartsOfCompleted(key: string)
    requires Dangling(key)
    ensures Parts(key + "/undefined") == Parts(key) + ["undefined"] == Complete(Parts(key))
  {
    CompleteAddsAtMostOne(Parts(key));
    SlashFirst(key);
    PartsOfLonger(key, "undefined");
  }

  lemma {:induction false} CompletedMeets(a: string, b: string)
    requires Dangling(b)
    ensures !Dangling(a) && Complete(Parts(a)) == Complete(Parts(b)) <==> a == b + "/undefined"
  {
    PartsOfCompleted(b);
    CompleteIsComplete(Parts(b));
    if !Dangling(a) && Complete(Parts(a)) == Complete(Parts(b)) {
      PartsTellKeys(a, b + "/undefined");
    }
  }

  /** Two keys share an npm path exactly when one is the other's bare scope with `/undefined` behind it. */
  lemma {:induction false} PathsMeetIff(a: string, b: string)
    requires a != b
    ensures NpmPath(a) == NpmPath(b) <==>
              (Dangling(b) && a == b + "/undefined") || (Dangling(a) && b == a + "/undefined")
  {
    SamePathIff(a, b);
    if Dangling(a) && Dangling(b) {
      CompleteAddsAtMostOne(Parts(a));
      CompleteAddsAtMostOne(Parts(b));
      CompletedMeets(a, b);
      CompletedMeets(b, a);
      if Complete(Parts(a)) == Complete(Parts(b)) {
        assert (Parts(a) + ["undefined"])[..|Parts(a)|] == (Parts(b) + ["undefined"])[..|Parts(b)|];
        PartsTellKeys(a, b);
      }
    } else if Dangling(b) {
      CompletedMeets(a, b);
    } else if Dangling(a) {
      CompletedMeets(b, a);
    } else if Complete(Parts(a)) == Complete(Parts(b)) {
      PartsTellKeys(a, b);
    }
  }

  /** npmPath is not injective on every key. */
  lemma {:induction false} BareScopeCollides()
    ensures NpmPath("@x") == NpmPath("@x/undefined")
  {
    SplitWhole("@x", '/');
    assert Parts("@x") == ["@x"] && Scoped("@x");
    assert Dangling("@x");
    assert "@x" + "/undefined" == "@x/undefined";
    PathsMeetIff("@x/undefined", "@x");
  }

  // ---- Package names

  /** `name` or `@scope/name`: one segment. */
  predicate PackageName(name: string) {
    var parts := Split(name, '/');
    name != "" && if Scoped(parts[0]) then |parts| == 2 else |parts| == 1
  }

  ghost predicate PackageNames(segments: seq<string>) {
    forall i :: 0 <= i < |segments| ==> PackageName(segments[i])
  }

  lemma {:induction false} SegmentsOfFlat(segments: seq<string>)
    requires PackageNames(segments)
    ensures Segments(Flat(segments)) == segments && Complete(Flat(segments)) == Flat(segments)
  {
    if segments != [] {
      var name, parts := segments[0], Split(segments[0], '/');
      var flat := Flat(segments);
      assert PackageName(name);
      SegmentsOfFlat(segments[1..]);
      JoinSplit(name, '/');
      if Scoped(parts[0]) {
        assert flat[0] == parts[0] && flat[1] == parts[1] && flat[2..] == Flat(segments[1..]);
        assert name == parts[0] + "/" + parts[1];
      } else {
        assert flat[0] == parts[0] && flat[1..] == Flat(segments[1..]);
      }
    }
  }

  /** A key made of package names reads back, and has its own npm path. */
  lemma {:induction false} SegmentsOfJoin(segments: seq<string>)
    requires segments != [] && PackageNames(segments)
    ensures SegmentsOf(Join(segments, '/')) == segments && !Dangling(Join(segments, '/')) && Join(segments, '/') != ""
  {
    SplitJoined(segments);
    SegmentsOfFlat(segments);
    assert PackageName(segments[0]);
    var key := Join(segments, '/');
    if |segments| > 1 { assert key[|segments[0]|] == '/'; }
    assert Parts(key) == Flat(segments);
  }

  // ---- Lookup

  /** Where Node looks a package up: each folder of the chain below a node_modules of its own. */
  ghost function InstalledAt(segments: seq<string>): string
    requires segments != []
  {
    if |segments| == 1 then "node_modules/" + segments[0]
    else "node_modules/" + segments[0] + "/" + InstalledAt(segments[1..])
  }

  lemma {:induction false} FoldersJoin(segments: seq<string>)
    requires segments != []
    ensures Join(InFolders(segments), '/') == InstalledAt(segments)
  {
    assert "node_modules" + "/" == "node_modules/";
    if |segments| > 1 {
      FoldersJoin(segments[1..]);
      assert InFolders(segments)[1..] == InFolders(segments[1..]);
    } else {
      assert InFolders(segments[1..]) == [];
    }
  }

  lemma {:induction false} NpmPathOfNames(segments: seq<string>)
    requires segments != [] && PackageNames(segments)
    ensures NpmPath(Join(segments, '/')) == InstalledAt(segments)
  {
    SegmentsOfJoin(segments);
    FoldersJoin(segments);
  }

  ghost function Candidate(segments: seq<string>, name: string, depth: nat): string
    requires depth <= |segments|
  {
    Join(segments[..depth] + [name], '/')
  }

  /** The deepest candidate at `depth` or above that `tree` has. */
  ghost function Nearest(tree: set<string>, segments: seq<string>, name: string, depth: nat): Option<string>
    requires depth <= |segments|
  {
    if Candidate(segments, name, depth) in tree then Some(Candidate(segments, name, depth))
    else if depth == 0 then None
    else Nearest(tree, segments, name, depth - 1)
  }

  ghost function Resolved(tree: set<string>, from: string, name: string): Option<string> {
    Nearest(tree, SegmentsOf(from), name, |SegmentsOf(from)|)
  }

  /** resolveKey */
  method ResolveKey(tree: set<string>, from: string, name: string) returns (r: Option<string>)
    ensures r == Resolved(tree, from, name)
  {
    var segments := KeySegments(from);
    var depth: int := |segments|;
    while depth >= 0
      invariant -1 <= depth <= |segments|
      invariant depth >= 0 ==> Resolved(tree, from, name) == Nearest(tree, segments, name, depth)
      invariant depth < 0 ==> Resolved(tree, from, name) == None
    {
      var key := Join(segments[..depth] + [name], '/');
      if key in tree { return Some(key); }
      depth := depth - 1;
    }
    r := None;
  }

  /** What Node's rule says: the candidate found is in the tree and every deeper one is not. */
  lemma {:induction false} NearestIsNearest(tree: set<string>, segments: seq<string>, name: string, depth: nat)
    requires depth <= |segments|
    ensures Nearest(tree, segments, name, depth).None? <==>
              forall d: nat :: d <= depth ==> Candidate(segments, name, d) !in tree
    ensures Nearest(tree, segments, name, depth).Some? ==>
              exists d: nat :: d <= depth && IsNearest(tree, segments, name, d, depth)
                && Nearest(tree, segments, name, depth) == Some(Candidate(segments, name, d))
  {
    if Candidate(segments, name, depth) in tree {
      assert IsNearest(tree, segments, name, depth, depth);
    } else if depth > 0 {
      NearestIsNearest(tree, segments, name, depth - 1);
      if Nearest(tree, segments, name, depth - 1).Some? {
        var d: nat :| d <= depth - 1 && IsNearest(tree, segments, name, d, depth - 1)
          && Nearest(tree, segments, name, depth - 1) == Some(Candidate(segments, name, d));
        assert IsNearest(tree, segments, name, d, depth);
      }
    }
  }

  ghost predicate IsNearest(tree: set<string>, segments: seq<string>, name: string, d: nat, depth: nat) {
    && d <= depth <= |segments| && Candidate(segments, name, d) in tree
    && forall e: nat :: d < e <= depth ==> Candidate(segments, name, e) !in tree
  }

  /** A part of the tree that keeps the key found finds it too. */
  lemma {:induction false} SubtreeFindsTheSame(tree: set<string>, whole: set<string>, segments: seq<string>,
                                               name: string, depth: nat)
    requires tree <= whole && depth <= |segments|
    requires Nearest(whole, segments, name, depth).Some? ==> Nearest(whole, segments, name, depth).value in tree
    ensures Nearest(tree, segments, name, depth) == Nearest(whole, segments, name, depth)
  {
    if Candidate(segments, name, depth) !in whole && depth > 0 {
      SubtreeFindsTheSame(tree, whole, segments, name, depth - 1);
    }
  }
}
