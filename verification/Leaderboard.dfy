/**
 * From stacks to the leaderboard: analyzeProfiles of scripts/perf/analyzeProfilesCore.ts. Each key's time is
 * summed once a stack. Frame identification is a parameter, and sums are exact.
 */
module Leaderboard {
  import opened Forms
  import opened ProfileGraph
  import opened ProfileTime

  datatype Category = App | NodeModules | Internal | Extension | Gc | Program | Idle

  datatype Info = Info(key: string, category: Category, bundleScript: bool)

  datatype Entry = Entry(info: Info, selfUs: real, totalUs: real, selfSamples: nat)

  datatype Analysis = Analysis(
    sampledUs: real, categoryUs: map<Category, real>, entries: map<string, Entry>, unmappedBundleUs: real)

  const CATEGORIES: set<Category> := {App, NodeModules, Internal, Extension, Gc, Program, Idle}

  // ---- What the leaderboard must say

  ghost predicate KeyIn(s: Stack, identify: Frame -> Info, key: string) {
    exists i :: 0 <= i < |s.frames| && identify(s.frames[i]).key == key
  }

  ghost predicate LeafIs(s: Stack, identify: Frame -> Info, key: string) {
    s.frames != [] && identify(s.frames[|s.frames| - 1]).key == key
  }

  ghost predicate LeafCategory(s: Stack, identify: Frame -> Info, c: Category) {
    s.frames != [] && identify(s.frames[|s.frames| - 1]).category == c
  }

  ghost predicate LeafBundle(s: Stack, identify: Frame -> Info) {
    s.frames != [] && identify(s.frames[|s.frames| - 1]).bundleScript
  }

  /** The weight of the stacks that satisfy `which`, each counted once. */
  ghost function TimeOf(stacks: seq<Stack>, which: Stack -> bool): real {
    if stacks == [] then 0.0
    else
      var last := stacks[|stacks| - 1];
      TimeOf(stacks[..|stacks| - 1], which) + if which(last) then last.weightUs else 0.0
  }

  ghost function SamplesOf(stacks: seq<Stack>, which: Stack -> bool): nat {
    if stacks == [] then 0
    else
      var last := stacks[|stacks| - 1];
      SamplesOf(stacks[..|stacks| - 1], which) + if which(last) then last.count else 0
  }

  ghost function HasKey(identify: Frame -> Info, key: string): Stack -> bool { (s: Stack) => KeyIn(s, identify, key) }
  ghost function OnLeaf(identify: Frame -> Info, key: string): Stack -> bool { (s: Stack) => LeafIs(s, identify, key) }
  ghost function InCategory(identify: Frame -> Info, c: Category): Stack -> bool {
    (s: Stack) => LeafCategory(s, identify, c)
  }
  ghost function InBundle(identify: Frame -> Info): Stack -> bool { (s: Stack) => LeafBundle(s, identify) }

  ghost predicate Appears(stacks: seq<Stack>, identify: Frame -> Info, key: string) {
    exists i :: 0 <= i < |stacks| && KeyIn(stacks[i], identify, key)
  }

  ghost predicate InfoIn(s: Stack, identify: Frame -> Info, info: Info) {
    exists i :: 0 <= i < |s.frames| && identify(s.frames[i]) == info
  }

  /** `info` identifies a frame that was seen. */
  ghost predicate Identified(stacks: seq<Stack>, identify: Frame -> Info, info: Info) {
    exists i :: 0 <= i < |stacks| && InfoIn(stacks[i], identify, info)
  }

  ghost predicate EntryIsRight(e: Entry, stacks: seq<Stack>, identify: Frame -> Info, key: string) {
    && e.info.key == key && Identified(stacks, identify, e.info)
    && e.selfUs == TimeOf(stacks, OnLeaf(identify, key)) && e.selfSamples == SamplesOf(stacks, OnLeaf(identify, key))
    && e.totalUs == TimeOf(stacks, HasKey(identify, key))
  }

  ghost predicate EntriesAreRight(entries: map<string, Entry>, stacks: seq<Stack>, identify: Frame -> Info) {
    && (forall key :: key in entries <==> Appears(stacks, identify, key))
    && forall key :: key in entries ==> EntryIsRight(entries[key], stacks, identify, key)
  }

  ghost predicate CategoriesAreRight(categoryUs: map<Category, real>, stacks: seq<Stack>, identify: Frame -> Info) {
    && categoryUs.Keys == CATEGORIES
    && forall c :: c in categoryUs ==> categoryUs[c] == TimeOf(stacks, InCategory(identify, c))
  }

  ghost predicate IsRight(a: Analysis, stacks: seq<Stack>, identify: Frame -> Info) {
    && EntriesAreRight(a.entries, stacks, identify) && CategoriesAreRight(a.categoryUs, stacks, identify)
    && a.sampledUs == SampledUs(stacks) && a.unmappedBundleUs == TimeOf(stacks, InBundle(identify))
  }

  // ---- One stack

  lemma {:induction false} OneMoreTime(stacks: seq<Stack>, s: Stack, which: Stack -> bool)
    ensures TimeOf(stacks + [s], which) == TimeOf(stacks, which) + if which(s) then s.weightUs else 0.0
    ensures SamplesOf(stacks + [s], which) == SamplesOf(stacks, which) + if which(s) then s.count else 0
  {
    assert (stacks + [s])[..|stacks|] == stacks;
  }

  lemma {:induction false} OneMoreAppears(stacks: seq<Stack>, s: Stack, identify: Frame -> Info, key: string)
    ensures Appears(stacks + [s], identify, key) <==> Appears(stacks, identify, key) || KeyIn(s, identify, key)
  {
    if Appears(stacks, identify, key) {
      var i :| 0 <= i < |stacks| && KeyIn(stacks[i], identify, key);
      assert (stacks + [s])[i] == stacks[i];
    }
    assert (stacks + [s])[|stacks|] == s;
  }

  lemma {:induction false} StillIdentified(stacks: seq<Stack>, s: Stack, identify: Frame -> Info, info: Info)
    requires Identified(stacks, identify, info) || InfoIn(s, identify, info)
    ensures Identified(stacks + [s], identify, info)
  {
    var more := stacks + [s];
    if InfoIn(s, identify, info) {
      assert more[|stacks|] == s;
    } else {
      var i :| 0 <= i < |stacks| && InfoIn(stacks[i], identify, info);
      assert more[i] == stacks[i];
    }
  }

  lemma {:induction false} NeverSeenIsZero(stacks: seq<Stack>, identify: Frame -> Info, key: string)
    requires !Appears(stacks, identify, key)
    ensures TimeOf(stacks, HasKey(identify, key)) == 0.0
    ensures TimeOf(stacks, OnLeaf(identify, key)) == 0.0 && SamplesOf(stacks, OnLeaf(identify, key)) == 0
  {
    if stacks != [] {
      var front, last := stacks[..|stacks| - 1], stacks[|stacks| - 1];
      assert stacks == front + [last];
      OneMoreAppears(front, last, identify, key);
      LeafIsAKey(last, identify, key);
      NeverSeenIsZero(front, identify, key);
    }
  }

  lemma {:induction false} LeafIsAKey(s: Stack, identify: Frame -> Info, key: string)
    ensures LeafIs(s, identify, key) ==> KeyIn(s, identify, key)
  {
  }

  /** `entryFor`, without the insertion. */
  function EntryFor(entries: map<string, Entry>, info: Info): Entry {
    if info.key in entries then entries[info.key] else Entry(info, 0.0, 0.0, 0)
  }

  ghost predicate KeyUpTo(s: Stack, identify: Frame -> Info, key: string, n: nat) {
    exists i :: 0 <= i < n && i < |s.frames| && identify(s.frames[i]).key == key
  }

  ghost predicate Totalled(before: map<string, Entry>, entries: map<string, Entry>, s: Stack, identify: Frame -> Info,
                           key: string, seen: bool) {
    && (key in entries <==> key in before || seen)
    && (key in entries ==>
          && (key in before ==> entries[key].info == before[key].info)
          && (key !in before ==> entries[key].info.key == key && InfoIn(s, identify, entries[key].info))
          && entries[key].selfUs == (if key in before then before[key].selfUs else 0.0)
          && entries[key].selfSamples == (if key in before then before[key].selfSamples else 0)
          && entries[key].totalUs == (if key in before then before[key].totalUs else 0.0)
               + if seen then s.weightUs else 0.0)
  }

  /** The loop with the `seen` set: every key of the stack gets the weight once, however often it recurs. */
  method AddTotals(before: map<string, Entry>, s: Stack, identify: Frame -> Info) returns (entries: map<string, Entry>)
    ensures forall key :: Totalled(before, entries, s, identify, key, KeyIn(s, identify, key))
  {
    entries := before;
    var seen: set<string> := {};
    for i := 0 to |s.frames|
      invariant forall key :: key in seen <==> KeyUpTo(s, identify, key, i)
      invariant forall key :: Totalled(before, entries, s, identify, key, key in seen)
    {
      var info := identify(s.frames[i]);
      ghost var had, was := seen, entries;
      if info.key !in seen {
        seen := seen + {info.key};
        var entry := EntryFor(entries, info);
        entries := entries[info.key := entry.(totalUs := entry.totalUs + s.weightUs)];
      }
      forall key ensures key in seen <==> KeyUpTo(s, identify, key, i + 1) {
        assert key in had <==> KeyUpTo(s, identify, key, i);
        assert KeyUpTo(s, identify, key, i + 1) <==> KeyUpTo(s, identify, key, i) || info.key == key;
      }
      forall key ensures Totalled(before, entries, s, identify, key, key in seen) {
        assert Totalled(before, was, s, identify, key, key in had);
      }
    }
    forall key ensures Totalled(before, entries, s, identify, key, KeyIn(s, identify, key)) {
      assert KeyIn(s, identify, key) <==> KeyUpTo(s, identify, key, |s.frames|);
      assert Totalled(before, entries, s, identify, key, key in seen);
    }
  }

  lemma {:induction false} EntryOneMore(before: map<string, Entry>, mid: map<string, Entry>, e: Entry,
                                        stacks: seq<Stack>, s: Stack, identify: Frame -> Info, key: string)
    requires EntriesAreRight(before, stacks, identify) && s.frames != []
    requires Totalled(before, mid, s, identify, key, KeyIn(s, identify, key)) && key in mid
    requires e == if LeafIs(s, identify, key)
                  then mid[key].(selfUs := mid[key].selfUs + s.weightUs, selfSamples := mid[key].selfSamples + s.count)
                  else mid[key]
    ensures EntryIsRight(e, stacks + [s], identify, key)
  {
    OneMoreTime(stacks, s, OnLeaf(identify, key));
    OneMoreTime(stacks, s, HasKey(identify, key));
    StillIdentified(stacks, s, identify, e.info);
    if key !in before { NeverSeenIsZero(stacks, identify, key); }
  }

  method AddStack(before: map<string, Entry>, s: Stack, identify: Frame -> Info, ghost stacks: seq<Stack>)
    returns (entries: map<string, Entry>)
    requires EntriesAreRight(before, stacks, identify) && s.frames != []
    ensures EntriesAreRight(entries, stacks + [s], identify)
  {
    var mid := AddTotals(before, s, identify);
    var leaf := identify(s.frames[|s.frames| - 1]);
    var leafEntry := EntryFor(mid, leaf);
    assert LeafIs(s, identify, leaf.key) && KeyIn(s, identify, leaf.key);
    assert Totalled(before, mid, s, identify, leaf.key, KeyIn(s, identify, leaf.key));
    entries := mid[leaf.key := leafEntry.(selfUs := leafEntry.selfUs + s.weightUs,
        selfSamples := leafEntry.selfSamples + s.count)];
    forall key
      ensures key in entries <==> Appears(stacks + [s], identify, key)
      ensures key in entries ==> EntryIsRight(entries[key], stacks + [s], identify, key)
    {
      assert Totalled(before, mid, s, identify, key, KeyIn(s, identify, key));
      OneMoreAppears(stacks, s, identify, key);
      if key in entries {
        EntryOneMore(before, mid, entries[key], stacks, s, identify, key);
      }
    }
  }

  lemma {:induction false} CategoriesOneMore(before: map<Category, real>, stacks: seq<Stack>, s: Stack,
                                             identify: Frame -> Info, leaf: Category)
    requires CategoriesAreRight(before, stacks, identify) && LeafCategory(s, identify, leaf)
    ensures leaf in before && CategoriesAreRight(before[leaf := before[leaf] + s.weightUs], stacks + [s], identify)
  {
    assert leaf in CATEGORIES;
    var after := before[leaf := before[leaf] + s.weightUs];
    assert after.Keys == before.Keys;
    forall c | c in after ensures after[c] == TimeOf(stacks + [s], InCategory(identify, c)) {
      OneMoreTime(stacks, s, InCategory(identify, c));
    }
  }

  /** A stack on the root alone changes nothing. */
  lemma {:induction false} EmptyStackAddsNothing(a: Analysis, stacks: seq<Stack>, s: Stack, identify: Frame -> Info)
    requires IsRight(a, stacks, identify) && s.frames == []
    ensures IsRight(a, stacks + [s], identify)
  {
    forall key
      ensures Appears(stacks + [s], identify, key) <==> Appears(stacks, identify, key)
      ensures key in a.entries ==> EntryIsRight(a.entries[key], stacks + [s], identify, key)
    {
      OneMoreAppears(stacks, s, identify, key);
      OneMoreTime(stacks, s, OnLeaf(identify, key));
      OneMoreTime(stacks, s, HasKey(identify, key));
      if key in a.entries { StillIdentified(stacks, s, identify, a.entries[key].info); }
    }
    forall c | c in a.categoryUs ensures a.categoryUs[c] == TimeOf(stacks + [s], InCategory(identify, c)) {
      OneMoreTime(stacks, s, InCategory(identify, c));
    }
    OneMoreTime(stacks, s, InBundle(identify));
    SampledOneMore(stacks, s);
  }

  lemma {:induction false} StackAdds(before: Analysis, a: Analysis, stacks: seq<Stack>, s: Stack,
                                     identify: Frame -> Info)
    requires IsRight(before, stacks, identify) && s.frames != []
    requires EntriesAreRight(a.entries, stacks + [s], identify)
    requires var leaf := identify(s.frames[|s.frames| - 1]);
      && leaf.category in before.categoryUs
      && a.categoryUs == before.categoryUs[leaf.category := before.categoryUs[leaf.category] + s.weightUs]
      && a.sampledUs == before.sampledUs + s.weightUs
      && a.unmappedBundleUs
           == if leaf.bundleScript then before.unmappedBundleUs + s.weightUs else before.unmappedBundleUs
    ensures IsRight(a, stacks + [s], identify)
  {
    var leaf := identify(s.frames[|s.frames| - 1]);
    CategoriesOneMore(before.categoryUs, stacks, s, identify, leaf.category);
    SampledOneMore(stacks, s);
    OneMoreTime(stacks, s, InBundle(identify));
  }

  lemma {:induction false} EveryCategoryIsThere(a: Analysis, stacks: seq<Stack>, identify: Frame -> Info, c: Category)
    requires IsRight(a, stacks, identify)
    ensures c in a.categoryUs
  {
    assert c in CATEGORIES;
  }

  /** One turn of the inner loop. */
  method TakeStack(before: Analysis, s: Stack, identify: Frame -> Info, ghost stacks: seq<Stack>) returns (a: Analysis)
    requires IsRight(before, stacks, identify)
    ensures IsRight(a, stacks + [s], identify)
  {
    if s.frames == [] {
      EmptyStackAddsNothing(before, stacks, s, identify);
      return before;
    }
    var leaf := identify(s.frames[|s.frames| - 1]);
    EveryCategoryIsThere(before, stacks, identify, leaf.category);
    var entries := AddStack(before.entries, s, identify, stacks);
    a := Analysis(before.sampledUs + s.weightUs,
                  before.categoryUs[leaf.category := before.categoryUs[leaf.category] + s.weightUs], entries,
                  if leaf.bundleScript then before.unmappedBundleUs + s.weightUs else before.unmappedBundleUs);
    StackAdds(before, a, stacks, s, identify);
  }

  // ---- Every profile

  ghost function AllStacks(inputs: seq<ReadProfile>): seq<Stack> {
    if inputs == [] then [] else AllStacks(inputs[..|inputs| - 1]) + inputs[|inputs| - 1].stacks
  }

  ghost function WallOf(inputs: seq<ReadProfile>): real {
    if inputs == [] then 0.0 else WallOf(inputs[..|inputs| - 1]) + inputs[|inputs| - 1].wallMs
  }

  lemma {:induction false} Regroup(stacks: seq<Stack>, rest: seq<Stack>, i: nat)
    requires i < |rest|
    ensures stacks + rest[..i] + [rest[i]] == stacks + rest[..i + 1]
  {
  }

  method TakeProfile(before: Analysis, input: ReadProfile, identify: Frame -> Info, ghost stacks: seq<Stack>)
    returns (a: Analysis)
    requires IsRight(before, stacks, identify)
    ensures IsRight(a, stacks + input.stacks, identify)
  {
    a := before;
    ghost var done := stacks;
    for i := 0 to |input.stacks|
      invariant done == stacks + input.stacks[..i] && IsRight(a, done, identify)
    {
      a := TakeStack(a, input.stacks[i], identify, done);
      Regroup(stacks, input.stacks, i);
      done := done + [input.stacks[i]];
    }
    assert input.stacks[..|input.stacks|] == input.stacks;
  }

  /** analyzeProfiles */
  method AnalyzeProfiles(inputs: seq<ReadProfile>, identify: Frame -> Info) returns (a: Analysis, wallMs: real)
    ensures IsRight(a, AllStacks(inputs), identify) && wallMs == WallOf(inputs)
  {
    a := Analysis(0.0, map c: Category | c in CATEGORIES :: 0.0, map[], 0.0);
    wallMs := 0.0;
    for i := 0 to |inputs|
      invariant IsRight(a, AllStacks(inputs[..i]), identify) && wallMs == WallOf(inputs[..i])
    {
      assert inputs[..i + 1][..i] == inputs[..i];
      a := TakeProfile(a, inputs[i], identify, AllStacks(inputs[..i]));
      wallMs := wallMs + inputs[i].wallMs;
    }
    assert inputs[..|inputs|] == inputs;
  }

  // ---- Conservation

  /** Sums `f` over a set of keys. */
  ghost function Sum(keys: set<string>, f: string -> real): real {
    if keys == {} then 0.0
    else
      var k :| k in keys;
      f(k) + Sum(keys - {k}, f)
  }

  lemma {:induction false} SumTakesOut(keys: set<string>, k: string, f: string -> real)
    requires k in keys
    ensures Sum(keys, f) == f(k) + Sum(keys - {k}, f)
    decreases keys
  {
    var first :| first in keys && Sum(keys, f) == f(first) + Sum(keys - {first}, f);
    if first != k {
      SumTakesOut(keys - {first}, k, f);
      SumTakesOut(keys - {k}, first, f);
      assert keys - {first} - {k} == keys - {k} - {first};
    }
  }

  lemma {:induction false} SumIsSame(keys: set<string>, f: string -> real, g: string -> real)
    requires forall k :: k in keys ==> f(k) == g(k)
    ensures Sum(keys, f) == Sum(keys, g)
    decreases keys
  {
    if keys != {} {
      var k :| k in keys;
      SumTakesOut(keys, k, f);
      SumTakesOut(keys, k, g);
      SumIsSame(keys - {k}, f, g);
    }
  }

  lemma {:induction false} SumOfZeros(keys: set<string>, f: string -> real)
    requires forall k :: k in keys ==> f(k) == 0.0
    ensures Sum(keys, f) == 0.0
    decreases keys
  {
    if keys != {} {
      var k :| k in keys;
      SumTakesOut(keys, k, f);
      SumOfZeros(keys - {k}, f);
    }
  }

  lemma {:induction false} SumGrowsAt(keys: set<string>, at: string, extra: real, f: string -> real, g: string -> real)
    requires at in keys && g(at) == f(at) + extra && forall k :: k in keys && k != at ==> g(k) == f(k)
    ensures Sum(keys, g) == Sum(keys, f) + extra
  {
    SumTakesOut(keys, at, f);
    SumTakesOut(keys, at, g);
    SumIsSame(keys - {at}, f, g);
  }

  ghost function SelfOf(stacks: seq<Stack>, identify: Frame -> Info): string -> real {
    (key: string) => TimeOf(stacks, OnLeaf(identify, key))
  }

  ghost predicate HoldsLeaves(keys: set<string>, stacks: seq<Stack>, identify: Frame -> Info) {
    forall key :: Appears(stacks, identify, key) ==> key in keys
  }

  lemma {:induction false} SelfTimesHoldTheSamples(keys: set<string>, stacks: seq<Stack>, identify: Frame -> Info)
    requires HoldsLeaves(keys, stacks, identify)
    ensures Sum(keys, SelfOf(stacks, identify)) == SampledUs(stacks)
    decreases |stacks|
  {
    if stacks == [] {
      SumOfZeros(keys, SelfOf(stacks, identify));
    } else {
      var front, s := stacks[..|stacks| - 1], stacks[|stacks| - 1];
      assert stacks == front + [s];
      forall key ensures (Appears(front, identify, key) || KeyIn(s, identify, key) ==> key in keys) {
        OneMoreAppears(front, s, identify, key);
      }
      SelfTimesHoldTheSamples(keys, front, identify);
      var f, g := SelfOf(front, identify), SelfOf(stacks, identify);
      forall key ensures g(key) == f(key) + if LeafIs(s, identify, key) then s.weightUs else 0.0 {
        OneMoreTime(front, s, OnLeaf(identify, key));
      }
      SampledOneMore(front, s);
      if s.frames == [] {
        SumIsSame(keys, f, g);
      } else {
        var leaf := identify(s.frames[|s.frames| - 1]).key;
        LeafIsAKey(s, identify, leaf);
        SumGrowsAt(keys, leaf, s.weightUs, f, g);
      }
    }
  }

  ghost function SelfIn(entries: map<string, Entry>): string -> real {
    (key: string) => if key in entries then entries[key].selfUs else 0.0
  }

  /** Self times add up to the sampled time. */
  lemma {:induction false} SelfTimesAddUp(a: Analysis, stacks: seq<Stack>, identify: Frame -> Info)
    requires IsRight(a, stacks, identify)
    ensures Sum(a.entries.Keys, SelfIn(a.entries)) == a.sampledUs
  {
    SelfTimesHoldTheSamples(a.entries.Keys, stacks, identify);
    forall k | k in a.entries.Keys ensures SelfIn(a.entries)(k) == SelfOf(stacks, identify)(k) {
      assert EntryIsRight(a.entries[k], stacks, identify, k);
    }
    SumIsSame(a.entries.Keys, SelfIn(a.entries), SelfOf(stacks, identify));
  }

  ghost function CategorySum(stacks: seq<Stack>, identify: Frame -> Info): real {
    TimeOf(stacks, InCategory(identify, App)) + TimeOf(stacks, InCategory(identify, NodeModules))
    + TimeOf(stacks, InCategory(identify, Internal)) + TimeOf(stacks, InCategory(identify, Extension))
    + TimeOf(stacks, InCategory(identify, Gc)) + TimeOf(stacks, InCategory(identify, Program))
    + TimeOf(stacks, InCategory(identify, Idle))
  }

  lemma {:induction false} CategoriesHoldTheSamples(stacks: seq<Stack>, identify: Frame -> Info)
    ensures CategorySum(stacks, identify) == SampledUs(stacks)
  {
    if stacks != [] {
      var front, s := stacks[..|stacks| - 1], stacks[|stacks| - 1];
      assert stacks == front + [s];
      CategoriesHoldTheSamples(front, identify);
      SampledOneMore(front, s);
      forall c: Category ensures TimeOf(stacks, InCategory(identify, c))
          == TimeOf(front, InCategory(identify, c)) + if LeafCategory(s, identify, c) then s.weightUs else 0.0 {
        OneMoreTime(front, s, InCategory(identify, c));
      }
    }
  }

  /** The seven categories add up to the sampled time. */
  lemma {:induction false} CategoriesAddUp(a: Analysis, stacks: seq<Stack>, identify: Frame -> Info)
    requires IsRight(a, stacks, identify)
    ensures a.categoryUs.Keys == {App, NodeModules, Internal, Extension, Gc, Program, Idle}
    ensures a.categoryUs[App] + a.categoryUs[NodeModules] + a.categoryUs[Internal] + a.categoryUs[Extension]
            + a.categoryUs[Gc] + a.categoryUs[Program] + a.categoryUs[Idle] == a.sampledUs
  {
    CategoriesHoldTheSamples(stacks, identify);
  }

  lemma {:induction false} NarrowerIsLess(stacks: seq<Stack>, which: Stack -> bool, wider: Stack -> bool)
    requires NoNegativeWeight(stacks) && forall s :: which(s) ==> wider(s)
    ensures 0.0 <= TimeOf(stacks, which) <= TimeOf(stacks, wider)
  {
    if stacks != [] { NarrowerIsLess(stacks[..|stacks| - 1], which, wider); }
  }

  lemma {:induction false} SampledIsTheWidest(stacks: seq<Stack>, which: Stack -> bool)
    requires NoNegativeWeight(stacks) && forall s :: which(s) ==> s.frames != []
    ensures TimeOf(stacks, which) <= SampledUs(stacks)
  {
    if stacks != [] { SampledIsTheWidest(stacks[..|stacks| - 1], which); }
  }

  /** 0 <= selfUs <= totalUs <= sampledUs, recursion or not. */
  lemma {:induction false} SelfIsPartOfTotal(a: Analysis, stacks: seq<Stack>, identify: Frame -> Info, key: string)
    requires IsRight(a, stacks, identify) && NoNegativeWeight(stacks) && key in a.entries
    ensures 0.0 <= a.entries[key].selfUs <= a.entries[key].totalUs <= a.sampledUs
  {
    assert EntryIsRight(a.entries[key], stacks, identify, key);
    forall s ensures OnLeaf(identify, key)(s) ==> HasKey(identify, key)(s) {
      LeafIsAKey(s, identify, key);
    }
    NarrowerIsLess(stacks, OnLeaf(identify, key), HasKey(identify, key));
    SampledIsTheWidest(stacks, HasKey(identify, key));
  }

  lemma {:induction false} SampledOfConcat(a: seq<Stack>, b: seq<Stack>)
    ensures SampledUs(a + b) == SampledUs(a) + SampledUs(b)
    decreases |b|
  {
    if b == [] {
      assert a + b == a;
    } else {
      var front, s := b[..|b| - 1], b[|b| - 1];
      assert b == front + [s] && a + b == (a + front) + [s];
      SampledOfConcat(a, front);
      SampledOneMore(a + front, s);
      SampledOneMore(front, s);
    }
  }

  ghost predicate AllRead(profiles: seq<Profile>, parents: seq<seq<int>>, inputs: seq<ReadProfile>) {
    && |profiles| == |parents| == |inputs|
    && forall i :: 0 <= i < |inputs| ==>
         Reads(profiles[i], parents[i], inputs[i]) && UniqueIds(profiles[i].nodes) && KnownSamples(profiles[i])
  }

  /** The clamped time of all samples of all profiles that were not on the root. */
  ghost function AllSampleTime(profiles: seq<Profile>, parents: seq<seq<int>>, inputs: seq<ReadProfile>): real
    requires AllRead(profiles, parents, inputs)
  {
    if profiles == [] then 0.0
    else
      var n := |profiles| - 1;
      AllSampleTime(profiles[..n], parents[..n], inputs[..n]) + OffRootTime(profiles[n], parents[n],
          |profiles[n].samples|)
  }

  /** From the samples of every profile to the leaderboard, no time is lost or made up. */
  lemma {:induction false} TimeIsConserved(profiles: seq<Profile>, parents: seq<seq<int>>, inputs: seq<ReadProfile>)
    requires AllRead(profiles, parents, inputs)
    ensures SampledUs(AllStacks(inputs)) == AllSampleTime(profiles, parents, inputs)
            && NoNegativeWeight(AllStacks(inputs))
    decreases |inputs|
  {
    if inputs != [] {
      var n := |inputs| - 1;
      TimeIsConserved(profiles[..n], parents[..n], inputs[..n]);
      ProfileTimeIsConserved(profiles[n], parents[n], inputs[n]);
      SampledOfConcat(AllStacks(inputs[..n]), inputs[n].stacks);
      NoNegativeConcat(AllStacks(inputs[..n]), inputs[n].stacks);
    }
  }

  lemma {:induction false} NoNegativeConcat(a: seq<Stack>, b: seq<Stack>)
    requires NoNegativeWeight(a) && NoNegativeWeight(b)
    ensures NoNegativeWeight(a + b)
  {
  }

  lemma {:induction false} ProfileTimeIsConserved(p: Profile, parents: seq<int>, r: ReadProfile)
    requires Reads(p, parents, r) && UniqueIds(p.nodes) && KnownSamples(p)
    ensures SampledUs(r.stacks) == OffRootTime(p, parents, |p.samples|) && NoNegativeWeight(r.stacks)
  {
    StacksHoldTheSampleTime(p, parents, r);
    StackWeightsAreNotNegative(p, parents, |p.nodes|);
  }

  lemma {:induction false} LeaderboardHoldsTheSampleTime(profiles: seq<Profile>, parents: seq<seq<int>>,
                                                         inputs: seq<ReadProfile>, a: Analysis, identify: Frame -> Info)
    requires AllRead(profiles, parents, inputs) && IsRight(a, AllStacks(inputs), identify)
    ensures Sum(a.entries.Keys, SelfIn(a.entries)) == AllSampleTime(profiles, parents, inputs)
    ensures forall key :: key in a.entries ==> 0.0 <= a.entries[key].selfUs <= a.entries[key].totalUs <= a.sampledUs
  {
    TimeIsConserved(profiles, parents, inputs);
    SelfTimesAddUp(a, AllStacks(inputs), identify);
    forall key | key in a.entries ensures 0.0 <= a.entries[key].selfUs <= a.entries[key].totalUs <= a.sampledUs {
      SelfIsPartOfTotal(a, AllStacks(inputs), identify, key);
    }
  }

  // ---- Whose time it is

  /** The nearest frame at or above node `i` that is no root frame satisfies `fits`. */
  ghost predicate LeafFits(nodes: seq<Node>, parents: seq<int>, i: int, fits: Frame -> bool)
    requires Good(nodes, parents) && -1 <= i < |nodes|
  {
    exists n: nat :: IsLeafStep(nodes, parents, i, n) && fits(nodes[Up(parents, i, n)].frame)
  }

  /** So does some frame at or above it. */
  ghost predicate PathFits(nodes: seq<Node>, parents: seq<int>, i: int, fits: Frame -> bool)
    requires Good(nodes, parents) && -1 <= i < |nodes|
  {
    exists n: nat :: ShowsAt(nodes, parents, i, n) && fits(nodes[Up(parents, i, n)].frame)
  }

  ghost predicate SomeFits(frames: seq<Frame>, fits: Frame -> bool) {
    exists k :: 0 <= k < |frames| && fits(frames[k])
  }

  lemma {:induction false} LeafFitsIff(nodes: seq<Node>, parents: seq<int>, i: int, fits: Frame -> bool)
    requires Good(nodes, parents) && 0 <= i < |nodes|
    ensures var frames := FramesTo(nodes, parents, i);
      LeafFits(nodes, parents, i, fits) <==> frames != [] && fits(frames[|frames| - 1])
  {
    if n: nat :| IsLeafStep(nodes, parents, i, n) && fits(nodes[Up(parents, i, n)].frame) {
      LeafIsNearest(nodes, parents, i, n);
    }
    if FramesTo(nodes, parents, i) != [] {
      var n := StackHasALeaf(nodes, parents, i);
      LeafIsNearest(nodes, parents, i, n);
    }
  }

  lemma {:induction false} PathFitsIff(nodes: seq<Node>, parents: seq<int>, i: int, fits: Frame -> bool)
    requires Good(nodes, parents) && 0 <= i < |nodes|
    ensures PathFits(nodes, parents, i, fits) <==> SomeFits(FramesTo(nodes, parents, i), fits)
  {
    var frames := FramesTo(nodes, parents, i);
    var ups := FramesAreTheClimb(nodes, parents, i);
    if n: nat :| ShowsAt(nodes, parents, i, n) && fits(nodes[Up(parents, i, n)].frame) {
      var k :| 0 <= k < |ups| && ups[k] == n;
      assert fits(frames[k]);
      assert SomeFits(frames, fits);
    }
    if SomeFits(frames, fits) {
      var k :| 0 <= k < |frames| && fits(frames[k]);
      var n := ups[k];
      assert ShowsAt(nodes, parents, i, n) && fits(nodes[Up(parents, i, n)].frame);
    }
  }

  ghost function OfKey(identify: Frame -> Info, key: string): Frame -> bool { (f: Frame) => identify(f).key == key }
  ghost function OfCategory(identify: Frame -> Info, c: Category): Frame -> bool {
    (f: Frame) => identify(f).category == c
  }

  ghost function LeavesThatFit(p: Profile, parents: seq<int>, fits: Frame -> bool): seq<bool>
    requires Good(p.nodes, parents)
  {
    seq(|p.nodes|, i requires 0 <= i < |p.nodes| => LeafFits(p.nodes, parents, i, fits))
  }

  ghost function PathsThatFit(p: Profile, parents: seq<int>, fits: Frame -> bool): seq<bool>
    requires Good(p.nodes, parents)
  {
    seq(|p.nodes|, i requires 0 <= i < |p.nodes| => PathFits(p.nodes, parents, i, fits))
  }

  /** `which` holds of the stack of node `i` exactly when the node is shown. */
  ghost predicate Agrees(p: Profile, parents: seq<int>, which: Stack -> bool, shown: seq<bool>, i: nat)
    requires Good(p.nodes, parents)
  {
    i < |p.nodes| && i < |shown| && forall s: Stack :: s.frames == FramesTo(p.nodes, parents, i) ==>
        which(s) == shown[i]
  }

  lemma {:induction false} StacksHoldTimeAt(p: Profile, parents: seq<int>, which: Stack -> bool, shown: seq<bool>,
                                            m: nat)
    requires Good(p.nodes, parents) && m <= |p.nodes| == |shown| && |p.samples| == |p.timeDeltas|
    requires forall i: nat :: i < |p.nodes| ==> Agrees(p, parents, which, shown, i)
    ensures TimeOf(StacksOf(p, parents, m), which) == NodeTime(p, shown, m, |p.samples|)
  {
    if m > 0 {
      StacksHoldTimeAt(p, parents, which, shown, m - 1);
      var id, before := p.nodes[m - 1].id, StacksOf(p, parents, m - 1);
      assert Agrees(p, parents, which, shown, m - 1);
      if CountOf(p, id, |p.samples|) == 0 {
        NoCountNoWeight(p, id, |p.samples|);
        assert StacksOf(p, parents, m) == before + [] == before;
      } else {
        var s := Stack(FramesTo(p.nodes, parents, m - 1), WeightOf(p, id, |p.samples|), CountOf(p, id, |p.samples|));
        OneMoreTime(before, s, which);
      }
    }
  }

  lemma {:induction false} TimeOfConcat(a: seq<Stack>, b: seq<Stack>, which: Stack -> bool)
    ensures TimeOf(a + b, which) == TimeOf(a, which) + TimeOf(b, which)
    decreases |b|
  {
    if b == [] {
      assert a + b == a;
    } else {
      var front, s := b[..|b| - 1], b[|b| - 1];
      assert b == front + [s] && a + b == (a + front) + [s];
      TimeOfConcat(a, front, which);
      OneMoreTime(a + front, s, which);
      OneMoreTime(front, s, which);
    }
  }

  /** The clamped time of all samples of all profiles whose nearest frame fits. */
  ghost function LeafTime(profiles: seq<Profile>, parents: seq<seq<int>>, inputs: seq<ReadProfile>,
                          fits: Frame -> bool): real
    requires AllRead(profiles, parents, inputs)
  {
    if profiles == [] then 0.0
    else
      var n := |profiles| - 1;
      LeafTime(profiles[..n], parents[..n], inputs[..n], fits)
      + TimeAt(profiles[n], LeavesThatFit(profiles[n], parents[n], fits), |profiles[n].samples|)
  }

  /** The same of those with a frame that fits anywhere on the way up. */
  ghost function PathTime(profiles: seq<Profile>, parents: seq<seq<int>>, inputs: seq<ReadProfile>,
                          fits: Frame -> bool): real
    requires AllRead(profiles, parents, inputs)
  {
    if profiles == [] then 0.0
    else
      var n := |profiles| - 1;
      PathTime(profiles[..n], parents[..n], inputs[..n], fits)
      + TimeAt(profiles[n], PathsThatFit(profiles[n], parents[n], fits), |profiles[n].samples|)
  }

  lemma {:induction false} ProfileHoldsTimeAt(p: Profile, parents: seq<int>, r: ReadProfile, which: Stack -> bool,
                                              shown: seq<bool>)
    requires Reads(p, parents, r) && UniqueIds(p.nodes) && KnownSamples(p) && |shown| == |p.nodes|
    requires forall i: nat :: i < |p.nodes| ==> Agrees(p, parents, which, shown, i)
    ensures TimeOf(r.stacks, which) == TimeAt(p, shown, |p.samples|)
  {
    StacksHoldTimeAt(p, parents, which, shown, |p.nodes|);
    NodesHoldSampleTime(p, shown, |p.samples|);
  }

  lemma {:induction false} LeafTimeOfOne(p: Profile, parents: seq<int>, r: ReadProfile, fits: Frame -> bool,
                                         which: Stack -> bool)
    requires Reads(p, parents, r) && UniqueIds(p.nodes) && KnownSamples(p)
    requires forall s: Stack :: which(s) <==> s.frames != [] && fits(s.frames[|s.frames| - 1])
    ensures TimeOf(r.stacks, which) == TimeAt(p, LeavesThatFit(p, parents, fits), |p.samples|)
  {
    forall i: nat | i < |p.nodes| ensures Agrees(p, parents, which, LeavesThatFit(p, parents, fits), i) {
      LeafFitsIff(p.nodes, parents, i, fits);
    }
    ProfileHoldsTimeAt(p, parents, r, which, LeavesThatFit(p, parents, fits));
  }

  lemma {:induction false} LeafTimeIsHeld(profiles: seq<Profile>, parents: seq<seq<int>>, inputs: seq<ReadProfile>,
                                          fits: Frame -> bool, which: Stack -> bool)
    requires AllRead(profiles, parents, inputs)
    requires forall s: Stack :: which(s) <==> s.frames != [] && fits(s.frames[|s.frames| - 1])
    ensures TimeOf(AllStacks(inputs), which) == LeafTime(profiles, parents, inputs, fits)
    decreases |inputs|
  {
    if inputs != [] {
      var n := |inputs| - 1;
      LeafTimeIsHeld(profiles[..n], parents[..n], inputs[..n], fits, which);
      LeafTimeOfOne(profiles[n], parents[n], inputs[n], fits, which);
      TimeOfConcat(AllStacks(inputs[..n]), inputs[n].stacks, which);
    }
  }

  lemma {:induction false} PathTimeOfOne(p: Profile, parents: seq<int>, r: ReadProfile, fits: Frame -> bool,
                                         which: Stack -> bool)
    requires Reads(p, parents, r) && UniqueIds(p.nodes) && KnownSamples(p)
    requires forall s: Stack :: which(s) <==> SomeFits(s.frames, fits)
    ensures TimeOf(r.stacks, which) == TimeAt(p, PathsThatFit(p, parents, fits), |p.samples|)
  {
    forall i: nat | i < |p.nodes| ensures Agrees(p, parents, which, PathsThatFit(p, parents, fits), i) {
      PathFitsIff(p.nodes, parents, i, fits);
    }
    ProfileHoldsTimeAt(p, parents, r, which, PathsThatFit(p, parents, fits));
  }

  lemma {:induction false} PathTimeIsHeld(profiles: seq<Profile>, parents: seq<seq<int>>, inputs: seq<ReadProfile>,
                                          fits: Frame -> bool, which: Stack -> bool)
    requires AllRead(profiles, parents, inputs)
    requires forall s: Stack :: which(s) <==> SomeFits(s.frames, fits)
    ensures TimeOf(AllStacks(inputs), which) == PathTime(profiles, parents, inputs, fits)
    decreases |inputs|
  {
    if inputs != [] {
      var n := |inputs| - 1;
      PathTimeIsHeld(profiles[..n], parents[..n], inputs[..n], fits, which);
      PathTimeOfOne(profiles[n], parents[n], inputs[n], fits, which);
      TimeOfConcat(AllStacks(inputs[..n]), inputs[n].stacks, which);
    }
  }

  /**
   * A key's self time is the time of the samples whose own frame, or the nearest one above a root frame, has the key;
   * its total time is that of the samples with the key anywhere on the way up.
   */
  lemma {:induction false} KeysHoldTheirSamples(profiles: seq<Profile>, parents: seq<seq<int>>,
                                                inputs: seq<ReadProfile>, a: Analysis, identify: Frame -> Info,
                                                key: string)
    requires AllRead(profiles, parents, inputs) && IsRight(a, AllStacks(inputs), identify) && key in a.entries
    ensures a.entries[key].selfUs == LeafTime(profiles, parents, inputs, OfKey(identify, key))
    ensures a.entries[key].totalUs == PathTime(profiles, parents, inputs, OfKey(identify, key))
  {
    assert EntryIsRight(a.entries[key], AllStacks(inputs), identify, key);
    LeafTimeIsHeld(profiles, parents, inputs, OfKey(identify, key), OnLeaf(identify, key));
    PathTimeIsHeld(profiles, parents, inputs, OfKey(identify, key), HasKey(identify, key));
  }

  /** A category's time is that of the samples whose own or nearest frame is of the category. */
  lemma {:induction false} CategoriesHoldTheirSamples(profiles: seq<Profile>, parents: seq<seq<int>>,
                                                      inputs: seq<ReadProfile>, a: Analysis, identify: Frame -> Info,
                                                      c: Category)
    requires AllRead(profiles, parents, inputs) && IsRight(a, AllStacks(inputs), identify)
    ensures c in a.categoryUs && a.categoryUs[c] == LeafTime(profiles, parents, inputs, OfCategory(identify, c))
  {
    EveryCategoryIsThere(a, AllStacks(inputs), identify, c);
    LeafTimeIsHeld(profiles, parents, inputs, OfCategory(identify, c), InCategory(identify, c));
  }
}
