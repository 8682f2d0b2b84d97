/**
 * counterpart() and new_pairs() of scripts/dry/dryer_report.py: base forms, and the pairs the diff made.
 */
module NewPairs {
  import opened Sorting
  import opened Forms
  import opened Hunks
  import opened Matching
  import Text

  type Items = seq<(string, Form)>  // the items of the dict `head`, in its order

  // ---- counterpart

  /** The base lines of head lines `line..end`, by git's alignment. */
  ghost function MappedLines(line: int, end: int, hunks: seq<Hunk>): seq<int>
    decreases end - line
  {
    if line > end then []
    else (match BaseLineFrom(line, SortBy(hunks, HeadStartOf), 0) case None => [] case Some(b) => [b])
         + MappedLines(line + 1, end, hunks)
  }

  ghost function ReplacedLines(line: int, end: int, hunks: seq<Hunk>): seq<int>
    decreases end - line
  {
    if line > end then []
    else (match ReplacedBy(line, hunks) case None => [] case Some(b) => [b]) + ReplacedLines(line + 1, end, hunks)
  }

  /** The base lines that speak for `form`: its kept lines or, when it has none, its replaced ones. */
  ghost function Evidence(form: Form, hunks: seq<Hunk>): seq<int> {
    var kept := MappedLines(form.startLine, form.endLine, hunks);
    if kept != [] then kept else ReplacedLines(form.startLine, form.endLine, hunks)
  }

  function CountIn(lines: seq<int>, form: Form): nat {
    if lines == [] then 0
    else (if form.startLine <= lines[0] <= form.endLine then 1 else 0) + CountIn(lines[1..], form)
  }

  /** The first base form that holds more of `lines` than every form before it and no fewer than any. */
  ghost predicate HoldsMost(lines: seq<int>, baseForms: seq<Form>, r: Option<Form>) {
    match r
    case None => forall i :: 0 <= i < |baseForms| ==> CountIn(lines, baseForms[i]) == 0
    case Some(b) =>
      exists k :: 0 <= k < |baseForms| && b == baseForms[k] && CountIn(lines, b) > 0
                  && (forall j :: 0 <= j < k ==> CountIn(lines, baseForms[j]) < CountIn(lines, b))
                  && forall j :: 0 <= j < |baseForms| ==> CountIn(lines, baseForms[j]) <= CountIn(lines, b)
  }

  lemma {:induction false} HoldsMostIsUnique(lines: seq<int>, baseForms: seq<Form>, r: Option<Form>, r': Option<Form>)
    requires HoldsMost(lines, baseForms, r) && HoldsMost(lines, baseForms, r')
    ensures r == r'
  {
    if r.Some? && r'.Some? {
      var k := FirstWithMost(lines, baseForms, r.value);
      var k' := FirstWithMost(lines, baseForms, r'.value);
      assert CountIn(lines, baseForms[k]) <= CountIn(lines, r'.value)
          && CountIn(lines, baseForms[k']) <= CountIn(lines, r.value);
    }
  }

  lemma {:induction false} FirstWithMost(lines: seq<int>, baseForms: seq<Form>, b: Form) returns (k: nat)
    requires HoldsMost(lines, baseForms, Some(b))
    ensures k < |baseForms| && baseForms[k] == b
    ensures forall j :: 0 <= j < k ==> CountIn(lines, baseForms[j]) < CountIn(lines, b)
  {
    k :| 0 <= k < |baseForms| && b == baseForms[k] && CountIn(lines, b) > 0
         && (forall j :: 0 <= j < k ==> CountIn(lines, baseForms[j]) < CountIn(lines, b));
  }

  method Counterpart(form: Form, baseForms: seq<Form>, hunks: seq<Hunk>) returns (best: Option<Form>)
    ensures HoldsMost(Evidence(form, hunks), baseForms, best)
  {
    var mapped := Mapped(form, hunks);
    best := None;
    var most := 0;
    for i := 0 to |baseForms|
      invariant HoldsMost(mapped, baseForms[..i], best)
      invariant most == if best.None? then 0 else CountIn(mapped, best.value)
    {
      var count := CountIn(mapped, baseForms[i]);
      assert baseForms[..i + 1] == baseForms[..i] + [baseForms[i]];
      if count > most {
        NowMost(mapped, baseForms[..i], baseForms[i], best);
        best, most := Some(baseForms[i]), count;
      } else {
        StillMost(mapped, baseForms[..i], baseForms[i], best);
      }
    }
    assert baseForms[..|baseForms|] == baseForms;
  }

  lemma {:induction false} NowMost(lines: seq<int>, forms: seq<Form>, next: Form, best: Option<Form>)
    requires HoldsMost(lines, forms, best)
    requires CountIn(lines, next) > if best.None? then 0 else CountIn(lines, best.value)
    ensures HoldsMost(lines, forms + [next], Some(next))
  {
    var all := forms + [next];
    assert all[|forms|] == next;
    assert forall j :: 0 <= j < |forms| ==> all[j] == forms[j] && CountIn(lines, forms[j]) < CountIn(lines, next);
  }

  lemma {:induction false} StillMost(lines: seq<int>, forms: seq<Form>, next: Form, best: Option<Form>)
    requires HoldsMost(lines, forms, best)
    requires CountIn(lines, next) <= if best.None? then 0 else CountIn(lines, best.value)
    ensures HoldsMost(lines, forms + [next], best)
  {
    if best.Some? {
      var k :| 0 <= k < |forms| && best.value == forms[k]
               && forall j :: 0 <= j < k ==> CountIn(lines, forms[j]) < CountIn(lines, best.value);
      assert (forms + [next])[k] == best.value;
    }
  }

  method Mapped(form: Form, hunks: seq<Hunk>) returns (mapped: seq<int>)
    ensures mapped == Evidence(form, hunks)
  {
    mapped := AllBaseLines(form, hunks);
    if mapped == [] {
      mapped := AllReplacedLines(form, hunks);
    }
  }

  lemma {:induction false} Regroup(a: seq<int>, b: seq<int>, c: seq<int>)
    ensures a + (b + c) == (a + b) + c
  {
  }

  method AllBaseLines(form: Form, hunks: seq<Hunk>) returns (mapped: seq<int>)
    ensures mapped == MappedLines(form.startLine, form.endLine, hunks)
  {
    mapped := [];
    var line := form.startLine;
    while line <= form.endLine
      invariant mapped + MappedLines(line, form.endLine, hunks) == MappedLines(form.startLine, form.endLine, hunks)
    {
      var b := BaseLine(line, hunks);
      var more := if b.Some? then [b.value] else [];
      Regroup(mapped, more, MappedLines(line + 1, form.endLine, hunks));
      mapped := mapped + more;
      line := line + 1;
    }
  }

  method AllReplacedLines(form: Form, hunks: seq<Hunk>) returns (mapped: seq<int>)
    ensures mapped == ReplacedLines(form.startLine, form.endLine, hunks)
  {
    mapped := [];
    var line := form.startLine;
    while line <= form.endLine
      invariant mapped + ReplacedLines(line, form.endLine, hunks) == ReplacedLines(form.startLine, form.endLine, hunks)
    {
      var b := ReplacedLine(line, hunks);
      var more := if b.Some? then [b.value] else [];
      Regroup(mapped, more, ReplacedLines(line + 1, form.endLine, hunks));
      mapped := mapped + more;
      line := line + 1;
    }
  }

  lemma {:induction false} NoEvidenceInAddedLines<T>(s: Script<T>, line: int, end: int)
    requires 1 <= line && end <= |s.Head()|
    requires forall l: nat :: line <= l <= end ==> s.Kept(l).None? && s.Replaced(l).None?
    ensures MappedLines(line, end, s.HunksFrom(0, 0)) == [] && ReplacedLines(line, end, s.HunksFrom(0, 0)) == []
    decreases end - line
  {
    if line <= end {
      BaseLineIsKept(s, line);
      ReplacedLineIsReplaced(s, line);
      NoEvidenceInAddedLines(s, line + 1, end);
    }
  }

  lemma {:induction false} CountSome(lines: seq<int>, form: Form, i: nat)
    requires i < |lines| && form.startLine <= lines[i] <= form.endLine
    ensures CountIn(lines, form) > 0
  {
    if i > 0 { CountSome(lines[1..], form, i - 1); }
  }

  lemma {:induction false} KeptLineIsMapped<T>(s: Script<T>, line: int, end: int, at: nat) returns (i: nat)
    requires 1 <= line <= at <= end && at <= |s.Head()| && s.Kept(at).Some?
    ensures i < |MappedLines(line, end, s.HunksFrom(0, 0))|
    ensures MappedLines(line, end, s.HunksFrom(0, 0))[i] == s.Kept(at).value
    decreases at - line
  {
    if line == at {
      BaseLineIsKept(s, at);
      i := 0;
    } else {
      i := KeptLineIsMapped(s, line + 1, end, at);
      if BaseLineFrom(line, SortBy(s.HunksFrom(0, 0), HeadStartOf), 0).Some? { i := i + 1; }
    }
  }

  /** A form made only of added lines has no base form, so every pair with it is new. */
  lemma {:induction false} AddedFormHasNoCounterpart<T>(s: Script<T>, form: Form, baseForms: seq<Form>,
                                                        best: Option<Form>)
    requires 1 <= form.startLine && form.endLine <= |s.Head()|
    requires forall l: nat :: form.startLine <= l <= form.endLine ==> s.Kept(l).None? && s.Replaced(l).None?
    requires HoldsMost(Evidence(form, s.HunksFrom(0, 0)), baseForms, best)
    ensures best == None
  {
    NoEvidenceInAddedLines(s, form.startLine, form.endLine);
  }

  /** The lines of `form` that the script kept and whose base line stands in `b`. */
  ghost function KeptInto<T>(s: Script<T>, line: int, end: int, b: Form): set<int>
    requires 1 <= line && end <= |s.Head()|
  {
    set l: int | line <= l <= end && s.Kept(l).Some? && b.startLine <= s.Kept(l).value <= b.endLine
  }

  ghost function ReplacedInto<T>(s: Script<T>, line: int, end: int, b: Form): set<int>
    requires 1 <= line && end <= |s.Head()|
  {
    set l: int | line <= l <= end && s.Replaced(l).Some? && b.startLine <= s.Replaced(l).value <= b.endLine
  }

  ghost predicate Holds(b: Form, line: Option<int>) { line.Some? && b.startLine <= line.value <= b.endLine }

  lemma {:induction false} CountOneMore(line: Option<int>, lines: seq<int>, b: Form)
    ensures CountIn((match line case None => [] case Some(l) => [l]) + lines, b)
         == CountIn(lines, b) + if Holds(b, line) then 1 else 0
  {
    if line.None? {
      assert [] + lines == lines;
    } else {
      assert ([line.value] + lines)[1..] == lines;
    }
  }

  lemma {:induction false} OneMoreKept<T>(s: Script<T>, line: int, end: int, b: Form)
    requires 1 <= line <= end <= |s.Head()|
    ensures |KeptInto(s, line, end, b)| == |KeptInto(s, line + 1, end, b)| + if Holds(b, s.Kept(line)) then 1 else 0
  {
    assert KeptInto(s, line, end, b) == KeptInto(s, line + 1, end, b) + if Holds(b, s.Kept(line)) then {line} else {};
  }

  lemma {:induction false} OneMoreReplaced<T>(s: Script<T>, line: int, end: int, b: Form)
    requires 1 <= line <= end <= |s.Head()|
    ensures |ReplacedInto(s, line, end, b)|
         == |ReplacedInto(s, line + 1, end, b)| + if Holds(b, s.Replaced(line)) then 1 else 0
  {
    assert ReplacedInto(s, line, end, b)
        == ReplacedInto(s, line + 1, end, b) + if Holds(b, s.Replaced(line)) then {line} else {};
  }

  lemma {:induction false} CountIsKeptInto<T>(s: Script<T>, line: int, end: int, b: Form)
    requires 1 <= line && end <= |s.Head()|
    ensures CountIn(MappedLines(line, end, s.HunksFrom(0, 0)), b) == |KeptInto(s, line, end, b)|
    decreases end - line
  {
    if line > end {
      assert KeptInto(s, line, end, b) == {};
    } else {
      BaseLineIsKept(s, line);
      CountIsKeptInto(s, line + 1, end, b);
      CountOneMore(s.Kept(line), MappedLines(line + 1, end, s.HunksFrom(0, 0)), b);
      OneMoreKept(s, line, end, b);
    }
  }

  lemma {:induction false} NothingMapped<T>(s: Script<T>, line: int, end: int)
    requires 1 <= line && end <= |s.Head()| && forall l: nat :: line <= l <= end ==> s.Kept(l).None?
    ensures MappedLines(line, end, s.HunksFrom(0, 0)) == []
    decreases end - line
  {
    if line <= end {
      BaseLineIsKept(s, line);
      NothingMapped(s, line + 1, end);
    }
  }

  lemma {:induction false} CountIsReplacedInto<T>(s: Script<T>, line: int, end: int, b: Form)
    requires 1 <= line && end <= |s.Head()|
    ensures CountIn(ReplacedLines(line, end, s.HunksFrom(0, 0)), b) == |ReplacedInto(s, line, end, b)|
    decreases end - line
  {
    if line > end {
      assert ReplacedInto(s, line, end, b) == {};
    } else {
      ReplacedLineIsReplaced(s, line);
      CountIsReplacedInto(s, line + 1, end, b);
      CountOneMore(s.Replaced(line), ReplacedLines(line + 1, end, s.HunksFrom(0, 0)), b);
      OneMoreReplaced(s, line, end, b);
    }
  }

  /** What speaks for a base form: the kept lines that it held or, in a form without kept lines, the replaced ones. */
  lemma {:induction false} EvidenceOfScript<T>(s: Script<T>, form: Form, b: Form)
    requires 1 <= form.startLine && form.endLine <= |s.Head()|
    ensures CountIn(Evidence(form, s.HunksFrom(0, 0)), b)
         == if exists l: nat :: form.startLine <= l <= form.endLine && s.Kept(l).Some?
            then |KeptInto(s, form.startLine, form.endLine, b)| else |ReplacedInto(s, form.startLine, form.endLine, b)|
  {
    CountIsKeptInto(s, form.startLine, form.endLine, b);
    CountIsReplacedInto(s, form.startLine, form.endLine, b);
    if l: nat :| form.startLine <= l <= form.endLine && s.Kept(l).Some? {
      var i := KeptLineIsMapped(s, form.startLine, form.endLine, l);
    } else {
      NothingMapped(s, form.startLine, form.endLine);
    }
  }

  /** A form with a kept line that some base form held at the base has a base form, which held kept lines of it too. */
  lemma {:induction false} KeptFormHasACounterpart<T>(s: Script<T>, form: Form, baseForms: seq<Form>,
                                                      best: Option<Form>, at: nat, candidate: Form)
    requires 1 <= form.startLine <= at <= form.endLine && at <= |s.Head()| && s.Kept(at).Some?
    requires candidate in baseForms && candidate.startLine <= s.Kept(at).value <= candidate.endLine
    requires HoldsMost(Evidence(form, s.HunksFrom(0, 0)), baseForms, best)
    ensures best.Some? && best.value in baseForms
    ensures CountIn(MappedLines(form.startLine, form.endLine, s.HunksFrom(0, 0)), best.value) > 0
  {
    var i := KeptLineIsMapped(s, form.startLine, form.endLine, at);
    CountSome(MappedLines(form.startLine, form.endLine, s.HunksFrom(0, 0)), candidate, i);
  }

  // ---- own

  function FormsOf(head: Items): (r: seq<Form>)
    ensures |r| == |head| && forall i :: 0 <= i < |r| ==> r[i] == head[i].1
  {
    seq(|head|, i requires 0 <= i < |head| => head[i].1)
  }

  type Owners = map<Form, Option<Form>>

  /** The lost and the removed forms come in the order of their lists. */
  lemma {:induction false} LostKeepsOrder(forms: seq<Form>, own: Owners, path: string, x: Form, y: Form)
    requires Precedes(LostAt(forms, own, path), x, y)
    ensures Precedes(forms, x, y)
  {
    var all, rest := LostAt(forms, own, path), LostAt(forms[1..], own, path);
    if all != rest { PrecedesInTail(forms[0], rest, x, y); }
    if Precedes(rest, x, y) { LostKeepsOrder(forms[1..], own, path, x, y); }
    PrecedesInLonger(forms, x, y);
  }

  lemma {:induction false} RemovedKeepsOrder(baseForms: seq<Form>, kept: set<Form>, x: Form, y: Form)
    requires Precedes(RemovedAt(baseForms, kept), x, y)
    ensures Precedes(baseForms, x, y)
  {
    var all, rest := RemovedAt(baseForms, kept), RemovedAt(baseForms[1..], kept);
    if all != rest { PrecedesInTail(baseForms[0], rest, x, y); }
    if Precedes(rest, x, y) { RemovedKeepsOrder(baseForms[1..], kept, x, y); }
    PrecedesInLonger(baseForms, x, y);
  }

  /** The changed forms of `path` that no base form was found for, in the order of `head`. */
  function LostAt(forms: seq<Form>, own: Owners, path: string): (r: seq<Form>)
    ensures forall f :: f in r <==> f in forms && f.path == path && f in own && own[f].None?
    ensures Distinct(forms) ==> Distinct(r)
  {
    if forms == [] then []
    else
      var rest := LostAt(forms[1..], own, path);
      assert Distinct(forms) ==> Distinct(forms[1..]) && forms[0] !in forms[1..];
      if forms[0].path == path && forms[0] in own && own[forms[0]].None? then [forms[0]] + rest else rest
  }

  function RemovedAt(baseForms: seq<Form>, kept: set<Form>): (r: seq<Form>)
    ensures forall b :: b in r <==> b in baseForms && b !in kept
  {
    if baseForms == [] then []
    else (if baseForms[0] in kept then [] else [baseForms[0]]) + RemovedAt(baseForms[1..], kept)
  }

  ghost function KeptBases(own: Owners): set<Form> {
    set f | f in own && own[f].Some? :: own[f].value
  }

  function At<T>(m: map<string, seq<T>>, path: string): seq<T> {
    if path in m then m[path] else []
  }

  /** The first pass of new_pairs: every changed form under its counterpart. */
  ghost predicate FirstPass(first: Owners, forms: seq<Form>, baseByPath: map<string, seq<Form>>, changed: set<string>,
                            hunks: map<string, seq<Hunk>>) {
    && (forall f :: f in first <==> f in forms && f.path in changed)
    && forall f :: f in first ==> HoldsMost(Evidence(f, At(hunks, f.path)), At(baseByPath, f.path), first[f])
  }

  /** The lost forms took the bases of `m`, a matching that is maximum on every prefix of their order. */
  ghost predicate Took(m: map<Form, Form>, own: Owners, lost: seq<Form>, options: Options) {
    && IsMatching(m, Elements(lost), options)
    && PrefixMaximum(m.Keys, ByStart(lost), |lost|, options)
    && forall f :: f in lost ==> f in own && own[f] == if f in m then Some(m[f]) else None
  }

  ghost function OptionsAt(first: Owners, forms: seq<Form>, baseByPath: map<string, seq<Form>>, path: string,
                           threshold: real): Options {
    OptionsOf(LostAt(forms, first, path), RemovedAt(At(baseByPath, path), KeptBases(first)), threshold)
  }

  /** The second pass at one path. */
  ghost predicate Repaired(first: Owners, own: Owners, forms: seq<Form>, baseByPath: map<string, seq<Form>>,
                           path: string, threshold: real) {
    exists m ::
      && Took(m, own, LostAt(forms, first, path), OptionsAt(first, forms, baseByPath, path, threshold))
      && EachTakesItsBest(m, LostAt(forms, first, path), RemovedAt(At(baseByPath, path), KeptBases(first)), threshold)
  }

  ghost predicate SameOutside(first: Owners, own: Owners, paths: set<string>) {
    && own.Keys == first.Keys
    && forall f :: f in first && (first[f].Some? || f.path !in paths) ==> own[f] == first[f]
  }

  /** `own` is the counterparts `first`, with the lost forms of each path matched to its removed forms. */
  ghost predicate OwnersFrom(first: Owners, own: Owners, forms: seq<Form>, baseByPath: map<string, seq<Form>>,
                             changed: set<string>, hunks: map<string, seq<Hunk>>, threshold: real) {
    && FirstPass(first, forms, baseByPath, changed, hunks) && SameOutside(first, own, baseByPath.Keys)
    && forall path :: path in baseByPath ==> Repaired(first, own, forms, baseByPath, path, threshold)
  }

  method FindOwners(forms: seq<Form>, baseByPath: map<string, seq<Form>>, changed: set<string>,
                    hunks: map<string, seq<Hunk>>, threshold: real) returns (own: Owners)
    requires Distinct(forms) && baseByPath.Keys <= changed
    ensures exists first :: OwnersFrom(first, own, forms, baseByPath, changed, hunks, threshold)
  {
    var kept: set<Form>;
    own, kept := FindCounterparts(forms, baseByPath, changed, hunks);
    ghost var first := own;
    var paths := baseByPath.Keys;
    while paths != {}
      invariant paths <= baseByPath.Keys
      invariant SameOutside(first, own, baseByPath.Keys - paths)
      invariant forall path :: path in baseByPath.Keys - paths ==>
                Repaired(first, own, forms, baseByPath, path, threshold)
      decreases |paths|
    {
      var path :| path in paths;
      ghost var before := own;
      SameLost(forms, first, own, path, baseByPath.Keys - paths);
      var lost := LostAt(forms, own, path);
      var matched := Reordered(lost, RemovedAt(baseByPath[path], kept), threshold);
      own := Take(own, matched);
      TookHere(forms, before, path, matched, OptionsAt(first, forms, baseByPath, path, threshold));
      forall p | p in baseByPath.Keys - paths ensures Repaired(first, own, forms, baseByPath, p, threshold) {
        RepairedElsewhere(first, before, forms, baseByPath, p, threshold, matched, path);
      }
      paths := paths - {path};
    }
    assert OwnersFrom(first, own, forms, baseByPath, changed, hunks, threshold);
  }

  /** `own[id(form)] = base` for every matched pair. */
  function Take(own: Owners, matched: map<Form, Form>): (r: Owners)
    ensures r.Keys == own.Keys
    ensures forall f :: f in own ==> r[f] == if f in matched then Some(matched[f]) else own[f]
  {
    map f | f in own :: if f in matched then Some(matched[f]) else own[f]
  }

  lemma {:induction false} SameLost(forms: seq<Form>, first: Owners, own: Owners, path: string, done: set<string>)
    requires SameOutside(first, own, done) && path !in done
    ensures LostAt(forms, own, path) == LostAt(forms, first, path)
  {
    if forms != [] { SameLost(forms[1..], first, own, path, done); }
  }

  lemma {:induction false} TookHere(forms: seq<Form>, before: Owners, path: string, m: map<Form, Form>,
                                    options: Options)
    requires var lost := LostAt(forms, before, path);
      IsMatching(m, Elements(lost), options) && PrefixMaximum(m.Keys, ByStart(lost), |lost|, options)
    ensures Took(m, Take(before, m), LostAt(forms, before, path), options)
    ensures forall f :: f in m ==> f.path == path && f in before && before[f].None?
  {
    forall f | f in m ensures f.path == path && f in before && before[f].None? {
      assert f in LostAt(forms, before, path);
    }
  }

  lemma {:induction false} RepairedElsewhere(first: Owners, before: Owners, forms: seq<Form>,
                                             baseByPath: map<string, seq<Form>>, p: string, threshold: real,
                                             m: map<Form, Form>, path: string)
    requires Repaired(first, before, forms, baseByPath, p, threshold)
    requires p != path && forall f :: f in m ==> f.path == path
    ensures Repaired(first, Take(before, m), forms, baseByPath, p, threshold)
  {
    var lost, options := LostAt(forms, first, p), OptionsAt(first, forms, baseByPath, p, threshold);
    var taken :| Took(taken, before, lost, options)
      && EachTakesItsBest(taken, lost, RemovedAt(At(baseByPath, p), KeptBases(first)), threshold);
    assert forall f :: f in lost ==> f !in m;
    assert Took(taken, Take(before, m), lost, options);
  }

  method FindCounterparts(forms: seq<Form>, baseByPath: map<string, seq<Form>>, changed: set<string>,
                          hunks: map<string, seq<Hunk>>)
    returns (own: Owners, kept: set<Form>)
    ensures FirstPass(own, forms, baseByPath, changed, hunks)
    ensures kept == KeptBases(own)
  {
    own, kept := map[], {};
    for i := 0 to |forms|
      invariant FirstPass(own, forms[..i], baseByPath, changed, hunks)
    {
      if forms[i].path in changed {
        var base := Counterpart(forms[i], At(baseByPath, forms[i].path), At(hunks, forms[i].path));
        own := own[forms[i] := base];
      }
    }
    assert forms[..|forms|] == forms;
    kept := set f | f in own && own[f].Some? :: own[f].value;
  }

  /** A removed form stands in for at most one added form, and never for one that a kept form came from. */
  lemma {:induction false} RepairsAreOneToOne(first: Owners, own: Owners, forms: seq<Form>,
                                              baseByPath: map<string, seq<Form>>, threshold: real, f: Form, g: Form)
    requires forall path :: path in baseByPath ==> Repaired(first, own, forms, baseByPath, path, threshold)
    requires SameOutside(first, own, baseByPath.Keys)
    requires forall h :: h in first ==> h in forms
    requires forall path, b :: path in baseByPath && b in baseByPath[path] ==> b.path == path
    requires f in own && g in own && f != g && first[f].None? && own[f].Some?
    ensures own[f].value in At(baseByPath, f.path)
    ensures own[g] != own[f] && first[g] != own[f]
  {
    var lost, options := LostAt(forms, first, f.path), OptionsAt(first, forms, baseByPath, f.path, threshold);
    assert f.path in baseByPath;
    var m :| Took(m, own, lost, options);
    assert f in lost && m[f] in options[f];
    assert first[g].Some? ==> first[g].value in KeptBases(first);
    if first[g].None? && own[g].Some? {
      var lost', options' := LostAt(forms, first, g.path), OptionsAt(first, forms, baseByPath, g.path, threshold);
      assert g.path in baseByPath;
      var m' :| Took(m', own, lost', options');
      assert g in lost' && m'[g] in options'[g];
    }
  }

  // ---- new_pairs

  datatype Span = Span(path: string, name: string, startLine: int, endLine: int)
  datatype Pair = Pair(score: real, left: Span, right: Span)

  function SpanOfForm(f: Form): Span { Span(f.path, f.name, f.startLine, f.endLine) }

  type Spans = map<string, seq<(real, real)>>

  predicate Touched(form: Form, spans: Spans) {
    exists i :: 0 <= i < |At(spans, form.path)| &&
      form.startLine as real <= At(spans, form.path)[i].1 && At(spans, form.path)[i].0 <= form.endLine as real
  }

  /** `tuple(sorted(...))` of the two keys. */
  function PairKey(a: string, b: string): (string, string) { if Text.AtMost(a, b) then (a, b) else (b, a) }

  lemma {:induction false} PairKeyIsSorted(a: string, b: string)
    ensures PairKey(a, b) == PairKey(b, a)
  {
    Text.AtMostIsTotal(a, b);
    if Text.AtMost(a, b) && Text.AtMost(b, a) { Text.AtMostIsAntisymmetric(a, b); }
  }

  /** One key per unordered pair. */
  lemma {:induction false} PairKeyIdentifies(a: string, b: string, c: string, d: string)
    ensures PairKey(a, b) == PairKey(c, d) <==> (a == c && b == d) || (a == d && b == c)
  {
    PairKeyIsSorted(a, b);
    PairKeyIsSorted(c, d);
  }

  function AtBase(form: Form, own: Owners, changed: set<string>): Option<Form>
    requires form.path in changed ==> form in own
  {
    if form.path in changed then own[form] else Some(form)
  }

  predicate MatchedBefore(left: Form, right: Form, own: Owners, changed: set<string>, threshold: real)
    requires left.path in changed ==> left in own
    requires right.path in changed ==> right in own
  {
    var l, r := AtBase(left, own, changed), AtBase(right, own, changed);
    l.Some? && r.Some? && l != r && Similar(l.value.fingerprints, r.value.fingerprints, threshold).Some?
  }

  /** The two forms score at least the threshold, and do not stand for two old forms that did. */
  ghost predicate NewlySimilar(left: Form, right: Form, own: Owners, changed: set<string>, threshold: real)
    requires left.path in changed ==> left in own
    requires right.path in changed ==> right in own
  {
    var l := if left.path in changed then own[left] else Some(left);
    var r := if right.path in changed then own[right] else Some(right);
    && left.fingerprints + right.fingerprints != {} && Jaccard(left.fingerprints, right.fingerprints) >= threshold
    && !(l.Some? && r.Some? && l.value != r.value && l.value.fingerprints + r.value.fingerprints != {}
         && Jaccard(l.value.fingerprints, r.value.fingerprints) >= threshold)
  }

  /** A changed span of the file touches the form's lines. */
  ghost predicate Meets(form: Form, spans: Spans) {
    form.path in spans && exists span :: span in spans[form.path] &&
                                         form.startLine as real <= span.1 && span.0 <= form.endLine as real
  }

  lemma {:induction false} TouchedIffMeets(form: Form, spans: Spans)
    ensures Touched(form, spans) <==> Meets(form, spans)
  {
    if Touched(form, spans) {
      var i :| 0 <= i < |At(spans, form.path)| &&
        form.startLine as real <= At(spans, form.path)[i].1 && At(spans, form.path)[i].0 <= form.endLine as real;
      assert At(spans, form.path)[i] in spans[form.path];
    }
  }

  /** What the gate promises of a reported pair. */
  ghost predicate MadeByDiff(left: Form, right: Form, own: Owners, changed: set<string>, spans: Spans, threshold: real)
    requires left.path in changed ==> left in own
    requires right.path in changed ==> right in own
  {
    (Meets(left, spans) || Meets(right, spans)) && NewlySimilar(left, right, own, changed, threshold)
  }

  /** The inner test of the loop, for one touched side. */
  ghost predicate Hit(left: Form, right: Form, own: Owners, changed: set<string>, spans: Spans, threshold: real)
    requires left.path in changed ==> left in own
    requires right.path in changed ==> right in own
  {
    Touched(left, spans) && Similar(left.fingerprints, right.fingerprints, threshold).Some?
    && !MatchedBefore(left, right, own, changed, threshold)
  }

  lemma {:induction false} HitExactly(left: Form, right: Form, own: Owners, changed: set<string>, spans: Spans,
                                      threshold: real)
    requires left.path in changed ==> left in own
    requires right.path in changed ==> right in own
    ensures Hit(left, right, own, changed, spans, threshold) <==>
            Meets(left, spans) && NewlySimilar(left, right, own, changed, threshold)
  {
    TouchedIffMeets(left, spans);
    var l, r := AtBase(left, own, changed), AtBase(right, own, changed);
    PreFilterIsExact(left.fingerprints, right.fingerprints, threshold);
    if l.Some? && r.Some? {
      PreFilterIsExact(l.value.fingerprints, r.value.fingerprints, threshold);
    }
  }

  lemma {:induction false} NewlySimilarIsSymmetric(left: Form, right: Form, own: Owners, changed: set<string>,
                                                   threshold: real)
    requires left.path in changed ==> left in own
    requires right.path in changed ==> right in own
    ensures NewlySimilar(left, right, own, changed, threshold) <==> NewlySimilar(right, left, own, changed, threshold)
  {
    var l, r := AtBase(left, own, changed), AtBase(right, own, changed);
    JaccardIsSymmetric(left.fingerprints, right.fingerprints);
    if l.Some? && r.Some? {
      JaccardIsSymmetric(l.value.fingerprints, r.value.fingerprints);
    }
  }

  ghost predicate HitAt(head: Items, a: nat, b: nat, own: Owners, changed: set<string>, spans: Spans, threshold: real)
    requires a < |head| && b < |head| && Known(head, own, changed)
  {
    Hit(head[a].1, head[b].1, own, changed, spans, threshold)
  }

  ghost predicate Known(head: Items, own: Owners, changed: set<string>) {
    forall i :: 0 <= i < |head| && head[i].1.path in changed ==> head[i].1 in own
  }

  ghost predicate DistinctKeys(head: Items) {
    forall i, j :: 0 <= i < j < |head| ==> head[i].0 != head[j].0
  }

  /** `(c, d)` comes before `(a, b)` in the order of the two loops. */
  ghost predicate Earlier(c: nat, d: nat, a: nat, b: nat) { c < a || (c == a && d < b) }

  /** The first of the two orders of its unordered pair that hits. */
  ghost predicate FirstHit(head: Items, a: nat, b: nat, own: Owners, changed: set<string>, spans: Spans,
                           threshold: real)
    requires Known(head, own, changed)
  {
    && a < |head| && b < |head| && a != b && HitAt(head, a, b, own, changed, spans, threshold)
    && forall c: nat, d: nat :: c < |head| && d < |head| && c != d && Earlier(c, d, a, b) &&
                                HitAt(head, c, d, own, changed, spans, threshold) ==>
         PairKey(head[c].0, head[d].0) != PairKey(head[a].0, head[b].0)
  }

  /** Every hit among the ordered index pairs before `(i, j)` has its unordered pair in `pairs`. */
  ghost predicate AllIn(pairs: map<(string, string), Pair>, head: Items, i: nat, j: nat, own: Owners,
                        changed: set<string>, spans: Spans, threshold: real)
    requires Known(head, own, changed)
  {
    forall a: nat, b: nat :: a < |head| && b < |head| && a != b && Earlier(a, b, i, j) &&
                             HitAt(head, a, b, own, changed, spans, threshold) ==>
      PairKey(head[a].0, head[b].0) in pairs
  }

  /** The entry of a hit: its score, and where the two functions stand. */
  ghost function PairOf(left: Form, right: Form): Pair {
    Pair(Jaccard(left.fingerprints, right.fingerprints), Span(left.path, left.name, left.startLine, left.endLine),
         Span(right.path, right.name, right.startLine, right.endLine))
  }

  /** The entry of `key` is its first hit's. */
  ghost predicate FirstEntry(pair: Pair, key: (string, string), head: Items, own: Owners, changed: set<string>,
                             spans: Spans, threshold: real)
    requires Known(head, own, changed)
  {
    exists a: nat, b: nat ::
      FirstHit(head, a, b, own, changed, spans, threshold)
      && key == PairKey(head[a].0, head[b].0)
      && pair == PairOf(head[a].1, head[b].1)
  }

  /** One entry per unordered pair with a hit among the ordered index pairs before `(i, j)`: its first hit's. */
  ghost predicate Collected(pairs: map<(string, string), Pair>, head: Items, i: nat, j: nat, own: Owners,
                            changed: set<string>, spans: Spans, threshold: real)
    requires Known(head, own, changed)
  {
    && AllIn(pairs, head, i, j, own, changed, spans, threshold)
    && forall key :: key in pairs ==> FirstEntry(pairs[key], key, head, own, changed, spans, threshold)
  }

  lemma {:induction false} NextIsIn(pairs: map<(string, string), Pair>, more: map<(string, string), Pair>, head: Items,
                                    i: nat, j: nat, own: Owners, changed: set<string>, spans: Spans, threshold: real)
    requires i < |head| && j < |head| && Known(head, own, changed) && pairs.Keys <= more.Keys
    requires AllIn(pairs, head, i, j, own, changed, spans, threshold)
    requires i == j || !HitAt(head, i, j, own, changed, spans, threshold) || PairKey(head[i].0, head[j].0) in more
    ensures AllIn(more, head, i, j + 1, own, changed, spans, threshold)
  {
    forall a: nat, b: nat | a < |head| && b < |head| && a != b && Earlier(a, b, i, j + 1)
        && HitAt(head, a, b, own, changed, spans, threshold)
      ensures PairKey(head[a].0, head[b].0) in more
    {
      if !(a == i && b == j) {
        assert Earlier(a, b, i, j);
        assert PairKey(head[a].0, head[b].0) in pairs.Keys;
      }
    }
  }

  lemma {:induction false} NewEntryIsFirst(pairs: map<(string, string), Pair>, head: Items, i: nat, j: nat, own: Owners,
                                           changed: set<string>, spans: Spans, threshold: real)
    requires i < |head| && j < |head| && i != j && Known(head, own, changed)
             && HitAt(head, i, j, own, changed, spans, threshold)
    requires AllIn(pairs, head, i, j, own, changed, spans, threshold)
    requires PairKey(head[i].0, head[j].0) !in pairs
    ensures FirstEntry(PairOf(head[i].1, head[j].1), PairKey(head[i].0, head[j].0), head, own, changed, spans,
            threshold)
  {
    assert FirstHit(head, i, j, own, changed, spans, threshold);
  }

  method ReportPairs(head: Items, own: Owners, changed: set<string>, spans: Spans, threshold: real)
    returns (pairs: map<(string, string), Pair>)
    requires Known(head, own, changed)
    ensures Collected(pairs, head, |head|, 0, own, changed, spans, threshold)
  {
    pairs := map[];
    for i := 0 to |head|
      invariant Collected(pairs, head, i, 0, own, changed, spans, threshold)
    {
      var left := head[i].1;
      if Touched(left, spans) {
        for j := 0 to |head|
          invariant Collected(pairs, head, i, j, own, changed, spans, threshold)
        {
          pairs := ReportPair(pairs, head, i, j, own, changed, spans, threshold);
        }
      }
    }
  }

  method ReportPair(pairs: map<(string, string), Pair>, head: Items, i: nat, j: nat, own: Owners, changed: set<string>,
                    spans: Spans, threshold: real) returns (more: map<(string, string), Pair>)
    requires i < |head| && j < |head| && Known(head, own, changed) && Touched(head[i].1, spans)
    requires Collected(pairs, head, i, j, own, changed, spans, threshold)
    ensures Collected(more, head, i, j + 1, own, changed, spans, threshold)
  {
    more := pairs;
    if j != i {
      var (key, left) := head[i];
      var (other, right) := head[j];
      var score := Similar(left.fingerprints, right.fingerprints, threshold);
      if score.Some? && !MatchedBefore(left, right, own, changed, threshold) {
        assert HitAt(head, i, j, own, changed, spans, threshold);
        if PairKey(key, other) !in pairs {
          PreFilterIsExact(left.fingerprints, right.fingerprints, threshold);
          NewEntryIsFirst(pairs, head, i, j, own, changed, spans, threshold);
          more := pairs[PairKey(key, other) := Pair(score.value, SpanOfForm(left), SpanOfForm(right))];
        }
      }
    }
    NextIsIn(pairs, more, head, i, j, own, changed, spans, threshold);
  }

  /** Each unordered pair is reported exactly when the diff made it. */
  lemma {:induction false} ReportedExactly(pairs: map<(string, string), Pair>, head: Items, own: Owners,
                                           changed: set<string>, spans: Spans, threshold: real, a: nat, b: nat)
    requires Known(head, own, changed) && DistinctKeys(head)
    requires Collected(pairs, head, |head|, 0, own, changed, spans, threshold)
    requires a < |head| && b < |head| && a != b
    ensures PairKey(head[a].0, head[b].0) in pairs <==> MadeByDiff(head[a].1, head[b].1, own, changed, spans, threshold)
    ensures PairKey(head[a].0, head[b].0) == PairKey(head[b].0, head[a].0)
  {
    var key := PairKey(head[a].0, head[b].0);
    HitExactly(head[a].1, head[b].1, own, changed, spans, threshold);
    HitExactly(head[b].1, head[a].1, own, changed, spans, threshold);
    NewlySimilarIsSymmetric(head[a].1, head[b].1, own, changed, threshold);
    PairKeyIdentifies(head[a].0, head[b].0, head[b].0, head[a].0);
    if HitAt(head, a, b, own, changed, spans, threshold) || HitAt(head, b, a, own, changed, spans, threshold) {
      assert key in pairs;
    }
    if key in pairs {
      assert FirstEntry(pairs[key], key, head, own, changed, spans, threshold);
      var c: nat, d: nat :| FirstHit(head, c, d, own, changed, spans, threshold)
        && key == PairKey(head[c].0, head[d].0);
      PairKeyIdentifies(head[a].0, head[b].0, head[c].0, head[d].0);
      assert (c == a && d == b) || (c == b && d == a);
    }
  }

  /** An unordered pair is in `pairs` exactly when the diff made it, with the score and the spans of its first hit. */
  ghost predicate Reports(pairs: map<(string, string), Pair>, head: Items, own: Owners, changed: set<string>,
                          spans: Spans, threshold: real) {
    && Known(head, own, changed)
    && (forall a, b :: 0 <= a < |head| && 0 <= b < |head| && a != b ==>
          (PairKey(head[a].0, head[b].0) in pairs <==>
              MadeByDiff(head[a].1, head[b].1, own, changed, spans, threshold)))
    && Collected(pairs, head, |head|, 0, own, changed, spans, threshold)
  }

  /** new_pairs: the owners first, then the report. */
  method NewPairs(head: Items, baseByPath: map<string, seq<Form>>, changed: set<string>, spans: Spans,
                  hunks: map<string, seq<Hunk>>, threshold: real)
    returns (pairs: map<(string, string), Pair>)
    requires DistinctKeys(head) && Distinct(FormsOf(head)) && baseByPath.Keys <= changed
    ensures exists first, own ::
              OwnersFrom(first, own, FormsOf(head), baseByPath, changed, hunks, threshold)
              && Reports(pairs, head, own, changed, spans, threshold)
  {
    var forms := FormsOf(head);
    var own := FindOwners(forms, baseByPath, changed, hunks, threshold);
    ghost var first :| OwnersFrom(first, own, forms, baseByPath, changed, hunks, threshold);
    assert forall i :: 0 <= i < |head| ==> head[i].1 == forms[i];
    pairs := ReportPairs(head, own, changed, spans, threshold);
    forall a, b | 0 <= a < |head| && 0 <= b < |head| && a != b
      ensures PairKey(head[a].0, head[b].0) in pairs <==>
              MadeByDiff(head[a].1, head[b].1, own, changed, spans, threshold)
    {
      ReportedExactly(pairs, head, own, changed, spans, threshold, a, b);
    }
    assert Reports(pairs, head, own, changed, spans, threshold);
  }
}
