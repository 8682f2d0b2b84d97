/**
 * parseHunks (scripts/crap/changes.ts) and parseChangedLines (scripts/crap/policy.ts): from diff text to hunks
 * and spans per file, and from there back to the edit scripts git printed.
 */
module Changes {
  import opened Sorting
  import opened Forms
  import opened Hunks
  import opened DiffText
  import opened Text

  type HunkMap = map<string, seq<Hunk>>

  /** The hunks per head path; `current` names the file whose list is open. */
  ghost function Collect(headers: seq<Header>, current: Option<string>, hunks: HunkMap): HunkMap
    requires current.Some? ==> current.value in hunks
  {
    if headers == [] then hunks
    else match headers[0]
      case File(None) => Collect(headers[1..], None, hunks)
      case File(Some(p)) => Collect(headers[1..], Some(p), hunks[p := []])
      case HunkHeader(h) =>
        Collect(headers[1..], current,
            if current.Some? then hunks[current.value := hunks[current.value] + [h]] else hunks)
  }

  method ParseHunks(diff: string) returns (hunks: HunkMap)
    ensures hunks == Collect(HeadersFrom(ReadAll(Split(diff, '\n')), 0, 0), None, map[])
  {
    var headers := DiffHeaders(diff);
    hunks := map[];
    var current: Option<string> := None;
    for i := 0 to |headers|
      invariant current.Some? ==> current.value in hunks
      invariant Collect(headers[i..], current, hunks) == Collect(headers, None, map[])
    {
      assert headers[i..][0] == headers[i] && headers[i..][1..] == headers[i + 1..];
      match headers[i]
      case File(path) =>
        current := path;
        if path.Some? { hunks := hunks[path.value := []]; }
      case HunkHeader(h) =>
        if current.Some? { hunks := hunks[current.value := hunks[current.value] + [h]]; }
    }
  }

  type SpanMap = map<string, seq<(int, int)>>

  /** The span lists grow in step with the hunk lists. */
  ghost predicate InStep(changed: SpanMap, hunks: HunkMap) {
    changed.Keys == hunks.Keys && forall p :: p in hunks ==> changed[p] == SpansOf(hunks[p])
  }

  lemma {:induction false} SpansOfAppend(hunks: seq<Hunk>, h: Hunk)
    ensures SpansOf(hunks + [h]) == SpansOf(hunks) + [SpanOf(h)]
  {
  }

  method ParseChangedLines(diff: string) returns (changed: SpanMap)
    ensures InStep(changed, Collect(HeadersFrom(ReadAll(Split(diff, '\n')), 0, 0), None, map[]))
  {
    var headers := DiffHeaders(diff);
    changed := map[];
    ghost var hunks: HunkMap := map[];
    var current: Option<string> := None;
    for i := 0 to |headers|
      invariant current.Some? ==> current.value in hunks
      invariant InStep(changed, hunks)
      invariant Collect(headers[i..], current, hunks) == Collect(headers, None, map[])
    {
      assert headers[i..][0] == headers[i] && headers[i..][1..] == headers[i + 1..];
      match headers[i]
      case File(path) =>
        current := path;
        if path.Some? { changed, hunks := changed[path.value := []], hunks[path.value := []]; }
      case HunkHeader(h) =>
        if current.Some? {
          var span := if h.headCount == 0 then (2 * h.headStart + 1, 2 * h.headStart + 1)
                      else (2 * h.headStart, 2 * (h.headStart + h.headCount - 1));
          SpansOfAppend(hunks[current.value], h);
          changed := changed[current.value := changed[current.value] + [span]];
          hunks := hunks[current.value := hunks[current.value] + [h]];
        }
    }
  }

  // ---- What was printed comes back

  ghost function HunksOf(hunks: seq<HunkText>): seq<Hunk> {
    if hunks == [] then [] else [hunks[0].hunk] + HunksOf(hunks[1..])
  }

  /** Each file's hunks under its path; a later file of the same path replaces an earlier one. */
  ghost function Filed(files: seq<FileDiff>, hunks: HunkMap): HunkMap {
    if files == [] then hunks
    else Filed(files[1..],
        if files[0].target.Path? then hunks[files[0].target.path := HunksOf(files[0].hunks)] else hunks)
  }

  lemma {:induction false} CollectHunks(texts: seq<HunkText>, rest: seq<Header>, current: Option<string>,
                                        hunks: HunkMap)
    requires current.Some? ==> current.value in hunks
    ensures Collect(HunkHeaders(texts) + rest, current, hunks)
         == Collect(rest, current,
             if current.Some? then hunks[current.value := hunks[current.value] + HunksOf(texts)] else hunks)
  {
    var headers := HunkHeaders(texts) + rest;
    if texts == [] {
      assert headers == rest;
      if current.Some? {
        assert hunks[current.value] + [] == hunks[current.value];
        assert hunks[current.value := hunks[current.value]] == hunks;
      }
    } else {
      assert headers[0] == HunkHeader(texts[0].hunk) && headers[1..] == HunkHeaders(texts[1..]) + rest;
      if current.Some? {
        var c := current.value;
        var one := hunks[c := hunks[c] + [texts[0].hunk]];
        CollectHunks(texts[1..], rest, current, one);
        assert hunks[c] + [texts[0].hunk] + HunksOf(texts[1..]) == hunks[c] + HunksOf(texts);
        assert one[c := one[c] + HunksOf(texts[1..])] == hunks[c := hunks[c] + HunksOf(texts)];
      } else {
        CollectHunks(texts[1..], rest, current, hunks);
      }
    }
  }

  lemma {:induction false} CollectFiles(files: seq<FileDiff>, current: Option<string>, hunks: HunkMap)
    requires current.Some? ==> current.value in hunks
    requires forall i :: 0 <= i < |files| ==> files[i].target.NoTarget? ==> files[i].hunks == []
    ensures Collect(Headers(files), current, hunks) == Filed(files, hunks)
  {
    if files != [] {
      var f, rest := files[0], Headers(files[1..]);
      var target := TargetHeader(f.target);
      var headers := Headers(files);
      if f.target.NoTarget? {
        assert headers == rest;
        CollectFiles(files[1..], current, hunks);
      } else {
        assert headers[0] == target[0] && headers[1..] == HunkHeaders(f.hunks) + rest;
        if f.target.Deleted? {
          CollectHunks(f.hunks, rest, None, hunks);
          CollectFiles(files[1..], None, hunks);
        } else {
          var p := f.target.path;
          var emptied := hunks[p := []];
          CollectHunks(f.hunks, rest, Some(p), emptied);
          assert [] + HunksOf(f.hunks) == HunksOf(f.hunks);
          assert emptied[p := emptied[p] + HunksOf(f.hunks)] == hunks[p := HunksOf(f.hunks)];
          CollectFiles(files[1..], Some(p), hunks[p := HunksOf(f.hunks)]);
        }
      }
    }
  }

  ghost predicate DistinctPaths(files: seq<FileDiff>) {
    forall i, j :: 0 <= i < j < |files| && files[i].target.Path? && files[j].target.Path? ==>
      files[i].target.path != files[j].target.path
  }

  lemma {:induction false} FiledAt(files: seq<FileDiff>, hunks: HunkMap, p: string)
    requires DistinctPaths(files)
    ensures p in Filed(files, hunks) <==> p in hunks || exists i :: 0 <= i < |files| && files[i].target == Path(p)
    ensures forall i :: 0 <= i < |files| && files[i].target == Path(p) ==>
            p in Filed(files, hunks) && Filed(files, hunks)[p] == HunksOf(files[i].hunks)
    ensures (forall i :: 0 <= i < |files| ==> files[i].target != Path(p)) && p in hunks ==>
            Filed(files, hunks)[p] == hunks[p]
  {
    if files != [] {
      var f := files[0];
      var next := if f.target.Path? then hunks[f.target.path := HunksOf(f.hunks)] else hunks;
      assert forall i :: 0 <= i < |files| - 1 ==> files[1..][i] == files[i + 1];
      FiledAt(files[1..], next, p);
      assert forall i :: 0 < i < |files| ==> files[i] == files[1..][i - 1];
    }
  }

  /** parseHunks files under each printed path exactly the hunks printed for it. */
  lemma {:induction false} HunksRoundTrip(files: seq<FileDiff>, p: string)
    requires DistinctPaths(files) && forall i :: 0 <= i < |files| ==> WellFormedFile(files[i])
    ensures var parsed := Collect(HeadersFrom(ReadAll(Split(Print(files), '\n')), 0, 0), None, map[]);
      && (p in parsed <==> exists i :: 0 <= i < |files| && files[i].target == Path(p))
      && forall i :: 0 <= i < |files| && files[i].target == Path(p) ==>
           p in parsed && parsed[p] == HunksOf(files[i].hunks)
  {
    HeadersRoundTrip(files);
    forall i | 0 <= i < |files| ensures files[i].target.NoTarget? ==> files[i].hunks == [] {
      assert WellFormedFile(files[i]);
    }
    CollectFiles(files, None, map[]);
    FiledAt(files, map[], p);
  }

  // ---- The scripts behind the text

  ghost function RemovedBy(body: seq<BodyLine>): seq<string> {
    if body == [] then [] else (if body[0].Minus? then [body[0].text] else []) + RemovedBy(body[1..])
  }

  ghost function AddedBy(body: seq<BodyLine>): seq<string> {
    if body == [] then [] else (if body[0].Plus? then [body[0].text] else []) + AddedBy(body[1..])
  }

  /** No context, and every line is one line; a note that the file ends without a newline may stand anywhere. */
  ghost predicate IsChangeBody(body: seq<BodyLine>) {
    forall i :: 0 <= i < |body| ==> !body[i].Context? && OneLine(body[i].text)
  }

  /** `texts` print the changes of the script, each hunk under a section heading of its own. */
  ghost predicate Prints(texts: seq<HunkText>, s: Script<string>, b: nat, h: nat) {
    match s
    case End(_) => texts == []
    case Edit(kept, removed, added, rest) =>
      && texts != [] && texts[0].hunk == s.HunksFrom(b, h)[0] && OneLine(texts[0].heading)
      && IsChangeBody(texts[0].body) && RemovedBy(texts[0].body) == removed && AddedBy(texts[0].body) == added
      && Prints(texts[1..], rest, b + |kept| + |removed|, h + |kept| + |added|)
  }

  lemma {:induction false} BodyIsCounted(body: seq<BodyLine>)
    requires IsChangeBody(body)
    ensures BaseLines(body) == |RemovedBy(body)| && HeadLines(body) == |AddedBy(body)|
  {
    if body != [] { BodyIsCounted(body[1..]); }
  }

  /** Whatever prints a script is a well-formed list of hunks, the script's own. */
  lemma {:induction false} ScriptTextIsWellFormed(texts: seq<HunkText>, s: Script<string>, b: nat, h: nat)
    requires Prints(texts, s, b, h)
    ensures forall i :: 0 <= i < |texts| ==> WellFormedHunk(texts[i])
    ensures HunksOf(texts) == s.HunksFrom(b, h)
    decreases s
  {
    if s.Edit? {
      BodyIsCounted(texts[0].body);
      ScriptTextIsWellFormed(texts[1..], s.rest, b + |s.kept| + |s.removed|, h + |s.kept| + |s.added|);
      assert WellFormedHunk(texts[0]);
      assert forall i :: 0 < i < |texts| ==> texts[i] == texts[1..][i - 1];
    }
  }

  ghost predicate AllOneLine(lines: seq<string>) { forall i :: 0 <= i < |lines| ==> OneLine(lines[i]) }

  ghost function Signed(lines: seq<string>, minus: bool): seq<BodyLine> {
    if lines == [] then [] else [if minus then Minus(lines[0]) else Plus(lines[0])] + Signed(lines[1..], minus)
  }

  lemma {:induction false} Regroup(a: seq<string>, b: seq<string>, c: seq<string>)
    ensures a + (b + c) == (a + b) + c
  {
  }

  lemma {:induction false} TailOfBody(a: seq<BodyLine>, b: seq<BodyLine>)
    requires a != []
    ensures (a + b)[0] == a[0] && (a + b)[1..] == a[1..] + b
  {
  }

  lemma {:induction false} BodyConcat(a: seq<BodyLine>, b: seq<BodyLine>)
    ensures RemovedBy(a + b) == RemovedBy(a) + RemovedBy(b) && AddedBy(a + b) == AddedBy(a) + AddedBy(b)
  {
    if a == [] {
      assert a + b == b;
    } else {
      TailOfBody(a, b);
      BodyConcat(a[1..], b);
      var r: seq<string>, d: seq<string> := if a[0].Minus? then [a[0].text] else [],
          if a[0].Plus? then [a[0].text] else [];
      Regroup(r, RemovedBy(a[1..]), RemovedBy(b));
      Regroup(d, AddedBy(a[1..]), AddedBy(b));
    }
  }

  lemma {:induction false} SignedLines(lines: seq<string>, minus: bool)
    requires AllOneLine(lines)
    ensures IsChangeBody(Signed(lines, minus))
    ensures RemovedBy(Signed(lines, minus)) == (if minus then lines else [])
            && AddedBy(Signed(lines, minus)) == if minus then [] else lines
  {
    if lines != [] { SignedLines(lines[1..], minus); }
  }

  ghost predicate AreNotes(notes: seq<BodyLine>) {
    forall i :: 0 <= i < |notes| ==> notes[i].NoNewline? && OneLine(notes[i].text)
  }

  lemma {:induction false} NotesAddNothing(notes: seq<BodyLine>)
    requires AreNotes(notes)
    ensures IsChangeBody(notes) && RemovedBy(notes) == [] && AddedBy(notes) == []
  {
    if notes != [] { NotesAddNothing(notes[1..]); }
  }

  lemma {:induction false} ThreeParts(minus: seq<BodyLine>, plus: seq<BodyLine>, notes: seq<BodyLine>)
    requires IsChangeBody(minus) && IsChangeBody(plus) && IsChangeBody(notes)
    requires AddedBy(minus) == [] && RemovedBy(plus) == [] && RemovedBy(notes) == [] && AddedBy(notes) == []
    ensures IsChangeBody(minus + (plus + notes))
    ensures RemovedBy(minus + (plus + notes)) == RemovedBy(minus) && AddedBy(minus + (plus + notes)) == AddedBy(plus)
  {
    BodyConcat(plus, notes);
    BodyConcat(minus, plus + notes);
  }

  lemma {:induction false} SignedBody(removed: seq<string>, added: seq<string>, notes: seq<BodyLine>)
    requires AllOneLine(removed) && AllOneLine(added) && AreNotes(notes)
    ensures var body := Signed(removed, true) + (Signed(added, false) + notes);
      IsChangeBody(body) && RemovedBy(body) == removed && AddedBy(body) == added
  {
    SignedLines(removed, true);
    SignedLines(added, false);
    NotesAddNothing(notes);
    ThreeParts(Signed(removed, true), Signed(added, false), notes);
  }

  /** What git prints for a script, with its headings; `notes` follow the last change. */
  ghost function ScriptText(s: Script<string>, b: nat, h: nat, headings: seq<string>,
                            notes: seq<BodyLine>): seq<HunkText>
    requires |headings| == |s.HunksFrom(b, h)|
  {
    match s
    case End(_) => []
    case Edit(kept, removed, added, rest) =>
      var own := Signed(removed, true) + (Signed(added, false) + if rest.End? then notes else []);
      [HunkText(s.HunksFrom(b, h)[0], headings[0], own)]
      + ScriptText(rest, b + |kept| + |removed|, h + |kept| + |added|, headings[1..], notes)
  }

  /** Every script of one-line texts has such a text, whatever the headings and the notes. */
  lemma {:induction false} ScriptTextPrints(s: Script<string>, b: nat, h: nat, headings: seq<string>,
                                            notes: seq<BodyLine>)
    requires |headings| == |s.HunksFrom(b, h)| && AllOneLine(headings) && AllOneLine(s.Base()) && AllOneLine(s.Head())
    requires AreNotes(notes)
    ensures Prints(ScriptText(s, b, h, headings, notes), s, b, h)
    decreases s
  {
    if s.Edit? {
      RestIsOneLine(s);
      var b', h' := b + |s.kept| + |s.removed|, h + |s.kept| + |s.added|;
      SignedBody(s.removed, s.added, if s.rest.End? then notes else []);
      ScriptTextPrints(s.rest, b', h', headings[1..], notes);
      assert ScriptText(s, b, h, headings, notes)[1..] == ScriptText(s.rest, b', h', headings[1..], notes);
    }
  }

  lemma {:induction false} RestIsOneLine(s: Script<string>)
    requires s.Edit? && AllOneLine(s.Base()) && AllOneLine(s.Head())
    ensures AllOneLine(s.removed) && AllOneLine(s.added)
    ensures AllOneLine(s.rest.Base()) && AllOneLine(s.rest.Head())
  {
    var b, h := |s.kept| + |s.removed|, |s.kept| + |s.added|;
    assert forall i :: 0 <= i < |s.removed| ==> s.Base()[|s.kept| + i] == s.removed[i];
    assert forall i :: 0 <= i < |s.added| ==> s.Head()[|s.kept| + i] == s.added[i];
    assert forall i :: 0 <= i < |s.rest.Base()| ==> s.Base()[b + i] == s.rest.Base()[i];
    assert forall i :: 0 <= i < |s.rest.Head()| ==> s.Head()[h + i] == s.rest.Head()[i];
  }

  /** From the text of the whole diff, the line map of every file is the one of the edit script with its hunks. */
  lemma {:induction false} DiffGivesTheLineMap<T>(files: seq<FileDiff>, i: nat, s: Script<T>, line: nat)
    requires DistinctPaths(files) && forall k :: 0 <= k < |files| ==> WellFormedFile(files[k])
    requires i < |files| && files[i].target.Path? && HunksOf(files[i].hunks) == s.HunksFrom(0, 0)
    requires 1 <= line <= |s.Head()|
    ensures var parsed := Collect(HeadersFrom(ReadAll(Split(Print(files), '\n')), 0, 0), None, map[]);
      && files[i].target.path in parsed
      && BaseLineFrom(line, SortBy(parsed[files[i].target.path], HeadStartOf), 0) == s.Kept(line)
      && ReplacedBy(line, parsed[files[i].target.path]) == s.Replaced(line)
  {
    HunksRoundTrip(files, files[i].target.path);
    BaseLineIsKept(s, line);
    ReplacedLineIsReplaced(s, line);
  }

  /** From the text of the whole diff, a function is touched exactly when the script with its hunks changed it. */
  lemma {:induction false} DiffGivesTheTouchedFunctions<T>(files: seq<FileDiff>, changed: SpanMap, i: nat, s: Script<T>,
                                                           startLine: int, endLine: int)
    requires DistinctPaths(files) && forall k :: 0 <= k < |files| ==> WellFormedFile(files[k])
    requires i < |files| && files[i].target.Path? && HunksOf(files[i].hunks) == s.HunksFrom(0, 0)
    requires InStep(changed, Collect(HeadersFrom(ReadAll(Split(Print(files), '\n')), 0, 0), None, map[]))
    requires startLine <= endLine
    ensures files[i].target.path in changed
    ensures Touches(startLine, endLine, changed[files[i].target.path]) <==>
            WroteIn(s, startLine, endLine) || DeletedIn(s, startLine, endLine)
  {
    HunksRoundTrip(files, files[i].target.path);
    TouchedExactly(s, startLine, endLine);
  }
}
