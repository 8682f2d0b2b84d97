/**
 * Reading LCOV reports: zero_runs, suspect_windows, inlined_const_suspect, ran_function and function_percent of
 * scripts/crap/crapper_report.py. A report maps the lines it lists to their hits.
 */
module Lcov {
  import opened Forms

  type Report = map<int, int>

  // ---- sorted(report)

  ghost predicate IsLeast(lines: set<int>, line: int) { line in lines && forall l :: l in lines ==> line <= l }

  lemma {:induction false} HasMember(lines: set<int>)
    requires lines != {}
    ensures exists l :: l in lines
  {
    assert (forall l: int :: l !in lines) ==> lines == {};
  }

  method Least(lines: set<int>) returns (line: int)
    requires lines != {}
    ensures IsLeast(lines, line)
  {
    HasMember(lines);
    line :| line in lines;
    var rest := lines - {line};
    while rest != {}
      invariant rest <= lines && line in lines && forall l :: l in lines && l !in rest ==> line <= l
      decreases rest
    {
      HasMember(rest);
      var l :| l in rest;
      rest := rest - {l};
      if l < line { line := l; }
    }
  }

  ghost predicate Ascending(lines: seq<int>) { forall i, j :: 0 <= i < j < |lines| ==> lines[i] < lines[j] }

  method SortedLines(report: Report) returns (lines: seq<int>)
    ensures Ascending(lines) && forall l :: l in lines <==> l in report
  {
    lines := [];
    var rest := report.Keys;
    while rest != {}
      invariant rest <= report.Keys && Ascending(lines)
      invariant forall l :: l in lines <==> l in report && l !in rest
      invariant forall k, l :: k in lines && l in rest ==> k < l
      decreases rest
    {
      var line := Least(rest);
      assert forall i :: 0 <= i < |lines| ==> lines[i] in lines;
      lines, rest := lines + [line], rest - {line};
    }
  }

  // ---- Runs of zeros

  ghost predicate Zero(report: Report, line: int) { line in report && report[line] == 0 }

  ghost predicate AllZero(report: Report, first: int, last: int) {
    forall line :: first <= line <= last ==> Zero(report, line)
  }

  /** A run that cannot be made longer at either end. */
  ghost predicate IsMaximalRun(report: Report, first: int, last: int) {
    first <= last && AllZero(report, first, last) && !Zero(report, first - 1) && !Zero(report, last + 1)
  }

  /** Consecutive zeros that cannot be made longer at the front. */
  ghost predicate IsOpen(report: Report, run: seq<int>) {
    && (forall i :: 0 <= i < |run| ==> run[i] == run[0] + i && Zero(report, run[i]))
    && (run != [] ==> !Zero(report, run[0] - 1))
  }

  lemma {:induction false} OpenIsAllZero(report: Report, run: seq<int>)
    requires IsOpen(report, run) && run != []
    ensures run[0] <= run[|run| - 1] && AllZero(report, run[0], run[|run| - 1])
  {
    forall line | run[0] <= line <= run[|run| - 1] ensures Zero(report, line) {
      assert run[line - run[0]] == line;
    }
  }

  lemma {:induction false} OneRunPerLine(report: Report, f: int, l: int, g: int, m: int)
    requires IsMaximalRun(report, f, l) && IsMaximalRun(report, g, m) && (f == g || l == m)
    ensures f == g && l == m
  {
    assert !Zero(report, l + 1) && !Zero(report, m + 1) && !Zero(report, f - 1) && !Zero(report, g - 1);
  }

  /** Every maximal run that ends in `seen` is in `runs`, the open one excepted. */
  ghost predicate Holds(report: Report, runs: map<int, (int, int)>, seen: seq<int>, open: seq<int>) {
    && (forall first :: first in runs ==> IsEntry(report, seen, first, runs[first]))
    && (forall first, last :: IsMaximalRun(report, first, last) && last in seen && !EndsAt(open, last) ==>
         first in runs)
  }

  ghost predicate IsEntry(report: Report, seen: seq<int>, first: int, run: (int, int)) {
    run.0 == first && run.1 in seen && IsMaximalRun(report, first, run.1)
  }

  predicate EndsAt(run: seq<int>, line: int) { run != [] && run[|run| - 1] == line }

  /** The open run ends at the last line seen, if that line is a zero. */
  ghost predicate Scanned(report: Report, runs: map<int, (int, int)>, run: seq<int>, seen: seq<int>) {
    && IsOpen(report, run) && Holds(report, runs, seen, run) && Ascending(seen)
    && (run != [] ==> seen != [] && run[|run| - 1] == seen[|seen| - 1])
    && (seen != [] && Zero(report, seen[|seen| - 1]) ==> run != [])
  }

  /** `line` is the next one listed. */
  ghost predicate IsNext(report: Report, seen: seq<int>, line: int) {
    && line in report && (forall l :: l in seen ==> l < line)
    && forall l :: l in report ==> l in seen || l >= line
  }

  /** `runs[run[0]] = (run[0], run[-1])`, if there is a run. */
  function Flushed(runs: map<int, (int, int)>, run: seq<int>): map<int, (int, int)> {
    if run == [] then runs else runs[run[0] := (run[0], run[|run| - 1])]
  }

  lemma {:induction false} Flush(report: Report, runs: map<int, (int, int)>, run: seq<int>, seen: seq<int>)
    requires Scanned(report, runs, run, seen) && (run != [] ==> !Zero(report, run[|run| - 1] + 1))
    ensures Holds(report, Flushed(runs, run), seen, [])
  {
    if run != [] {
      var end := run[|run| - 1];
      OpenIsAllZero(report, run);
      assert IsMaximalRun(report, run[0], end);
      forall first, last | IsMaximalRun(report, first, last) && last in seen ensures first in Flushed(runs, run) {
        if last == end { OneRunPerLine(report, first, last, run[0], end); }
      }
    }
  }

  lemma {:induction false} Grow(report: Report, runs: map<int, (int, int)>, run: seq<int>, seen: seq<int>, line: int)
    requires Scanned(report, runs, run, seen) && IsNext(report, seen, line) && Zero(report, line)
             && EndsAt(run, line - 1)
    ensures Scanned(report, runs, run + [line], seen + [line])
  {
    OpenIsAllZero(report, run);
    assert run[|run| - 1] == run[0] + (|run| - 1);
    AscendingMore(seen, line);
    forall first, last | IsMaximalRun(report, first, last) && last in seen + [line] && last != line
      ensures first in runs
    {
      assert !Zero(report, last + 1);
      assert last in seen && !EndsAt(run, last);
    }
    forall first | first in runs ensures IsEntry(report, seen + [line], first, runs[first]) {
      assert IsEntry(report, seen, first, runs[first]);
    }
  }

  lemma {:induction false} AscendingMore(seen: seq<int>, line: int)
    requires Ascending(seen) && forall l :: l in seen ==> l < line
    ensures Ascending(seen + [line])
  {
    assert forall i :: 0 <= i < |seen| ==> seen[i] in seen;
  }

  lemma {:induction false} Begin(report: Report, runs: map<int, (int, int)>, seen: seq<int>, line: int, run: seq<int>)
    requires Holds(report, runs, seen, []) && Ascending(seen) && IsNext(report, seen, line)
    requires Zero(report, line) ==> !Zero(report, line - 1)
    requires run == if report[line] == 0 then [line] else []
    ensures Scanned(report, runs, run, seen + [line])
  {
    AscendingMore(seen, line);
    forall first, last | IsMaximalRun(report, first, last) && last in seen + [line] && !EndsAt(run, last)
      ensures first in runs
    {
      assert Zero(report, last);
      assert last in seen;
    }
    forall first | first in runs ensures IsEntry(report, seen + [line], first, runs[first]) {
      assert IsEntry(report, seen, first, runs[first]);
    }
  }

  /** A zero just before the next line is the end of the open run; one just behind the open run is the next line. */
  lemma {:induction false} ZeroBefore(report: Report, runs: map<int, (int, int)>, run: seq<int>, seen: seq<int>,
                                      line: int)
    requires Scanned(report, runs, run, seen) && IsNext(report, seen, line)
    ensures Zero(report, line - 1) ==> EndsAt(run, line - 1)
    ensures run != [] && Zero(report, run[|run| - 1] + 1) ==> run[|run| - 1] + 1 == line
  {
    if seen != [] {
      var last := seen[|seen| - 1];
      assert last in seen;
      assert forall l :: l in seen ==> l <= last;
    }
    if Zero(report, line - 1) { assert line - 1 in seen; }
  }

  /** One turn of the loop. */
  method TakeLine(report: Report, had: map<int, (int, int)>, open: seq<int>, line: int, ghost seen: seq<int>)
    returns (runs: map<int, (int, int)>, run: seq<int>)
    requires Scanned(report, had, open, seen) && IsNext(report, seen, line)
    ensures Scanned(report, runs, run, seen + [line])
  {
    if report[line] == 0 && open != [] && line == open[|open| - 1] + 1 {
      Grow(report, had, open, seen, line);
      return had, open + [line];
    }
    ZeroBefore(report, had, open, seen, line);
    Flush(report, had, open, seen);
    runs := Flushed(had, open);
    run := if report[line] == 0 then [line] else [];
    Begin(report, runs, seen, line, run);
  }

  /** zero_runs: exactly the maximal runs. */
  method ZeroRuns(report: Report) returns (runs: map<int, (int, int)>)
    ensures forall first, last :: IsMaximalRun(report, first, last) <==> first in runs && runs[first] == (first, last)
    ensures forall first :: first in runs ==> runs[first].0 == first
  {
    runs := map[];
    var run: seq<int> := [];
    var lines := SortedLines(report);
    for i := 0 to |lines|
      invariant Scanned(report, runs, run, lines[..i])
    {
      NextListed(report, lines, i);
      assert lines[..i + 1] == lines[..i] + [lines[i]];
      runs, run := TakeLine(report, runs, run, lines[i], lines[..i]);
    }
    assert lines[..|lines|] == lines;
    AllSeen(report, runs, run, lines);
    runs := Flushed(runs, run);
    EntriesAreRuns(report, runs, lines);
  }

  lemma {:induction false} NextListed(report: Report, lines: seq<int>, i: nat)
    requires Ascending(lines) && (forall l :: l in lines <==> l in report) && i < |lines|
    ensures IsNext(report, lines[..i], lines[i])
  {
    assert lines[i] in lines;
    forall l | l in report ensures l in lines[..i] || l >= lines[i] {
      var j :| 0 <= j < |lines| && lines[j] == l;
      assert j < i ==> lines[..i][j] == l;
    }
  }

  lemma {:induction false} AllSeen(report: Report, runs: map<int, (int, int)>, run: seq<int>, lines: seq<int>)
    requires Scanned(report, runs, run, lines) && forall l :: l in lines <==> l in report
    ensures Holds(report, Flushed(runs, run), lines, [])
  {
    if run != [] {
      var end := run[|run| - 1];
      assert end == lines[|lines| - 1];
      assert end + 1 !in lines;
    }
    Flush(report, runs, run, lines);
  }

  lemma {:induction false} EntriesAreRuns(report: Report, runs: map<int, (int, int)>, lines: seq<int>)
    requires Holds(report, runs, lines, []) && forall l :: l in lines <==> l in report
    ensures forall first, last :: IsMaximalRun(report, first, last) <==> first in runs && runs[first] == (first, last)
    ensures forall first :: first in runs ==> runs[first].0 == first
  {
    forall first, last ensures IsMaximalRun(report, first, last) <==> first in runs && runs[first] == (first, last) {
      if IsMaximalRun(report, first, last) {
        assert Zero(report, last);
        OneRunPerLine(report, first, last, first, runs[first].1);
      }
    }
    forall first | first in runs ensures runs[first].0 == first {
      assert IsEntry(report, lines, first, runs[first]);
    }
  }

  // ---- Windows

  datatype User = User(line: int, start: int, end: int)

  /** The bug's shape: a run of zeros from the literal's line that ends inside the user. */
  ghost predicate ZeroedBy(report: Report, u: User) {
    exists last :: IsMaximalRun(report, u.line, last) && u.start <= last <= u.end
  }

  /** suspect_windows */
  method SuspectWindows(report: Report, users: set<User>) returns (windows: seq<(int, int)>)
    ensures forall w :: w in windows <==> exists u :: u in users && ZeroedBy(report, u) && w == (u.line, u.start - 1)
  {
    var runs := ZeroRuns(report);
    windows := [];
    var rest := users;
    while rest != {}
      invariant rest <= users
      invariant forall w :: w in windows <==>
                exists u :: u in users - rest && ZeroedBy(report, u) && w == (u.line, u.start - 1)
      decreases rest
    {
      var u :| u in rest;
      ghost var had, left := windows, rest;
      var hit := u.line in runs && u.start <= runs[u.line].1 <= u.end;
      assert u.line in runs ==> IsMaximalRun(report, u.line, runs[u.line].1);
      assert hit <==> ZeroedBy(report, u);
      if hit { windows := windows + [(u.line, u.start - 1)]; }
      rest := rest - {u};
      forall w
        ensures w in windows <==> exists v :: v in users - rest && ZeroedBy(report, v) && w == (v.line, v.start - 1)
      {
        assert forall v :: v in users - rest <==> v in users - left || v == u;
        assert w in windows <==> w in had || (hit && w == (u.line, u.start - 1));
      }
    }
    assert users - {} == users;
  }

  /** One report zeroed lines of start..end through the user `u`. */
  ghost predicate MayHide(report: Report, u: User, start: int, end: int) {
    ZeroedBy(report, u) && u.line <= end && start <= u.start - 1
  }

  predicate Overlaps(window: (int, int), start: int, end: int) { window.0 <= end && start <= window.1 }

  /** inlined_const_suspect */
  predicate InlinedConstSuspect(windows: seq<seq<(int, int)>>, start: int, end: int, percent: real) {
    (exists i, j :: 0 <= i < |windows| && 0 <= j < |windows[i]| && Overlaps(windows[i][j], start, end))
        && percent < 100.0
  }

  ghost predicate WindowsOf(windows: seq<(int, int)>, report: Report, users: set<User>) {
    forall w :: w in windows <==> exists u :: u in users && ZeroedBy(report, u) && w == (u.line, u.start - 1)
  }

  /** A function is flagged exactly when it is not fully covered and some report zeroed lines of it. */
  lemma {:induction false} FlaggedIff(rs: seq<Report>, users: set<User>, windows: seq<seq<(int, int)>>, start: int,
                                      end: int, percent: real)
    requires |windows| == |rs| && forall i :: 0 <= i < |rs| ==> WindowsOf(windows[i], rs[i], users)
    ensures InlinedConstSuspect(windows, start, end, percent) <==>
              percent < 100.0 && exists i, u :: 0 <= i < |rs| && u in users && MayHide(rs[i], u, start, end)
  {
    if i, j :| 0 <= i < |windows| && 0 <= j < |windows[i]| && Overlaps(windows[i][j], start, end) {
      var w := windows[i][j];
      assert WindowsOf(windows[i], rs[i], users) && w in windows[i];
      var u :| u in users && ZeroedBy(rs[i], u) && w == (u.line, u.start - 1);
      assert MayHide(rs[i], u, start, end);
    }
    if i, u :| 0 <= i < |rs| && u in users && MayHide(rs[i], u, start, end) {
      var w := (u.line, u.start - 1);
      assert WindowsOf(windows[i], rs[i], users) && w in windows[i];
      var j :| 0 <= j < |windows[i]| && windows[i][j] == w;
      assert Overlaps(windows[i][j], start, end);
    }
  }

  // ---- Coverage of a function

  predicate InSpan(report: Report, start: int, end: int, line: int) { line in report && start <= line <= end }

  function SpanOf(report: Report, start: int, end: int): Report {
    map line | line in report && start <= line <= end :: report[line]
  }

  ghost predicate IsFirstListed(report: Report, start: int, end: int, line: int) {
    line in report && start <= line <= end && forall l :: l in report && start <= l <= end ==> line <= l
  }

  /** The first line listed in the function's range, its entry, was hit. */
  ghost predicate Ran(report: Report, start: int, end: int) {
    exists line :: IsFirstListed(report, start, end, line) && report[line] > 0
  }

  /** ran_function */
  method RanFunction(report: Report, start: int, end: int) returns (ran: bool)
    ensures ran <==> Ran(report, start, end)
  {
    var span := SpanOf(report, start, end);
    assert forall line :: line in span <==> line in report && start <= line <= end;
    if span.Keys == {} { return false; }
    var entry := Least(span.Keys);
    ran := span[entry] > 0;
    assert IsFirstListed(report, start, end, entry);
    assert forall line :: IsFirstListed(report, start, end, line) ==> line == entry;
  }

  predicate IsCode(isCode: seq<bool>, line: int) { 1 <= line <= |isCode| && isCode[line - 1] }

  /** A code line of the function that a report which ran it lists. */
  ghost predicate CountsLine(report: Report, start: int, end: int, isCode: seq<bool>, line: int) {
    && Ran(report, start, end) && line in report && start <= line <= end
    && 1 <= line <= |isCode| && isCode[line - 1]
  }

  ghost predicate Listed(rs: seq<Report>, start: int, end: int, isCode: seq<bool>, line: int) {
    exists i :: 0 <= i < |rs| && CountsLine(rs[i], start, end, isCode, line)
  }

  /** The hits of `line` in the reports that ran the function. */
  ghost function Hits(rs: seq<Report>, start: int, end: int, line: int): int {
    if rs == [] then 0
    else
      var last := rs[|rs| - 1];
      Hits(rs[..|rs| - 1], start, end, line)
      + if Ran(last, start, end) && InSpan(last, start, end, line) then last[line] else 0
  }

  ghost predicate Merges(merged: Report, rs: seq<Report>, start: int, end: int, isCode: seq<bool>) {
    forall line ::
      && (line in merged <==> Listed(rs, start, end, isCode, line))
      && (line in merged ==> merged[line] == Hits(rs, start, end, line))
  }

  lemma {:induction false} OneReportMore(rs: seq<Report>, r: Report, start: int, end: int, isCode: seq<bool>, line: int)
    ensures Listed(rs + [r], start, end, isCode, line) <==>
            Listed(rs, start, end, isCode, line) || CountsLine(r, start, end, isCode, line)
    ensures Hits(rs + [r], start, end, line)
         == Hits(rs, start, end, line) + if Ran(r, start, end) && InSpan(r, start, end, line) then r[line] else 0
  {
    var more := rs + [r];
    assert more[..|rs|] == rs && more[|rs|] == r;
    if i :| 0 <= i < |rs| && CountsLine(rs[i], start, end, isCode, line) {
      assert CountsLine(more[i], start, end, isCode, line);
    }
    if i :| 0 <= i < |more| && CountsLine(more[i], start, end, isCode, line) {
      assert i < |rs| ==> CountsLine(rs[i], start, end, isCode, line);
    }
  }

  lemma {:induction false} NotListedNoHits(rs: seq<Report>, start: int, end: int, isCode: seq<bool>, line: int)
    requires !Listed(rs, start, end, isCode, line) && IsCode(isCode, line)
    ensures Hits(rs, start, end, line) == 0
  {
    if rs != [] {
      var front, last := rs[..|rs| - 1], rs[|rs| - 1];
      assert rs == front + [last];
      OneReportMore(front, last, start, end, isCode, line);
      NotListedNoHits(front, start, end, isCode, line);
    }
  }

  /** `merged.get(line, 0)` */
  function HitsAt(merged: Report, line: int): int { if line in merged then merged[line] else 0 }

  /** The inner loop, for a report that ran the function. */
  method AddReport(before: Report, report: Report, start: int, end: int, isCode: seq<bool>) returns (merged: Report)
    ensures forall line :: line in merged <==>
            line in before || (InSpan(report, start, end, line) && IsCode(isCode, line))
    ensures forall line :: line in merged ==>
              merged[line] == HitsAt(before, line)
                  + (if InSpan(report, start, end, line) && IsCode(isCode, line) then report[line] else 0)
  {
    merged := before;
    var span := SpanOf(report, start, end);
    var rest := span.Keys;
    while rest != {}
      invariant rest <= span.Keys
      invariant forall line :: line in merged <==>
                line in before || (line in span && line !in rest && IsCode(isCode, line))
      invariant forall line :: line in merged ==>
                  merged[line] == HitsAt(before, line)
                      + (if line in span && line !in rest && IsCode(isCode, line) then report[line] else 0)
      decreases rest
    {
      HasMember(rest);
      var line :| line in rest;
      rest := rest - {line};
      if IsCode(isCode, line) {
        merged := merged[line := HitsAt(merged, line) + span[line]];
      }
    }
  }

  lemma {:induction false} MergesMore(before: Report, after: Report, rs: seq<Report>, r: Report, start: int, end: int,
                                      isCode: seq<bool>)
    requires Merges(before, rs, start, end, isCode)
    requires if Ran(r, start, end) then
        && (forall line :: line in after <==> line in before || (InSpan(r, start, end, line) && IsCode(isCode, line)))
        && (forall line :: line in after ==>
              after[line] == HitsAt(before, line)
                  + (if InSpan(r, start, end, line) && IsCode(isCode, line) then r[line] else 0))
      else after == before
    ensures Merges(after, rs + [r], start, end, isCode)
  {
    forall line
      ensures line in after <==> Listed(rs + [r], start, end, isCode, line)
      ensures line in after ==> after[line] == Hits(rs + [r], start, end, line)
    {
      OneReportMore(rs, r, start, end, isCode, line);
      if line in after && line !in before { NotListedNoHits(rs, start, end, isCode, line); }
    }
  }

  method Merge(rs: seq<Report>, start: int, end: int, isCode: seq<bool>) returns (merged: Report)
    ensures Merges(merged, rs, start, end, isCode)
  {
    merged := map[];
    for i := 0 to |rs|
      invariant Merges(merged, rs[..i], start, end, isCode)
    {
      assert rs[..i + 1] == rs[..i] + [rs[i]];
      ghost var before := merged;
      var ran := RanFunction(rs[i], start, end);
      if ran { merged := AddReport(merged, rs[i], start, end, isCode); }
      MergesMore(before, merged, rs[..i], rs[i], start, end, isCode);
    }
    assert rs[..|rs|] == rs;
  }

  ghost function CoveredIn(merged: Report): set<int> { set line | line in merged && merged[line] > 0 }

  ghost function PercentOf(merged: Report): real {
    if merged.Keys == {} then 0.0 else 100.0 * |CoveredIn(merged)| as real / |merged.Keys| as real
  }

  /** What function_percent promises: None without reports, else the share of the merged lines that were hit. */
  ghost predicate IsPercent(r: Option<real>, rs: seq<Report>, start: int, end: int, isCode: seq<bool>) {
    if rs == [] then r == None
    else exists merged :: Merges(merged, rs, start, end, isCode) && r == Some(PercentOf(merged))
  }

  method CountHit(merged: Report) returns (n: nat)
    ensures n == |CoveredIn(merged)|
  {
    n := 0;
    var rest := merged.Keys;
    ghost var done: set<int> := {};
    while rest != {}
      invariant rest <= merged.Keys && done == CoveredIn(merged) - rest && n == |done|
      decreases rest
    {
      HasMember(rest);
      var line :| line in rest;
      rest := rest - {line};
      if merged[line] > 0 {
        n := n + 1;
        done := done + {line};
      }
    }
    assert CoveredIn(merged) - {} == CoveredIn(merged);
  }

  /** function_percent */
  method FunctionPercent(rs: seq<Report>, start: int, end: int, isCode: seq<bool>) returns (r: Option<real>)
    requires start >= 1
    ensures IsPercent(r, rs, start, end, isCode)
  {
    if rs == [] { return None; }
    var merged := Merge(rs, start, end, isCode);
    if merged.Keys == {} { return Some(0.0); }
    var n := CountHit(merged);
    r := Some(100.0 * n as real / |merged.Keys| as real);
  }

  // ---- What changes the percent and what does not

  lemma {:induction false} MergesIsOne(a: Report, b: Report, rs: seq<Report>, start: int, end: int, isCode: seq<bool>)
    requires Merges(a, rs, start, end, isCode) && Merges(b, rs, start, end, isCode)
    ensures a == b
  {
    forall line: int ensures line in a <==> line in b {
      assert line in a <==> Listed(rs, start, end, isCode, line);
    }
    forall line: int | line in a ensures a[line] == b[line] {
      assert a[line] == Hits(rs, start, end, line);
    }
    assert a.Keys == b.Keys;
  }

  ghost predicate SameCounts(rs: seq<Report>, qs: seq<Report>, start: int, end: int, isCode: seq<bool>) {
    forall line ::
      && (Listed(rs, start, end, isCode, line) <==> Listed(qs, start, end, isCode, line))
      && Hits(rs, start, end, line) == Hits(qs, start, end, line)
  }

  lemma {:induction false} SameCountsSamePercent(rs: seq<Report>, qs: seq<Report>, start: int, end: int,
                                                 isCode: seq<bool>, a: Option<real>, b: Option<real>)
    requires SameCounts(rs, qs, start, end, isCode) && (rs == [] <==> qs == [])
    requires IsPercent(a, rs, start, end, isCode) && IsPercent(b, qs, start, end, isCode)
    ensures a == b
  {
    if rs != [] {
      var m :| Merges(m, rs, start, end, isCode) && a == Some(PercentOf(m));
      var n :| Merges(n, qs, start, end, isCode) && b == Some(PercentOf(n));
      assert Merges(n, rs, start, end, isCode);
      MergesIsOne(m, n, rs, start, end, isCode);
    }
  }

  /** A process that only loaded the file adds no misses: its report changes nothing. */
  lemma {:induction false} UnrunReportChangesNothing(rs: seq<Report>, unrun: Report, start: int, end: int,
                                                     isCode: seq<bool>, a: Option<real>, b: Option<real>)
    requires rs != [] && !Ran(unrun, start, end)
    requires IsPercent(a, rs, start, end, isCode) && IsPercent(b, rs + [unrun], start, end, isCode)
    ensures a == b
  {
    forall line
      ensures Listed(rs, start, end, isCode, line) <==> Listed(rs + [unrun], start, end, isCode, line)
      ensures Hits(rs, start, end, line) == Hits(rs + [unrun], start, end, line)
    {
      OneReportMore(rs, unrun, start, end, isCode, line);
    }
    SameCountsSamePercent(rs, rs + [unrun], start, end, isCode, a, b);
  }

  lemma {:induction false} HitsWithout(rs: seq<Report>, k: nat, start: int, end: int, line: int)
    requires k < |rs|
    ensures Hits(rs, start, end, line) == Hits(rs[..k] + rs[k + 1..], start, end, line)
         + if Ran(rs[k], start, end) && InSpan(rs[k], start, end, line) then rs[k][line] else 0
    decreases |rs|
  {
    var n := |rs| - 1;
    if k == n {
      assert rs[..k] + rs[k + 1..] == rs[..n];
    } else {
      HitsWithout(rs[..n], k, start, end, line);
      assert rs[..n][..k] + rs[..n][k + 1..] == (rs[..k] + rs[k + 1..])[..n - 1];
      assert (rs[..k] + rs[k + 1..])[n - 1] == rs[n];
    }
  }

  lemma {:induction false} PermutedHits(rs: seq<Report>, qs: seq<Report>, start: int, end: int, line: int)
    requires multiset(rs) == multiset(qs)
    ensures Hits(rs, start, end, line) == Hits(qs, start, end, line)
    decreases |rs|
  {
    SameLength(rs, qs);
    if rs != [] {
      var n := |rs| - 1;
      var last := rs[n];
      assert rs == rs[..n] + [last];
      assert last in multiset(qs);
      var k :| 0 <= k < |qs| && qs[k] == last;
      TakenOut(qs, k);
      TakenOut(rs, n);
      assert rs[..n] + rs[n + 1..] == rs[..n];
      HitsWithout(qs, k, start, end, line);
      PermutedHits(rs[..n], qs[..k] + qs[k + 1..], start, end, line);
    }
  }

  lemma {:induction false} TakenOut(rs: seq<Report>, k: nat)
    requires k < |rs|
    ensures multiset(rs[..k] + rs[k + 1..]) == multiset(rs) - multiset{rs[k]}
  {
    assert rs == rs[..k] + [rs[k]] + rs[k + 1..];
  }

  lemma {:induction false} SameLength(rs: seq<Report>, qs: seq<Report>)
    requires multiset(rs) == multiset(qs)
    ensures |rs| == |qs|
  {
    assert |multiset(rs)| == |multiset(qs)|;
  }

  lemma {:induction false} PermutedListed(rs: seq<Report>, qs: seq<Report>, start: int, end: int, isCode: seq<bool>,
                                          line: int)
    requires multiset(rs) == multiset(qs) && Listed(rs, start, end, isCode, line)
    ensures Listed(qs, start, end, isCode, line)
  {
    var i :| 0 <= i < |rs| && CountsLine(rs[i], start, end, isCode, line);
    assert rs[i] in multiset(rs);
    assert rs[i] in multiset(qs);
    var k :| 0 <= k < |qs| && qs[k] == rs[i];
  }

  /** The order of the reports does not matter. */
  lemma {:induction false} OrderChangesNothing(rs: seq<Report>, qs: seq<Report>, start: int, end: int,
                                               isCode: seq<bool>, a: Option<real>, b: Option<real>)
    requires multiset(rs) == multiset(qs)
    requires IsPercent(a, rs, start, end, isCode) && IsPercent(b, qs, start, end, isCode)
    ensures a == b
  {
    forall line
      ensures Listed(rs, start, end, isCode, line) <==> Listed(qs, start, end, isCode, line)
      ensures Hits(rs, start, end, line) == Hits(qs, start, end, line)
    {
      PermutedHits(rs, qs, start, end, line);
      if Listed(rs, start, end, isCode, line) { PermutedListed(rs, qs, start, end, isCode, line); }
      if Listed(qs, start, end, isCode, line) { PermutedListed(qs, rs, start, end, isCode, line); }
    }
    SameLength(rs, qs);
    SameCountsSamePercent(rs, qs, start, end, isCode, a, b);
  }

  /** 100% means that every code line some run listed was hit, and that there is one; only that clears a flag. */
  lemma {:induction false} FullIff(rs: seq<Report>, start: int, end: int, isCode: seq<bool>, percent: real)
    requires IsPercent(Some(percent), rs, start, end, isCode)
    ensures 0.0 <= percent <= 100.0
    ensures percent == 100.0 <==>
              && (exists line :: Listed(rs, start, end, isCode, line))
              && forall line :: Listed(rs, start, end, isCode, line) ==> Hits(rs, start, end, line) > 0
  {
    var merged :| Merges(merged, rs, start, end, isCode) && percent == PercentOf(merged);
    var hit, all := CoveredIn(merged), merged.Keys;
    FewerMembers(hit, all);
    if all == {} {
      assert forall line :: line !in merged;
    } else {
      HasMember(all);
      ShareOfAll(|hit|, |all|);
      if hit == all {
        forall line | Listed(rs, start, end, isCode, line) ensures Hits(rs, start, end, line) > 0 {
          assert line in hit;
        }
      }
      if forall line :: Listed(rs, start, end, isCode, line) ==> Hits(rs, start, end, line) > 0 {
        forall line: int ensures line in hit <==> line in all {
          assert line in merged <==> Listed(rs, start, end, isCode, line);
        }
        assert hit == all;
      }
    }
  }

  lemma {:induction false} FewerMembers(part: set<int>, all: set<int>)
    requires part <= all
    ensures |part| <= |all| && (|part| == |all| ==> part == all)
  {
    assert |all - part| == |all| - |part|;
    if |part| == |all| { assert all - part == {}; }
  }

  lemma {:induction false} ShareOfAll(n: nat, all: nat)
    requires n <= all && all > 0
    ensures var share := 100.0 * n as real / all as real; 0.0 <= share <= 100.0 && (share == 100.0 <==> n == all)
  {
    var part, whole := n as real, all as real;
    var share := 100.0 * part / whole;
    assert share * whole == 100.0 * part;
    assert share > 100.0 ==> share * whole > 100.0 * whole;
    if n == all { assert share * whole == 100.0 * whole; }
  }
}
