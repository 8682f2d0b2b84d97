/** The line map and the touched test over the `git diff -U0` hunks of an edit script. */
module Hunks {
  /*
   * The base line of a head line and the replaced line (scripts/dry/dryer_report.py), and the touched test of
   * the CRAP gate (scripts/crap/policy.ts), over the hunks that scripts/crap/changes.ts hands on, all proved
   * against the edit script that git printed.
   */

  import opened Sorting
  import opened Forms

  datatype Hunk = Hunk(baseStart: int, baseCount: nat, headStart: int, headCount: nat)

  function HeadStartOf(h: Hunk): real { h.headStart as real }

  function HeadFrom(h: Hunk): int { if h.headCount > 0 then h.headStart else h.headStart + 1 }

  function BaseFrom(h: Hunk): int { if h.baseCount > 0 then h.baseStart else h.baseStart + 1 }

  /** What the loop of base_line still finds in `hunks` once it reached `offset`. */
  function BaseLineFrom(line: int, hunks: seq<Hunk>, offset: int): Option<int> {
    if hunks == [] || line < HeadFrom(hunks[0]) then
      Some(line + offset)
    else if line < HeadFrom(hunks[0]) + hunks[0].headCount then
      None
    else
      BaseLineFrom(line, hunks[1..],
                   BaseFrom(hunks[0]) + hunks[0].baseCount - (HeadFrom(hunks[0]) + hunks[0].headCount))
  }

  method BaseLine(line: int, hunks: seq<Hunk>) returns (r: Option<int>)
    ensures r == BaseLineFrom(line, SortBy(hunks, HeadStartOf), 0)
  {
    var sorted := SortBy(hunks, HeadStartOf);
    var offset := 0;
    for i := 0 to |sorted|
      invariant BaseLineFrom(line, sorted[i..], offset) == BaseLineFrom(line, sorted, 0)
    {
      var h := sorted[i];
      var headFrom := if h.headCount > 0 then h.headStart else h.headStart + 1;
      assert sorted[i..][0] == h && sorted[i..][1..] == sorted[i + 1..];
      if line < headFrom { return Some(line + offset); }
      if line < headFrom + h.headCount { return None; }
      var baseFrom := if h.baseCount > 0 then h.baseStart else h.baseStart + 1;
      offset := (baseFrom + h.baseCount) - (headFrom + h.headCount);
    }
    return Some(line + offset);
  }

  ghost predicate Aligned(line: int, h: Hunk) {
    h.baseCount > 0 && h.headCount > 0 && 0 <= line - h.headStart < Min(h.baseCount, h.headCount)
  }

  /** The base line at the same position of the first hunk that replaced `line`. */
  ghost function ReplacedBy(line: int, hunks: seq<Hunk>): Option<int> {
    if hunks == [] then None
    else if Aligned(line, hunks[0]) then Some(hunks[0].baseStart + (line - hunks[0].headStart))
    else ReplacedBy(line, hunks[1..])
  }

  method ReplacedLine(line: int, hunks: seq<Hunk>) returns (r: Option<int>)
    ensures r == ReplacedBy(line, hunks)
  {
    for i := 0 to |hunks|
      invariant ReplacedBy(line, hunks[i..]) == ReplacedBy(line, hunks)
    {
      var h := hunks[i];
      var offset := line - h.headStart;
      assert hunks[i..][0] == h && hunks[i..][1..] == hunks[i + 1..];
      if h.baseCount > 0 && h.headCount > 0 && 0 <= offset < Min(h.baseCount, h.headCount) {
        return Some(h.baseStart + offset);
      }
    }
    return None;
  }

  // ---- The edit script

  /** How git turned the base text into the head text: kept lines, then one change, and so on. */
  datatype Script<T> =
    | End(kept: seq<T>)
    | Edit(kept: seq<T>, removed: seq<T>, added: seq<T>, rest: Script<T>)
  {
    ghost function Base(): seq<T> {
      match this
      case End(kept) => kept
      case Edit(kept, removed, added, rest) => kept + removed + rest.Base()
    }

    ghost function Head(): seq<T> {
      match this
      case End(kept) => kept
      case Edit(kept, removed, added, rest) => kept + added + rest.Head()
    }

    /** The `-U0` hunks; `b` and `h` lines come before. A side with count 0 starts one line earlier. */
    ghost function HunksFrom(b: nat, h: nat): seq<Hunk> {
      match this
      case End(_) => []
      case Edit(kept, removed, added, rest) =>
        [Hunk(if removed == [] then b + |kept| else b + |kept| + 1, |removed|,
              if added == [] then h + |kept| else h + |kept| + 1, |added|)]
        + rest.HunksFrom(b + |kept| + |removed|, h + |kept| + |added|)
    }

    /** The base line that the script keeps as head line `line`, or None for a written line. Lines count from 1. */
    ghost function Kept(line: nat): Option<nat>
      requires 1 <= line <= |Head()|
    {
      match this
      case End(_) => Some(line)
      case Edit(kept, removed, added, rest) =>
        if line <= |kept| then Some(line)
        else if line <= |kept| + |added| then None
        else match rest.Kept(line - |kept| - |added|)
             case None => None
             case Some(b) => Some(b + |kept| + |removed|)
    }

    /** The removed line that the change puts head line `line` in place of. */
    ghost function Replaced(line: nat): Option<nat>
      requires 1 <= line <= |Head()|
    {
      match this
      case End(_) => None
      case Edit(kept, removed, added, rest) =>
        if line <= |kept| then None
        else if line <= |kept| + |added| then
          if line <= |kept| + |removed| then Some(line) else None
        else match rest.Replaced(line - |kept| - |added|)
             case None => None
             case Some(b) => Some(b + |kept| + |removed|)
    }
  }

  lemma {:induction false} HunksAreSorted<T>(s: Script<T>, b: nat, h: nat)
    ensures Sorted(s.HunksFrom(b, h), HeadStartOf)
    ensures forall i :: 0 <= i < |s.HunksFrom(b, h)| ==> h <= s.HunksFrom(b, h)[i].headStart
    decreases s
  {
    if s.Edit? {
      HunksAreSorted(s.rest, b + |s.kept| + |s.removed|, h + |s.kept| + |s.added|);
    }
  }

  lemma {:induction false} BaseLineIsKeptFrom<T>(s: Script<T>, b: nat, h: nat, line: nat)
    requires 1 <= line <= |s.Head()|
    ensures BaseLineFrom(h + line, s.HunksFrom(b, h), b - h) ==
            match s.Kept(line) case None => None case Some(k) => Some(b + k)
    decreases s
  {
    if s.Edit? && line > |s.kept| + |s.added| {
      BaseLineIsKeptFrom(s.rest, b + |s.kept| + |s.removed|, h + |s.kept| + |s.added|, line - |s.kept| - |s.added|);
    }
  }

  /** base_line computes the script's own line map on every head line. */
  lemma {:induction false} BaseLineIsKept<T>(s: Script<T>, line: nat)
    requires 1 <= line <= |s.Head()|
    ensures BaseLineFrom(line, SortBy(s.HunksFrom(0, 0), HeadStartOf), 0) == s.Kept(line)
  {
    HunksAreSorted(s, 0, 0);
    SortedIsFixed(s.HunksFrom(0, 0), HeadStartOf);
    BaseLineIsKeptFrom(s, 0, 0, line);
  }

  lemma {:induction false} NotReplacedBefore<T>(s: Script<T>, b: nat, h: nat, line: int)
    requires line <= h
    ensures ReplacedBy(line, s.HunksFrom(b, h)) == None
    decreases s
  {
    if s.Edit? {
      NotReplacedBefore(s.rest, b + |s.kept| + |s.removed|, h + |s.kept| + |s.added|, line);
    }
  }

  lemma {:induction false} ReplacedLineIsReplacedFrom<T>(s: Script<T>, b: nat, h: nat, line: nat)
    requires 1 <= line <= |s.Head()|
    ensures ReplacedBy(h + line, s.HunksFrom(b, h)) ==
            match s.Replaced(line) case None => None case Some(k) => Some(b + k)
    decreases s
  {
    if s.Edit? {
      var b', h' := b + |s.kept| + |s.removed|, h + |s.kept| + |s.added|;
      if line > |s.kept| + |s.added| {
        ReplacedLineIsReplacedFrom(s.rest, b', h', line - |s.kept| - |s.added|);
      } else {
        NotReplacedBefore(s.rest, b', h', h + line);
      }
    }
  }

  /** replaced_line computes the position-wise map of the replaced blocks. */
  lemma {:induction false} ReplacedLineIsReplaced<T>(s: Script<T>, line: nat)
    requires 1 <= line <= |s.Head()|
    ensures ReplacedBy(line, s.HunksFrom(0, 0)) == s.Replaced(line)
  {
    ReplacedLineIsReplacedFrom(s, 0, 0, line);
  }

  /** A kept line has the text of its base line; a line with no base line is one the script added. */
  lemma {:induction false} KeptLineIsUnchanged<T>(s: Script<T>, line: nat)
    requires 1 <= line <= |s.Head()|
    ensures s.Kept(line).Some? ==>
              1 <= s.Kept(line).value <= |s.Base()| && s.Head()[line - 1] == s.Base()[s.Kept(line).value - 1]
    decreases s
  {
    if s.Edit? && line > |s.kept| + |s.added| {
      KeptLineIsUnchanged(s.rest, line - |s.kept| - |s.added|);
    }
  }

  lemma {:induction false} KeptIsIncreasing<T>(s: Script<T>, line: nat, later: nat)
    requires 1 <= line < later <= |s.Head()|
    requires s.Kept(line).Some? && s.Kept(later).Some?
    ensures s.Kept(line).value < s.Kept(later).value
    decreases s
  {
    if s.Edit? && later > |s.kept| + |s.added| {
      if line > |s.kept| + |s.added| {
        KeptIsIncreasing(s.rest, line - |s.kept| - |s.added|, later - |s.kept| - |s.added|);
      } else {
        KeptLineIsUnchanged(s.rest, later - |s.kept| - |s.added|);
      }
    }
  }

  lemma {:induction false} ReplacedIsInBase<T>(s: Script<T>, line: nat)
    requires 1 <= line <= |s.Head()|
    ensures s.Replaced(line).Some? ==> 1 <= s.Replaced(line).value <= |s.Base()| && s.Kept(line).None?
    decreases s
  {
    if s.Edit? && line > |s.kept| + |s.added| {
      ReplacedIsInBase(s.rest, line - |s.kept| - |s.added|);
    }
  }

  /** No base line is both kept under one head line and replaced by another. */
  lemma {:induction false} KeptAndReplacedAreDisjoint<T>(s: Script<T>, line: nat, other: nat)
    requires 1 <= line <= |s.Head()| && 1 <= other <= |s.Head()|
    requires s.Kept(line).Some? && s.Replaced(other).Some?
    ensures s.Kept(line).value != s.Replaced(other).value
    decreases s
  {
    if s.Edit? {
      var skip := |s.kept| + |s.added|;
      if line > skip { KeptLineIsUnchanged(s.rest, line - skip); }
      if other > skip { ReplacedIsInBase(s.rest, other - skip); }
      if line > skip && other > skip {
        KeptAndReplacedAreDisjoint(s.rest, line - skip, other - skip);
      }
    }
  }

  lemma {:induction false} RemovedIsNotKept<T>(s: Script<T>, b: nat, line: nat)
    requires 1 <= b <= |s.Base()| && 1 <= line <= |s.Head()| && Removed(s, b)
    ensures s.Kept(line) != Some(b)
    decreases s
  {
    var skip := |s.kept| + |s.added|;
    if line > skip {
      KeptLineIsUnchanged(s.rest, line - skip);
      if b > |s.kept| + |s.removed| {
        RemovedIsNotKept(s.rest, b - |s.kept| - |s.removed|, line - skip);
      }
    }
  }

  lemma {:induction false} FindKept<T>(s: Script<T>, b: nat) returns (line: nat)
    requires 1 <= b <= |s.Base()| && !Removed(s, b)
    ensures 1 <= line <= |s.Head()| && s.Kept(line) == Some(b)
    decreases s
  {
    if s.End? || b <= |s.kept| {
      line := b;
    } else {
      line := FindKept(s.rest, b - |s.kept| - |s.removed|);
      line := line + |s.kept| + |s.added|;
    }
  }

  /** The image of the line map is every base line but the removed ones. */
  lemma {:induction false} ImageIsWhatSurvives<T>(s: Script<T>, b: nat)
    requires 1 <= b <= |s.Base()|
    ensures Removed(s, b) <==> forall line :: 1 <= line <= |s.Head()| ==> s.Kept(line) != Some(b)
  {
    if Removed(s, b) {
      forall line | 1 <= line <= |s.Head()| ensures s.Kept(line) != Some(b) {
        RemovedIsNotKept(s, b, line);
      }
    } else {
      var line := FindKept(s, b);
    }
  }

  ghost predicate Removed<T>(s: Script<T>, b: nat)
    requires 1 <= b <= |s.Base()|
  {
    match s
    case End(_) => false
    case Edit(kept, removed, added, rest) =>
      |kept| < b && (b <= |kept| + |removed| || Removed(rest, b - |kept| - |removed|))
  }

  // ---- The touched test of the CRAP gate

  /** Head-side spans in half lines: line `n` is `2 * n`, the gap after it `2 * n + 1`. */
  function SpanOf(h: Hunk): (int, int) {
    if h.headCount == 0 then (2 * h.headStart + 1, 2 * h.headStart + 1)
    else (2 * h.headStart, 2 * (h.headStart + h.headCount - 1))
  }

  function SpansOf(hunks: seq<Hunk>): (r: seq<(int, int)>)
    ensures |r| == |hunks| && forall i :: 0 <= i < |r| ==> r[i] == SpanOf(hunks[i])
  {
    if hunks == [] then [] else [SpanOf(hunks[0])] + SpansOf(hunks[1..])
  }

  predicate Touches(startLine: int, endLine: int, spans: seq<(int, int)>) {
    exists i :: 0 <= i < |spans| && 2 * startLine <= spans[i].1 && spans[i].0 <= 2 * endLine
  }

  /** A change that added no line, a deletion in what git prints, falls between head lines `gap` and `gap + 1`. */
  ghost predicate DeletedAt<T>(s: Script<T>, gap: int) {
    match s
    case End(_) => false
    case Edit(kept, removed, added, rest) =>
      (added == [] && gap == |kept|) || DeletedAt(rest, gap - |kept| - |added|)
  }

  ghost predicate WroteIn<T>(s: Script<T>, startLine: int, endLine: int) {
    exists line: nat :: startLine <= line <= endLine && 1 <= line <= |s.Head()| && s.Kept(line).None?
  }

  ghost predicate DeletedIn<T>(s: Script<T>, startLine: int, endLine: int) {
    exists gap: int :: startLine <= gap && gap + 1 <= endLine && DeletedAt(s, gap)
  }

  /** One change of the script falls inside the lines, by position. */
  ghost predicate Changed<T>(s: Script<T>, startLine: int, endLine: int) {
    match s
    case End(_) => false
    case Edit(kept, removed, added, rest) =>
      || (if added == [] then startLine <= |kept| < endLine else startLine <= |kept| + |added| && |kept| < endLine)
      || Changed(rest, startLine - |kept| - |added|, endLine - |kept| - |added|)
  }

  lemma {:induction false} WrittenLineChanges<T>(s: Script<T>, startLine: int, endLine: int, line: nat)
    requires startLine <= line <= endLine && 1 <= line <= |s.Head()| && s.Kept(line).None?
    ensures Changed(s, startLine, endLine)
    decreases s
  {
    if s.Edit? && line > |s.kept| + |s.added| {
      var skip := |s.kept| + |s.added|;
      WrittenLineChanges(s.rest, startLine - skip, endLine - skip, line - skip);
    }
  }

  lemma {:induction false} DeletionChanges<T>(s: Script<T>, startLine: int, endLine: int, gap: int)
    requires startLine <= gap < endLine && DeletedAt(s, gap)
    ensures Changed(s, startLine, endLine)
    decreases s
  {
    var skip := |s.kept| + |s.added|;
    if !(s.added == [] && gap == |s.kept|) {
      DeletionChanges(s.rest, startLine - skip, endLine - skip, gap - skip);
    }
  }

  /** A change inside the lines is a written line or a deletion point; `at` is where. */
  lemma {:induction false} FindChange<T>(s: Script<T>, startLine: int, endLine: int) returns (deleted: bool, at: int)
    requires startLine <= endLine && Changed(s, startLine, endLine)
    ensures deleted ==> startLine <= at < endLine && DeletedAt(s, at)
    ensures !deleted ==> startLine <= at <= endLine && 1 <= at <= |s.Head()| && s.Kept(at).None?
    decreases s
  {
    var skip := |s.kept| + |s.added|;
    if s.added == [] && startLine <= |s.kept| < endLine {
      deleted, at := true, |s.kept|;
    } else if s.added != [] && startLine <= skip && |s.kept| < endLine {
      deleted, at := false, Max(startLine, |s.kept| + 1);
    } else {
      deleted, at := FindChange(s.rest, startLine - skip, endLine - skip);
      at := at + skip;
    }
  }

  ghost predicate Meets(h: Hunk, startLine: int, endLine: int) {
    2 * startLine <= SpanOf(h).1 && SpanOf(h).0 <= 2 * endLine
  }

  lemma {:induction false} MeetingHunkChanges<T>(s: Script<T>, b: nat, h: nat, startLine: int, endLine: int, i: nat)
    requires i < |s.HunksFrom(b, h)| && Meets(s.HunksFrom(b, h)[i], h + startLine, h + endLine)
    ensures Changed(s, startLine, endLine)
    decreases s
  {
    if i > 0 {
      var skip := |s.kept| + |s.added|;
      MeetingHunkChanges(s.rest, b + |s.kept| + |s.removed|, h + skip, startLine - skip, endLine - skip, i - 1);
    }
  }

  lemma {:induction false} FindHunk<T>(s: Script<T>, b: nat, h: nat, startLine: int, endLine: int) returns (i: nat)
    requires Changed(s, startLine, endLine)
    ensures i < |s.HunksFrom(b, h)| && Meets(s.HunksFrom(b, h)[i], h + startLine, h + endLine)
    decreases s
  {
    if Meets(s.HunksFrom(b, h)[0], h + startLine, h + endLine) {
      i := 0;
    } else {
      var skip := |s.kept| + |s.added|;
      i := FindHunk(s.rest, b + |s.kept| + |s.removed|, h + skip, startLine - skip, endLine - skip);
      i := i + 1;
    }
  }

  lemma {:induction false} ChangedExactly<T>(s: Script<T>, startLine: int, endLine: int)
    requires startLine <= endLine
    ensures Changed(s, startLine, endLine) <==> WroteIn(s, startLine, endLine) || DeletedIn(s, startLine, endLine)
  {
    if Changed(s, startLine, endLine) {
      var deleted, at := FindChange(s, startLine, endLine);
    } else {
      if WroteIn(s, startLine, endLine) {
        var line: nat :| startLine <= line <= endLine && 1 <= line <= |s.Head()| && s.Kept(line).None?;
        WrittenLineChanges(s, startLine, endLine, line);
      }
      if DeletedIn(s, startLine, endLine) {
        var gap :| startLine <= gap && gap + 1 <= endLine && DeletedAt(s, gap);
        DeletionChanges(s, startLine, endLine, gap);
      }
    }
  }

  lemma {:induction false} TouchesChanged<T>(s: Script<T>, startLine: int, endLine: int)
    ensures Touches(startLine, endLine, SpansOf(s.HunksFrom(0, 0))) <==> Changed(s, startLine, endLine)
  {
    var hunks := s.HunksFrom(0, 0);
    if Changed(s, startLine, endLine) {
      var i := FindHunk(s, 0, 0, startLine, endLine);
      assert SpansOf(hunks)[i] == SpanOf(hunks[i]);
    } else if Touches(startLine, endLine, SpansOf(hunks)) {
      var spans := SpansOf(hunks);
      var i :| 0 <= i < |spans| && 2 * startLine <= spans[i].1 && spans[i].0 <= 2 * endLine;
      MeetingHunkChanges(s, 0, 0, startLine, endLine, i);
    }
  }

  /** A function is touched exactly when a line was written inside it or deleted between two of its lines. */
  lemma {:induction false} TouchedExactly<T>(s: Script<T>, startLine: int, endLine: int)
    requires startLine <= endLine
    ensures Touches(startLine, endLine, SpansOf(s.HunksFrom(0, 0))) <==>
            WroteIn(s, startLine, endLine) || DeletedIn(s, startLine, endLine)
  {
    TouchesChanged(s, startLine, endLine);
    ChangedExactly(s, startLine, endLine);
  }
}
