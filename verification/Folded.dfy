/**
 * Folded stacks: foldedLabel and renderFolded of scripts/perf/analyzeProfilesCore.ts, against a reader of the format
 * that inverts them: escaping, joining by `;`, the count behind the last space, and one line for each distinct stack.
 * A frame's label before escaping and its idleness are parameters, and the counts are exact: what is printed sums to
 * the samples of the stacks shown.
 */
module Folded {
  import opened Leaderboard
  import opened ProfileGraph
  import opened ProfileTime
  import opened Sorting
  import opened Text

  // ---- Labels

  predicate Special(c: char) { c == '%' || c == ';' || c as int <= 0x1f || 0x7f <= c as int <= 0x9f }

  function HexDigit(n: nat): char
    requires n < 16
  {
    if n < 10 then ('0' as int + n) as char else ('A' as int + n - 10) as char
  }

  function EscapeChar(c: char): string {
    if Special(c) then ['%', HexDigit(c as int / 16), HexDigit(c as int % 16)] else [c]
  }

  /** The `label.replace(…)` of foldedLabel. */
  function Escape(s: string): string { if s == [] then [] else EscapeChar(s[0]) + Escape(s[1..]) }

  function HexValue(c: char): (n: nat)
    ensures n < 16
  {
    if '0' <= c <= '9' then c as int - '0' as int else if 'A' <= c <= 'F' then c as int - 'A' as int + 10 else 0
  }

  function Unescape(s: string): string {
    if s == [] then []
    else if s[0] == '%' && |s| >= 3 then [(16 * HexValue(s[1]) + HexValue(s[2])) as char] + Unescape(s[3..])
    else [s[0]] + Unescape(s[1..])
  }

  lemma {:induction false} HexReadsBack(n: nat)
    requires n < 16
    ensures HexValue(HexDigit(n)) == n && HexDigit(n) != ';' && HexDigit(n) != '\n' && HexDigit(n) != ' '
  {
  }

  /** Escaping loses nothing, so distinct labels never print the same. */
  lemma {:induction false} UnescapeInvertsEscape(s: string)
    ensures Unescape(Escape(s)) == s
  {
    if s != [] {
      UnescapeInvertsEscape(s[1..]);
      var c, rest := s[0], Escape(s[1..]);
      if Special(c) {
        HexReadsBack(c as int / 16);
        HexReadsBack(c as int % 16);
        assert Escape(s)[3..] == rest;
      } else {
        assert Escape(s)[1..] == rest;
      }
    }
  }

  /** A label without a percent sign, a separator or a control character is printed as it is. */
  lemma {:induction false} PlainLabelIsKept(s: string)
    requires forall i :: 0 <= i < |s| ==>
               s[i] != '%' && s[i] != ';' && s[i] as int >= 0x20 && !(0x7f <= s[i] as int <= 0x9f)
    ensures Escape(s) == s
  {
    if s != [] {
      PlainLabelIsKept(s[1..]);
      assert !Special(s[0]);
    }
  }

  /** No separator, line break or other control character is left. */
  lemma {:induction false} EscapeHidesSeparators(s: string)
    ensures ';' !in Escape(s) && '\n' !in Escape(s)
    ensures forall c :: c in Escape(s) ==> c as int >= 0x20 && !(0x7f <= c as int <= 0x9f)
  {
    if s != [] {
      EscapeHidesSeparators(s[1..]);
      if Special(s[0]) {
        HexReadsBack(s[0] as int / 16);
        HexReadsBack(s[0] as int % 16);
      }
    }
  }

  // ---- Stacks

  function Escaped(labels: seq<string>): (r: seq<string>)
    ensures |r| == |labels| && forall i :: 0 <= i < |r| ==> r[i] == Escape(labels[i])
  {
    if labels == [] then [] else [Escape(labels[0])] + Escaped(labels[1..])
  }

  function Unescaped(parts: seq<string>): seq<string> {
    if parts == [] then [] else [Unescape(parts[0])] + Unescaped(parts[1..])
  }

  /** `infos.map(foldedLabel).join(";")` */
  function FoldedStack(labels: seq<string>): string
    requires labels != []
  {
    Join(Escaped(labels), ';')
  }

  function UnfoldedStack(stack: string): seq<string> { Unescaped(Split(stack, ';')) }

  lemma {:induction false} EscapedParts(labels: seq<string>)
    ensures Without(Escaped(labels), ';') && Without(Escaped(labels), '\n') && Unescaped(Escaped(labels)) == labels
  {
    if labels != [] {
      EscapeHidesSeparators(labels[0]);
      UnescapeInvertsEscape(labels[0]);
      EscapedParts(labels[1..]);
    }
  }

  lemma {:induction false} JoinStaysOneLine(parts: seq<string>, at: char, other: char)
    requires parts != [] && Without(parts, other) && at != other
    ensures other !in Join(parts, at)
  {
    if |parts| > 1 { JoinStaysOneLine(parts[1..], at, other); }
  }

  /** A stack reads back, so no two label lists fold to one line. */
  lemma {:induction false} StackReadsBack(labels: seq<string>)
    requires labels != []
    ensures UnfoldedStack(FoldedStack(labels)) == labels && '\n' !in FoldedStack(labels)
  {
    EscapedParts(labels);
    SplitJoin(Escaped(labels), ';');
    JoinStaysOneLine(Escaped(labels), ';', '\n');
  }

  // ---- Lines

  datatype Row = Row(labels: seq<string>, count: nat)

  /** `${stack} ${count}` */
  function FoldedLine(stack: string, count: nat): string { stack + " " + Decimal(count) }

  /** Cuts at the last space. */
  function CutLast(line: string): (string, string) {
    if line == [] then ([], [])
    else
      var last := |line| - 1;
      if line[last] == ' ' then (line[..last], [])
      else
        var rest := CutLast(line[..last]);
        (rest.0, rest.1 + [line[last]])
  }

  function DigitsOf(s: string): nat {
    if forall i :: 0 <= i < |s| ==> IsDigit(s[i]) then NumberOf(s) else 0
  }

  function UnfoldedLine(line: string): Row {
    var cut := CutLast(line);
    Row(UnfoldedStack(cut.0), DigitsOf(cut.1))
  }

  lemma {:induction false} LastSpaceCuts(stack: string, digits: string)
    requires ' ' !in digits
    ensures CutLast(stack + " " + digits) == (stack, digits)
    decreases |digits|
  {
    var line := stack + " " + digits;
    if digits == [] {
      assert line[..|line| - 1] == stack;
    } else {
      var front := digits[..|digits| - 1];
      LastSpaceCuts(stack, front);
      assert line[..|line| - 1] == stack + " " + front && digits == front + [line[|line| - 1]];
    }
  }

  lemma {:induction false} LineReadsBack(labels: seq<string>, count: nat)
    requires labels != []
    ensures UnfoldedLine(FoldedLine(FoldedStack(labels), count)) == Row(labels, count)
    ensures '\n' !in FoldedLine(FoldedStack(labels), count)
  {
    var d := Decimal(count);
    assert ' ' !in d && '\n' !in d;
    LastSpaceCuts(FoldedStack(labels), d);
    StackReadsBack(labels);
    NumberOfDecimal(count);
  }

  // ---- The whole text

  ghost predicate HasLabels(rows: seq<Row>) { forall i :: 0 <= i < |rows| ==> rows[i].labels != [] }

  ghost function FoldedLines(rows: seq<Row>): (r: seq<string>)
    requires HasLabels(rows)
    ensures |r| == |rows|
  {
    if rows == [] then [] else [FoldedLine(FoldedStack(rows[0].labels), rows[0].count)] + FoldedLines(rows[1..])
  }

  /** `lines.length > 0 ? lines.join("\n") + "\n" : ""` */
  function FoldedText(lines: seq<string>): string { if lines == [] then "" else Join(lines, '\n') + "\n" }

  function UnfoldedLines(lines: seq<string>): seq<Row> {
    if lines == [] then [] else [UnfoldedLine(lines[0])] + UnfoldedLines(lines[1..])
  }

  /** A reader of the format: one row a line. */
  function Unfolded(text: string): seq<Row> {
    var lines := Split(text, '\n');
    UnfoldedLines(lines[..|lines| - 1])
  }

  lemma {:induction false} LinesReadBack(rows: seq<Row>)
    requires HasLabels(rows)
    ensures Without(FoldedLines(rows), '\n') && UnfoldedLines(FoldedLines(rows)) == rows
  {
    if rows != [] {
      LineReadsBack(rows[0].labels, rows[0].count);
      LinesReadBack(rows[1..]);
    }
  }

  lemma {:induction false} JoinLast(lines: seq<string>, at: char)
    requires lines != []
    ensures Join(lines, at) + [at] == Join(lines + [""], at)
  {
    if |lines| > 1 {
      JoinLast(lines[1..], at);
      assert (lines + [""])[1..] == lines[1..] + [""];
    } else {
      assert (lines + [""])[1..] == [""];
    }
  }

  /** The printed text gives back every stack with its labels and its count. */
  lemma {:induction false} TextReadsBack(rows: seq<Row>)
    requires HasLabels(rows)
    ensures Unfolded(FoldedText(FoldedLines(rows))) == rows
  {
    var lines := FoldedLines(rows);
    LinesReadBack(rows);
    if lines != [] {
      JoinLast(lines, '\n');
      SplitJoin(lines + [""], '\n');
      assert (lines + [""])[..|lines|] == lines;
    } else {
      assert Split("", '\n') == [""];
    }
  }

  // ---- Sorting the lines

  ghost predicate Increasing(s: seq<string>) { forall i, j :: 0 <= i < j < |s| ==> AtMost(s[i], s[j]) }

  function InsertLine(x: string, s: seq<string>): seq<string> {
    if s == [] || AtMost(x, s[0]) then [x] + s else [s[0]] + InsertLine(x, s[1..])
  }

  function SortLines(s: seq<string>): seq<string> {
    if s == [] then [] else InsertLine(s[0], SortLines(s[1..]))
  }

  lemma {:induction false} InsertLinePermutes(x: string, s: seq<string>)
    ensures multiset(InsertLine(x, s)) == multiset([x]) + multiset(s)
  {
    if s != [] && !AtMost(x, s[0]) {
      InsertLinePermutes(x, s[1..]);
      assert s == [s[0]] + s[1..];
    }
  }

  lemma {:induction false} InsertLineKeepsOrder(x: string, s: seq<string>)
    requires Increasing(s)
    ensures Increasing(InsertLine(x, s))
  {
    if s != [] {
      if AtMost(x, s[0]) {
        forall i | 0 <= i < |s| ensures AtMost(x, s[i]) {
          if i > 0 { AtMostIsTransitive(x, s[0], s[i]); }
        }
      } else {
        AtMostIsTotal(x, s[0]);
        var rest := InsertLine(x, s[1..]);
        InsertLineKeepsOrder(x, s[1..]);
        InsertLinePermutes(x, s[1..]);
        forall i | 0 <= i < |rest| ensures AtMost(s[0], rest[i]) {
          assert rest[i] in multiset(rest);
          assert rest[i] == x || rest[i] in multiset(s[1..]);
        }
      }
    }
  }

  lemma {:induction false} SortLinesSorts(s: seq<string>)
    ensures Increasing(SortLines(s)) && multiset(SortLines(s)) == multiset(s)
  {
    if s != [] {
      SortLinesSorts(s[1..]);
      InsertLineKeepsOrder(s[0], SortLines(s[1..]));
      InsertLinePermutes(s[0], SortLines(s[1..]));
      assert s == [s[0]] + s[1..];
    }
  }

  // ---- Counting

  function Labels(frames: seq<Frame>, labelOf: Frame -> string): (r: seq<string>)
    ensures |r| == |frames| && forall i :: 0 <= i < |r| ==> r[i] == labelOf(frames[i])
  {
    if frames == [] then [] else [labelOf(frames[0])] + Labels(frames[1..], labelOf)
  }

  /** What the two `continue`s leave. */
  predicate Included(s: Stack, idle: Frame -> bool, includeIdle: bool) {
    s.frames != [] && s.count != 0 && (includeIdle || !idle(s.frames[|s.frames| - 1]))
  }

  /** It has frames and samples, and its last frame is not idle or idle time is wanted. */
  ghost predicate IsShown(s: Stack, idle: Frame -> bool, includeIdle: bool) {
    && |s.frames| > 0 && s.count > 0
    && (includeIdle || !idle(s.frames[|s.frames| - 1]))
  }

  ghost predicate Shows(s: Stack, labelOf: Frame -> string, idle: Frame -> bool, includeIdle: bool,
                        labels: seq<string>) {
    && IsShown(s, idle, includeIdle)
    && |labels| == |s.frames| && forall i :: 0 <= i < |labels| ==> labels[i] == labelOf(s.frames[i])
  }

  ghost function Showing(labelOf: Frame -> string, idle: Frame -> bool, includeIdle: bool,
                         labels: seq<string>): Stack -> bool {
    (s: Stack) => Shows(s, labelOf, idle, includeIdle, labels)
  }

  ghost function AnyIncluded(idle: Frame -> bool, includeIdle: bool): Stack -> bool {
    (s: Stack) => IsShown(s, idle, includeIdle)
  }

  /** The samples of the stacks that satisfy `which`. */
  ghost function CountIn(stacks: seq<Stack>, which: Stack -> bool): nat {
    if stacks == [] then 0
    else
      var last := stacks[|stacks| - 1];
      CountIn(stacks[..|stacks| - 1], which) + if which(last) then last.count else 0
  }

  lemma {:induction false} CountOneMore(stacks: seq<Stack>, s: Stack, which: Stack -> bool)
    ensures CountIn(stacks + [s], which) == CountIn(stacks, which) + if which(s) then s.count else 0
  {
    assert (stacks + [s])[..|stacks|] == stacks;
  }

  /** `counts` with its keys in insertion order. */
  ghost predicate Tallies(counts: map<string, nat>, order: seq<string>, stacks: seq<Stack>,
                          labelOf: Frame -> string, idle: Frame -> bool, includeIdle: bool) {
    && Distinct(order) && (forall k :: Listed(counts, order, k))
    && forall labels :: TallyIsRight(counts, stacks, labelOf, idle, includeIdle, labels)
  }

  ghost predicate Listed(counts: map<string, nat>, order: seq<string>, k: string) {
    (k in order <==> k in counts) && (k in counts ==> IsStackLine(k))
  }

  ghost predicate TallyIsRight(counts: map<string, nat>, stacks: seq<Stack>,
                               labelOf: Frame -> string, idle: Frame -> bool, includeIdle: bool, labels: seq<string>) {
    labels != [] ==> TallyOf(counts, labels) == CountIn(stacks, Showing(labelOf, idle, includeIdle, labels))
  }

  ghost predicate IsStackLine(k: string) { UnfoldedStack(k) != [] && FoldedStack(UnfoldedStack(k)) == k }

  ghost function TallyOf(counts: map<string, nat>, labels: seq<string>): nat
    requires labels != []
  {
    var k := FoldedStack(labels);
    if k in counts then counts[k] else 0
  }

  lemma {:induction false} TallyOneMore(counts: map<string, nat>, after: map<string, nat>, own: seq<string>,
                                        count: nat, labels: seq<string>)
    requires own != [] && labels != []
    requires after == counts[FoldedStack(own) := TallyOf(counts, own) + count]
    ensures TallyOf(after, labels) == TallyOf(counts, labels) + if own == labels then count else 0
  {
    StackReadsBack(own);
    StackReadsBack(labels);
  }

  lemma {:induction false} TalliesOneMore(counts: map<string, nat>, after: map<string, nat>, order: seq<string>,
                                          more: seq<string>, stacks: seq<Stack>, s: Stack, labelOf: Frame -> string,
                                          idle: Frame -> bool, includeIdle: bool)
    requires Tallies(counts, order, stacks, labelOf, idle, includeIdle) && Included(s, idle, includeIdle)
    requires var k := FoldedStack(Labels(s.frames, labelOf));
      && after == counts[k := At(counts, k) + s.count]
      && more == if k in counts then order else order + [k]
    ensures Tallies(after, more, stacks + [s], labelOf, idle, includeIdle)
  {
    var own := Labels(s.frames, labelOf);
    var k := FoldedStack(own);
    forall labels ensures TallyIsRight(after, stacks + [s], labelOf, idle, includeIdle, labels) {
      assert TallyIsRight(counts, stacks, labelOf, idle, includeIdle, labels);
      TallyStaysRight(counts, after, stacks, s, labelOf, idle, includeIdle, labels);
    }
    StackReadsBack(own);
    ListedOneMore(counts, after, order, more, k, At(counts, k) + s.count);
  }

  lemma {:induction false} TallyStaysRight(counts: map<string, nat>, after: map<string, nat>, stacks: seq<Stack>,
                                           s: Stack, labelOf: Frame -> string, idle: Frame -> bool, includeIdle: bool,
                                           labels: seq<string>)
    requires TallyIsRight(counts, stacks, labelOf, idle, includeIdle, labels) && Included(s, idle, includeIdle)
    requires var k := FoldedStack(Labels(s.frames, labelOf)); after == counts[k := At(counts, k) + s.count]
    ensures TallyIsRight(after, stacks + [s], labelOf, idle, includeIdle, labels)
  {
    if labels != [] {
      TallyOneMore(counts, after, Labels(s.frames, labelOf), s.count, labels);
      CountOneMore(stacks, s, Showing(labelOf, idle, includeIdle, labels));
    }
  }

  lemma {:induction false} ListedOneMore(counts: map<string, nat>, after: map<string, nat>, order: seq<string>,
                                         more: seq<string>, k: string, n: nat)
    requires Distinct(order) && forall l :: Listed(counts, order, l)
    requires IsStackLine(k) && after == counts[k := n] && more == if k in counts then order else order + [k]
    ensures Distinct(more) && forall l :: Listed(after, more, l)
  {
    assert Listed(counts, order, k);
    forall l ensures Listed(after, more, l) {
      assert Listed(counts, order, l);
    }
  }

  lemma {:induction false} SkippedAddsNothing(counts: map<string, nat>, order: seq<string>, stacks: seq<Stack>,
                                              s: Stack, labelOf: Frame -> string, idle: Frame -> bool,
                                              includeIdle: bool)
    requires Tallies(counts, order, stacks, labelOf, idle, includeIdle) && !Included(s, idle, includeIdle)
    ensures Tallies(counts, order, stacks + [s], labelOf, idle, includeIdle)
  {
    forall labels ensures TallyIsRight(counts, stacks + [s], labelOf, idle, includeIdle, labels) {
      assert TallyIsRight(counts, stacks, labelOf, idle, includeIdle, labels);
      CountOneMore(stacks, s, Showing(labelOf, idle, includeIdle, labels));
    }
  }

  ghost function At(counts: map<string, nat>, k: string): nat { if k in counts then counts[k] else 0 }

  ghost function Total(lines: seq<string>, counts: map<string, nat>): nat {
    if lines == [] then 0 else At(counts, lines[0]) + Total(lines[1..], counts)
  }

  lemma {:induction false} TotalElsewhere(lines: seq<string>, counts: map<string, nat>, k: string, n: nat)
    requires k !in lines
    ensures Total(lines, counts[k := n]) == Total(lines, counts)
  {
    if lines != [] { TotalElsewhere(lines[1..], counts, k, n); }
  }

  lemma {:induction false} TotalAppended(lines: seq<string>, counts: map<string, nat>, k: string)
    ensures Total(lines + [k], counts) == Total(lines, counts) + At(counts, k)
  {
    if lines != [] {
      TotalAppended(lines[1..], counts, k);
      assert (lines + [k])[1..] == lines[1..] + [k];
    }
  }

  lemma {:induction false} TotalUpdated(lines: seq<string>, counts: map<string, nat>, k: string, n: nat)
    requires Distinct(lines) && k in lines
    ensures Total(lines, counts[k := At(counts, k) + n]) == Total(lines, counts) + n
  {
    if lines[0] == k {
      assert k !in lines[1..];
      TotalElsewhere(lines[1..], counts, k, At(counts, k) + n);
    } else {
      TotalUpdated(lines[1..], counts, k, n);
    }
  }

  lemma {:induction false} TotalOneMore(order: seq<string>, counts: map<string, nat>, k: string, n: nat)
    requires Distinct(order) && forall l :: Listed(counts, order, l)
    ensures Total(if k in counts then order else order + [k], counts[k := At(counts, k) + n])
            == Total(order, counts) + n
  {
    assert Listed(counts, order, k);
    if k in counts {
      TotalUpdated(order, counts, k, n);
    } else {
      TotalElsewhere(order, counts, k, n);
      TotalAppended(order, counts[k := n], k);
    }
  }

  ghost predicate Counted(counts: map<string, nat>, order: seq<string>, stacks: seq<Stack>,
                          labelOf: Frame -> string, idle: Frame -> bool, includeIdle: bool) {
    && Tallies(counts, order, stacks, labelOf, idle, includeIdle)
    && Total(order, counts) == CountIn(stacks, AnyIncluded(idle, includeIdle))
  }

  lemma {:induction false} CountedOneMore(counts: map<string, nat>, after: map<string, nat>, order: seq<string>,
                                          more: seq<string>, done: seq<Stack>, s: Stack, labelOf: Frame -> string,
                                          idle: Frame -> bool, includeIdle: bool)
    requires Counted(counts, order, done, labelOf, idle, includeIdle) && Included(s, idle, includeIdle)
    requires var k := FoldedStack(Labels(s.frames, labelOf));
      && after == counts[k := At(counts, k) + s.count]
      && more == if k in counts then order else order + [k]
    ensures Counted(after, more, done + [s], labelOf, idle, includeIdle)
  {
    TalliesOneMore(counts, after, order, more, done, s, labelOf, idle, includeIdle);
    TotalStaysRight(counts, after, order, more, done, s, FoldedStack(Labels(s.frames, labelOf)), idle, includeIdle);
  }

  lemma {:induction false} TotalStaysRight(counts: map<string, nat>, after: map<string, nat>, order: seq<string>,
                                           more: seq<string>, done: seq<Stack>, s: Stack, k: string,
                                           idle: Frame -> bool, includeIdle: bool)
    requires Distinct(order) && (forall l :: Listed(counts, order, l)) && Included(s, idle, includeIdle)
    requires Total(order, counts) == CountIn(done, AnyIncluded(idle, includeIdle))
    requires after == counts[k := At(counts, k) + s.count] && more == if k in counts then order else order + [k]
    ensures Total(more, after) == CountIn(done + [s], AnyIncluded(idle, includeIdle))
  {
    CountOneMore(done, s, AnyIncluded(idle, includeIdle));
    TotalOneMore(order, counts, k, s.count);
  }

  /** One turn of the inner loop. */
  method CountStack(counts: map<string, nat>, order: seq<string>, s: Stack,
                    labelOf: Frame -> string, idle: Frame -> bool, includeIdle: bool, ghost done: seq<Stack>)
    returns (after: map<string, nat>, more: seq<string>)
    requires Counted(counts, order, done, labelOf, idle, includeIdle)
    ensures Counted(after, more, done + [s], labelOf, idle, includeIdle)
  {
    if !Included(s, idle, includeIdle) {
      CountOneMore(done, s, AnyIncluded(idle, includeIdle));
      SkippedAddsNothing(counts, order, done, s, labelOf, idle, includeIdle);
      return counts, order;
    }
    var line := FoldedStack(Labels(s.frames, labelOf));
    after := counts[line := (if line in counts then counts[line] else 0) + s.count];
    more := if line in counts then order else order + [line];
    CountedOneMore(counts, after, order, more, done, s, labelOf, idle, includeIdle);
  }

  method CountProfile(before: map<string, nat>, had: seq<string>, stacks: seq<Stack>,
                      labelOf: Frame -> string, idle: Frame -> bool, includeIdle: bool, ghost done: seq<Stack>)
    returns (counts: map<string, nat>, order: seq<string>)
    requires Counted(before, had, done, labelOf, idle, includeIdle)
    ensures Counted(counts, order, done + stacks, labelOf, idle, includeIdle)
  {
    counts, order := before, had;
    ghost var now := done;
    for i := 0 to |stacks|
      invariant now == done + stacks[..i] && Counted(counts, order, now, labelOf, idle, includeIdle)
    {
      counts, order := CountStack(counts, order, stacks[i], labelOf, idle, includeIdle, now);
      Regroup(done, stacks, i);
      now := now + [stacks[i]];
    }
    assert stacks[..|stacks|] == stacks;
  }

  lemma {:induction false} NothingCounted(labelOf: Frame -> string, idle: Frame -> bool, includeIdle: bool)
    ensures Counted(map[], [], [], labelOf, idle, includeIdle)
  {
  }

  method CountProfiles(profiles: seq<ReadProfile>, labelOf: Frame -> string, idle: Frame -> bool, includeIdle: bool)
    returns (counts: map<string, nat>, order: seq<string>)
    ensures Counted(counts, order, AllStacks(profiles), labelOf, idle, includeIdle)
  {
    counts, order := map[], [];
    NothingCounted(labelOf, idle, includeIdle);
    for i := 0 to |profiles|
      invariant Counted(counts, order, AllStacks(profiles[..i]), labelOf, idle, includeIdle)
    {
      ghost var done := AllStacks(profiles[..i]);
      assert profiles[..i + 1][..i] == profiles[..i];
      counts, order := CountProfile(counts, order, profiles[i].stacks, labelOf, idle, includeIdle, done);
    }
    assert profiles[..|profiles|] == profiles;
  }

  lemma {:induction false} TotalOfInsert(x: string, s: seq<string>, counts: map<string, nat>)
    ensures Total(InsertLine(x, s), counts) == At(counts, x) + Total(s, counts)
  {
    if s != [] && !AtMost(x, s[0]) { TotalOfInsert(x, s[1..], counts); }
  }

  lemma {:induction false} TotalOfSorted(s: seq<string>, counts: map<string, nat>)
    ensures Total(SortLines(s), counts) == Total(s, counts)
  {
    if s != [] {
      TotalOfSorted(s[1..], counts);
      TotalOfInsert(s[0], SortLines(s[1..]), counts);
    }
  }

  // ---- renderFolded

  ghost function RowsOf(lines: seq<string>, counts: map<string, nat>): (r: seq<Row>)
    ensures |r| == |lines| && forall i :: 0 <= i < |r| ==> r[i] == Row(UnfoldedStack(lines[i]), At(counts, lines[i]))
  {
    if lines == [] then [] else [Row(UnfoldedStack(lines[0]), At(counts, lines[0]))] + RowsOf(lines[1..], counts)
  }

  ghost function RowTotal(rows: seq<Row>): nat { if rows == [] then 0 else rows[0].count + RowTotal(rows[1..]) }

  lemma {:induction false} RowsHoldTotal(lines: seq<string>, counts: map<string, nat>)
    ensures RowTotal(RowsOf(lines, counts)) == Total(lines, counts)
  {
    if lines != [] { RowsHoldTotal(lines[1..], counts); }
  }

  ghost predicate HasRow(rows: seq<Row>, labels: seq<string>) {
    exists i :: 0 <= i < |rows| && rows[i].labels == labels
  }

  /** `rows` count every included stack under its own labels, and nothing else. */
  ghost predicate IsTally(rows: seq<Row>, stacks: seq<Stack>, labelOf: Frame -> string, idle: Frame -> bool,
                          includeIdle: bool) {
    && HasLabels(rows)
    && (forall i, j :: 0 <= i < j < |rows| ==> rows[i].labels != rows[j].labels)
    && (forall i :: 0 <= i < |rows| ==>
         rows[i].count == CountIn(stacks, Showing(labelOf, idle, includeIdle, rows[i].labels)))
    && (forall labels :: labels != [] && CountIn(stacks, Showing(labelOf, idle, includeIdle, labels)) > 0 ==>
         HasRow(rows, labels))
    && RowTotal(rows) == CountIn(stacks, AnyIncluded(idle, includeIdle))
  }

  ghost function StackLines(rows: seq<Row>): (r: seq<string>)
    requires HasLabels(rows)
    ensures |r| == |rows|
  {
    if rows == [] then [] else [FoldedStack(rows[0].labels)] + StackLines(rows[1..])
  }

  lemma {:induction false} CanonicalLines(lines: seq<string>, counts: map<string, nat>)
    requires forall i :: 0 <= i < |lines| ==> IsStackLine(lines[i])
    ensures HasLabels(RowsOf(lines, counts)) && StackLines(RowsOf(lines, counts)) == lines
  {
    if lines != [] {
      CanonicalLines(lines[1..], counts);
      var rest := RowsOf(lines[1..], counts);
      assert RowsOf(lines, counts)[1..] == rest;
      assert IsStackLine(lines[0]);
    }
  }

  lemma {:induction false} SortedLinesAreListed(counts: map<string, nat>, order: seq<string>)
    requires Distinct(order) && forall k :: Listed(counts, order, k)
    ensures Distinct(SortLines(order)) && forall k :: Listed(counts, SortLines(order), k)
  {
    var lines := SortLines(order);
    SortLinesSorts(order);
    DistinctIffSingle(order);
    DistinctIffSingle(lines);
    forall k ensures Listed(counts, lines, k) {
      assert Listed(counts, order, k);
      assert k in lines <==> k in multiset(lines);
      assert k in order <==> k in multiset(order);
    }
  }

  lemma {:induction false} RowIsRight(lines: seq<string>, counts: map<string, nat>, stacks: seq<Stack>,
                                      labelOf: Frame -> string, idle: Frame -> bool, includeIdle: bool, i: nat)
    requires Tallies(counts, lines, stacks, labelOf, idle, includeIdle) && i < |lines|
    ensures var row := Row(UnfoldedStack(lines[i]), At(counts, lines[i]));
      && row.labels != [] && FoldedStack(row.labels) == lines[i]
      && row.count == CountIn(stacks, Showing(labelOf, idle, includeIdle, row.labels))
  {
    var k := lines[i];
    assert k in lines && Listed(counts, lines, k);
    assert TallyIsRight(counts, stacks, labelOf, idle, includeIdle, UnfoldedStack(k));
  }

  lemma {:induction false} ShownStackHasARow(lines: seq<string>, counts: map<string, nat>, stacks: seq<Stack>,
                                             labelOf: Frame -> string, idle: Frame -> bool, includeIdle: bool,
                                             labels: seq<string>)
    requires Tallies(counts, lines, stacks, labelOf, idle, includeIdle)
    requires labels != [] && CountIn(stacks, Showing(labelOf, idle, includeIdle, labels)) > 0
    ensures HasRow(RowsOf(lines, counts), labels)
  {
    var k := FoldedStack(labels);
    assert TallyIsRight(counts, stacks, labelOf, idle, includeIdle, labels);
    assert Listed(counts, lines, k);
    var i :| 0 <= i < |lines| && lines[i] == k;
    StackReadsBack(labels);
    assert RowsOf(lines, counts)[i].labels == labels;
  }

  lemma {:induction false} RowsAreATally(lines: seq<string>, counts: map<string, nat>, stacks: seq<Stack>,
                                         labelOf: Frame -> string, idle: Frame -> bool, includeIdle: bool)
    requires Counted(counts, lines, stacks, labelOf, idle, includeIdle)
    ensures IsTally(RowsOf(lines, counts), stacks, labelOf, idle, includeIdle)
  {
    var rows := RowsOf(lines, counts);
    forall i | 0 <= i < |rows|
      ensures rows[i].labels != [] && FoldedStack(rows[i].labels) == lines[i]
      ensures rows[i].count == CountIn(stacks, Showing(labelOf, idle, includeIdle, rows[i].labels))
    {
      RowIsRight(lines, counts, stacks, labelOf, idle, includeIdle, i);
    }
    forall labels | labels != [] && CountIn(stacks, Showing(labelOf, idle, includeIdle, labels)) > 0
      ensures HasRow(rows, labels)
    {
      ShownStackHasARow(lines, counts, stacks, labelOf, idle, includeIdle, labels);
    }
    RowsHoldTotal(lines, counts);
  }

  /** renderFolded: the text reads back as the exact tally of the stacks it shows, in increasing order. */
  method RenderFolded(profiles: seq<ReadProfile>, labelOf: Frame -> string, idle: Frame -> bool, includeIdle: bool)
    returns (text: string)
    ensures IsTally(Unfolded(text), AllStacks(profiles), labelOf, idle, includeIdle)
    ensures Increasing(StackLines(Unfolded(text))) && text == FoldedText(FoldedLines(Unfolded(text)))
  {
    var counts, order := CountProfiles(profiles, labelOf, idle, includeIdle);
    text := PrintCounts(counts, order, AllStacks(profiles), labelOf, idle, includeIdle);
  }

  /** The sorted lines of the map. */
  method PrintCounts(counts: map<string, nat>, order: seq<string>, ghost stacks: seq<Stack>, labelOf: Frame -> string,
                     ghost idle: Frame -> bool, ghost includeIdle: bool) returns (text: string)
    requires Counted(counts, order, stacks, labelOf, idle, includeIdle)
    ensures IsTally(Unfolded(text), stacks, labelOf, idle, includeIdle)
    ensures Increasing(StackLines(Unfolded(text))) && text == FoldedText(FoldedLines(Unfolded(text)))
  {
    var sorted := SortLines(order);
    SortLinesSorts(order);
    SortedLinesAreListed(counts, order);
    TotalOfSorted(order, counts);
    ghost var rows := RowsOf(sorted, counts);
    RowsAreATally(sorted, counts, stacks, labelOf, idle, includeIdle);
    var lines := PrintLines(sorted, counts);
    text := FoldedText(lines);
    LinesOfRows(sorted, counts);
    TextReadsBack(rows);
  }

  lemma {:induction false} LinesOfRows(sorted: seq<string>, counts: map<string, nat>)
    requires forall k :: Listed(counts, sorted, k)
    ensures HasLabels(RowsOf(sorted, counts)) && StackLines(RowsOf(sorted, counts)) == sorted
    ensures Printed(sorted, counts) == FoldedLines(RowsOf(sorted, counts))
  {
    forall i | 0 <= i < |sorted| ensures IsStackLine(sorted[i]) {
      assert sorted[i] in sorted && Listed(counts, sorted, sorted[i]);
    }
    CanonicalLines(sorted, counts);
    PrintedLines(sorted, counts);
  }

  ghost function Printed(sorted: seq<string>, counts: map<string, nat>): (r: seq<string>)
    ensures |r| == |sorted|
  {
    if sorted == [] then []
    else
      var last := |sorted| - 1;
      Printed(sorted[..last], counts) + [FoldedLine(sorted[last], At(counts, sorted[last]))]
  }

  lemma {:induction false} PrintedFirst(sorted: seq<string>, counts: map<string, nat>)
    requires sorted != []
    ensures Printed(sorted, counts) == [FoldedLine(sorted[0], At(counts, sorted[0]))] + Printed(sorted[1..], counts)
  {
    var last := |sorted| - 1;
    if last == 0 {
      assert sorted[..0] == [] && sorted[1..] == [];
    } else {
      PrintedFirst(sorted[..last], counts);
      assert sorted[..last][1..] == sorted[1..][..last - 1];
    }
  }

  lemma {:induction false} PrintedLines(sorted: seq<string>, counts: map<string, nat>)
    requires forall i :: 0 <= i < |sorted| ==> IsStackLine(sorted[i])
    requires HasLabels(RowsOf(sorted, counts))
    ensures Printed(sorted, counts) == FoldedLines(RowsOf(sorted, counts))
  {
    if sorted != [] {
      PrintedFirst(sorted, counts);
      assert RowsOf(sorted, counts)[1..] == RowsOf(sorted[1..], counts);
      PrintedLines(sorted[1..], counts);
      assert IsStackLine(sorted[0]);
    }
  }

  method PrintLines(sorted: seq<string>, counts: map<string, nat>) returns (lines: seq<string>)
    requires forall k :: Listed(counts, sorted, k)
    ensures lines == Printed(sorted, counts)
  {
    lines := [];
    for i := 0 to |sorted|
      invariant lines == Printed(sorted[..i], counts)
    {
      assert sorted[..i + 1][..i] == sorted[..i];
      assert sorted[i] in sorted && Listed(counts, sorted, sorted[i]);
      lines := lines + [FoldedLine(sorted[i], counts[sorted[i]])];
    }
    assert sorted[..|sorted|] == sorted;
  }
}
