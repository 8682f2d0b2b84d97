/**
 * The `git diff -U0` reader of the quality gates: diffHeaders and parseChangedLines of scripts/crap/policy.ts and
 * parseHunks of scripts/crap/changes.ts, against the text git prints. Hunk bodies are skipped by count, so the
 * reader is a loop with two counters.
 */
module DiffText {
  import opened Forms
  import opened Hunks
  import opened Text

  datatype Header = File(path: Option<string>) | HunkHeader(hunk: Hunk)

  ghost predicate OneLine(s: string) { '\n' !in s }

  // ---- The hunk header regex

  datatype Range = Range(start: nat, count: nat, rest: string)

  /** `(\d+)(?:,(\d+))?` and the text after it. No other split of the text can match the whole regex. */
  function ParseRange(s: string): Option<Range> {
    var d := DigitCount(s);
    DigitsAreDigits(s);
    if d == 0 then None
    else
      var rest := s[d..];
      var e := if rest != [] && rest[0] == ',' then DigitCount(rest[1..]) else 0;
      if e == 0 then Some(Range(NumberOf(s[..d]), 1, rest))
      else
        DigitsAreDigits(rest[1..]);
        Some(Range(NumberOf(s[..d]), NumberOf(rest[1..][..e]), rest[1..][e..]))
  }

  function ParseHunk(line: string): Option<Hunk> {
    if !("@@ -" <= line) then None
    else match ParseRange(line[4..])
      case None => None
      case Some(base) =>
        if !(" +" <= base.rest) then None
        else match ParseRange(base.rest[2..])
          case None => None
          case Some(head) =>
            if " @@" <= head.rest then Some(Hunk(base.start, base.count, head.start, head.count)) else None
  }

  /** git leaves a count of 1 out. */
  ghost function PrintRange(start: nat, count: nat, rest: string): string {
    Decimal(start) + if count == 1 then rest else "," + (Decimal(count) + rest)
  }

  ghost predicate Printable(h: Hunk) { h.baseStart >= 0 && h.headStart >= 0 }

  ghost function PrintHunk(h: Hunk, heading: string): string
    requires Printable(h)
  {
    "@@ -" + PrintRange(h.baseStart, h.baseCount, " +" + PrintRange(h.headStart, h.headCount, " @@" + heading))
  }

  lemma {:induction false} ParseStartOnly(start: nat, rest: string)
    requires rest != [] && rest[0] == ' '
    ensures ParseRange(Decimal(start) + rest) == Some(Range(start, 1, rest))
  {
    var s := Decimal(start);
    NumberOfDecimal(start);
    DigitCountStops(s, rest);
    assert (s + rest)[..|s|] == s && (s + rest)[|s|..] == rest;
  }

  lemma {:induction false} ParseStartAndCount(start: nat, count: nat, rest: string)
    requires rest != [] && rest[0] == ' '
    ensures ParseRange(Decimal(start) + ("," + (Decimal(count) + rest))) == Some(Range(start, count, rest))
  {
    var s, c := Decimal(start), Decimal(count);
    var tail := "," + (c + rest);
    NumberOfDecimal(start);
    NumberOfDecimal(count);
    DigitCountStops(s, tail);
    assert (s + tail)[..|s|] == s && (s + tail)[|s|..] == tail && tail[1..] == c + rest;
    DigitCountStops(c, rest);
    assert (c + rest)[..|c|] == c && (c + rest)[|c|..] == rest;
  }

  lemma {:induction false} ParsePrintedRange(start: nat, count: nat, rest: string)
    requires rest != [] && rest[0] == ' '
    ensures ParseRange(PrintRange(start, count, rest)) == Some(Range(start, count, rest))
  {
    if count == 1 {
      ParseStartOnly(start, rest);
    } else {
      ParseStartAndCount(start, count, rest);
    }
  }

  /** The regex reads back every hunk header git prints, whatever section heading follows. */
  lemma {:induction false} ParsePrintedHunk(h: Hunk, heading: string)
    requires Printable(h)
    ensures ParseHunk(PrintHunk(h, heading)) == Some(h)
  {
    var end := " @@" + heading;
    var afterBase := " +" + PrintRange(h.headStart, h.headCount, end);
    ParsePrintedRange(h.baseStart, h.baseCount, afterBase);
    ParsePrintedRange(h.headStart, h.headCount, end);
    assert PrintHunk(h, heading)[4..] == PrintRange(h.baseStart, h.baseCount, afterBase);
    assert afterBase[2..] == PrintRange(h.headStart, h.headCount, end);
  }

  // ---- diffHeaders

  /** `line.slice(4).replace(/\t$/, "")`, then `replace(/^b\//, "")` or null for /dev/null. */
  function TargetOf(line: string): Option<string>
    requires |line| >= 4
  {
    var raw := line[4..];
    var target := if raw != [] && raw[|raw| - 1] == '\t' then raw[..|raw| - 1] else raw;
    if target == "/dev/null" then None
    else Some(if "b/" <= target then target[2..] else target)
  }

  /** What a line says outside a hunk body. */
  datatype Kind = Other | FileLine(path: Option<string>) | HunkLine(hunk: Hunk)

  function KindOf(line: string): Kind {
    if "+++ " <= line then FileLine(TargetOf(line))
    else match ParseHunk(line) case None => Other case Some(h) => HunkLine(h)
  }

  /** Both readings of a line: as a line of a hunk body, and as a header. */
  datatype Token = Token(body: bool, inBase: bool, inHead: bool, kind: Kind)

  function Read(line: string): Token {
    var sign := if line == [] then '\0' else line[0];
    Token(sign == '-' || sign == '+' || sign == ' ' || sign == '\\',
          sign != '+' && sign != '\\', sign != '-' && sign != '\\', KindOf(line))
  }

  function ReadAll(lines: seq<string>): seq<Token> {
    seq(|lines|, i requires 0 <= i < |lines| => Read(lines[i]))
  }

  /** The headers in `lines` when `base` and `head` body lines of a hunk are still to come. */
  ghost function HeadersFrom(lines: seq<Token>, base: int, head: int): seq<Header> {
    if lines == [] then []
    else if base + head > 0 && lines[0].body then
      HeadersFrom(lines[1..], if lines[0].inBase then base - 1 else base, if lines[0].inHead then head - 1 else head)
    else match lines[0].kind
      case Other => HeadersFrom(lines[1..], base, head)
      case FileLine(path) => [File(path)] + HeadersFrom(lines[1..], base, head)
      case HunkLine(h) => [HunkHeader(h)] + HeadersFrom(lines[1..], h.baseCount, h.headCount)
  }

  method DiffHeaders(diff: string) returns (headers: seq<Header>)
    ensures headers == HeadersFrom(ReadAll(Split(diff, '\n')), 0, 0)
  {
    headers := Scan(ReadAll(Split(diff, '\n')));
  }

  method Scan(lines: seq<Token>) returns (headers: seq<Header>)
    ensures headers == HeadersFrom(lines, 0, 0)
  {
    var base: int, head: int := 0, 0;
    headers := [];
    for i := 0 to |lines|
      invariant headers + HeadersFrom(lines[i..], base, head) == HeadersFrom(lines, 0, 0)
    {
      var line := lines[i];
      assert lines[i..][0] == line && lines[i..][1..] == lines[i + 1..];
      if base + head > 0 && line.body {
        if line.inBase { base := base - 1; }
        if line.inHead { head := head - 1; }
        continue;
      }
      ghost var before := headers;
      match line.kind
      case Other =>
      case FileLine(path) =>
        headers := headers + [File(path)];
        assert headers + HeadersFrom(lines[i + 1..], base, head) == before
            + ([File(path)] + HeadersFrom(lines[i + 1..], base, head));
      case HunkLine(h) =>
        base, head := h.baseCount, h.headCount;
        headers := headers + [HunkHeader(h)];
        assert headers + HeadersFrom(lines[i + 1..], base, head) == before
            + ([HunkHeader(h)] + HeadersFrom(lines[i + 1..], base, head));
    }
  }

  // ---- The text git prints

  datatype BodyLine = Minus(text: string) | Plus(text: string) | Context(text: string) | NoNewline(text: string)
  {
    ghost function Print(): string {
      match this
      case Minus(t) => "-" + t
      case Plus(t) => "+" + t
      case Context(t) => " " + t
      case NoNewline(t) => "\\" + t
    }
  }

  datatype HunkText = HunkText(hunk: Hunk, heading: string, body: seq<BodyLine>)

  /** The `+++` line of a file, which a pure rename, a mode change and a binary file do not have. */
  datatype Target = NoTarget | Deleted | Path(path: string)

  datatype FileDiff = FileDiff(preamble: seq<string>, target: Target, hunks: seq<HunkText>)

  ghost function BaseLines(body: seq<BodyLine>): nat {
    if body == [] then 0 else (if body[0].Minus? || body[0].Context? then 1 else 0) + BaseLines(body[1..])
  }

  ghost function HeadLines(body: seq<BodyLine>): nat {
    if body == [] then 0 else (if body[0].Plus? || body[0].Context? then 1 else 0) + HeadLines(body[1..])
  }

  /** The counts of the header are those of the body; a body line may look like any header. */
  ghost predicate WellFormedHunk(h: HunkText) {
    && Printable(h.hunk) && OneLine(h.heading)
    && h.hunk.baseCount == BaseLines(h.body) && h.hunk.headCount == HeadLines(h.body)
    && forall i :: 0 <= i < |h.body| ==> OneLine(h.body[i].text)
  }

  /** A line before the `+++` line (`diff --git`, `index`, `---`, `rename from`) reads as neither header. */
  ghost predicate WellFormedPreamble(line: string) {
    OneLine(line) && KindOf(line) == Other
  }

  /** git quotes a path with a tab or a line break, so a printed path has none. */
  ghost predicate WellFormedFile(f: FileDiff) {
    && (forall i :: 0 <= i < |f.preamble| ==> WellFormedPreamble(f.preamble[i]))
    && (forall i :: 0 <= i < |f.hunks| ==> WellFormedHunk(f.hunks[i]))
    && (f.target.Path? ==> OneLine(f.target.path) && '\t' !in f.target.path)
    && (f.target.NoTarget? ==> f.hunks == [])
  }

  ghost function PrintBody(body: seq<BodyLine>): seq<string> {
    if body == [] then [] else [body[0].Print()] + PrintBody(body[1..])
  }

  ghost function PrintHunks(hunks: seq<HunkText>): seq<string>
    requires forall i :: 0 <= i < |hunks| ==> WellFormedHunk(hunks[i])
  {
    if hunks == [] then []
    else
      assert WellFormedHunk(hunks[0]);
      [PrintHunk(hunks[0].hunk, hunks[0].heading)] + PrintBody(hunks[0].body) + PrintHunks(hunks[1..])
  }

  /** git ends a `+++` path that holds a space with a tab. */
  ghost function PrintTarget(target: Target): seq<string> {
    match target
    case NoTarget => []
    case Deleted => ["+++ /dev/null"]
    case Path(p) => [PrintPath(p)]
  }

  ghost function PrintPath(path: string): string {
    "+++ b/" + path + if ' ' in path then "\t" else ""
  }

  ghost function PrintFiles(files: seq<FileDiff>): seq<string>
    requires forall i :: 0 <= i < |files| ==> WellFormedFile(files[i])
  {
    if files == [] then []
    else
      assert WellFormedFile(files[0]);
      files[0].preamble + PrintTarget(files[0].target) + PrintHunks(files[0].hunks) + PrintFiles(files[1..])
  }

  /** The whole text; its last line ends with a line break too. */
  ghost function Print(files: seq<FileDiff>): string
    requires forall i :: 0 <= i < |files| ==> WellFormedFile(files[i])
  {
    Join(PrintFiles(files) + [""], '\n')
  }

  ghost function HunkHeaders(hunks: seq<HunkText>): seq<Header> {
    if hunks == [] then [] else [HunkHeader(hunks[0].hunk)] + HunkHeaders(hunks[1..])
  }

  ghost function TargetHeader(target: Target): seq<Header> {
    match target case NoTarget => [] case Deleted => [File(None)] case Path(p) => [File(Some(p))]
  }

  ghost function Headers(files: seq<FileDiff>): seq<Header> {
    if files == [] then []
    else TargetHeader(files[0].target) + HunkHeaders(files[0].hunks) + Headers(files[1..])
  }

  // ---- The round trip

  ghost predicate ReadsBody(t: Token, line: BodyLine) {
    && t.body && (t.inBase <==> line.Minus? || line.Context?) && (t.inHead <==> line.Plus? || line.Context?)
    && (line.NoNewline? ==> t.kind == Other)
  }

  /** The tokens read as the body, the hunks, the target line and the files that were printed. */
  ghost predicate SpellBody(tokens: seq<Token>, body: seq<BodyLine>) {
    |tokens| == |body| && forall i :: 0 <= i < |body| ==> ReadsBody(tokens[i], body[i])
  }

  ghost predicate SpellHunks(tokens: seq<Token>, hunks: seq<HunkText>) {
    if hunks == [] then tokens == []
    else
      var n := 1 + |hunks[0].body|;
      && |tokens| >= n && tokens[0].kind == HunkLine(hunks[0].hunk)
      && SpellBody(tokens[1..n], hunks[0].body) && SpellHunks(tokens[n..], hunks[1..])
  }

  ghost predicate SpellTarget(tokens: seq<Token>, target: Target) {
    match target
    case NoTarget => tokens == []
    case Deleted => |tokens| == 1 && tokens[0].kind == FileLine(None)
    case Path(p) => |tokens| == 1 && tokens[0].kind == FileLine(Some(p))
  }

  ghost predicate SpellPreamble(tokens: seq<Token>) {
    forall i :: 0 <= i < |tokens| ==> tokens[i].kind == Other
  }

  lemma {:induction false} BodyIsSkipped(tokens: seq<Token>, body: seq<BodyLine>, rest: seq<Token>)
    requires SpellBody(tokens, body)
    ensures HeadersFrom(tokens + rest, BaseLines(body), HeadLines(body)) == HeadersFrom(rest, 0, 0)
  {
    if body == [] {
      assert tokens + rest == rest;
    } else {
      assert ReadsBody(tokens[0], body[0]);
      assert (tokens + rest)[0] == tokens[0] && (tokens + rest)[1..] == tokens[1..] + rest;
      BodyIsSkipped(tokens[1..], body[1..], rest);
    }
  }

  lemma {:induction false} HunksAreRead(tokens: seq<Token>, hunks: seq<HunkText>, rest: seq<Token>)
    requires SpellHunks(tokens, hunks) && forall i :: 0 <= i < |hunks| ==> WellFormedHunk(hunks[i])
    ensures HeadersFrom(tokens + rest, 0, 0) == HunkHeaders(hunks) + HeadersFrom(rest, 0, 0)
  {
    if hunks == [] {
      assert tokens + rest == rest;
    } else {
      var h := hunks[0];
      var n := 1 + |h.body|;
      assert WellFormedHunk(h);
      assert (tokens + rest)[1..] == tokens[1..n] + (tokens[n..] + rest);
      BodyIsSkipped(tokens[1..n], h.body, tokens[n..] + rest);
      HunksAreRead(tokens[n..], hunks[1..], rest);
    }
  }

  lemma {:induction false} PreambleIsSkipped(tokens: seq<Token>, rest: seq<Token>)
    requires SpellPreamble(tokens)
    ensures HeadersFrom(tokens + rest, 0, 0) == HeadersFrom(rest, 0, 0)
  {
    if tokens == [] {
      assert tokens + rest == rest;
    } else {
      assert (tokens + rest)[0] == tokens[0] && (tokens + rest)[1..] == tokens[1..] + rest;
      PreambleIsSkipped(tokens[1..], rest);
    }
  }

  lemma {:induction false} TargetIsRead(tokens: seq<Token>, target: Target, rest: seq<Token>)
    requires SpellTarget(tokens, target)
    ensures HeadersFrom(tokens + rest, 0, 0) == TargetHeader(target) + HeadersFrom(rest, 0, 0)
  {
    if target.NoTarget? {
      assert tokens + rest == rest;
    } else {
      assert (tokens + rest)[0] == tokens[0] && (tokens + rest)[1..] == rest;
    }
  }

  lemma {:induction false} FileIsRead(preamble: seq<Token>, target: seq<Token>, hunks: seq<Token>, f: FileDiff,
                                      rest: seq<Token>)
    requires WellFormedFile(f) && SpellPreamble(preamble) && SpellTarget(target, f.target) && SpellHunks(hunks, f.hunks)
    ensures HeadersFrom(preamble + (target + (hunks + rest)), 0, 0)
         == TargetHeader(f.target) + (HunkHeaders(f.hunks) + HeadersFrom(rest, 0, 0))
  {
    PreambleIsSkipped(preamble, target + (hunks + rest));
    TargetIsRead(target, f.target, hunks + rest);
    HunksAreRead(hunks, f.hunks, rest);
  }

  // The printed lines spell what was printed.

  lemma {:induction false} PathReads(p: string)
    requires '\t' !in p
    ensures Read(PrintPath(p)).kind == FileLine(Some(p))
  {
    var end := if ' ' in p then "\t" else "";
    var line := PrintPath(p);
    assert line[4..] == "b/" + p + end;
    assert ("b/" + p)[2..] == p;
    if end == "" {
      assert "b/" + p + end == "b/" + p;
      assert ("b/" + p)[|p| + 1] == if p == "" then '/' else p[|p| - 1];
      assert ("b/" + p)[0] != "/dev/null"[0];
    } else {
      assert ("b/" + p + end)[..|p| + 2] == "b/" + p;
      assert ("b/" + p)[0] != "/dev/null"[0];
    }
  }

  lemma {:induction false} HunkReads(h: Hunk, heading: string)
    requires Printable(h)
    ensures Read(PrintHunk(h, heading)).kind == HunkLine(h)
  {
    ParsePrintedHunk(h, heading);
    assert PrintHunk(h, heading)[0] == '@';
  }

  lemma {:induction false} BodyReads(line: BodyLine)
    ensures ReadsBody(Read(line.Print()), line)
  {
  }

  lemma {:induction false} TargetReads(target: Target)
    requires target.Path? ==> '\t' !in target.path
    ensures SpellTarget(ReadAll(PrintTarget(target)), target)
  {
    if target.Path? {
      PathReads(target.path);
    } else {
      assert "+++ /dev/null"[4..] == "/dev/null";
    }
  }

  lemma {:induction false} ReadAllSplits(a: seq<string>, b: seq<string>)
    ensures ReadAll(a + b) == ReadAll(a) + ReadAll(b)
  {
  }

  lemma {:induction false} PrintBodyAt(body: seq<BodyLine>)
    ensures |PrintBody(body)| == |body| && forall i :: 0 <= i < |body| ==> PrintBody(body)[i] == body[i].Print()
  {
    if body != [] { PrintBodyAt(body[1..]); }
  }

  lemma {:induction false} BodySpells(body: seq<BodyLine>)
    ensures SpellBody(ReadAll(PrintBody(body)), body)
  {
    PrintBodyAt(body);
    forall i | 0 <= i < |body| ensures ReadsBody(ReadAll(PrintBody(body))[i], body[i]) {
      BodyReads(body[i]);
    }
  }

  lemma {:induction false} HunksSpell(hunks: seq<HunkText>)
    requires forall i :: 0 <= i < |hunks| ==> WellFormedHunk(hunks[i])
    ensures SpellHunks(ReadAll(PrintHunks(hunks)), hunks)
  {
    if hunks != [] {
      var h := hunks[0];
      assert WellFormedHunk(h);
      var first := [PrintHunk(h.hunk, h.heading)];
      HunkReads(h.hunk, h.heading);
      BodySpells(h.body);
      HunksSpell(hunks[1..]);
      ReadAllSplits(first + PrintBody(h.body), PrintHunks(hunks[1..]));
      ReadAllSplits(first, PrintBody(h.body));
      HunksJoin(ReadAll(first), ReadAll(PrintBody(h.body)), ReadAll(PrintHunks(hunks[1..])), hunks);
    }
  }

  lemma {:induction false} HunksJoin(first: seq<Token>, body: seq<Token>, more: seq<Token>, hunks: seq<HunkText>)
    requires hunks != [] && |first| == 1 && first[0].kind == HunkLine(hunks[0].hunk)
    requires SpellBody(body, hunks[0].body) && SpellHunks(more, hunks[1..])
    ensures SpellHunks(first + body + more, hunks)
  {
    var tokens, n := first + body + more, 1 + |body|;
    assert tokens[1..n] == body && tokens[n..] == more;
  }

  lemma {:induction false} FilesAreRead(files: seq<FileDiff>, rest: seq<Token>)
    requires forall i :: 0 <= i < |files| ==> WellFormedFile(files[i])
    ensures HeadersFrom(ReadAll(PrintFiles(files)) + rest, 0, 0) == Headers(files) + HeadersFrom(rest, 0, 0)
  {
    if files == [] {
      assert ReadAll(PrintFiles(files)) + rest == rest;
    } else {
      var f := files[0];
      assert WellFormedFile(f);
      FilesAreRead(files[1..], rest);
      FileSpells(f, PrintFiles(files[1..]), rest);
      Regroup(TargetHeader(f.target), HunkHeaders(f.hunks), Headers(files[1..]), HeadersFrom(rest, 0, 0));
    }
  }

  lemma {:induction false} Regroup(a: seq<Header>, b: seq<Header>, c: seq<Header>, d: seq<Header>)
    ensures a + (b + (c + d)) == a + b + c + d
  {
  }

  lemma {:induction false} FileSpells(f: FileDiff, more: seq<string>, rest: seq<Token>)
    requires WellFormedFile(f)
    ensures HeadersFrom(ReadAll(f.preamble + PrintTarget(f.target) + PrintHunks(f.hunks) + more) + rest, 0, 0)
         == TargetHeader(f.target) + (HunkHeaders(f.hunks) + HeadersFrom(ReadAll(more) + rest, 0, 0))
  {
    var preamble, target, hunks, later := ReadAll(f.preamble), ReadAll(PrintTarget(f.target)),
        ReadAll(PrintHunks(f.hunks)), ReadAll(more);
    ReadAllSplits(f.preamble + PrintTarget(f.target) + PrintHunks(f.hunks), more);
    ReadAllSplits(f.preamble + PrintTarget(f.target), PrintHunks(f.hunks));
    ReadAllSplits(f.preamble, PrintTarget(f.target));
    assert preamble + target + hunks + later + rest == preamble + (target + (hunks + (later + rest)));
    PreambleSpells(f);
    TargetReads(f.target);
    HunksSpell(f.hunks);
    FileIsRead(preamble, target, hunks, f, later + rest);
  }

  lemma {:induction false} PreambleSpells(f: FileDiff)
    requires WellFormedFile(f)
    ensures SpellPreamble(ReadAll(f.preamble))
  {
    forall i | 0 <= i < |f.preamble| ensures ReadAll(f.preamble)[i].kind == Other {
      assert WellFormedPreamble(f.preamble[i]);
    }
  }

  lemma {:induction false} BodyIsLines(body: seq<BodyLine>)
    requires forall i :: 0 <= i < |body| ==> OneLine(body[i].text)
    ensures forall i :: 0 <= i < |PrintBody(body)| ==> OneLine(PrintBody(body)[i])
  {
    if body != [] { BodyIsLines(body[1..]); }
  }

  lemma {:induction false} HunksAreLines(hunks: seq<HunkText>)
    requires forall i :: 0 <= i < |hunks| ==> WellFormedHunk(hunks[i])
    ensures forall i :: 0 <= i < |PrintHunks(hunks)| ==> OneLine(PrintHunks(hunks)[i])
  {
    if hunks != [] {
      HeaderIsLine(hunks[0]);
      BodyIsLines(hunks[0].body);
      HunksAreLines(hunks[1..]);
    }
  }

  lemma {:induction false} HeaderIsLine(h: HunkText)
    requires WellFormedHunk(h)
    ensures OneLine(PrintHunk(h.hunk, h.heading))
  {
    assert OneLine(Decimal(h.hunk.baseStart)) && OneLine(Decimal(h.hunk.headStart))
           && OneLine(Decimal(h.hunk.baseCount)) && OneLine(Decimal(h.hunk.headCount));
  }

  lemma {:induction false} FilesAreLines(files: seq<FileDiff>)
    requires forall i :: 0 <= i < |files| ==> WellFormedFile(files[i])
    ensures forall i :: 0 <= i < |PrintFiles(files)| ==> OneLine(PrintFiles(files)[i])
  {
    if files != [] {
      assert forall i :: 0 <= i < |files[0].preamble| ==> WellFormedPreamble(files[0].preamble[i]);
      HunksAreLines(files[0].hunks);
      FilesAreLines(files[1..]);
    }
  }

  /** diffHeaders reads back exactly the file and hunk headers that git printed. */
  lemma {:induction false} HeadersRoundTrip(files: seq<FileDiff>)
    requires forall i :: 0 <= i < |files| ==> WellFormedFile(files[i])
    ensures HeadersFrom(ReadAll(Split(Print(files), '\n')), 0, 0) == Headers(files)
  {
    FilesAreLines(files);
    SplitJoin(PrintFiles(files) + [""], '\n');
    ReadAllSplits(PrintFiles(files), [""]);
    FilesAreRead(files, ReadAll([""]));
    LastLineIsEmpty();
  }

  lemma {:induction false} LastLineIsEmpty()
    ensures HeadersFrom(ReadAll([""]), 0, 0) == []
  {
    assert ReadAll([""])[0].kind == Other && ReadAll([""])[1..] == [];
  }
}
