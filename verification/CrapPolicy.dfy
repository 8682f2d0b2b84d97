/**
 * The CRAP gate's rules (scripts/crap/policy.ts) over its limits (scripts/crap/thresholds.ts); exact scores.
 * CRAP = CC^2 * (1 - coverage)^3 + CC.
 */
module CrapPolicy {
  import opened Sorting
  import opened Forms
  import opened Hunks
  import opened Keys

  // ---- scripts/crap/thresholds.ts

  const NEW_FUNCTION_MAX_CRAP := 15.0
  const NEW_FUNCTION_MAX_CC := 8.0
  const CRAP_TAX_STAGE := 30.0
  const GROWTH_MAX_CC_WITHOUT_COVERAGE := 10
  const RELIEF_MAX_CRAP := CRAP_TAX_STAGE
  const MOVE_RELIEF_MAX_CC := 20

  function NewFunctionMax(crap: Option<real>): real {
    if crap.None? then NEW_FUNCTION_MAX_CC else NEW_FUNCTION_MAX_CRAP
  }

  predicate FloorAllowsGrowth(headCc: int, headCrap: Option<real>) {
    if headCrap.None? then headCc <= GROWTH_MAX_CC_WITHOUT_COVERAGE else headCrap.value <= CRAP_TAX_STAGE
  }

  predicate NetExtractionRelief(baseTotal: int, headTotal: int) { headTotal < baseTotal }

  predicate ReliefAllowsCrap(crap: Option<real>) { crap.None? || crap.value <= RELIEF_MAX_CRAP }

  predicate MoveRelief(keptDrop: int, newDecisions: int, newCc: int) {
    keptDrop >= newDecisions && newCc <= MOVE_RELIEF_MAX_CC
  }

  // ---- Rows and findings

  /** `key` is the row's `path::namespace::name`. */
  datatype Row = Row(key: string, path: string, startLine: int, endLine: int, complexity: int, crap: Option<real>,
                     bunSuspect: bool)

  datatype Rule = FloorCc | FloorCrap | NewFunction | CrapTax

  datatype Severity = Violation | Warning

  datatype Finding = Finding(rule: Rule, severity: Severity, head: Row)

  /** Spans in half lines, as Hunks.SpanOf makes them. */
  type Changed = map<string, seq<(int, int)>>

  predicate Touched(row: Row, changed: Changed) {
    row.path in changed && Touches(row.startLine, row.endLine, changed[row.path])
  }

  function FloorBreach(base: Row, head: Row): Option<Rule> {
    var grewCc := head.complexity > base.complexity;
    var grewCrap := base.crap.Some? && head.crap.Some? && head.crap.value > base.crap.value;
    if !(grewCc || grewCrap) || FloorAllowsGrowth(head.complexity, head.crap) then None
    else Some(if grewCc then FloorCc else FloorCrap)
  }

  function Compare(base: Row, head: Row, changed: Changed): Option<Finding> {
    var floor := FloorBreach(base, head);
    if floor.Some? then Some(Finding(floor.value, Violation, head))
    else
      var scored := base.crap.Some? && head.crap.Some?;
      var baseScore := if scored then base.crap.value else base.complexity as real;
      var headScore := if scored then head.crap.value else head.complexity as real;
      if baseScore > CRAP_TAX_STAGE && headScore >= baseScore && Touched(head, changed) then
        Some(Finding(CrapTax, Warning, head))
      else None
  }

  datatype Totals = Totals(base: int, head: int)

  datatype MoveTotals = MoveTotals(keptDrop: int, newDecisions: int)

  predicate HasReliefNote(head: Row, totals: Totals, moves: MoveTotals) {
    NetExtractionRelief(totals.base, totals.head) || MoveRelief(moves.keptDrop, moves.newDecisions, head.complexity)
  }

  function JudgeNew(head: Row, totals: Totals, moves: MoveTotals): Option<Finding> {
    var score := if head.crap.Some? then head.crap.value else head.complexity as real;
    if score <= NewFunctionMax(head.crap) then None
    else
      var relieved := HasReliefNote(head, totals, moves) && ReliefAllowsCrap(head.crap);
      Some(Finding(NewFunction, if relieved then Warning else Violation, head))
  }

  /** The `judge` closure of evaluate. */
  function Judge(before: Option<Row>, head: Row, changed: Changed, totals: Totals, moves: MoveTotals): Option<Finding> {
    if before.Some? then Compare(before.value, head, changed) else JudgeNew(head, totals, moves)
  }

  function AtFullCoverage(head: Row): Row { head.(crap := Some(head.complexity as real)) }

  function CoverageRelief(finding: Finding, before: Option<Row>, changed: Changed, totals: Totals, moves: MoveTotals,
                          incomplete: bool): Finding {
    var bun := finding.head.bunSuspect;
    if finding.head.crap.None? || (!bun && (!incomplete || finding.severity != Violation)) then finding
    else
      var atFull := Judge(before, AtFullCoverage(finding.head), changed, totals, moves);
      if atFull.Some? && (atFull.value.severity == Violation || finding.severity == Warning) then finding
      else finding.(severity := Warning)
  }

  /** What evaluate reports for one head row. */
  function Verdict(before: Option<Row>, head: Row, changed: Changed, totals: Totals, moves: MoveTotals,
                   incomplete: bool): Option<Finding> {
    match Judge(before, head, changed, totals, moves)
    case None => None
    case Some(f) => Some(CoverageRelief(f, before, changed, totals, moves, incomplete))
  }

  predicate Blocks(f: Option<Finding>) { f.Some? && f.value.severity == Violation }

  // ---- Coverage

  function Crap(cc: int, coverage: real): real {
    cc as real * cc as real * ((1.0 - coverage) * (1.0 - coverage) * (1.0 - coverage)) + cc as real
  }

  ghost function AtCoverage(head: Row, coverage: real): Row { head.(crap := Some(Crap(head.complexity, coverage))) }

  lemma {:induction false} ProductsGrow(a: real, b: real, c: real)
    requires 0.0 <= a <= b && 0.0 <= c
    ensures 0.0 <= a * c <= b * c
  {
  }

  lemma {:induction false} CrapFallsWithCoverage(cc: int, low: real, high: real)
    requires 0.0 <= low <= high <= 1.0
    ensures Crap(cc, high) <= Crap(cc, low)
    ensures cc as real <= Crap(cc, high) && Crap(cc, 1.0) == cc as real
    ensures Crap(cc, 0.0) == cc as real * cc as real + cc as real
  {
    var a, b, square := 1.0 - high, 1.0 - low, cc as real * cc as real;
    CubesGrow(a, b);
    assert square >= 0.0;
    ProductsGrow(a * a * a, b * b * b, square);
    assert square * (a * a * a) == a * a * a * square && square * (b * b * b) == b * b * b * square;
  }

  lemma {:induction false} CubesGrow(a: real, b: real)
    requires 0.0 <= a <= b
    ensures 0.0 <= a * a * a <= b * b * b
  {
    ProductsGrow(a, b, a);
    ProductsGrow(a, b, b);
    assert a * a <= b * b by { assert b * a == a * b; }
    ProductsGrow(a * a, b * b, a);
    ProductsGrow(a, b, b * b);
    assert b * b * a == a * (b * b) && b * (b * b) == b * b * b;
  }

  /** A violation stays one when only the score rises. */
  lemma {:induction false} ViolationsAreUpwardClosed(before: Option<Row>, head: Row, higher: real, changed: Changed,
                                                     totals: Totals, moves: MoveTotals)
    requires head.crap.Some? && head.crap.value <= higher
    requires Blocks(Judge(before, head, changed, totals, moves))
    ensures Blocks(Judge(before, head.(crap := Some(higher)), changed, totals, moves))
  {
  }

  /** On an incomplete or suspect report, a scored function blocks exactly when it would block at full coverage. */
  lemma {:induction false} BlocksIffAtFullCoverage(before: Option<Row>, head: Row, changed: Changed, totals: Totals,
                                                   moves: MoveTotals, incomplete: bool)
    requires head.crap.Some? && head.complexity as real <= head.crap.value && (incomplete || head.bunSuspect)
    ensures Blocks(Verdict(before, head, changed, totals, moves, incomplete)) <==>
            Blocks(Judge(before, AtFullCoverage(head), changed, totals, moves))
  {
    if Blocks(Judge(before, AtFullCoverage(head), changed, totals, moves)) {
      ViolationsAreUpwardClosed(before, AtFullCoverage(head), head.crap.value, changed, totals, moves);
      assert AtFullCoverage(head).(crap := head.crap) == head;
    }
  }

  /** So a block holds at every coverage the missing hits could have given the function. */
  lemma {:induction false} BlocksIffAtEveryCoverage(before: Option<Row>, head: Row, coverage: real, changed: Changed,
                                                     totals: Totals, moves: MoveTotals, incomplete: bool)
    requires 0.0 <= coverage <= 1.0 && head.crap == Some(Crap(head.complexity, coverage))
    requires incomplete || head.bunSuspect
    ensures Blocks(Verdict(before, head, changed, totals, moves, incomplete)) <==>
            forall c :: 0.0 <= c <= 1.0 ==> Blocks(Judge(before, AtCoverage(head, c), changed, totals, moves))
  {
    CrapFallsWithCoverage(head.complexity, coverage, 1.0);
    BlocksIffAtFullCoverage(before, head, changed, totals, moves, incomplete);
    assert AtCoverage(head, 1.0) == AtFullCoverage(head);
    if Blocks(Judge(before, AtFullCoverage(head), changed, totals, moves)) {
      forall c | 0.0 <= c <= 1.0 ensures Blocks(Judge(before, AtCoverage(head, c), changed, totals, moves)) {
        CrapFallsWithCoverage(head.complexity, c, 1.0);
        ViolationsAreUpwardClosed(before, AtFullCoverage(head), Crap(head.complexity, c), changed, totals, moves);
      }
    }
  }

  // ---- The rules in numbers

  /** CC grew, or CRAP with both sides scored. */
  ghost predicate Grew(base: Row, head: Row) {
    || head.complexity > base.complexity
    || (base.crap.Some? && head.crap.Some? && head.crap.value > base.crap.value)
  }

  /** A kept function must not grow past 10 CC without a score, or past 30 CRAP with one. */
  ghost predicate GrewTooFar(base: Row, head: Row) {
    Grew(base, head) && if head.crap.None? then head.complexity > 10 else head.crap.value > 30.0
  }

  /** A hotspot above 30 that did not shrink, in CRAP with both sides scored and else in CC. */
  ghost predicate StaysHot(base: Row, head: Row) {
    if base.crap.Some? && head.crap.Some? then base.crap.value > 30.0 && head.crap.value >= base.crap.value
    else base.complexity > 30 && head.complexity >= base.complexity
  }

  /** A new function may start with 8 CC without a score, or with 15 CRAP. */
  ghost predicate StartsTooLarge(head: Row) {
    if head.crap.None? then head.complexity > 8 else head.crap.value > 15.0
  }

  /** The totals fell, or kept functions gave what the new ones took and this one is at most 20 CC; up to 30 CRAP. */
  ghost predicate IsRelieved(head: Row, totals: Totals, moves: MoveTotals) {
    && (totals.head < totals.base || (moves.keptDrop >= moves.newDecisions && head.complexity <= 20))
    && (head.crap.None? || head.crap.value <= 30.0)
  }

  ghost predicate RulesBlock(before: Option<Row>, head: Row, totals: Totals, moves: MoveTotals) {
    match before
    case Some(base) => GrewTooFar(base, head)
    case None => StartsTooLarge(head) && !IsRelieved(head, totals, moves)
  }

  ghost predicate RulesFind(before: Option<Row>, head: Row, changed: Changed) {
    match before
    case Some(base) => GrewTooFar(base, head) || (StaysHot(base, head) && Touched(head, changed))
    case None => StartsTooLarge(head)
  }

  ghost predicate RuleApplies(rule: Rule, before: Option<Row>, head: Row) {
    match rule
    case NewFunction => before.None?
    case FloorCc => before.Some? && GrewTooFar(before.value, head) && head.complexity > before.value.complexity
    case FloorCrap => before.Some? && GrewTooFar(before.value, head) && head.complexity <= before.value.complexity
    case CrapTax => before.Some? && !GrewTooFar(before.value, head)
  }

  lemma {:induction false} JudgeFollowsTheRules(before: Option<Row>, head: Row, changed: Changed, totals: Totals,
                                                moves: MoveTotals)
    ensures var f := Judge(before, head, changed, totals, moves);
      && (f.Some? <==> RulesFind(before, head, changed)) && (Blocks(f) <==> RulesBlock(before, head, totals, moves))
      && (f.Some? ==> f.value.head == head && RuleApplies(f.value.rule, before, head))
  {
  }

  /** The score does not count against the function: hits may be missing, from the whole report or from it alone. */
  ghost predicate IsForgiven(head: Row, incomplete: bool) { head.crap.Some? && (incomplete || head.bunSuspect) }

  /**
   * What evaluate says of one head row: found by a rule, and blocked on the score it has or, when hits may be
   * missing, on the one that full coverage would give it.
   */
  ghost predicate FollowsTheRules(f: Option<Finding>, before: Option<Row>, head: Row, changed: Changed, totals: Totals,
                                  moves: MoveTotals, incomplete: bool) {
    && (f.Some? <==> RulesFind(before, head, changed))
    && (f.Some? ==> f.value.head == head && RuleApplies(f.value.rule, before, head))
    && (!IsForgiven(head, incomplete) ==> (Blocks(f) <==> RulesBlock(before, head, totals, moves)))
    && (IsForgiven(head, incomplete) && head.complexity as real <= head.crap.value ==>
          (Blocks(f) <==> RulesBlock(before, head.(crap := Some(head.complexity as real)), totals, moves)))
  }

  lemma {:induction false} VerdictFollowsTheRules(before: Option<Row>, head: Row, changed: Changed, totals: Totals,
                                                  moves: MoveTotals, incomplete: bool)
    ensures var f := Verdict(before, head, changed, totals, moves, incomplete);
      FollowsTheRules(f, before, head, changed, totals, moves, incomplete)
  {
    JudgeFollowsTheRules(before, head, changed, totals, moves);
    if IsForgiven(head, incomplete) && head.complexity as real <= head.crap.value {
      BlocksIffAtFullCoverage(before, head, changed, totals, moves, incomplete);
      JudgeFollowsTheRules(before, AtFullCoverage(head), changed, totals, moves);
    }
  }

  // ---- Totals and moves

  ghost function SumOver(keys: set<string>, f: string -> int): int {
    if keys == {} then 0
    else
      var k :| k in keys;
      f(k) + SumOver(keys - {k}, f)
  }

  lemma {:induction false} SumRemoves(keys: set<string>, k: string, f: string -> int)
    requires k in keys
    ensures SumOver(keys, f) == f(k) + SumOver(keys - {k}, f)
    decreases |keys|
  {
    var first :| first in keys && SumOver(keys, f) == f(first) + SumOver(keys - {first}, f);
    if first != k {
      SumRemoves(keys - {first}, k, f);
      SumRemoves(keys - {k}, first, f);
      assert keys - {first} - {k} == keys - {k} - {first};
    }
  }

  lemma {:induction false} SumAdds(keys: set<string>, k: string, f: string -> int)
    requires k !in keys
    ensures SumOver(keys + {k}, f) == SumOver(keys, f) + f(k)
  {
    SumRemoves(keys + {k}, k, f);
    assert keys + {k} - {k} == keys;
  }

  lemma {:induction false} SumSplits(keys: set<string>, others: set<string>, f: string -> int)
    requires keys !! others
    ensures SumOver(keys + others, f) == SumOver(keys, f) + SumOver(others, f)
    decreases |others|
  {
    if others == {} {
      assert keys + others == keys;
    } else {
      var k :| k in others;
      SumSplits(keys, others - {k}, f);
      SumRemoves(others, k, f);
      SumAdds(keys + (others - {k}), k, f);
      assert keys + (others - {k}) + {k} == keys + others;
    }
  }

  type Rows = map<string, Row>

  ghost function CcOf(rows: Rows): string -> int { k => if k in rows then rows[k].complexity else 0 }

  /** What a kept function lost. */
  ghost function DropOf(base: Rows, head: Rows): string -> int {
    k => if k in base && k in head then base[k].complexity - head[k].complexity else 0
  }

  /** The decision points of a new function. */
  ghost function DecisionsOf(base: Rows, head: Rows): string -> int {
    k => if k !in base && k in head then head[k].complexity - 1 else 0
  }

  method SumMoves(base: Rows, head: Rows) returns (moves: MoveTotals)
    ensures moves == MoveTotals(SumOver(head.Keys, DropOf(base, head)), SumOver(head.Keys, DecisionsOf(base, head)))
  {
    ghost var drop, decisions := DropOf(base, head), DecisionsOf(base, head);
    var keptDrop, newDecisions := 0, 0;
    var left := head.Keys;
    while left != {}
      invariant left <= head.Keys
      invariant keptDrop + SumOver(left, drop) == SumOver(head.Keys, drop)
      invariant newDecisions + SumOver(left, decisions) == SumOver(head.Keys, decisions)
      decreases |left|
    {
      var key :| key in left;
      SumRemoves(left, key, drop);
      SumRemoves(left, key, decisions);
      left := left - {key};
      if key in base {
        keptDrop := keptDrop + (base[key].complexity - head[key].complexity);
      } else {
        newDecisions := newDecisions + (head[key].complexity - 1);
      }
    }
    moves := MoveTotals(keptDrop, newDecisions);
  }

  /** The balance of one key, of any four measures that have it. */
  ghost predicate Balanced(k: string, base: set<string>, cc: string -> int, baseCc: string -> int, drop: string -> int,
                           decisions: string -> int) {
    cc(k) + drop(k) == decisions(k) + if k in base then baseCc(k) else 1
  }

  lemma {:induction false} HeadBalances(keys: set<string>, base: set<string>, cc: string -> int, baseCc: string -> int,
                                        drop: string -> int, decisions: string -> int)
    requires forall k :: k in keys ==> Balanced(k, base, cc, baseCc, drop, decisions)
    ensures SumOver(keys, cc) + SumOver(keys, drop)
            == SumOver(keys, decisions) + |keys - base| + SumOver(keys * base, baseCc)
    decreases |keys|
  {
    if keys == {} {
      assert keys - base == {} && keys * base == {};
    } else {
      var k :| k in keys;
      var rest := keys - {k};
      HeadBalances(rest, base, cc, baseCc, drop, decisions);
      assert Balanced(k, base, cc, baseCc, drop, decisions);
      assert SumOver(keys, cc) == cc(k) + SumOver(rest, cc) by { SumRemoves(keys, k, cc); }
      assert SumOver(keys, drop) == drop(k) + SumOver(rest, drop) by { SumRemoves(keys, k, drop); }
      assert SumOver(keys, decisions) == decisions(k) + SumOver(rest, decisions) by { SumRemoves(keys, k, decisions); }
      InBase(keys, k, base, baseCc);
    }
  }

  lemma {:induction false} InBase(keys: set<string>, k: string, base: set<string>, f: string -> int)
    requires k in keys
    ensures |keys - base| + SumOver(keys * base, f) ==
            |(keys - {k}) - base| + SumOver((keys - {k}) * base, f) + if k in base then f(k) else 1
  {
    if k in base {
      SumRemoves(keys * base, k, f);
      assert keys * base - {k} == (keys - {k}) * base;
      assert keys - base == (keys - {k}) - base;
    } else {
      assert keys * base == (keys - {k}) * base;
      assert keys - base == ((keys - {k}) - base) + {k};
    }
  }

  lemma {:induction false} KeyedTotalsBalance(base: Rows, head: Rows)
    ensures SumOver(head.Keys, CcOf(head)) - SumOver(base.Keys, CcOf(base)) ==
            SumOver(head.Keys, DecisionsOf(base, head)) + |head.Keys - base.Keys|
            - SumOver(head.Keys, DropOf(base, head)) - SumOver(base.Keys - head.Keys, CcOf(base))
  {
    HeadBalances(head.Keys, base.Keys, CcOf(head), CcOf(base), DropOf(base, head), DecisionsOf(base, head));
    SumIn(base.Keys, head.Keys, CcOf(base));
  }

  lemma {:induction false} SumIn(keys: set<string>, others: set<string>, f: string -> int)
    ensures SumOver(keys, f) == SumOver(others * keys, f) + SumOver(keys - others, f)
  {
    SumSplits(others * keys, keys - others, f);
    assert others * keys + (keys - others) == keys;
  }

  // ---- evaluate

  function StartOf(row: Row): real { row.startLine as real }

  function KeysOf(rows: seq<Row>): (r: seq<string>)
    ensures |r| == |rows| && forall i :: 0 <= i < |r| ==> r[i] == rows[i].key
  {
    seq(|rows|, i requires 0 <= i < |rows| => rows[i].key)
  }

  /** Ordinals follow the start lines; rows of one line keep the order they came in. */
  lemma {:induction false} KeyedByStartLine(rows: seq<Row>, i: nat, j: nat)
    requires i < j < |SortBy(rows, StartOf)|
    ensures var x, y := SortBy(rows, StartOf)[i], SortBy(rows, StartOf)[j];
      x.startLine < y.startLine || (x.startLine == y.startLine && Precedes(rows, x, y))
  {
    SortSorts(rows, StartOf);
    var sorted := SortBy(rows, StartOf);
    assert StartOf(sorted[i]) <= StartOf(sorted[j]);
    if StartOf(sorted[i]) == StartOf(sorted[j]) { SortKeepsOrder(rows, StartOf, i, j); }
  }

  method TotalComplexity(rows: seq<Row>) returns (sum: int)
    ensures sum == Total(rows)
  {
    sum := 0;
    for i := 0 to |rows|
      invariant sum == Total(rows[..i])
    {
      assert rows[..i + 1][..i] == rows[..i];
      sum := sum + rows[i].complexity;
    }
    assert rows[..|rows|] == rows;
  }

  ghost function Total(rows: seq<Row>): int {
    if rows == [] then 0 else Total(rows[..|rows| - 1]) + rows[|rows| - 1].complexity
  }

  lemma {:induction false} TotalOfCons(x: Row, rows: seq<Row>)
    ensures Total([x] + rows) == x.complexity + Total(rows)
    decreases |rows|
  {
    var all := [x] + rows;
    if rows == [] {
      assert all[..0] == [];
    } else {
      var n := |rows| - 1;
      TotalOfCons(x, rows[..n]);
      assert all[..|all| - 1] == [x] + rows[..n] && all[|all| - 1] == rows[n];
    }
  }

  lemma {:induction false} TotalOfInsert(x: Row, rows: seq<Row>)
    ensures Total(Insert(x, rows, StartOf)) == x.complexity + Total(rows)
  {
    if rows == [] || StartOf(x) <= StartOf(rows[0]) {
      TotalOfCons(x, rows);
    } else {
      TotalOfInsert(x, rows[1..]);
      TotalOfCons(rows[0], Insert(x, rows[1..], StartOf));
      TotalOfCons(rows[0], rows[1..]);
      assert rows == [rows[0]] + rows[1..];
    }
  }

  lemma {:induction false} TotalOfSorted(rows: seq<Row>)
    ensures Total(SortBy(rows, StartOf)) == Total(rows)
  {
    if rows != [] {
      TotalOfSorted(rows[1..]);
      TotalOfInsert(rows[0], SortBy(rows[1..], StartOf));
      TotalOfCons(rows[0], rows[1..]);
      assert rows == [rows[0]] + rows[1..];
    }
  }

  function Before(base: Rows, key: string): Option<Row> { if key in base then Some(base[key]) else None }

  /** keyRows over the rows of one side, in start-line order. */
  ghost predicate IsKeyed(rows: seq<Row>, keyed: Rows) {
    SameElements(rows, StartOf);
    var sorted := SortBy(rows, StartOf);
    KeyedBy(KeysOf(sorted), sorted, keyed)
  }

  /** No two rows get the same key. */
  ghost predicate NoRowLost(rows: seq<Row>) { Distinct(AllAssigned(KeysOf(SortBy(rows, StartOf)))) }

  ghost predicate HoldsEach(names: seq<string>, rows: seq<Row>, keyed: Rows) {
    |names| == |rows| && forall i :: 0 <= i < |names| ==> names[i] in keyed && keyed[names[i]] == rows[i]
  }

  ghost function Named(names: seq<string>): set<string> { set k | k in names }

  lemma {:induction false} DistinctNamesHoldEach(names: seq<string>, rows: seq<Row>, keyed: Rows)
    requires |names| == |rows| && Distinct(names) && Holds(names, rows, |names|, keyed)
    ensures HoldsEach(names, rows, keyed) && keyed.Keys == Named(names)
  {
    assert names[..|names|] == names;
    forall i | 0 <= i < |names| ensures names[i] !in names[i + 1..|names|] {}
  }

  lemma {:induction false} SumOfNames(names: seq<string>, rows: seq<Row>, keyed: Rows, n: nat)
    requires HoldsEach(names, rows, keyed) && Distinct(names) && n <= |names|
    ensures SumOver(Named(names[..n]), CcOf(keyed)) == Total(rows[..n])
  {
    if n == 0 {
      assert Named(names[..0]) == {};
    } else {
      SumOfNames(names, rows, keyed, n - 1);
      assert names[..n] == names[..n - 1] + [names[n - 1]] && rows[..n][..n - 1] == rows[..n - 1];
      var before := Named(names[..n - 1]);
      assert Named(names[..n]) == before + {names[n - 1]};
      SumAdds(before, names[n - 1], CcOf(keyed));
    }
  }

  /** When no row is lost, the keyed rows have the total that evaluate compares. */
  lemma {:induction false} KeyedTotal(rows: seq<Row>, keyed: Rows)
    requires IsKeyed(rows, keyed) && NoRowLost(rows)
    ensures Total(rows) == SumOver(keyed.Keys, CcOf(keyed))
  {
    var sorted := SortBy(rows, StartOf);
    TotalOfSorted(rows);
    NamedTotal(AllAssigned(KeysOf(sorted)), sorted, keyed);
  }

  lemma {:induction false} NamedTotal(names: seq<string>, rows: seq<Row>, keyed: Rows)
    requires |names| == |rows| && Distinct(names) && Holds(names, rows, |names|, keyed)
    ensures SumOver(keyed.Keys, CcOf(keyed)) == Total(rows)
  {
    DistinctNamesHoldEach(names, rows, keyed);
    SumOfNames(names, rows, keyed, |names|);
    assert names[..|names|] == names && rows[..|names|] == rows;
  }

  /**
   * How far the total CC moved: what the new functions add, less what the kept ones lost and the removed
   * ones had.
   */
  lemma {:induction false} TotalsBalance(baseRows: seq<Row>, headRows: seq<Row>, base: Rows, head: Rows)
    requires IsKeyed(baseRows, base) && IsKeyed(headRows, head) && NoRowLost(baseRows) && NoRowLost(headRows)
    ensures Total(headRows) - Total(baseRows) ==
            SumOver(head.Keys, DecisionsOf(base, head)) + |head.Keys - base.Keys|
            - SumOver(head.Keys, DropOf(base, head)) - SumOver(base.Keys - head.Keys, CcOf(base))
  {
    KeyedTotal(baseRows, base);
    KeyedTotal(headRows, head);
    KeyedTotalsBalance(base, head);
  }

  /**
   * When no function is removed, net-extraction relief needs a cut that is larger than move relief's by the
   * number of new functions plus one.
   */
  lemma {:induction false} MoveReliefAcceptsASmallerCut(baseRows: seq<Row>, headRows: seq<Row>, base: Rows, head: Rows,
                                                        cc: int)
    requires IsKeyed(baseRows, base) && IsKeyed(headRows, head) && NoRowLost(baseRows) && NoRowLost(headRows)
    requires base.Keys <= head.Keys && cc <= MOVE_RELIEF_MAX_CC
    ensures var drop, decisions := SumOver(head.Keys, DropOf(base, head)), SumOver(head.Keys, DecisionsOf(base, head));
      && (NetExtractionRelief(Total(baseRows), Total(headRows)) <==> drop >= decisions + |head.Keys - base.Keys| + 1)
      && (MoveRelief(drop, decisions, cc) <==> drop >= decisions)
  {
    TotalsBalance(baseRows, headRows, base, head);
    assert base.Keys - head.Keys == {};
  }

  method KeyedRows(rows: seq<Row>) returns (keyed: Rows)
    ensures IsKeyed(rows, keyed)
  {
    var sorted := SortBy(rows, StartOf);
    keyed := KeyRows(KeysOf(sorted), sorted);
  }

  ghost predicate FindingIsRight(findings: map<string, Finding>, before: Option<Row>, key: string, head: Row,
                                 changed: Changed, totals: Totals, moves: MoveTotals, incomplete: bool) {
    && (key in findings <==> Judge(before, head, changed, totals, moves).Some?)
    && (key in findings ==> Some(findings[key]) == Verdict(before, head, changed, totals, moves, incomplete))
  }

  method VerdictsOf(base: Rows, heads: Rows, changed: Changed, totals: Totals, moves: MoveTotals, incomplete: bool)
    returns (findings: map<string, Finding>)
    ensures findings.Keys <= heads.Keys
    ensures forall k :: k in heads ==>
            FindingIsRight(findings, Before(base, k), k, heads[k], changed, totals, moves, incomplete)
  {
    findings := map[];
    var left := heads.Keys;
    while left != {}
      invariant left <= heads.Keys && findings.Keys <= heads.Keys - left
      invariant forall k :: k in heads && k !in left ==>
                  FindingIsRight(findings, Before(base, k), k, heads[k], changed, totals, moves, incomplete)
      decreases left
    {
      var key :| key in left;
      left := left - {key};
      var finding := Judge(Before(base, key), heads[key], changed, totals, moves);
      if finding.Some? {
        findings := findings[key := CoverageRelief(finding.value, Before(base, key), changed, totals, moves,
            incomplete)];
      }
    }
  }

  ghost function FindingOf(findings: map<string, Finding>, key: string): Option<Finding> {
    if key in findings then Some(findings[key]) else None
  }

  /** evaluate: one verdict per head function, by its key. */
  method Evaluate(baseRows: seq<Row>, headRows: seq<Row>, changed: Changed, incomplete: bool)
    returns (findings: map<string, Finding>, totals: Totals, ghost base: Rows, ghost heads: Rows)
    ensures totals == Totals(Total(baseRows), Total(headRows))
    ensures IsKeyed(baseRows, base) && IsKeyed(headRows, heads) && findings.Keys <= heads.Keys
    ensures var moves := MoveTotals(SumOver(heads.Keys, DropOf(base, heads)),
            SumOver(heads.Keys, DecisionsOf(base, heads)));
      forall k :: k in heads ==>
        FollowsTheRules(FindingOf(findings, k), Before(base, k), heads[k], changed, totals, moves, incomplete)
  {
    var baseTotal := TotalComplexity(baseRows);
    var headTotal := TotalComplexity(headRows);
    totals := Totals(baseTotal, headTotal);
    var before := KeyedRows(baseRows);
    var after := KeyedRows(headRows);
    base, heads := before, after;
    var moves := SumMoves(before, after);
    findings := VerdictsOf(before, after, changed, totals, moves, incomplete);
    forall k | k in heads
      ensures FollowsTheRules(FindingOf(findings, k), Before(base, k), heads[k], changed, totals, moves, incomplete)
    {
      assert FindingIsRight(findings, Before(base, k), k, heads[k], changed, totals, moves, incomplete);
      VerdictFollowsTheRules(Before(base, k), heads[k], changed, totals, moves, incomplete);
    }
  }
}
