/**
 * The usage summary of benchmarks/terminal_bench/mux_agent.py: session files are summed, and a session that
 * another one's ledger already holds is skipped. Costs are exact.
 */
module UsageRollup {
  import opened Forms

  // ---- Session files

  datatype Json =
    | Null
    | Bool(b: bool)
    | Int(i: int)
    | Float(r: real)
    | NotFinite
    | Str(s: string)
    | Arr(size: nat)
    | Obj(fields: seq<(string, Json)>)

  type Fields = seq<(string, Json)>

  predicate Has(fields: Fields, key: string) { exists i :: 0 <= i < |fields| && fields[i].0 == key }

  /** `fields.get(key)` */
  function Get(fields: Fields, key: string): Json {
    if fields == [] then Null else if fields[0].0 == key then fields[0].1 else Get(fields[1..], key)
  }

  predicate Truthy(v: Json) {
    match v
    case Null => false
    case Bool(b) => b
    case Int(i) => i != 0
    case Float(r) => r != 0.0
    case NotFinite => true
    case Str(s) => s != ""
    case Arr(size) => size != 0
    case Obj(fields) => fields != []
  }

  predicate IsTokenCount(v: Json) { v.Int? && v.i >= 0 }

  predicate IsUsageNumber(v: Json) { (v.Int? && v.i >= 0) || (v.Float? && v.r >= 0.0) }

  function NumberOf(v: Json): real
    requires IsUsageNumber(v)
  {
    if v.Int? then v.i as real else v.r
  }

  const TOKEN_FIELDS := ["inputTokens", "outputTokens", "reasoningTokens", "cachedTokens", "cacheCreateTokens",
      "contextTokens"]
  const TEXT_FIELDS := ["agentType", "model"]

  ghost predicate IsRollupEntry(entry: Json) {
    || entry == Bool(true)
    || (&& entry.Obj? && IsTokenCount(Get(entry.fields, "totalTokens"))
         && IsUsageNumber(Get(entry.fields, "rolledUpAtMs"))
        && (forall key :: key in TOKEN_FIELDS && Has(entry.fields, key) ==> IsTokenCount(Get(entry.fields, key)))
        && (Has(entry.fields, "totalCostUsd") ==> IsUsageNumber(Get(entry.fields, "totalCostUsd")))
        && (forall key :: key in TEXT_FIELDS && Has(entry.fields, key) ==> Get(entry.fields, key).Str?))
  }

  /** `fields[key]`, when it is there, is a count, a number or a text. */
  ghost predicate CountOrNone(fields: Fields, key: string) { Has(fields, key) ==> Counts(Get(fields, key)) }
  ghost predicate TextOrNone(fields: Fields, key: string) { Has(fields, key) ==> Get(fields, key).Str? }

  /** The schema of a ledger entry, field by field; `true` stands for an old one. */
  lemma {:induction false} RollupEntrySays(entry: Json)
    ensures IsRollupEntry(entry) <==> entry == Bool(true) || (entry.Obj? && var fields := entry.fields;
      && Counts(Get(fields, "totalTokens")) && Prices(Get(fields, "rolledUpAtMs"))
      && CountOrNone(fields, "inputTokens") && CountOrNone(fields, "outputTokens")
      && CountOrNone(fields, "reasoningTokens") && CountOrNone(fields, "cachedTokens")
      && CountOrNone(fields, "cacheCreateTokens") && CountOrNone(fields, "contextTokens")
      && (Has(fields, "totalCostUsd") ==> Prices(Get(fields, "totalCostUsd")))
      && TextOrNone(fields, "agentType") && TextOrNone(fields, "model"))
  {
    if entry.Obj? {
      TokenFieldsAre(entry.fields);
      TextFieldsAre(entry.fields);
    }
  }

  lemma {:induction false} TokenFieldsAre(fields: Fields)
    ensures (forall key :: key in TOKEN_FIELDS && Has(fields, key) ==> IsTokenCount(Get(fields, key))) <==>
            && CountOrNone(fields, "inputTokens") && CountOrNone(fields, "outputTokens")
            && CountOrNone(fields, "reasoningTokens") && CountOrNone(fields, "cachedTokens")
            && CountOrNone(fields, "cacheCreateTokens") && CountOrNone(fields, "contextTokens")
  {
    var names := TOKEN_FIELDS;
    assert |names| == 6 && names[0] == "inputTokens" && names[1] == "outputTokens" && names[2] == "reasoningTokens";
    assert names[3] == "cachedTokens" && names[4] == "cacheCreateTokens" && names[5] == "contextTokens";
    assert forall i :: 0 <= i < |names| ==> names[i] in names;
    assert (forall key :: key in names ==> CountOrNone(fields, key)) <==>
           forall i :: 0 <= i < |names| ==> CountOrNone(fields, names[i]);
  }

  lemma {:induction false} TextFieldsAre(fields: Fields)
    ensures (forall key :: key in TEXT_FIELDS && Has(fields, key) ==> Get(fields, key).Str?) <==>
            TextOrNone(fields, "agentType") && TextOrNone(fields, "model")
  {
    assert TEXT_FIELDS[0] == "agentType" && TEXT_FIELDS[1] == "model";
  }

  /** _is_valid_rollup_entry */
  method IsValidRollupEntry(entry: Json) returns (valid: bool)
    ensures valid <==> IsRollupEntry(entry)
  {
    if entry == Bool(true) { return true; }
    if !entry.Obj? { return false; }
    var fields := entry.fields;
    if !IsTokenCount(Get(fields, "totalTokens")) { return false; }
    if !IsUsageNumber(Get(fields, "rolledUpAtMs")) { return false; }
    for i := 0 to |TOKEN_FIELDS|
      invariant forall j :: 0 <= j < i && Has(fields, TOKEN_FIELDS[j]) ==> IsTokenCount(Get(fields, TOKEN_FIELDS[j]))
    {
      if Has(fields, TOKEN_FIELDS[i]) && !IsTokenCount(Get(fields, TOKEN_FIELDS[i])) {
        assert TOKEN_FIELDS[i] in TOKEN_FIELDS;
        return false;
      }
    }
    if Has(fields, "totalCostUsd") && !IsUsageNumber(Get(fields, "totalCostUsd")) { return false; }
    for i := 0 to |TEXT_FIELDS|
      invariant forall j :: 0 <= j < i && Has(fields, TEXT_FIELDS[j]) ==> Get(fields, TEXT_FIELDS[j]).Str?
    {
      if Has(fields, TEXT_FIELDS[i]) && !Get(fields, TEXT_FIELDS[i]).Str? {
        assert TEXT_FIELDS[i] in TEXT_FIELDS;
        return false;
      }
    }
    valid := true;
  }

  // ---- What a session file counts

  datatype Bucket = Input | Output | Reasoning | Cached | CacheCreate

  const BUCKETS := [Input, Output, Reasoning, Cached, CacheCreate]

  function NameOf(bucket: Bucket): string {
    match bucket
    case Input => "input"
    case Output => "output"
    case Reasoning => "reasoning"
    case Cached => "cached"
    case CacheCreate => "cacheCreate"
  }

  /** What a session file says: usage of one bucket, or that some cost is unknown. */
  datatype Item = UnknownCosts | Part(bucket: Bucket, tokens: Json, cost: Json)

  function PartOf(usage: Fields, bucket: Bucket): seq<Item> {
    var component := Get(usage, NameOf(bucket));
    if component.Obj? then [Part(bucket, Get(component.fields, "tokens"), Get(component.fields, "cost_usd"))] else []
  }

  function PartsOf(usage: Fields, buckets: seq<Bucket>): seq<Item> {
    if buckets == [] then [] else PartsOf(usage, buckets[..|buckets| - 1]) + PartOf(usage, buckets[|buckets| - 1])
  }

  function UnknownOf(usage: Fields): seq<Item> { if Truthy(Get(usage, "hasUnknownCosts")) then [UnknownCosts] else [] }

  function ItemsOfUsage(usage: Json): seq<Item> {
    if usage.Obj? then UnknownOf(usage.fields) + PartsOf(usage.fields, BUCKETS) else []
  }

  function ItemsOfModels(models: Fields): seq<Item> {
    if models == [] then [] else ItemsOfModels(models[..|models| - 1]) + ItemsOfUsage(models[|models| - 1].1)
  }

  /** Everything the session's `byModel` says; nothing when it is not a dict. */
  function ItemsOf(data: Fields): seq<Item> {
    var byModel := Get(data, "byModel");
    if byModel.Obj? then ItemsOfModels(byModel.fields) else []
  }

  function TokensIn(item: Item, bucket: Bucket): nat {
    if item.Part? && item.bucket == bucket && item.tokens.Int? && item.tokens.i >= 0 then item.tokens.i else 0
  }

  function TokensOf(items: seq<Item>, bucket: Bucket): nat {
    if items == [] then 0 else TokensOf(items[..|items| - 1], bucket) + TokensIn(items[|items| - 1], bucket)
  }

  /** A whole number, not negative. */
  ghost predicate Counts(tokens: Json) { tokens.Int? && tokens.i >= 0 }

  /** A number, not negative. */
  ghost predicate Prices(cost: Json) { (cost.Int? && cost.i >= 0) || (cost.Float? && cost.r >= 0.0) }

  ghost predicate Priced(item: Item) { item.Part? && Counts(item.tokens) && Prices(item.cost) }

  ghost predicate Unpriced(item: Item) {
    item.UnknownCosts? || (Counts(item.tokens) && item.tokens.i > 0 && !Prices(item.cost))
  }

  ghost function CostOf(items: seq<Item>): real {
    if items == [] then 0.0
    else
      var last := items[|items| - 1];
      CostOf(items[..|items| - 1]) + if Priced(last) then NumberOf(last.cost) else 0.0
  }

  ghost predicate AnyPriced(items: seq<Item>) { exists i :: 0 <= i < |items| && Priced(items[i]) }

  ghost predicate AnyUnpriced(items: seq<Item>) { exists i :: 0 <= i < |items| && Unpriced(items[i]) }

  // ---- One item more

  lemma {:induction false} OneItemMore(items: seq<Item>, item: Item)
    ensures forall bucket :: TokensOf(items + [item], bucket) == TokensOf(items, bucket) + TokensIn(item, bucket)
    ensures CostOf(items + [item]) == CostOf(items) + if Priced(item) then NumberOf(item.cost) else 0.0
    ensures AnyPriced(items + [item]) <==> AnyPriced(items) || Priced(item)
    ensures AnyUnpriced(items + [item]) <==> AnyUnpriced(items) || Unpriced(item)
  {
    var more := items + [item];
    assert more[..|items|] == items && more[|items|] == item;
    assert forall i :: 0 <= i < |items| ==> more[i] == items[i];
  }

  datatype Totals = Totals(input: nat, output: nat, reasoning: nat, cacheRead: nat, cacheWrite: nat)

  datatype Account = Account(totals: Totals, costSum: real, hasCost: bool, hasUnpricedUsage: bool)

  ghost predicate Holds(a: Account, items: seq<Item>) {
    && a.totals.input == TokensOf(items, Input) && a.totals.output == TokensOf(items, Output)
    && a.totals.reasoning == TokensOf(items, Reasoning)
    && a.totals.cacheRead == TokensOf(items, Cached) && a.totals.cacheWrite == TokensOf(items, CacheCreate)
    && a.costSum == CostOf(items) && (a.hasCost <==> AnyPriced(items)) && (a.hasUnpricedUsage <==> AnyUnpriced(items))
  }

  /** `totals[key] += int(tokens)`, with the bucket's key. */
  function AddTokens(t: Totals, bucket: Bucket, tokens: nat): Totals {
    match bucket
    case Input => t.(input := t.input + tokens)
    case Output => t.(output := t.output + tokens)
    case Reasoning => t.(reasoning := t.reasoning + tokens)
    case Cached => t.(cacheRead := t.cacheRead + tokens)
    case CacheCreate => t.(cacheWrite := t.cacheWrite + tokens)
  }

  /** The body of the bucket loop, for a component that is a dict. */
  method AddPart(before: Account, bucket: Bucket, tokens: Json, cost: Json, ghost items: seq<Item>) returns (a: Account)
    requires Holds(before, items)
    ensures Holds(a, items + [Part(bucket, tokens, cost)])
  {
    a := before;
    OneItemMore(items, Part(bucket, tokens, cost));
    if !IsTokenCount(tokens) { return; }
    a := a.(totals := AddTokens(a.totals, bucket, tokens.i));
    if IsUsageNumber(cost) {
      a := a.(costSum := a.costSum + NumberOf(cost), hasCost := true);
    } else if tokens.i > 0 {
      a := a.(hasUnpricedUsage := true);
    }
  }

  method AddComponent(before: Account, usage: Fields, bucket: Bucket, ghost items: seq<Item>) returns (a: Account)
    requires Holds(before, items)
    ensures Holds(a, items + PartOf(usage, bucket))
  {
    var component := Get(usage, NameOf(bucket));
    if !component.Obj? {
      assert items + [] == items;
      return before;
    }
    a := AddPart(before, bucket, Get(component.fields, "tokens"), Get(component.fields, "cost_usd"), items);
  }

  method AddUsage(before: Account, usage: Fields, ghost items: seq<Item>) returns (a: Account)
    requires Holds(before, items)
    ensures Holds(a, items + ItemsOfUsage(Obj(usage)))
  {
    a := before;
    ghost var now := items;
    if Truthy(Get(usage, "hasUnknownCosts")) {
      OneItemMore(items, UnknownCosts);
      a := a.(hasUnpricedUsage := true);
      now := now + [UnknownCosts];
    }
    assert now == items + UnknownOf(usage);
    ghost var start := now;
    for i := 0 to |BUCKETS|
      invariant now == start + PartsOf(usage, BUCKETS[..i]) && Holds(a, now)
    {
      LastBucket(usage, i);
      PartsRegroup(start, PartsOf(usage, BUCKETS[..i]), PartOf(usage, BUCKETS[i]));
      a := AddComponent(a, usage, BUCKETS[i], now);
      now := now + PartOf(usage, BUCKETS[i]);
    }
    assert BUCKETS[..|BUCKETS|] == BUCKETS;
    PartsRegroup(items, UnknownOf(usage), PartsOf(usage, BUCKETS));
  }

  lemma {:induction false} LastBucket(usage: Fields, i: nat)
    requires i < |BUCKETS|
    ensures PartsOf(usage, BUCKETS[..i + 1]) == PartsOf(usage, BUCKETS[..i]) + PartOf(usage, BUCKETS[i])
  {
    assert BUCKETS[..i + 1][..i] == BUCKETS[..i];
  }

  lemma {:induction false} PartsRegroup(a: seq<Item>, b: seq<Item>, c: seq<Item>)
    ensures a + (b + c) == (a + b) + c
  {
  }

  method AddSession(before: Account, models: Fields, ghost items: seq<Item>) returns (a: Account)
    requires Holds(before, items)
    ensures Holds(a, items + ItemsOfModels(models))
  {
    a := before;
    ghost var now := items;
    for i := 0 to |models|
      invariant now == items + ItemsOfModels(models[..i]) && Holds(a, now)
    {
      var usage := models[i].1;
      assert models[..i + 1][..i] == models[..i];
      PartsRegroup(items, ItemsOfModels(models[..i]), ItemsOfUsage(usage));
      if !usage.Obj? { continue; }
      a := AddUsage(a, usage.fields, now);
      now := now + ItemsOfUsage(usage);
    }
    assert models[..|models|] == models;
  }

  // ---- Usable usage

  ghost predicate HasTokens(item: Item) { item.Part? && item.tokens.Int? && item.tokens.i > 0 }

  /** The file counts at least one token. */
  ghost predicate Usable(data: Fields) { AnyTokens(ItemsOf(data)) }

  lemma {:induction false} HasTokensInConcat(a: seq<Item>, b: seq<Item>)
    ensures AnyTokens(a + b) <==> AnyTokens(a) || AnyTokens(b)
  {
    var all := a + b;
    if i :| 0 <= i < |a| && HasTokens(a[i]) { assert HasTokens(all[i]); }
    if i :| 0 <= i < |b| && HasTokens(b[i]) { assert HasTokens(all[|a| + i]); }
    if i :| 0 <= i < |all| && HasTokens(all[i]) {
      assert i < |a| ==> HasTokens(a[i]); assert i >= |a| ==> HasTokens(b[i - |a|]);
    }
  }

  ghost predicate AnyTokens(items: seq<Item>) { exists i :: 0 <= i < |items| && HasTokens(items[i]) }

  method AnyBucketHasTokens(usage: Fields) returns (found: bool)
    ensures found <==> AnyTokens(PartsOf(usage, BUCKETS))
  {
    for i := 0 to |BUCKETS|
      invariant !AnyTokens(PartsOf(usage, BUCKETS[..i]))
    {
      var component := Get(usage, NameOf(BUCKETS[i]));
      LastBucket(usage, i);
      HasTokensInConcat(PartsOf(usage, BUCKETS[..i]), PartOf(usage, BUCKETS[i]));
      var here := component.Obj? && IsTokenCount(Get(component.fields, "tokens"))
          && Get(component.fields, "tokens").i > 0;
      assert here <==> AnyTokens(PartOf(usage, BUCKETS[i])) by {
        if component.Obj? { assert PartOf(usage, BUCKETS[i])[0].Part?; }
      }
      if here {
        LaterBuckets(usage, i + 1);
        return true;
      }
    }
    assert BUCKETS[..|BUCKETS|] == BUCKETS;
    found := false;
  }

  lemma {:induction false} LaterBuckets(usage: Fields, i: nat)
    requires i <= |BUCKETS| && AnyTokens(PartsOf(usage, BUCKETS[..i]))
    ensures AnyTokens(PartsOf(usage, BUCKETS))
    decreases |BUCKETS| - i
  {
    if i < |BUCKETS| {
      LastBucket(usage, i);
      HasTokensInConcat(PartsOf(usage, BUCKETS[..i]), PartOf(usage, BUCKETS[i]));
      LaterBuckets(usage, i + 1);
    } else {
      assert BUCKETS[..i] == BUCKETS;
    }
  }

  lemma {:induction false} LaterModels(models: Fields, i: nat)
    requires i <= |models| && AnyTokens(ItemsOfModels(models[..i]))
    ensures AnyTokens(ItemsOfModels(models))
    decreases |models| - i
  {
    if i < |models| {
      LastModel(models, i);
      HasTokensInConcat(ItemsOfModels(models[..i]), ItemsOfUsage(models[i].1));
      LaterModels(models, i + 1);
    } else {
      assert models[..i] == models;
    }
  }

  lemma {:induction false} LastModel(models: Fields, i: nat)
    requires i < |models|
    ensures ItemsOfModels(models[..i + 1]) == ItemsOfModels(models[..i]) + ItemsOfUsage(models[i].1)
  {
    assert models[..i + 1][..i] == models[..i];
  }

  method UsageHasTokens(usage: Json) returns (found: bool)
    ensures found <==> AnyTokens(ItemsOfUsage(usage))
  {
    if !usage.Obj? { return false; }
    HasTokensInConcat(UnknownOf(usage.fields), PartsOf(usage.fields, BUCKETS));
    found := AnyBucketHasTokens(usage.fields);
  }

  /** _has_usable_session_usage */
  method HasUsableSessionUsage(data: Fields) returns (usable: bool)
    ensures usable <==> Usable(data)
  {
    var byModel := Get(data, "byModel");
    if !byModel.Obj? { return false; }
    var models := byModel.fields;
    for i := 0 to |models|
      invariant !AnyTokens(ItemsOfModels(models[..i]))
    {
      LastModel(models, i);
      HasTokensInConcat(ItemsOfModels(models[..i]), ItemsOfUsage(models[i].1));
      var found := UsageHasTokens(models[i].1);
      if found {
        LaterModels(models, i + 1);
        return true;
      }
    }
    assert models[..|models|] == models;
    usable := false;
  }

  ghost predicate CountsSome(items: seq<Item>, bucket: Bucket) { TokensOf(items, bucket) > 0 }

  /** A file is usable exactly when some bucket's total is positive. */
  lemma {:induction false} UsableIffTokens(items: seq<Item>)
    ensures AnyTokens(items) <==> exists bucket :: CountsSome(items, bucket)
  {
    if items != [] {
      var front, last := items[..|items| - 1], items[|items| - 1];
      assert items == front + [last];
      UsableIffTokens(front);
      OneItemMore(front, last);
      HasTokensInConcat(front, [last]);
      assert AnyTokens([last]) <==> HasTokens(last) by { assert [last][0] == last; }
      if bucket :| CountsSome(front, bucket) { assert CountsSome(items, bucket); }
      if HasTokens(last) { assert CountsSome(items, last.bucket); }
      if bucket :| CountsSome(items, bucket) { assert CountsSome(front, bucket) || HasTokens(last); }
    }
  }

  // ---- The summary

  type Sessions = seq<(string, Fields)>

  /** The ledger entries of a session's file. */
  function LedgerOf(data: Fields): Fields {
    var rolledUp := Get(data, "rolledUpFrom");
    if rolledUp.Obj? then rolledUp.fields else []
  }

  ghost function ValidIds(ledger: Fields): set<string> { set e | e in ledger && IsRollupEntry(e.1) :: e.0 }

  /** A session file as the summary sees it: its usage, and the sessions that its honoured ledger lists. */
  datatype File = File(id: string, summed: bool, items: seq<Item>, holds: set<string>)

  ghost function FileOf(id: string, data: Fields): File {
    File(id, Get(data, "byModel").Obj?, ItemsOf(data), if Usable(data) then ValidIds(LedgerOf(data)) else {})
  }

  ghost function FilesOf(sessions: Sessions): seq<File> {
    seq(|sessions|, i requires 0 <= i < |sessions| => FileOf(sessions[i].0, sessions[i].1))
  }

  ghost predicate IsFile(sessions: Sessions, files: seq<File>, i: nat) {
    i < |sessions| && i < |files| && files[i] == FileOf(sessions[i].0, sessions[i].1)
  }

  /** `files` are the sessions as the summary sees them. */
  ghost predicate AreFiles(sessions: Sessions, files: seq<File>) {
    |files| == |sessions| && forall i: nat :: i < |files| ==> IsFile(sessions, files, i)
  }

  lemma {:induction false} FilesAreFiles(sessions: Sessions)
    ensures AreFiles(sessions, FilesOf(sessions))
  {
    forall i: nat | i < |sessions| ensures IsFile(sessions, FilesOf(sessions), i) {}
  }

  /** Some usable session's ledger says that it holds session `id`. */
  ghost predicate HonouredIn(files: seq<File>, id: string, n: nat) {
    exists i :: 0 <= i < n && i < |files| && id in files[i].holds
  }

  method LedgerIds(ledger: Fields) returns (ids: set<string>)
    ensures ids == ValidIds(ledger)
  {
    ids := {};
    for i := 0 to |ledger|
      invariant ids == ValidIds(ledger[..i])
    {
      assert ledger[..i + 1] == ledger[..i] + [ledger[i]];
      var valid := IsValidRollupEntry(ledger[i].1);
      if valid { ids := ids + {ledger[i].0}; }
    }
    assert ledger[..|ledger|] == ledger;
  }

  method HeldBy(sessions: Sessions, i: nat, ghost files: seq<File>) returns (ids: set<string>)
    requires IsFile(sessions, files, i)
    ensures ids == files[i].holds
  {
    var usable := HasUsableSessionUsage(sessions[i].1);
    if !usable { return {}; }
    ids := LedgerIds(LedgerOf(sessions[i].1));
  }

  /** The first loop: the sessions that another one already holds. */
  method RolledUpIds(sessions: Sessions, ghost files: seq<File>) returns (ids: set<string>)
    requires AreFiles(sessions, files)
    ensures forall id :: id in ids <==> HonouredIn(files, id, |sessions|)
  {
    ids := {};
    for i := 0 to |sessions|
      invariant forall id :: id in ids <==> HonouredIn(files, id, i)
    {
      var more := HeldBy(sessions, i, files);
      ids := ids + more;
    }
  }

  ghost predicate Counted(files: seq<File>, i: nat) { i < |files| && !HonouredIn(files, files[i].id, |files|) }

  /** What the first `n` sessions count, without those that another one holds. */
  ghost function CountedItems(files: seq<File>, n: nat): seq<Item>
    requires n <= |files|
  {
    if n == 0 then [] else CountedItems(files, n - 1) + if Counted(files, n - 1) then files[n - 1].items else []
  }

  ghost function SummedCount(files: seq<File>, n: nat): nat
    requires n <= |files|
  {
    if n == 0 then 0 else SummedCount(files, n - 1) + if Counted(files, n - 1) && files[n - 1].summed then 1 else 0
  }

  datatype Summary = Summary(totals: Totals, costUsd: Option<real>, sessions: nat)

  ghost predicate IsSummary(r: Option<Summary>, files: seq<File>) {
    var items, n := CountedItems(files, |files|), SummedCount(files, |files|);
    && (r.None? <==> n == 0)
    && (r.Some? ==>
          && r.value.sessions == n
          && r.value.totals.input == TokensOf(items, Input) && r.value.totals.output == TokensOf(items, Output)
          && r.value.totals.reasoning == TokensOf(items, Reasoning)
          && r.value.totals.cacheRead == TokensOf(items, Cached)
               && r.value.totals.cacheWrite == TokensOf(items, CacheCreate)
          && r.value.costUsd == if AnyPriced(items) && !AnyUnpriced(items) then Some(CostOf(items)) else None)
  }

  method CountSession(before: Account, sessions: Sessions, i: nat, ghost files: seq<File>, ghost items: seq<Item>)
    returns (a: Account, summed: bool)
    requires Holds(before, items) && IsFile(sessions, files, i)
    ensures Holds(a, items + files[i].items) && summed == files[i].summed
  {
    var byModel := Get(sessions[i].1, "byModel");
    if !byModel.Obj? {
      assert items + [] == items;
      return before, false;
    }
    a := AddSession(before, byModel.fields, items);
    summed := true;
  }

  ghost predicate SoFar(files: seq<File>, n: nat, a: Account, count: nat) {
    n <= |files| && Holds(a, CountedItems(files, n)) && count == SummedCount(files, n)
  }

  lemma {:induction false} CountedMore(files: seq<File>, i: nat)
    requires Counted(files, i)
    ensures CountedItems(files, i + 1) == CountedItems(files, i) + files[i].items
    ensures SummedCount(files, i + 1) == SummedCount(files, i) + if files[i].summed then 1 else 0
  {
  }

  lemma {:induction false} SkippedMore(files: seq<File>, i: nat)
    requires i < |files| && !Counted(files, i)
    ensures CountedItems(files, i + 1) == CountedItems(files, i) && SummedCount(files, i + 1) == SummedCount(files, i)
  {
  }

  /** One turn of the second loop. */
  method TakeSession(before: Account, had: nat, sessions: Sessions, i: nat, ghost files: seq<File>, skip: bool)
    returns (a: Account, count: nat)
    requires IsFile(sessions, files, i) && SoFar(files, i, before, had) && skip == !Counted(files, i)
    ensures SoFar(files, i + 1, a, count)
  {
    if skip {
      SkippedMore(files, i);
      return before, had;
    }
    CountedMore(files, i);
    var summed;
    a, summed := CountSession(before, sessions, i, files, CountedItems(files, i));
    count := if summed then had + 1 else had;
  }

  method CountSessions(sessions: Sessions, ids: set<string>, ghost files: seq<File>) returns (a: Account, count: nat)
    requires AreFiles(sessions, files) && forall id :: id in ids <==> HonouredIn(files, id, |sessions|)
    ensures SoFar(files, |sessions|, a, count)
  {
    a, count := Account(Totals(0, 0, 0, 0, 0), 0.0, false, false), 0;
    for i := 0 to |sessions|
      invariant SoFar(files, i, a, count)
    {
      assert IsFile(sessions, files, i);
      var skip := sessions[i].0 in ids;
      assert skip == !Counted(files, i);
      a, count := TakeSession(a, count, sessions, i, files, skip);
    }
  }

  /** _summarize_session_usage, from the parsed files on. */
  method SummarizeSessionUsage(sessions: Sessions) returns (r: Option<Summary>)
    ensures IsSummary(r, FilesOf(sessions))
  {
    ghost var files := FilesOf(sessions);
    FilesAreFiles(sessions);
    var ids := RolledUpIds(sessions, files);
    var a, count := CountSessions(sessions, ids, files);
    if count == 0 { return None; }
    r := Some(Summary(a.totals, if a.hasCost && !a.hasUnpricedUsage then Some(a.costSum) else None, count));
  }

  // ---- Which fields are summed

  /** `usage[field].tokens`, where it is a valid count. */
  ghost function TokensAt(usage: Json, field: string): nat {
    if usage.Obj? && Get(usage.fields, field).Obj? && Counts(Get(Get(usage.fields, field).fields, "tokens")) then
      Get(Get(usage.fields, field).fields, "tokens").i
    else 0
  }

  ghost function TokensOfModels(models: Fields, field: string): nat {
    if models == [] then 0
    else TokensOfModels(models[..|models| - 1], field) + TokensAt(models[|models| - 1].1, field)
  }

  /** The tokens of one field over all models of a session file. */
  ghost function TokensOfFile(data: Fields, field: string): nat {
    if Get(data, "byModel").Obj? then TokensOfModels(Get(data, "byModel").fields, field) else 0
  }

  /** The same over the first `n` sessions, without those that another one holds. */
  ghost function TokensOfSessions(sessions: Sessions, files: seq<File>, n: nat, field: string): nat
    requires n <= |sessions|
  {
    if n == 0 then 0
    else
      TokensOfSessions(sessions, files, n - 1, field)
      + if Counted(files, n - 1) then TokensOfFile(sessions[n - 1].1, field) else 0
  }

  /** The field of each bucket of the summary. */
  ghost predicate IsFieldOf(bucket: Bucket, field: string) {
    match bucket
    case Input => field == "input"
    case Output => field == "output"
    case Reasoning => field == "reasoning"
    case Cached => field == "cached"
    case CacheCreate => field == "cacheCreate"
  }

  lemma {:induction false} TokensOfPart(usage: Fields, bucket: Bucket, other: Bucket, field: string)
    requires IsFieldOf(bucket, field)
    ensures TokensOf(PartOf(usage, other), bucket) == if other == bucket then TokensAt(Obj(usage), field) else 0
  {
    var items := PartOf(usage, other);
    if items != [] { assert items[..0] == []; }
  }

  ghost predicate NoneTwice(buckets: seq<Bucket>) { forall i, j :: 0 <= i < j < |buckets| ==> buckets[i] != buckets[j] }

  lemma {:induction false} TokensOfParts(usage: Fields, bucket: Bucket, field: string, buckets: seq<Bucket>)
    requires IsFieldOf(bucket, field) && NoneTwice(buckets)
    ensures TokensOf(PartsOf(usage, buckets), bucket) == if bucket in buckets then TokensAt(Obj(usage), field) else 0
  {
    if buckets != [] {
      var front, last := buckets[..|buckets| - 1], buckets[|buckets| - 1];
      assert buckets == front + [last];
      TokensOfParts(usage, bucket, field, front);
      TokensOfConcat(PartsOf(usage, front), PartOf(usage, last), bucket);
      TokensOfPart(usage, bucket, last, field);
    }
  }

  lemma {:induction false} EveryBucket(bucket: Bucket)
    ensures bucket in BUCKETS
  {
    match bucket
    case Input => assert BUCKETS[0] == bucket;
    case Output => assert BUCKETS[1] == bucket;
    case Reasoning => assert BUCKETS[2] == bucket;
    case Cached => assert BUCKETS[3] == bucket;
    case CacheCreate => assert BUCKETS[4] == bucket;
  }

  lemma {:induction false} TokensOfUsage(usage: Json, bucket: Bucket, field: string)
    requires IsFieldOf(bucket, field)
    ensures TokensOf(ItemsOfUsage(usage), bucket) == TokensAt(usage, field)
  {
    if usage.Obj? {
      var unknown := UnknownOf(usage.fields);
      TokensOfParts(usage.fields, bucket, field, BUCKETS);
      TokensOfConcat(unknown, PartsOf(usage.fields, BUCKETS), bucket);
      EveryBucket(bucket);
      if unknown != [] { assert unknown[..0] == []; }
    }
  }

  lemma {:induction false} TokensOfItems(models: Fields, bucket: Bucket, field: string)
    requires IsFieldOf(bucket, field)
    ensures TokensOf(ItemsOfModels(models), bucket) == TokensOfModels(models, field)
  {
    if models != [] {
      var front, last := models[..|models| - 1], models[|models| - 1].1;
      TokensOfItems(front, bucket, field);
      TokensOfConcat(ItemsOfModels(front), ItemsOfUsage(last), bucket);
      TokensOfUsage(last, bucket, field);
    }
  }

  lemma {:induction false} CountedFile(sessions: Sessions, files: seq<File>, i: nat, bucket: Bucket, field: string)
    requires IsFieldOf(bucket, field) && IsFile(sessions, files, i)
    ensures CountedOf(files, bucket)(i) == if Counted(files, i) then TokensOfFile(sessions[i].1, field) else 0
  {
    TokensOfFileItems(sessions[i].1, bucket, field);
    assert Reported(files, bucket)(i) == TokensOf(files[i].items, bucket);
  }

  lemma {:induction false} CountedTokensGrow(sessions: Sessions, files: seq<File>, i: nat, bucket: Bucket,
                                             field: string)
    requires IsFieldOf(bucket, field) && IsFile(sessions, files, i)
    ensures TokensOf(CountedItems(files, i + 1), bucket)
         == TokensOf(CountedItems(files, i), bucket)
            + if Counted(files, i) then TokensOfFile(sessions[i].1, field) else 0
  {
    CountedItemsGrow(files, bucket, i);
    CountedFile(sessions, files, i, bucket, field);
  }

  lemma {:induction false} TokensOfCounted(sessions: Sessions, files: seq<File>, n: nat, bucket: Bucket, field: string)
    requires IsFieldOf(bucket, field) && AreFiles(sessions, files) && n <= |files|
    ensures TokensOf(CountedItems(files, n), bucket) == TokensOfSessions(sessions, files, n, field)
  {
    if n > 0 {
      TokensOfCounted(sessions, files, n - 1, bucket, field);
      assert IsFile(sessions, files, n - 1);
      CountedTokensGrow(sessions, files, n - 1, bucket, field);
    }
  }

  lemma {:induction false} TokensOfFileItems(data: Fields, bucket: Bucket, field: string)
    requires IsFieldOf(bucket, field)
    ensures TokensOf(ItemsOf(data), bucket) == TokensOfFile(data, field)
  {
    if Get(data, "byModel").Obj? { TokensOfItems(Get(data, "byModel").fields, bucket, field); }
  }

  /** Each total sums its own field of the session files. */
  lemma {:induction false} TotalsSumTheirFields(sessions: Sessions, r: Option<Summary>)
    requires IsSummary(r, FilesOf(sessions)) && r.Some?
    ensures var totals, files, n := r.value.totals, FilesOf(sessions), |sessions|;
      && totals.input == TokensOfSessions(sessions, files, n, "input")
      && totals.output == TokensOfSessions(sessions, files, n, "output")
      && totals.reasoning == TokensOfSessions(sessions, files, n, "reasoning")
      && totals.cacheRead == TokensOfSessions(sessions, files, n, "cached")
      && totals.cacheWrite == TokensOfSessions(sessions, files, n, "cacheCreate")
  {
    var files := FilesOf(sessions);
    FilesAreFiles(sessions);
    TokensOfCounted(sessions, files, |sessions|, Input, "input");
    TokensOfCounted(sessions, files, |sessions|, Output, "output");
    TokensOfCounted(sessions, files, |sessions|, Reasoning, "reasoning");
    TokensOfCounted(sessions, files, |sessions|, Cached, "cached");
    TokensOfCounted(sessions, files, |sessions|, CacheCreate, "cacheCreate");
  }

  // ---- Which prices are summed

  /** `usage[field].cost_usd`, where it and the token count are valid. */
  ghost function CostAt(usage: Json, field: string): real {
    if usage.Obj? && Get(usage.fields, field).Obj?
       && Counts(Get(Get(usage.fields, field).fields, "tokens"))
       && Prices(Get(Get(usage.fields, field).fields, "cost_usd")) then
      var cost := Get(Get(usage.fields, field).fields, "cost_usd");
      if cost.Int? then cost.i as real else cost.r
    else 0.0
  }

  ghost function CostOfUsage(usage: Json): real {
    CostAt(usage, "input") + CostAt(usage, "output") + CostAt(usage, "reasoning") + CostAt(usage, "cached")
    + CostAt(usage, "cacheCreate")
  }

  ghost function CostOfModels(models: Fields): real {
    if models == [] then 0.0 else CostOfModels(models[..|models| - 1]) + CostOfUsage(models[|models| - 1].1)
  }

  ghost function CostOfFile(data: Fields): real {
    if Get(data, "byModel").Obj? then CostOfModels(Get(data, "byModel").fields) else 0.0
  }

  ghost function CostOfSessions(sessions: Sessions, files: seq<File>, n: nat): real
    requires n <= |sessions|
  {
    if n == 0 then 0.0
    else CostOfSessions(sessions, files, n - 1) + if Counted(files, n - 1) then CostOfFile(sessions[n - 1].1) else 0.0
  }

  lemma {:induction false} CostOfConcat(a: seq<Item>, b: seq<Item>)
    ensures CostOf(a + b) == CostOf(a) + CostOf(b)
    decreases |b|
  {
    if b == [] {
      assert a + b == a;
    } else {
      var front, last := b[..|b| - 1], b[|b| - 1];
      assert b == front + [last] && a + b == (a + front) + [last];
      CostOfConcat(a, front);
      OneItemMore(a + front, last);
    }
  }

  lemma {:induction false} CostOfPart(usage: Fields, bucket: Bucket, field: string)
    requires IsFieldOf(bucket, field)
    ensures CostOf(PartOf(usage, bucket)) == CostAt(Obj(usage), field)
  {
    var items := PartOf(usage, bucket);
    if items != [] { assert items[..0] == []; }
  }

  ghost function CostOfBuckets(usage: Fields, buckets: seq<Bucket>): real {
    if buckets == [] then 0.0
    else
      CostOfBuckets(usage, buckets[..|buckets| - 1]) + CostOf(PartOf(usage, buckets[|buckets| - 1]))
  }

  lemma {:induction false} CostOfParts(usage: Fields, buckets: seq<Bucket>)
    ensures CostOf(PartsOf(usage, buckets)) == CostOfBuckets(usage, buckets)
  {
    if buckets != [] {
      var front, last := buckets[..|buckets| - 1], buckets[|buckets| - 1];
      CostOfParts(usage, front);
      CostOfConcat(PartsOf(usage, front), PartOf(usage, last));
    }
  }

  lemma {:induction false} OneBucketMore(usage: Fields, buckets: seq<Bucket>, last: Bucket)
    ensures CostOfBuckets(usage, buckets + [last]) == CostOfBuckets(usage, buckets) + CostOf(PartOf(usage, last))
  {
    assert (buckets + [last])[..|buckets|] == buckets;
  }

  lemma {:induction false} FiveBuckets(usage: Fields)
    ensures CostOfBuckets(usage, BUCKETS)
         == CostOf(PartOf(usage, Input)) + CostOf(PartOf(usage, Output)) + CostOf(PartOf(usage, Reasoning))
            + CostOf(PartOf(usage, Cached)) + CostOf(PartOf(usage, CacheCreate))
  {
    OneBucketMore(usage, [], Input);
    OneBucketMore(usage, [] + [Input], Output);
    OneBucketMore(usage, [] + [Input] + [Output], Reasoning);
    OneBucketMore(usage, [] + [Input] + [Output] + [Reasoning], Cached);
    OneBucketMore(usage, [] + [Input] + [Output] + [Reasoning] + [Cached], CacheCreate);
    assert BUCKETS == [] + [Input] + [Output] + [Reasoning] + [Cached] + [CacheCreate];
  }

  lemma {:induction false} CostOfUsageItems(usage: Json)
    ensures CostOf(ItemsOfUsage(usage)) == CostOfUsage(usage)
  {
    if usage.Obj? {
      var u := usage.fields;
      var unknown := UnknownOf(u);
      CostOfConcat(unknown, PartsOf(u, BUCKETS));
      if unknown != [] { assert unknown[..0] == []; }
      CostOfParts(u, BUCKETS);
      FiveBuckets(u);
      CostOfPart(u, Input, "input");
      CostOfPart(u, Output, "output");
      CostOfPart(u, Reasoning, "reasoning");
      CostOfPart(u, Cached, "cached");
      CostOfPart(u, CacheCreate, "cacheCreate");
    }
  }

  lemma {:induction false} CostOfItems(models: Fields)
    ensures CostOf(ItemsOfModels(models)) == CostOfModels(models)
  {
    if models != [] {
      var front, last := models[..|models| - 1], models[|models| - 1].1;
      CostOfItems(front);
      CostOfConcat(ItemsOfModels(front), ItemsOfUsage(last));
      CostOfUsageItems(last);
    }
  }

  lemma {:induction false} CountedCostGrows(files: seq<File>, i: nat)
    requires i < |files|
    ensures CostOf(CountedItems(files, i + 1))
         == CostOf(CountedItems(files, i)) + if Counted(files, i) then CostOf(files[i].items) else 0.0
  {
    if Counted(files, i) {
      CountedMore(files, i);
      CostOfConcat(CountedItems(files, i), files[i].items);
    } else {
      SkippedMore(files, i);
    }
  }

  lemma {:induction false} CostOfCounted(sessions: Sessions, files: seq<File>, n: nat)
    requires AreFiles(sessions, files) && n <= |files|
    ensures CostOf(CountedItems(files, n)) == CostOfSessions(sessions, files, n)
  {
    if n > 0 {
      CostOfCounted(sessions, files, n - 1);
      CountedCostGrows(files, n - 1);
      assert IsFile(sessions, files, n - 1);
      CostOfFileItems(sessions[n - 1].1);
    }
  }

  lemma {:induction false} CostOfFileItems(data: Fields)
    ensures CostOf(ItemsOf(data)) == CostOfFile(data)
  {
    if Get(data, "byModel").Obj? { CostOfItems(Get(data, "byModel").fields); }
  }

  // ---- Which prices there are

  /** `usage[field]` is an object with this count and this price. */
  ghost predicate UsageSays(usage: Json, field: string, tokens: Json, cost: Json) {
    && usage.Obj? && Get(usage.fields, field).Obj?
    && tokens == Get(Get(usage.fields, field).fields, "tokens")
    && cost == Get(Get(usage.fields, field).fields, "cost_usd")
  }

  /** Not one of Python's empty values. */
  ghost predicate IsSet(v: Json) {
    && v != Null && v != Bool(false) && v != Int(0) && v != Float(0.0) && v != Str("") && v != Arr(0) && v != Obj([])
  }

  /** What an item was read from: one of the five fields, or the flag. */
  ghost predicate IsFrom(item: Item, usage: Json) {
    match item
    case UnknownCosts => usage.Obj? && IsSet(Get(usage.fields, "hasUnknownCosts"))
    case Part(bucket, tokens, cost) => exists field :: IsFieldOf(bucket, field) && UsageSays(usage, field, tokens, cost)
  }

  ghost predicate FileSays(data: Fields, item: Item) {
    Get(data, "byModel").Obj? && exists m :: m in Get(data, "byModel").fields && IsFrom(item, m.1)
  }

  /** A counted session says it. */
  ghost predicate Said(sessions: Sessions, files: seq<File>, n: nat, item: Item) {
    exists i: nat :: i < n && SaidBy(sessions, files, i, item)
  }

  ghost predicate SaidBy(sessions: Sessions, files: seq<File>, i: nat, item: Item) {
    i < |sessions| && Counted(files, i) && FileSays(sessions[i].1, item)
  }

  lemma {:induction false} FieldIsNamed(bucket: Bucket)
    ensures IsFieldOf(bucket, NameOf(bucket)) && forall field :: IsFieldOf(bucket, field) ==> field == NameOf(bucket)
  {
  }

  lemma {:induction false} PartIsIn(usage: Fields, buckets: seq<Bucket>, item: Item)
    requires item.Part?
    ensures item in PartsOf(usage, buckets) <==> item.bucket in buckets && item in PartOf(usage, item.bucket)
  {
    if buckets != [] {
      var front, last := buckets[..|buckets| - 1], buckets[|buckets| - 1];
      assert buckets == front + [last];
      PartIsIn(usage, front, item);
      assert item in PartOf(usage, last) ==> last == item.bucket;
    }
  }

  lemma {:induction false} OnlyParts(usage: Fields, buckets: seq<Bucket>)
    ensures UnknownCosts !in PartsOf(usage, buckets)
  {
    if buckets != [] { OnlyParts(usage, buckets[..|buckets| - 1]); }
  }

  lemma {:induction false} ItemsOfUsageAreFrom(usage: Json, item: Item)
    ensures item in ItemsOfUsage(usage) <==> IsFrom(item, usage)
  {
    if usage.Obj? {
      var u := usage.fields;
      OnlyParts(u, BUCKETS);
      if item.Part? {
        PartIsIn(u, BUCKETS, item);
        EveryBucket(item.bucket);
        FieldIsNamed(item.bucket);
        assert item in PartOf(u, item.bucket) <==> UsageSays(usage, NameOf(item.bucket), item.tokens, item.cost);
      }
    }
  }

  lemma {:induction false} ItemsOfModelsAreFrom(models: Fields, item: Item)
    ensures item in ItemsOfModels(models) <==> exists m :: m in models && IsFrom(item, m.1)
  {
    if models != [] {
      var front, last := models[..|models| - 1], models[|models| - 1];
      assert models == front + [last];
      ItemsOfModelsAreFrom(front, item);
      ItemsOfUsageAreFrom(last.1, item);
      if m :| m in models && IsFrom(item, m.1) { assert m in front || m == last; }
    }
  }

  lemma {:induction false} ItemsOfFileAreSaid(data: Fields, item: Item)
    ensures item in ItemsOf(data) <==> FileSays(data, item)
  {
    if Get(data, "byModel").Obj? { ItemsOfModelsAreFrom(Get(data, "byModel").fields, item); }
  }

  lemma {:induction false} CountedItemsAreSaid(sessions: Sessions, files: seq<File>, n: nat, item: Item)
    requires AreFiles(sessions, files) && n <= |files|
    ensures item in CountedItems(files, n) <==> Said(sessions, files, n, item)
  {
    if n > 0 {
      CountedItemsAreSaid(sessions, files, n - 1, item);
      assert IsFile(sessions, files, n - 1);
      ItemsOfFileAreSaid(sessions[n - 1].1, item);
      assert Said(sessions, files, n, item) <==>
          Said(sessions, files, n - 1, item) || SaidBy(sessions, files, n - 1, item);
    }
  }

  /**
   * A cost is given exactly when a counted session has a price and none hides one: no unknown costs, and no tokens
   * without a price. It is then the sum of the valid prices of the five fields.
   */
  lemma {:induction false} CostIsGivenIff(sessions: Sessions, r: Option<Summary>)
    requires IsSummary(r, FilesOf(sessions)) && r.Some?
    ensures var files, n := FilesOf(sessions), |sessions|;
      && (r.value.costUsd.Some? <==>
            && (exists item :: Said(sessions, files, n, item) && Priced(item))
            && !(exists item :: Said(sessions, files, n, item) && Unpriced(item)))
      && (r.value.costUsd.Some? ==> r.value.costUsd.value == CostOfSessions(sessions, files, n))
  {
    var files := FilesOf(sessions);
    FilesAreFiles(sessions);
    CostOfCounted(sessions, files, |sessions|);
    var items := CountedItems(files, |sessions|);
    forall item ensures item in items <==> Said(sessions, files, |sessions|, item) {
      CountedItemsAreSaid(sessions, files, |sessions|, item);
    }
    assert AnyPriced(items) <==> exists item :: item in items && Priced(item);
    assert AnyUnpriced(items) <==> exists item :: item in items && Unpriced(item);
  }

  // ---- Sums

  ghost function Sum(n: nat, f: nat -> int): int { if n == 0 then 0 else Sum(n - 1, f) + f(n - 1) }

  lemma {:induction false} SumIsSame(n: nat, f: nat -> int, g: nat -> int)
    requires forall i: nat :: i < n ==> f(i) == g(i)
    ensures Sum(n, f) == Sum(n, g)
  {
    if n > 0 { SumIsSame(n - 1, f, g); }
  }

  lemma {:induction false} SumAdds(n: nat, f: nat -> int, g: nat -> int, h: nat -> int)
    requires forall i: nat :: i < n ==> h(i) == f(i) + g(i)
    ensures Sum(n, h) == Sum(n, f) + Sum(n, g)
  {
    if n > 0 { SumAdds(n - 1, f, g, h); }
  }

  ghost function Row(f: (nat, nat) -> int, i: nat): nat -> int { (j: nat) => f(i, j) }
  ghost function Column(f: (nat, nat) -> int, j: nat): nat -> int { (i: nat) => f(i, j) }
  ghost function RowSums(n: nat, f: (nat, nat) -> int): nat -> int { (i: nat) => Sum(n, Row(f, i)) }
  ghost function ColumnSums(m: nat, f: (nat, nat) -> int): nat -> int { (j: nat) => Sum(m, Column(f, j)) }

  lemma {:induction false} SumByRowsOrColumns(m: nat, n: nat, f: (nat, nat) -> int)
    ensures Sum(m, RowSums(n, f)) == Sum(n, ColumnSums(m, f))
    decreases m
  {
    if m == 0 {
      SumOfNothing(n, ColumnSums(0, f));
    } else {
      SumByRowsOrColumns(m - 1, n, f);
      var k := m - 1;
      forall j: nat | j < n ensures ColumnSums(m, f)(j) == ColumnSums(k, f)(j) + Row(f, k)(j) {
        assert Sum(m, Column(f, j)) == Sum(k, Column(f, j)) + Column(f, j)(k);
      }
      SumAdds(n, ColumnSums(k, f), Row(f, k), ColumnSums(m, f));
    }
  }

  lemma {:induction false} SumOfNothing(n: nat, f: nat -> int)
    requires forall i: nat :: i < n ==> f(i) == 0
    ensures Sum(n, f) == 0
  {
    if n > 0 { SumOfNothing(n - 1, f); }
  }

  // ---- Conservation

  /** Tokens of `bucket` in the file of session `i`. */
  ghost function Reported(files: seq<File>, bucket: Bucket): nat -> int {
    (i: nat) => if i < |files| then TokensOf(files[i].items, bucket) else 0
  }

  ghost predicate HoldsChild(files: seq<File>, i: nat, j: nat) {
    i < |files| && j < |files| && files[j].id in files[i].holds
  }

  /** What session `j` adds to the file of a session `i` whose honoured ledger lists it. */
  ghost function RolledUp(files: seq<File>, bucket: Bucket): (nat, nat) -> int {
    (i: nat, j: nat) => if HoldsChild(files, i, j) then Reported(files, bucket)(j) else 0
  }

  /** How many honoured ledgers of the first `n` list session `j`. */
  ghost function Parents(files: seq<File>, n: nat, j: nat): nat {
    if n == 0 then 0 else Parents(files, n - 1, j) + if HoldsChild(files, n - 1, j) then 1 else 0
  }

  /** Every file holds its session's own usage and that of the children it rolled up. */
  ghost predicate FilesRollUp(files: seq<File>, bucket: Bucket, own: nat -> int) {
    forall i: nat :: i < |files| ==>
      Reported(files, bucket)(i) == own(i) + RowSums(|files|, RolledUp(files, bucket))(i)
  }

  lemma {:induction false} ColumnCountsParents(files: seq<File>, bucket: Bucket, n: nat, j: nat)
    requires n <= |files| && j < |files|
    ensures Sum(n, Column(RolledUp(files, bucket), j)) == Parents(files, n, j) * Reported(files, bucket)(j)
  {
    if n > 0 { ColumnCountsParents(files, bucket, n - 1, j); }
  }

  lemma {:induction false} HonouredIffParents(files: seq<File>, n: nat, j: nat)
    requires n <= |files| && j < |files|
    ensures Parents(files, n, j) > 0 <==> HonouredIn(files, files[j].id, n)
  {
    if n > 0 { HonouredIffParents(files, n - 1, j); }
  }

  /** What the summary counts of session `j`. */
  ghost function CountedOf(files: seq<File>, bucket: Bucket): nat -> int {
    (j: nat) => if Counted(files, j) then Reported(files, bucket)(j) else 0
  }

  /** What is counted once too often for each ledger beyond the first that lists session `j`. */
  ghost function Excess(files: seq<File>, bucket: Bucket): nat -> int {
    (j: nat) =>
      var parents := Parents(files, |files|, j);
      if parents > 1 then (parents - 1) * Reported(files, bucket)(j) else 0
  }

  lemma {:induction false} TokensOfConcat(a: seq<Item>, b: seq<Item>, bucket: Bucket)
    ensures TokensOf(a + b, bucket) == TokensOf(a, bucket) + TokensOf(b, bucket)
    decreases |b|
  {
    if b == [] {
      assert a + b == a;
    } else {
      var front, last := b[..|b| - 1], b[|b| - 1];
      assert b == front + [last] && a + b == (a + front) + [last];
      TokensOfConcat(a, front, bucket);
      OneItemMore(a + front, last);
    }
  }

  lemma {:induction false} CountedItemsGrow(files: seq<File>, bucket: Bucket, i: nat)
    requires i < |files|
    ensures TokensOf(CountedItems(files, i + 1), bucket)
         == TokensOf(CountedItems(files, i), bucket) + CountedOf(files, bucket)(i)
  {
    if Counted(files, i) {
      CountedMore(files, i);
      TokensOfConcat(CountedItems(files, i), files[i].items, bucket);
      assert Reported(files, bucket)(i) == TokensOf(files[i].items, bucket);
      assert CountedOf(files, bucket)(i) == Reported(files, bucket)(i);
    } else {
      SkippedMore(files, i);
    }
  }

  lemma {:induction false} CountedItemsHold(files: seq<File>, bucket: Bucket, n: nat)
    requires n <= |files|
    ensures TokensOf(CountedItems(files, n), bucket) == Sum(n, CountedOf(files, bucket))
  {
    if n > 0 {
      CountedItemsHold(files, bucket, n - 1);
      CountedItemsGrow(files, bucket, n - 1);
    }
  }

  lemma {:induction false} CountedPlusHeld(files: seq<File>, bucket: Bucket, j: nat)
    requires j < |files|
    ensures CountedOf(files, bucket)(j) + ColumnSums(|files|, RolledUp(files, bucket))(j)
         == Reported(files, bucket)(j) + Excess(files, bucket)(j)
  {
    ColumnCountsParents(files, bucket, |files|, j);
    HonouredIffParents(files, |files|, j);
    var parents, t := Parents(files, |files|, j), Reported(files, bucket)(j);
    assert Counted(files, j) <==> parents == 0;
    assert parents > 1 ==> parents * t == t + (parents - 1) * t;
  }

  /**
   * The summary's total is every session's own usage counted once, at any depth of the ledgers, plus what
   * sessions listed by several ledgers count too often.
   */
  lemma {:induction false} TotalIsOwnUsagePlusExcess(files: seq<File>, bucket: Bucket, own: nat -> int)
    requires FilesRollUp(files, bucket, own)
    ensures TokensOf(CountedItems(files, |files|), bucket)
         == Sum(|files|, own) + Sum(|files|, Excess(files, bucket))
  {
    var n := |files|;
    var rolled := RolledUp(files, bucket);
    var reported, counted, excess := Reported(files, bucket), CountedOf(files, bucket), Excess(files, bucket);
    var rows, columns := RowSums(n, rolled), ColumnSums(n, rolled);
    CountedItemsHold(files, bucket, n);
    SumAdds(n, own, rows, reported);
    SumByRowsOrColumns(n, n, rolled);
    var both := (j: nat) => counted(j) + columns(j);
    SumAdds(n, counted, columns, both);
    forall j: nat | j < n ensures both(j) == reported(j) + excess(j) {
      CountedPlusHeld(files, bucket, j);
    }
    SumAdds(n, reported, excess, both);
  }

  lemma {:induction false} ZeroSumOfCounts(n: nat, f: nat -> int)
    requires forall i: nat :: i < n ==> f(i) >= 0
    ensures Sum(n, f) >= 0 && (Sum(n, f) == 0 <==> forall i: nat :: i < n ==> f(i) == 0)
  {
    if n > 0 { ZeroSumOfCounts(n - 1, f); }
  }

  /** Exact if and only if no session with tokens is listed by two honoured ledgers. */
  lemma {:induction false} CountsOnceIff(files: seq<File>, bucket: Bucket, own: nat -> int)
    requires FilesRollUp(files, bucket, own)
    ensures TokensOf(CountedItems(files, |files|), bucket) == Sum(|files|, own) <==>
              forall j: nat :: j < |files| && Parents(files, |files|, j) > 1 ==> Reported(files, bucket)(j) == 0
  {
    TotalIsOwnUsagePlusExcess(files, bucket, own);
    var excess := Excess(files, bucket);
    forall j: nat | j < |files|
      ensures excess(j) >= 0
      ensures excess(j) == 0 <==> Parents(files, |files|, j) <= 1 || Reported(files, bucket)(j) == 0
    {
      NoExcessIff(files, bucket, j);
    }
    ZeroSumOfCounts(|files|, excess);
  }

  lemma {:induction false} NoExcessIff(files: seq<File>, bucket: Bucket, j: nat)
    requires j < |files|
    ensures Excess(files, bucket)(j) >= 0
    ensures Excess(files, bucket)(j) == 0 <==> Parents(files, |files|, j) <= 1 || Reported(files, bucket)(j) == 0
  {
    var parents, tokens := Parents(files, |files|, j), TokensOf(files[j].items, bucket);
    assert Reported(files, bucket)(j) == tokens;
    assert Excess(files, bucket)(j) == if parents > 1 then (parents - 1) * tokens else 0;
    ProductIsZeroIff(parents, tokens);
  }

  lemma {:induction false} ProductIsZeroIff(parents: nat, tokens: nat)
    ensures parents > 1 ==> (parents - 1) * tokens >= 0 && ((parents - 1) * tokens == 0 <==> tokens == 0)
  {
    if parents > 1 && tokens > 0 { assert (parents - 1) * tokens > 0; }
  }

  /** No session is in two ledgers that count. */
  ghost predicate IsForest(files: seq<File>) {
    forall i: nat, k: nat, j: nat :: HoldsChild(files, i, j) && HoldsChild(files, k, j) ==> i == k
  }

  lemma {:induction false} OneParentInForest(files: seq<File>, n: nat, j: nat)
    requires IsForest(files) && n <= |files|
    ensures Parents(files, n, j) <= 1
    ensures Parents(files, n, j) == 1 ==> exists i: nat :: i < n && HoldsChild(files, i, j)
  {
    if n > 0 { OneParentInForest(files, n - 1, j); }
  }

  /** In a forest of ledgers, however deep, every session's own usage is counted once. */
  lemma {:induction false} ForestCountsOnce(files: seq<File>, bucket: Bucket, own: nat -> int)
    requires FilesRollUp(files, bucket, own) && IsForest(files)
    ensures TokensOf(CountedItems(files, |files|), bucket) == Sum(|files|, own)
  {
    CountsOnceIff(files, bucket, own);
    forall j: nat | j < |files| ensures Parents(files, |files|, j) <= 1 { OneParentInForest(files, |files|, j); }
  }

  // ---- A session in two ledgers

  const FIVE_TOKENS := Obj([("m", Obj([("input", Obj([("tokens", Int(5))]))]))])

  function FiveTokensAnd(ledger: Fields): Fields { [("byModel", FIVE_TOKENS), ("rolledUpFrom", Obj(ledger))] }

  lemma {:induction false} FileOfFiveTokens(id: string, ledger: Fields)
    ensures FileOf(id, FiveTokensAnd(ledger)) == File(id, true, [Part(Input, Int(5), Null)], ValidIds(ledger))
  {
    var data, item := FiveTokensAnd(ledger), Part(Input, Int(5), Null);
    assert |"byModel"| != |"rolledUpFrom"|;
    assert data[1..] == [("rolledUpFrom", Obj(ledger))] && Get(data[1..], "rolledUpFrom") == Obj(ledger);
    assert data[0].0 != "rolledUpFrom" && LedgerOf(data) == ledger;
    var models := [("m", Obj([("input", Obj([("tokens", Int(5))]))]))];
    var usage: Fields := [("input", Obj([("tokens", Int(5))]))];
    FiveTokensOfUsage(usage);
    assert models[..0] == [] && ItemsOfModels([]) == [];
    assert ItemsOf(data) == [item];
    assert HasTokens(ItemsOf(data)[0]) && Usable(data);
  }

  lemma {:induction false} FiveTokensOfUsage(usage: Fields)
    requires usage == [("input", Obj([("tokens", Int(5))]))]
    ensures ItemsOfUsage(Obj(usage)) == [Part(Input, Int(5), Null)]
  {
    assert usage[1..] == [] && Get(usage, "hasUnknownCosts") == Null;
    PartsOfFiveTokens(usage, BUCKETS);
  }

  lemma {:induction false} PartsOfFiveTokens(usage: Fields, buckets: seq<Bucket>)
    requires usage == [("input", Obj([("tokens", Int(5))]))]
    requires buckets != [] && buckets[0] == Input && forall i :: 0 < i < |buckets| ==> buckets[i] != Input
    ensures PartsOf(usage, buckets) == [Part(Input, Int(5), Null)]
  {
    var front, last := buckets[..|buckets| - 1], buckets[|buckets| - 1];
    PartOfFiveTokens(usage, last);
    if front != [] { PartsOfFiveTokens(usage, front); }
  }

  lemma {:induction false} PartOfFiveTokens(usage: Fields, bucket: Bucket)
    requires usage == [("input", Obj([("tokens", Int(5))]))]
    ensures PartOf(usage, bucket) == if bucket.Input? then [Part(Input, Int(5), Null)] else []
  {
    var tokens: Fields := [("tokens", Int(5))];
    assert usage[1..] == [] && tokens[1..] == [];
    assert Get(tokens, "tokens") == Int(5) && Get(tokens, "cost_usd") == Null;
    assert Get([], NameOf(bucket)) == Null;
    assert Get(usage, NameOf(bucket)) == if bucket.Input? then Obj(tokens) else Null;
  }

  lemma {:induction false} SumOfThree(f: nat -> int)
    ensures Sum(3, f) == f(0) + f(1) + f(2)
  {
    assert Sum(1, f) == f(0) && Sum(2, f) == Sum(1, f) + f(1);
  }

  const HOLDS_C: Fields := [("c", Bool(true))]

  const TWO_PARENTS: Sessions :=
    [("p", FiveTokensAnd(HOLDS_C)), ("q", FiveTokensAnd(HOLDS_C)), ("c", FiveTokensAnd([]))]

  const OWN_TOKENS: nat -> int := i => if i == 2 then 5 else 0

  /** Two parents that both rolled up `c`: its five tokens are counted in each of their files. */
  lemma {:induction false} TwoLedgersCountTwice()
    ensures FilesRollUp(FilesOf(TWO_PARENTS), Input, OWN_TOKENS) && Sum(|TWO_PARENTS|, OWN_TOKENS) == 5
    ensures TokensOf(CountedItems(FilesOf(TWO_PARENTS), |TWO_PARENTS|), Input) == 10
  {
    var files := FilesOf(TWO_PARENTS);
    FilesOfTwoParents(files);
    TwoLedgers(files, OWN_TOKENS);
  }

  ghost predicate IsFiveTokenFile(f: File, id: string, holds: set<string>) {
    f.id == id && f.items == [Part(Input, Int(5), Null)] && f.holds == holds
  }

  lemma {:induction false} FilesOfTwoParents(files: seq<File>)
    requires files == FilesOf(TWO_PARENTS)
    ensures |files| == 3 && IsFiveTokenFile(files[2], "c", {})
    ensures IsFiveTokenFile(files[0], "p", {"c"}) && IsFiveTokenFile(files[1], "q", {"c"})
  {
    FileOfSession(TWO_PARENTS, 0, "p", HOLDS_C);
    FileOfSession(TWO_PARENTS, 1, "q", HOLDS_C);
    FileOfSession(TWO_PARENTS, 2, "c", []);
    assert HOLDS_C[0] in HOLDS_C;
    assert ValidIds(HOLDS_C) == {"c"} && ValidIds([]) == {};
  }

  lemma {:induction false} FileOfSession(sessions: Sessions, i: nat, id: string, ledger: Fields)
    requires i < |sessions| && sessions[i].0 == id && sessions[i].1 == FiveTokensAnd(ledger)
    ensures FilesOf(sessions)[i] == File(id, true, [Part(Input, Int(5), Null)], ValidIds(ledger))
  {
    FileOfFiveTokens(id, ledger);
  }

  lemma {:induction false} IdsOfOne(ledger: Fields)
    requires ledger == [("c", Bool(true))]
    ensures ValidIds(ledger) == {"c"} && ValidIds([]) == {}
  {
    assert ledger[0] in ledger;
  }

  lemma {:induction false} TwoLedgers(files: seq<File>, own: nat -> int)
    requires |files| == 3 && IsFiveTokenFile(files[2], "c", {})
    requires IsFiveTokenFile(files[0], "p", {"c"}) && IsFiveTokenFile(files[1], "q", {"c"})
    requires own(0) == 0 && own(1) == 0 && own(2) == 5
    ensures FilesRollUp(files, Input, own) && Sum(3, own) == 5
    ensures TokensOf(CountedItems(files, 3), Input) == 10
  {
    var rolled, excess := RolledUp(files, Input), Excess(files, Input);
    assert forall i: nat, j: nat :: HoldsChild(files, i, j) <==> i < 2 && j == 2;
    forall i: nat | i < 3
      ensures Reported(files, Input)(i) == 5 && RowSums(3, rolled)(i) == if i < 2 then 5 else 0
    {
      OneItemMore([], Part(Input, Int(5), Null));
      assert [] + [Part(Input, Int(5), Null)] == files[i].items;
      SumOfThree(Row(rolled, i));
    }
    forall j: nat | j < 3 ensures Parents(files, 3, j) == if j == 2 then 2 else 0 {
      assert Parents(files, 1, j) == if j == 2 then 1 else 0;
      assert Parents(files, 2, j) == if j == 2 then 2 else 0;
    }
    SumOfThree(own);
    SumOfThree(excess);
    TotalIsOwnUsagePlusExcess(files, Input, own);
  }
}
