/** reordered() of scripts/dry/dryer_report.py. */
module Matching {
  /*
   * The added forms of one file are matched to its removed forms by Kuhn's augmenting paths. `claim` recurses
   * while it changes a shared owner map and a shared set of tried bases, so the proof carries what a failed
   * claim leaves behind (a closed set of dead bases) through every later successful one.
   */

  import opened Sorting
  import opened Forms

  type Options = map<Form, seq<Form>>

  ghost function Adj(options: Options, form: Form): set<Form>
    requires form in options
  {
    set b | b in options[form]
  }

  ghost predicate Within(options: Options, bases: set<Form>) {
    forall f :: f in options ==> Adj(options, f) <= bases
  }

  /** Every owner took a base from its own options. */
  ghost predicate Edges(owner: map<Form, Form>, options: Options) {
    forall b :: b in owner ==> owner[b] in options && b in options[owner[b]]
  }

  /** Outside `except`, no form owns two bases. */
  ghost predicate OneBaseEach(owner: map<Form, Form>, except: set<Form>) {
    forall b, c :: b in owner && c in owner && b !in except && c !in except && owner[b] == owner[c] ==> b == c
  }

  /** No augmenting path that enters `dead` ends: its bases are owned and their owners want only `dead` bases. */
  ghost predicate Closed(dead: set<Form>, owner: map<Form, Form>, options: Options) {
    forall b :: b in dead ==> b in owner && owner[b] in options && Adj(options, owner[b]) <= dead
  }

  ghost predicate Agree(o: map<Form, Form>, n: map<Form, Form>, on: set<Form>) {
    forall b :: b in on ==> (b in o <==> b in n) && (b in o ==> o[b] == n[b])
  }

  /** What a failed claim leaves: every base it tried is owned, by a form whose options were all tried. */
  ghost predicate DeadEnd(form: Form, tried: set<Form>, seen: set<Form>, owner: map<Form, Form>, options: Options)
    requires form in options
  {
    && Adj(options, form) <= seen
    && Tried(tried, seen, owner, options)
  }

  ghost predicate Tried(tried: set<Form>, seen: set<Form>, owner: map<Form, Form>, options: Options) {
    forall b :: b in seen && b !in tried ==> b in owner && owner[b] in options && Adj(options, owner[b]) <= seen
  }

  /** What a successful claim does: `form` owns a base that was not tried before, and nobody lost theirs. */
  ghost predicate Claimed(form: Form, before: map<Form, Form>, after: map<Form, Form>, tried: set<Form>,
                          dead: set<Form>, options: Options) {
    && Edges(after, options)
    && OneBaseEach(after, set b | b in before && before[b] == form)
    && before.Keys <= after.Keys && after.Values == before.Values + {form}
    && (exists b :: b !in tried && b in after && after[b] == form)
    && Agree(before, after, tried + dead)
  }

  class Matcher {
    const options: Options
    ghost const bases: set<Form>
    var owner: map<Form, Form>  // removed form -> added form
    var seen: set<Form>

    constructor (options: Options, ghost bases: set<Form>)
      ensures this.options == options && this.bases == bases && owner == map[] && seen == {}
    {
      this.options := options;
      this.bases := bases;
      owner := map[];
      seen := {};
    }

    method Claim(form: Form, ghost dead: set<Form>) returns (ok: bool)
      requires form in options && Within(options, bases)
      requires Edges(owner, options) && OneBaseEach(owner, {})
      requires forall b :: b in owner && owner[b] == form ==> b in seen
      requires Closed(dead, owner, options)
      modifies this`owner, this`seen
      ensures old(seen) <= seen
      ensures !ok ==> owner == old(owner) && DeadEnd(form, old(seen), seen, owner, options)
      ensures ok ==> Claimed(form, old(owner), owner, old(seen), dead, options)
      ensures Adj(options, form) <= dead ==> !ok
      ensures options[form] != [] && options[form][0] !in old(seen) && options[form][0] !in old(owner) ==>
              ok && owner == old(owner)[options[form][0] := form]
      decreases bases - seen
    {
      ghost var before, tried := owner, seen;
      for i := 0 to |options[form]|
        invariant owner == before && tried <= seen
        invariant forall j :: 0 <= j < i ==> options[form][j] in seen
        invariant Tried(tried, seen, owner, options)
        invariant i > 0 ==> options[form][0] in tried || options[form][0] in before
      {
        var base := options[form][i];
        assert base in Adj(options, form);
        if base in seen { continue; }
        ghost var entry := seen;
        seen := seen + {base};
        if base !in owner {
          owner := owner[base := form];
          TakeFree(before, options, form, base, tried, dead);
          return true;
        }
        ok := Claim(owner[base], dead);
        if ok {
          TakeFrom(before, owner, options, form, base, entry, tried, dead);
          owner := owner[base := form];
          return true;
        }
        TriedMore(tried, entry, seen, owner, options, base);
      }
      return false;
    }
  }

  lemma {:induction false} TriedMore(tried: set<Form>, entry: set<Form>, seen: set<Form>, owner: map<Form, Form>,
                                     options: Options, base: Form)
    requires tried <= entry && entry + {base} <= seen
    requires base in owner && owner[base] in options && Adj(options, owner[base]) <= seen
    requires Tried(tried, entry, owner, options) && Tried(entry + {base}, seen, owner, options)
    ensures Tried(tried, seen, owner, options)
  {
  }

  lemma {:induction false} TakeFree(before: map<Form, Form>, options: Options, form: Form, base: Form,
                                    tried: set<Form>, dead: set<Form>)
    requires form in options && base in options[form] && base !in before && base !in tried
    requires Edges(before, options) && OneBaseEach(before, {}) && Closed(dead, before, options)
    ensures Claimed(form, before, before[base := form], tried, dead, options)
    ensures base !in dead
  {
    var owner := before[base := form];
    forall f | f in before.Values + {form} ensures f in owner.Values {
      if f == form { assert owner[base] == f; } else {
        var b :| b in before && before[b] == f;
        assert owner[b] == f;
      }
    }
  }

  /** The claimed base changes hands after its rival moved on to another one. */
  lemma {:induction false} TakeFrom(before: map<Form, Form>, moved: map<Form, Form>, options: Options, form: Form,
                                    base: Form, seen: set<Form>, tried: set<Form>, dead: set<Form>)
    requires form in options && base in options[form]
    requires tried <= seen && base !in seen && base in before
    requires Edges(before, options) && OneBaseEach(before, {}) && Closed(dead, before, options)
    requires forall b :: b in before && before[b] == form ==> b in tried
    requires Claimed(before[base], before, moved, seen + {base}, dead, options)
    requires !(Adj(options, before[base]) <= dead)
    ensures Claimed(form, before, moved[base := form], tried, dead, options)
    ensures base !in dead
  {
    NotDead(before, options, base, dead);
    RivalMoved(before, moved, options, base, seen, dead);
    Swap(before, moved, options, form, base, seen, tried, dead);
  }

  /** The rival's one base was `base`; now it has another one as well. */
  ghost predicate MovedOn(before: map<Form, Form>, moved: map<Form, Form>, base: Form, on: set<Form>) {
    && base in before && base in moved && moved[base] == before[base]
    && before.Keys <= moved.Keys && moved.Values == before.Values + {before[base]}
    && (exists b :: b in moved && b != base && moved[b] == before[base])
    && OneBaseEach(moved, {base}) && Agree(before, moved, on)
  }

  lemma {:induction false} RivalMoved(before: map<Form, Form>, moved: map<Form, Form>, options: Options, base: Form,
                                      seen: set<Form>, dead: set<Form>)
    requires OneBaseEach(before, {}) && base in before
    requires Claimed(before[base], before, moved, seen + {base}, dead, options)
    ensures MovedOn(before, moved, base, seen + {base} + dead) && Edges(moved, options)
  {
    assert (set b | b in before && before[b] == before[base]) == {base};
    assert base in seen + {base} + dead;
  }

  lemma {:induction false} Swap(before: map<Form, Form>, moved: map<Form, Form>, options: Options, form: Form,
                                base: Form, seen: set<Form>, tried: set<Form>, dead: set<Form>)
    requires MovedOn(before, moved, base, seen + {base} + dead) && Edges(moved, options)
    requires form in options && base in options[form] && tried <= seen && base !in seen && base !in dead
    requires forall b :: b in before && before[b] == form ==> b in tried
    ensures Claimed(form, before, moved[base := form], tried, dead, options)
  {
    var own := set b | b in before && before[b] == form;
    AgreeOnLess(before, moved, seen, seen + {base} + dead);
    forall c | c in moved && c != base && moved[c] == form ensures c in own {
      OwnedBefore(before, moved, form, base, seen, c);
    }
    SwapKeepsOneBase(moved, form, base, own);
    SwapKeepsEdges(moved, options, form, base);
    SwapAgrees(before, moved, form, base, tried + dead, seen + {base} + dead);
    SameForms(before, moved, form, base);
    assert moved[base := form][base] == form;
  }

  lemma {:induction false} SwapKeepsEdges(moved: map<Form, Form>, options: Options, form: Form, base: Form)
    requires Edges(moved, options) && form in options && base in options[form]
    ensures Edges(moved[base := form], options)
  {
  }

  lemma {:induction false} AgreeOnLess(o: map<Form, Form>, n: map<Form, Form>, on: set<Form>, all: set<Form>)
    requires Agree(o, n, all) && on <= all
    ensures Agree(o, n, on)
  {
  }

  lemma {:induction false} NotDead(before: map<Form, Form>, options: Options, base: Form, dead: set<Form>)
    requires Closed(dead, before, options) && base in before && before[base] in options
    requires !(Adj(options, before[base]) <= dead)
    ensures base !in dead
  {
  }

  lemma {:induction false} SwapAgrees(before: map<Form, Form>, moved: map<Form, Form>, form: Form, base: Form,
                                      on: set<Form>, all: set<Form>)
    requires Agree(before, moved, all) && on <= all && base !in on
    ensures Agree(before, moved[base := form], on)
  {
  }

  /** A base of `form` after the rival moved was one before. */
  lemma {:induction false} OwnedBefore(before: map<Form, Form>, moved: map<Form, Form>, form: Form, base: Form,
                                       seen: set<Form>, c: Form)
    requires base in before && base !in seen && moved.Values == before.Values + {before[base]}
    requires OneBaseEach(moved, {base}) && Agree(before, moved, seen)
    requires forall b :: b in before && before[b] == form ==> b in seen
    requires c in moved && c != base && moved[c] == form
    ensures c in before && before[c] == form
  {
    assert moved[c] in moved.Values && before[base] in before.Values;
    var own :| own in before && before[own] == form;
    assert own in moved && moved[own] == form;
    assert own == c;
  }

  lemma {:induction false} SwapKeepsOneBase(moved: map<Form, Form>, form: Form, base: Form, own: set<Form>)
    requires OneBaseEach(moved, {base}) && forall c :: c in moved && c != base && moved[c] == form ==> c in own
    ensures OneBaseEach(moved[base := form], own)
  {
  }

  /** After the swap the same forms hold a base, and the new one. */
  lemma {:induction false} SameForms(before: map<Form, Form>, moved: map<Form, Form>, form: Form, base: Form)
    requires base in before && base in moved && moved[base] == before[base]
             && moved.Values == before.Values + {before[base]}
    requires exists b :: b in moved && b != base && moved[b] == before[base]
    ensures moved[base := form].Values == before.Values + {form}
  {
    var owner := moved[base := form];
    forall f | f in before.Values + {form} ensures f in owner.Values {
      if f == form {
        assert owner[base] == form;
      } else if f == before[base] {
        var b :| b in moved && b != base && moved[b] == f;
        assert owner[b] == f;
      } else {
        assert f in moved.Values;
        var b :| b in moved && moved[b] == f;
        assert owner[b] == f;
      }
    }
    forall f | f in owner.Values ensures f in before.Values + {form} {
      var b :| b in owner && owner[b] == f;
      assert before[base] in before.Values;
      assert b != base ==> f in moved.Values;
    }
  }

  /** A one-to-one choice, for some of the forms `added`, of one of their options. */
  ghost predicate IsMatching(m: map<Form, Form>, added: set<Form>, options: Options) {
    && (forall f :: f in m ==> f in added && f in options && m[f] in options[f])
    && (forall f, g :: f in m && g in m && m[f] == m[g] ==> f == g)
  }

  ghost function Elements<T>(s: seq<T>): set<T> { set x | x in s }

  /** The forms of `chosen` among the first `k` of `order`. */
  ghost function Among(chosen: set<Form>, order: seq<Form>, k: nat): set<Form>
    requires k <= |order|
  {
    set f | f in chosen && f in order[..k]
  }

  /** No matching of the first `k` added forms is larger than what `chosen` matches among them. */
  ghost predicate MaximumAt(chosen: set<Form>, order: seq<Form>, k: nat, options: Options)
    requires k <= |order|
  {
    forall m :: IsMatching(m, Elements(order[..k]), options) ==> |m| <= |Among(chosen, order, k)|
  }

  ghost predicate PrefixMaximum(chosen: set<Form>, order: seq<Form>, upTo: nat, options: Options)
    requires upTo <= |order|
  {
    forall k: nat :: k <= upTo ==> MaximumAt(chosen, order, k, options)
  }

  /** Each of the first `i` added forms owns a base, or can never own one. */
  ghost predicate Settled(order: seq<Form>, i: nat, owner: map<Form, Form>, dead: set<Form>, options: Options)
    requires i <= |order|
  {
    forall j :: 0 <= j < i ==> order[j] in options && (order[j] in owner.Values || Adj(options, order[j]) <= dead)
  }

  function StartOf(form: Form): real { form.startLine as real }

  function Candidates(form: Form, removed: seq<Form>, threshold: real): (r: seq<Form>)
    ensures forall b :: b in r ==> b in removed
  {
    if removed == [] then []
    else
      var rest := Candidates(form, removed[1..], threshold);
      if Similar(form.fingerprints, removed[0].fingerprints, threshold).Some? then [removed[0]] + rest else rest
  }

  function BestFirst(form: Form, removed: seq<Form>, threshold: real): (r: seq<Form>)
    ensures forall b :: b in r <==> b in Candidates(form, removed, threshold)
  {
    var score := (b: Form) => -Jaccard(form.fingerprints, b.fingerprints);
    SameElements(Candidates(form, removed, threshold), score);
    SortBy(Candidates(form, removed, threshold), score)
  }

  function OptionsOf(lost: seq<Form>, removed: seq<Form>, threshold: real): (r: Options)
    ensures r.Keys == Elements(lost) && Within(r, Elements(removed))
  {
    map f | f in lost :: BestFirst(f, removed, threshold)
  }

  lemma {:induction false} CandidatesAreSimilar(form: Form, removed: seq<Form>, threshold: real, b: Form)
    ensures b in Candidates(form, removed, threshold) <==>
            b in removed && Similar(form.fingerprints, b.fingerprints, threshold).Some?
  {
    if removed != [] {
      CandidatesAreSimilar(form, removed[1..], threshold, b);
    }
  }

  /** The options are exactly the pairs that `similar` accepts. */
  lemma {:induction false} OptionsAreSimilar(lost: seq<Form>, removed: seq<Form>, threshold: real, f: Form, b: Form)
    requires f in lost
    ensures b in OptionsOf(lost, removed, threshold)[f] <==>
            b in removed && Similar(f.fingerprints, b.fingerprints, threshold).Some?
  {
    CandidatesAreSimilar(f, removed, threshold, b);
  }

  // ---- In which order candidates are tried

  /** What the gate asks of a pair. */
  ghost predicate Accepts(form: Form, b: Form, threshold: real) {
    form.fingerprints + b.fingerprints != {} && Jaccard(form.fingerprints, b.fingerprints) >= threshold
  }

  lemma {:induction false} OptionsAreAccepted(lost: seq<Form>, removed: seq<Form>, threshold: real, f: Form, b: Form)
    requires f in lost
    ensures b in OptionsOf(lost, removed, threshold)[f] <==> b in removed && Accepts(f, b, threshold)
  {
    OptionsAreSimilar(lost, removed, threshold, f, b);
    PreFilterIsExact(f.fingerprints, b.fingerprints, threshold);
  }

  lemma {:induction false} CandidatesKeepOrder(form: Form, removed: seq<Form>, threshold: real, x: Form, y: Form)
    requires Precedes(Candidates(form, removed, threshold), x, y)
    ensures Precedes(removed, x, y)
  {
    var all, rest := Candidates(form, removed, threshold), Candidates(form, removed[1..], threshold);
    if all != rest { PrecedesInTail(removed[0], rest, x, y); }
    if Precedes(rest, x, y) { CandidatesKeepOrder(form, removed[1..], threshold, x, y); }
    PrecedesInLonger(removed, x, y);
  }

  /** The score of `x` is higher, or the same and `x` stands first in the file. */
  ghost predicate IsBetter(f: Form, removed: seq<Form>, x: Form, y: Form) {
    || Jaccard(f.fingerprints, x.fingerprints) > Jaccard(f.fingerprints, y.fingerprints)
    || (Jaccard(f.fingerprints, x.fingerprints) == Jaccard(f.fingerprints, y.fingerprints) && Precedes(removed, x, y))
  }

  /** Best score first; of two candidates with one score, the one that stands first in the file. */
  lemma {:induction false} BestScoreFirst(lost: seq<Form>, removed: seq<Form>, threshold: real, f: Form, i: nat, j: nat)
    requires f in lost && i < j < |OptionsOf(lost, removed, threshold)[f]|
    ensures var options := OptionsOf(lost, removed, threshold)[f]; IsBetter(f, removed, options[i], options[j])
  {
    var candidates := Candidates(f, removed, threshold);
    var score := (b: Form) => -Jaccard(f.fingerprints, b.fingerprints);
    var sorted := SortBy(candidates, score);
    assert sorted == OptionsOf(lost, removed, threshold)[f];
    SortSorts(candidates, score);
    assert score(sorted[i]) <= score(sorted[j]);
    if score(sorted[i]) == score(sorted[j]) {
      SortKeepsOrder(candidates, score, i, j);
      CandidatesKeepOrder(f, removed, threshold, sorted[i], sorted[j]);
    }
  }

  /** `b` is the best candidate of `f`, and the first of the best. */
  ghost predicate IsBest(f: Form, removed: seq<Form>, threshold: real, b: Form) {
    && b in removed && Accepts(f, b, threshold)
    && forall c :: c in removed && c != b && Accepts(f, c, threshold) ==> !IsBetter(f, removed, c, b)
  }

  /** No other lost form could take `b`. */
  ghost predicate WantedByOne(f: Form, lost: seq<Form>, threshold: real, b: Form) {
    forall g :: g in lost && g != f ==> !Accepts(g, b, threshold)
  }

  /** Whoever is alone in wanting its best candidate gets it. */
  ghost predicate EachTakesItsBest(m: map<Form, Form>, lost: seq<Form>, removed: seq<Form>, threshold: real) {
    forall f, b :: f in lost && IsBest(f, removed, threshold, b) && WantedByOne(f, lost, threshold, b) ==>
      f in m && m[f] == b
  }

  lemma {:induction false} BestIsTriedFirst(lost: seq<Form>, removed: seq<Form>, threshold: real, f: Form, b: Form)
    requires f in lost && IsBest(f, removed, threshold, b)
    ensures var options := OptionsOf(lost, removed, threshold)[f]; options != [] && options[0] == b
  {
    var options := OptionsOf(lost, removed, threshold)[f];
    OptionsAreAccepted(lost, removed, threshold, f, b);
    var j :| 0 <= j < |options| && options[j] == b;
    if options[0] != b {
      OptionsAreAccepted(lost, removed, threshold, f, options[0]);
      BestScoreFirst(lost, removed, threshold, f, 0, j);
    }
  }

  /** `f` tries `b` first, and no other form has it among its options. */
  ghost predicate FirstAndOnly(options: Options, f: Form, b: Form) {
    && f in options && options[f] != [] && options[f][0] == b
    && forall g :: g in options && b in options[g] ==> g == f
  }

  /** Who was tried and is the only one to want its first option has it. */
  ghost predicate HaveTheirFirst(owner: map<Form, Form>, order: seq<Form>, i: nat, options: Options)
    requires i <= |order|
  {
    forall j, b :: 0 <= j < i && FirstAndOnly(options, order[j], b) ==> b in owner && owner[b] == order[j]
  }

  lemma {:induction false} FirstIsKept(before: map<Form, Form>, after: map<Form, Form>, order: seq<Form>, i: nat,
                                       options: Options)
    requires i < |order| && HaveTheirFirst(before, order, i, options) && Edges(before, options)
    requires Edges(after, options) && before.Keys <= after.Keys
    requires order[i] in options && options[order[i]] != [] && options[order[i]][0] !in before ==>
               options[order[i]][0] in after && after[options[order[i]][0]] == order[i]
    ensures HaveTheirFirst(after, order, i + 1, options)
  {
    forall j, b | 0 <= j < i + 1 && FirstAndOnly(options, order[j], b) ensures b in after && after[b] == order[j] {
      if b in after { assert b in options[after[b]]; }
      assert j < i ==> b in before.Keys;
    }
  }

  /** What holds once the first `i` added forms were tried. */
  ghost predicate Progress(owner: map<Form, Form>, order: seq<Form>, i: nat, dead: set<Form>, options: Options) {
    && i <= |order|
    && Edges(owner, options) && OneBaseEach(owner, {}) && owner.Values <= Elements(order[..i])
    && Closed(dead, owner, options) && Settled(order, i, owner, dead, options)
    && PrefixMaximum(owner.Values, order, i, options)
  }

  /** The order that `sorted(lost, key=start_line)` gives. */
  function ByStart(lost: seq<Form>): (r: seq<Form>)
    ensures |r| == |lost| && (forall f :: f in r <==> f in lost) && (Distinct(lost) ==> Distinct(r))
  {
    SameElements(lost, StartOf);
    assert Distinct(lost) ==> Distinct(SortBy(lost, StartOf)) by {
      if Distinct(lost) { SortKeepsDistinct(lost, StartOf); }
    }
    SortBy(lost, StartOf)
  }

  /** By start line; forms on one line keep the order they came in. */
  lemma {:induction false} ByStartAscends(lost: seq<Form>, i: nat, j: nat)
    requires i < j < |lost|
    ensures var x, y := ByStart(lost)[i], ByStart(lost)[j];
      x.startLine < y.startLine || (x.startLine == y.startLine && Precedes(lost, x, y))
  {
    SortSorts(lost, StartOf);
    var sorted := SortBy(lost, StartOf);
    assert ByStart(lost) == sorted;
    assert StartOf(sorted[i]) <= StartOf(sorted[j]);
    if StartOf(sorted[i]) == StartOf(sorted[j]) { SortKeepsOrder(lost, StartOf, i, j); }
  }

  /** The added forms are tried by start line; the result is maximum on every prefix of that order. */
  method Reordered(lost: seq<Form>, removed: seq<Form>, threshold: real) returns (matching: map<Form, Form>)
    requires Distinct(lost)
    ensures IsMatching(matching, Elements(lost), OptionsOf(lost, removed, threshold))
    ensures PrefixMaximum(matching.Keys, ByStart(lost), |lost|, OptionsOf(lost, removed, threshold))
    ensures EachTakesItsBest(matching, lost, removed, threshold)
  {
    var options := OptionsOf(lost, removed, threshold);
    var matcher := new Matcher(options, Elements(removed));
    var order := ByStart(lost);
    ghost var dead := ClaimAll(matcher, order);
    FromOwner(matcher.owner, lost, order, dead, options);
    matching := ByAdded(matcher.owner);
    forall f, b | f in lost && IsBest(f, removed, threshold, b) && WantedByOne(f, lost, threshold, b)
      ensures f in matching && matching[f] == b
    {
      BestIsTheirs(lost, removed, threshold, order, matcher.owner, f, b);
    }
  }

  lemma {:induction false} BestIsTheirs(lost: seq<Form>, removed: seq<Form>, threshold: real, order: seq<Form>,
                                        owner: map<Form, Form>, f: Form, b: Form)
    requires f in lost && IsBest(f, removed, threshold, b) && WantedByOne(f, lost, threshold, b)
    requires f in order && HaveTheirFirst(owner, order, |order|, OptionsOf(lost, removed, threshold))
    requires OneBaseEach(owner, {})
    ensures f in ByAdded(owner) && ByAdded(owner)[f] == b
  {
    var options := OptionsOf(lost, removed, threshold);
    BestIsTriedFirst(lost, removed, threshold, f, b);
    forall g | g in options && b in options[g] ensures g == f {
      OptionsAreAccepted(lost, removed, threshold, g, b);
    }
    assert FirstAndOnly(options, f, b);
    var j :| 0 <= j < |order| && order[j] == f;
    assert b in owner && owner[b] == f;
  }

  method ClaimAll(matcher: Matcher, order: seq<Form>) returns (ghost dead: set<Form>)
    requires Distinct(order) && Elements(order) == matcher.options.Keys && Within(matcher.options, matcher.bases)
    requires matcher.owner == map[]
    modifies matcher`owner, matcher`seen
    ensures Progress(matcher.owner, order, |order|, dead, matcher.options)
    ensures HaveTheirFirst(matcher.owner, order, |order|, matcher.options)
  {
    dead := {};
    NothingTried(order, matcher.options);
    for i := 0 to |order|
      invariant Progress(matcher.owner, order, i, dead, matcher.options)
      invariant HaveTheirFirst(matcher.owner, order, i, matcher.options)
    {
      matcher.seen := {};
      ghost var before := matcher.owner;
      NotYetOwner(before, order, i);
      assert order[i] in Elements(order);
      var ok := matcher.Claim(order[i], dead);
      if ok {
        ClaimedStep(before, matcher.owner, order, i, dead, matcher.options);
      } else {
        FailedStep(before, matcher.seen, order, i, dead, matcher.options);
        dead := dead + matcher.seen;
      }
      FirstIsKept(before, matcher.owner, order, i, matcher.options);
    }
  }

  lemma {:induction false} NothingTried(order: seq<Form>, options: Options)
    ensures Progress(map[], order, 0, {}, options)
  {
    forall m | IsMatching(m, Elements(order[..0]), options) ensures m == map[] {
      assert m.Keys <= Elements(order[..0]) == {};
    }
  }

  /** The owner map, turned round. */
  function ByAdded(owner: map<Form, Form>): map<Form, Form>
    requires OneBaseEach(owner, {})
  {
    map b | b in owner :: owner[b] := b
  }

  lemma {:induction false} FromOwner(owner: map<Form, Form>, lost: seq<Form>, order: seq<Form>, dead: set<Form>,
                                     options: Options)
    requires Progress(owner, order, |order|, dead, options) && Elements(order) == Elements(lost)
    ensures OneBaseEach(owner, {}) && IsMatching(ByAdded(owner), Elements(lost), options)
    ensures PrefixMaximum(ByAdded(owner).Keys, order, |order|, options)
  {
    var matching := ByAdded(owner);
    assert order[..|order|] == order;
    assert forall f :: f in matching ==> matching[f] in owner && owner[matching[f]] == f;
    assert forall b :: b in owner ==> owner[b] in matching;
    assert matching.Keys == owner.Values;
  }

  lemma {:induction false} ClaimedStep(before: map<Form, Form>, after: map<Form, Form>, order: seq<Form>, i: nat,
                                       dead: set<Form>, options: Options)
    requires i < |order| && Distinct(order) && order[i] in options
    requires Progress(before, order, i, dead, options)
    requires forall b :: b in before ==> before[b] != order[i]
    requires Claimed(order[i], before, after, {}, dead, options)
    ensures Progress(after, order, i + 1, dead, options)
  {
    assert (set b | b in before && before[b] == order[i]) == {};
    assert Elements(order[..i + 1]) == Elements(order[..i]) + {order[i]};
    PrefixStaysMaximum(before.Values, after, order, i, dead, options);
  }

  lemma {:induction false} FailedStep(owner: map<Form, Form>, seen: set<Form>, order: seq<Form>, i: nat,
                                      dead: set<Form>, options: Options)
    requires i < |order| && Distinct(order) && order[i] in options
    requires Progress(owner, order, i, dead, options)
    requires DeadEnd(order[i], {}, seen, owner, options)
    ensures Progress(owner, order, i + 1, dead + seen, options)
  {
    assert Elements(order[..i + 1]) == Elements(order[..i]) + {order[i]};
    assert Closed(dead + seen, owner, options);
    PrefixStaysMaximum(owner.Values, owner, order, i, dead + seen, options);
  }

  lemma {:induction false} NotYetOwner(owner: map<Form, Form>, order: seq<Form>, i: nat)
    requires i < |order| && Distinct(order) && owner.Values <= Elements(order[..i])
    ensures forall b :: b in owner ==> owner[b] != order[i]
  {
    forall b | b in owner ensures owner[b] != order[i] {
      assert owner[b] in owner.Values;
    }
  }

  lemma {:induction false} PrefixStaysMaximum(chosen: set<Form>, owner: map<Form, Form>, order: seq<Form>, i: nat,
                                              dead: set<Form>, options: Options)
    requires i < |order| && Distinct(order) && PrefixMaximum(chosen, order, i, options)
    requires owner.Values == chosen || owner.Values == chosen + {order[i]}
    requires owner.Values <= Elements(order[..i + 1])
    requires Edges(owner, options) && OneBaseEach(owner, {}) && Closed(dead, owner, options)
    requires Settled(order, i + 1, owner, dead, options)
    ensures PrefixMaximum(owner.Values, order, i + 1, options)
  {
    forall k: nat | k <= i + 1 ensures MaximumAt(owner.Values, order, k, options) {
      if k <= i {
        SameAt(chosen, owner.Values, order, k, i);
        assert MaximumAt(chosen, order, k, options);
      } else {
        forall m | IsMatching(m, Elements(order[..i + 1]), options)
          ensures |m| <= |Among(owner.Values, order, i + 1)|
        {
          LastPrefix(m, owner, order, i, dead, options);
        }
      }
    }
  }

  lemma {:induction false} SameAt(chosen: set<Form>, larger: set<Form>, order: seq<Form>, k: nat, i: nat)
    requires k <= i < |order| && Distinct(order) && (larger == chosen || larger == chosen + {order[i]})
    ensures Among(larger, order, k) == Among(chosen, order, k)
  {
    assert order[i] !in order[..k];
  }

  lemma {:induction false} LastPrefix(m: map<Form, Form>, owner: map<Form, Form>, order: seq<Form>, i: nat,
                                      dead: set<Form>, options: Options)
    requires i < |order| && owner.Values <= Elements(order[..i + 1])
    requires Edges(owner, options) && OneBaseEach(owner, {}) && Closed(dead, owner, options)
    requires Settled(order, i + 1, owner, dead, options)
    requires IsMatching(m, Elements(order[..i + 1]), options)
    ensures |m| <= |Among(owner.Values, order, i + 1)|
  {
    forall f | f in m ensures f in options && m[f] in options[f] && (f in owner.Values || Adj(options, f) <= dead) {
      assert f in Elements(order[..i + 1]);
      var j :| 0 <= j < i + 1 && order[j] == f;
    }
    WeakDuality(m, owner, dead, options);
    assert Among(owner.Values, order, i + 1) == owner.Values;
  }

  /**
   * Koenig's bound: a matching is no larger than `owner` when every form it uses is an owner or wants
   * only dead bases. Each form of `m` is sent to its own base of `owner` or, when `m` gives it a dead
   * base, to that base.
   */
  lemma {:induction false} WeakDuality(m: map<Form, Form>, owner: map<Form, Form>, dead: set<Form>, options: Options)
    requires Edges(owner, options) && OneBaseEach(owner, {}) && Closed(dead, owner, options)
    requires forall f :: f in m ==> f in options && m[f] in options[f]
    requires forall f, g :: f in m && g in m && m[f] == m[g] ==> f == g
    requires forall f :: f in m ==> f in owner.Values || Adj(options, f) <= dead
    ensures |m| <= |owner.Values|
  {
    var sent := map f | f in m :: if m[f] in dead then m[f] else BaseOf(f, owner);
    forall f | f in m ensures sent[f] in owner {
      Lands(m, owner, dead, options, f);
    }
    forall f, g | f in m && g in m && sent[f] == sent[g] ensures f == g {
      Lands(m, owner, dead, options, f);
      Lands(m, owner, dead, options, g);
    }
    InjectionBound(sent, owner.Keys);
    InjectiveSize(owner);
    assert sent.Keys == m.Keys;
    assert |sent| == |sent.Keys| && |m| == |m.Keys| && |owner| == |owner.Keys|;
  }

  ghost function BaseOf(form: Form, owner: map<Form, Form>): (b: Form)
    requires form in owner.Values
    ensures b in owner && owner[b] == form
  {
    var b :| b in owner && owner[b] == form;
    b
  }

  lemma {:induction false} Lands(m: map<Form, Form>, owner: map<Form, Form>, dead: set<Form>, options: Options, f: Form)
    requires Closed(dead, owner, options)
    requires f in m && f in options && m[f] in options[f]
    requires f in owner.Values || Adj(options, f) <= dead
    ensures m[f] in dead ==> m[f] in owner
    ensures m[f] !in dead ==> f in owner.Values && BaseOf(f, owner) !in dead
  {
    if m[f] !in dead {
      assert m[f] in Adj(options, f);
    }
  }

  lemma {:induction false} InjectionBound<K, V>(m: map<K, V>, into: set<V>)
    requires forall k :: k in m ==> m[k] in into
    requires forall f, g :: f in m && g in m && m[f] == m[g] ==> f == g
    ensures |m| <= |into|
  {
    if m.Keys != {} {
      var k :| k in m;
      var rest := m - {k};
      InjectionBound(rest, into - {m[k]});
      assert rest.Keys == m.Keys - {k};
      assert |m| == |m.Keys| && |rest| == |rest.Keys|;
    }
  }

  lemma {:induction false} InjectiveSize<K, V>(m: map<K, V>)
    requires forall f, g :: f in m && g in m && m[f] == m[g] ==> f == g
    ensures |m| == |m.Values|
  {
    if m.Keys != {} {
      var k :| k in m;
      var rest := m - {k};
      InjectiveSize(rest);
      forall v ensures v in m.Values <==> v in rest.Values || v == m[k] {
        if v in m.Values && v != m[k] {
          var x :| x in m && m[x] == v;
          assert rest[x] == v;
        }
        if v in rest.Values {
          var x :| x in rest && rest[x] == v;
          assert m[x] == v;
        }
      }
      assert m[k] !in rest.Values;
      assert m.Values == rest.Values + {m[k]};
      assert rest.Keys == m.Keys - {k};
      assert |m| == |m.Keys| && |rest| == |rest.Keys|;
    } else {
      assert m.Values == {};
    }
  }

  /** Among all matchings, the matched added forms are the earliest: at the first difference they have the form. */
  lemma {:induction false} EarliestFormsAreMatched(chosen: set<Form>, order: seq<Form>, m: map<Form, Form>,
                                                   options: Options)
    requires Distinct(order) && chosen <= Elements(order)
    requires PrefixMaximum(chosen, order, |order|, options)
    requires IsMatching(m, Elements(order), options)
    ensures |m| <= |chosen|
    ensures m.Keys == chosen || exists i :: 0 <= i < |order| && order[i] in chosen && order[i] !in m
                                         && forall j :: 0 <= j < i ==> (order[j] in chosen <==> order[j] in m)
  {
    assert order[..|order|] == order && Among(chosen, order, |order|) == chosen;
    assert MaximumAt(chosen, order, |order|, options);
    WholeIsAmong(order, m, options);
    if m.Keys != chosen {
      var i := FirstDifference(order, chosen, m.Keys);
      CutIsMatching(order, m, options, i + 1);
      NoGain(chosen, order, options, i + 1, |Among(m.Keys, order, i + 1)|);
      if order[i] !in chosen { OneMore(chosen, m.Keys, order, i); }
    }
  }

  lemma {:induction false} WholeIsAmong(order: seq<Form>, m: map<Form, Form>, options: Options)
    requires IsMatching(m, Elements(order), options)
    ensures m.Keys <= Elements(order)
  {
  }

  ghost predicate HasMatching(order: seq<Form>, options: Options, k: nat, size: nat)
    requires k <= |order|
  {
    exists cut :: IsMatching(cut, Elements(order[..k]), options) && |cut| == size
  }

  lemma {:induction false} NoGain(chosen: set<Form>, order: seq<Form>, options: Options, k: nat, size: nat)
    requires k <= |order| && PrefixMaximum(chosen, order, |order|, options) && HasMatching(order, options, k, size)
    ensures size <= |Among(chosen, order, k)|
  {
    assert MaximumAt(chosen, order, k, options);
  }

  /** What `m` matches among the first `k` forms is a matching too. */
  lemma {:induction false} CutIsMatching(order: seq<Form>, m: map<Form, Form>, options: Options, k: nat)
    requires IsMatching(m, Elements(order), options) && k <= |order|
    ensures HasMatching(order, options, k, |Among(m.Keys, order, k)|)
  {
    var cut := map f | f in m && f in order[..k] :: m[f];
    assert IsMatching(cut, Elements(order[..k]), options);
    assert cut.Keys == Among(m.Keys, order, k) && |cut| == |cut.Keys|;
  }

  lemma {:induction false} OneMore(a: set<Form>, b: set<Form>, order: seq<Form>, i: nat)
    requires i < |order| && Distinct(order)
    requires order[i] !in a && order[i] in b
    requires forall j :: 0 <= j < i ==> (order[j] in a <==> order[j] in b)
    ensures |Among(b, order, i + 1)| == |Among(a, order, i + 1)| + 1
  {
    forall f | f in order[..i + 1] ensures f in b <==> f in a || f == order[i] {
      var j :| 0 <= j < i + 1 && order[j] == f;
    }
    assert Among(b, order, i + 1) == Among(a, order, i + 1) + {order[i]};
  }

  lemma {:induction false} FirstDifference(order: seq<Form>, a: set<Form>, b: set<Form>) returns (i: nat)
    requires a <= Elements(order) && b <= Elements(order) && a != b
    ensures i < |order| && !(order[i] in a <==> order[i] in b)
    ensures forall j :: 0 <= j < i ==> (order[j] in a <==> order[j] in b)
  {
    var x :| x in a + b && !(x in a && x in b);
    var n :| 0 <= n < |order| && order[n] == x;
    i := 0;
    while order[i] in a <==> order[i] in b
      invariant i <= n && forall j :: 0 <= j < i ==> (order[j] in a <==> order[j] in b)
      decreases n - i
    {
      i := i + 1;
    }
  }
}
