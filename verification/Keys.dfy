/**
 * keyRows of scripts/crap/policy.ts and keyed of scripts/dry/dryer_report.py: rows get their plain key,
 * and from the second row of one key on an ordinal behind it.
 */
module Keys {
  import opened Text

  function Suffixed(key: string, ordinal: nat): string {
    if ordinal == 1 then key else key + "[" + Decimal(ordinal) + "]"
  }

  function Count(keys: seq<string>, key: string): nat {
    if keys == [] then 0 else (if keys[|keys| - 1] == key then 1 else 0) + Count(keys[..|keys| - 1], key)
  }

  /** The key of the row at `i`, when the rows have the plain keys `keys` in start-line order. */
  ghost function Assigned(keys: seq<string>, i: nat): string
    requires i < |keys|
  {
    Suffixed(keys[i], Count(keys[..i], keys[i]) + 1)
  }

  /** The rows before `i` that have the plain key of row `i`. */
  ghost function Earlier(keys: seq<string>, i: nat, key: string): set<int>
    requires i <= |keys|
  {
    set j | 0 <= j < i && keys[j] == key
  }

  lemma {:induction false} CountIsEarlier(keys: seq<string>, i: nat, key: string)
    requires i <= |keys|
    ensures Count(keys[..i], key) == |Earlier(keys, i, key)|
  {
    if i > 0 {
      CountIsEarlier(keys, i - 1, key);
      assert keys[..i][..i - 1] == keys[..i - 1];
      assert Earlier(keys, i, key) == Earlier(keys, i - 1, key) + if keys[i - 1] == key then {i - 1} else {};
    } else {
      assert Earlier(keys, 0, key) == {};
    }
  }

  /** The first row of a key has it plain, the next ones have their ordinal in brackets behind it. */
  lemma {:induction false} AssignedSays(keys: seq<string>, i: nat)
    requires i < |keys|
    ensures var n := |Earlier(keys, i, keys[i])|;
      Assigned(keys, i) == if n == 0 then keys[i] else keys[i] + "[" + Decimal(n + 1) + "]"
  {
    CountIsEarlier(keys, i, keys[i]);
  }

  /** The keys of all rows. */
  ghost function AllAssigned(keys: seq<string>): (names: seq<string>)
    ensures |names| == |keys| && forall i :: 0 <= i < |keys| ==> names[i] == Assigned(keys, i)
  {
    seq(|keys|, i requires 0 <= i < |keys| => Assigned(keys, i))
  }

  /** Each name of the first `n` rows holds the last row that has it. */
  ghost predicate Holds<T>(names: seq<string>, rows: seq<T>, n: nat, keyed: map<string, T>)
    requires n <= |names| == |rows|
  {
    && (forall k :: k in keyed <==> k in names[..n])
    && forall i :: 0 <= i < n && names[i] !in names[i + 1..n] ==> names[i] in keyed && keyed[names[i]] == rows[i]
  }

  lemma {:induction false} OneMoreHeld<T>(names: seq<string>, rows: seq<T>, n: nat, keyed: map<string, T>)
    requires n < |names| == |rows| && Holds(names, rows, n, keyed)
    ensures Holds(names, rows, n + 1, keyed[names[n] := rows[n]])
  {
    var after := keyed[names[n] := rows[n]];
    assert names[..n + 1] == names[..n] + [names[n]];
    forall i | 0 <= i < n + 1 && names[i] !in names[i + 1..n + 1]
      ensures names[i] in after && after[names[i]] == rows[i]
    {
      if i < n {
        assert names[i + 1..n + 1] == names[i + 1..n] + [names[n]];
      }
    }
  }

  /** What keyRows gives for rows with the plain keys `keys`. */
  ghost predicate KeyedBy<T>(keys: seq<string>, rows: seq<T>, keyed: map<string, T>)
    requires |keys| == |rows|
  {
    Holds(AllAssigned(keys), rows, |keys|, keyed)
  }

  /** `seen.get(key) ?? 0` */
  function SeenOf(seen: map<string, nat>, key: string): nat { if key in seen then seen[key] else 0 }

  lemma {:induction false} SeenMore(seen: map<string, nat>, keys: seq<string>, i: nat)
    requires i < |keys| && forall k :: SeenOf(seen, k) == Count(keys[..i], k)
    ensures var after, upTo := seen[keys[i] := SeenOf(seen, keys[i]) + 1], keys[..i + 1];
      forall k :: SeenOf(after, k) == Count(upTo, k)
  {
    assert keys[..i + 1][..i] == keys[..i] && keys[..i + 1][i] == keys[i];
  }

  /** What holds after the first `i` rows. */
  ghost predicate Keyed<T>(keys: seq<string>, names: seq<string>, rows: seq<T>, seen: map<string, nat>,
                           keyed: map<string, T>, i: nat)
    requires i <= |keys| == |names| == |rows|
  {
    (forall k :: SeenOf(seen, k) == Count(keys[..i], k)) && Holds(names, rows, i, keyed)
  }

  lemma {:induction false} NameAt(keys: seq<string>, seen: map<string, nat>, i: nat)
    requires i < |keys| && forall k :: SeenOf(seen, k) == Count(keys[..i], k)
    ensures AllAssigned(keys)[i] == Suffixed(keys[i], SeenOf(seen, keys[i]) + 1)
  {
  }

  lemma {:induction false} KeyOneMore<T>(keys: seq<string>, names: seq<string>, rows: seq<T>, seen: map<string, nat>,
                                         keyed: map<string, T>, i: nat)
    requires i < |keys| == |names| == |rows| && Keyed(keys, names, rows, seen, keyed, i)
    ensures Keyed(keys, names, rows, seen[keys[i] := SeenOf(seen, keys[i]) + 1], keyed[names[i] := rows[i]], i + 1)
  {
    SeenMore(seen, keys, i);
    OneMoreHeld(names, rows, i, keyed);
  }

  /** The loop of keyRows over the sorted rows; a later row replaces an earlier one of the same key. */
  method KeyRows<T>(keys: seq<string>, rows: seq<T>) returns (keyed: map<string, T>)
    requires |keys| == |rows|
    ensures KeyedBy(keys, rows, keyed)
  {
    keyed := map[];
    var seen: map<string, nat> := map[];
    for i := 0 to |keys|
      invariant Keyed(keys, AllAssigned(keys), rows, seen, keyed, i)
    {
      var ordinal := SeenOf(seen, keys[i]) + 1;
      NameAt(keys, seen, i);
      KeyOneMore(keys, AllAssigned(keys), rows, seen, keyed, i);
      seen := seen[keys[i] := ordinal];
      keyed := keyed[Suffixed(keys[i], ordinal) := rows[i]];
    }
  }

  // ---- When every row keeps its own key

  lemma {:induction false} LastBracket(a: string, d: string, b: string, e: string)
    requires '[' !in d && '[' !in e && a + "[" + d == b + "[" + e
    ensures a == b && d == e
  {
    var s := a + "[" + d;
    assert s[|a|] == '[' && s[|b|] == '[';
    assert |a| == |b|;
    assert s[..|a|] == a && s[..|b|] == b && s[|a| + 1..] == d && s[|b| + 1..] == e;
  }

  lemma {:induction false} SuffixedIsInjective(k: string, n: nat, l: string, m: nat)
    requires n > 1 && m > 1 && Suffixed(k, n) == Suffixed(l, m)
    ensures k == l && n == m
  {
    var s, d, e := Suffixed(k, n), Decimal(n), Decimal(m);
    assert s[..|s| - 1] == k + "[" + d && s[..|s| - 1] == l + "[" + e;
    LastBracket(k, d, l, e);
    NumberOfDecimal(n);
    NumberOfDecimal(m);
  }

  lemma {:induction false} CountGrows(keys: seq<string>, i: nat, j: nat, key: string)
    requires i <= j <= |keys|
    ensures Count(keys[..i], key) <= Count(keys[..j], key)
    ensures i < j && keys[i] == key ==> Count(keys[..i], key) < Count(keys[..j], key)
    decreases j
  {
    if i < j {
      CountGrows(keys, i, j - 1, key);
      assert keys[..j][..j - 1] == keys[..j - 1];
    }
  }

  /** A row's plain key reads like the ordinal key of another row. */
  ghost predicate Clash(keys: seq<string>, i: nat, j: nat) {
    i < |keys| && j < |keys| && Count(keys[..i], keys[i]) == 0 && Count(keys[..j], keys[j]) > 0
    && keys[i] == Suffixed(keys[j], Count(keys[..j], keys[j]) + 1)
  }

  /** Two rows share a key exactly when one's plain key is the other's ordinal key, `f[2]` beside two `f`. */
  lemma {:induction false} SameKeyIffClash(keys: seq<string>, i: nat, j: nat)
    requires i < |keys| && j < |keys| && i != j
    ensures Assigned(keys, i) == Assigned(keys, j) <==> Clash(keys, i, j) || Clash(keys, j, i)
  {
    var n, m := Count(keys[..i], keys[i]) + 1, Count(keys[..j], keys[j]) + 1;
    if keys[i] == keys[j] {
      if i < j { CountGrows(keys, i, j, keys[i]); } else { CountGrows(keys, j, i, keys[i]); }
      assert n != m;
      if n > 1 && m > 1 && Assigned(keys, i) == Assigned(keys, j) { SuffixedIsInjective(keys[i], n, keys[j], m); }
    } else if n > 1 && m > 1 && Assigned(keys, i) == Assigned(keys, j) {
      SuffixedIsInjective(keys[i], n, keys[j], m);
    }
  }

  /**
   * No row is lost when no plain key ends in a bracket. Identifiers never do; a computed or quoted member name,
   * such as `["f[2]"]() {}`, can.
   */
  lemma {:induction false} NoBracketNoLoss(keys: seq<string>, i: nat, j: nat)
    requires i < |keys| && j < |keys| && i != j
    requires forall k :: k in keys ==> k == "" || k[|k| - 1] != ']'
    ensures Assigned(keys, i) != Assigned(keys, j)
  {
    SameKeyIffClash(keys, i, j);
    assert keys[i] in keys && keys[j] in keys;
  }

  /** Two functions `f` and one `f[2]` in one namespace: the third row replaces the second. */
  lemma {:induction false} BracketNameLosesARow()
    ensures var keys := ["p::n::f", "p::n::f", "p::n::f[2]"]; Assigned(keys, 1) == Assigned(keys, 2)
  {
    var keys := ["p::n::f", "p::n::f", "p::n::f[2]"];
    var f, g := keys[0], keys[2];
    assert keys[..1] == [f] && keys[..2] == [f, f];
    assert [f][..0] == keys[..0] && [f, f][..1] == [f];
    assert f[|f| - 1] != g[|g| - 1];
    assert f != g && Count([f], f) == 1 && Count([f], g) == 0;
    assert Count([f, f], g) == 0;
    assert Decimal(2) == "2";
  }
}
