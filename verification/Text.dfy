/**
 * Text that the modelled scripts cut apart and print: lists joined by a separator, decimal numbers, and the order of
 * strings. Splitting undoes joining when no part holds the separator, joining undoes splitting always, and a printed
 * number reads back. The scripts use it for lines, hunk headers, keys, folded stacks and folder paths.
 */
module Text {

  // ---- Separators

  /** `text.split(at)`: never empty. */
  function Split(text: string, at: char): (r: seq<string>)
    ensures |r| > 0
  {
    if text == [] then [[]]
    else if text[0] == at then [[]] + Split(text[1..], at)
    else Grow(text[0], Split(text[1..], at))
  }

  /** `parts.join(at)` */
  function Join(parts: seq<string>, at: char): string
    requires |parts| > 0
  {
    if |parts| == 1 then parts[0] else parts[0] + [at] + Join(parts[1..], at)
  }

  ghost predicate Without(parts: seq<string>, at: char) {
    forall i :: 0 <= i < |parts| ==> at !in parts[i]
  }

  lemma {:induction false} SplitPrefix(s: string, text: string, at: char)
    requires at !in s
    ensures Split(s + text, at) == [s + Split(text, at)[0]] + Split(text, at)[1..]
  {
    var rest := Split(text, at);
    if s == [] {
      assert s + text == text && s + rest[0] == rest[0];
      assert [rest[0]] + rest[1..] == rest;
    } else {
      assert (s + text)[0] == s[0] && (s + text)[1..] == s[1..] + text;
      SplitPrefix(s[1..], text, at);
      assert [s[0]] + (s[1..] + rest[0]) == s + rest[0];
    }
  }

  lemma {:induction false} SplitJoin(parts: seq<string>, at: char)
    requires |parts| > 0 && Without(parts, at)
    ensures Split(Join(parts, at), at) == parts
  {
    if |parts| == 1 {
      SplitPrefix(parts[0], "", at);
      assert parts[0] + "" == parts[0];
    } else {
      var text := [at] + Join(parts[1..], at);
      SplitJoin(parts[1..], at);
      assert text[1..] == Join(parts[1..], at);
      SplitPrefix(parts[0], text, at);
      assert Split(text, at) == [[]] + parts[1..];
      assert parts[0] + [] == parts[0];
      assert Join(parts, at) == parts[0] + text;
    }
  }

  lemma {:induction false} SplitWhole(s: string, at: char)
    requires at !in s
    ensures Split(s, at) == [s]
  {
    SplitPrefix(s, "", at);
    assert s + "" == s;
  }

  lemma {:induction false} TailOfConcat(a: string, b: string, at: char)
    requires a != []
    ensures (a + [at] + b)[0] == a[0] && (a + [at] + b)[1..] == a[1..] + [at] + b
  {
  }

  function Grow(c: char, parts: seq<string>): seq<string>
    requires parts != []
  {
    [[c] + parts[0]] + parts[1..]
  }

  lemma {:induction false} GrowConcat(c: char, left: seq<string>, right: seq<string>)
    requires left != []
    ensures Grow(c, left + right) == Grow(c, left) + right
  {
    assert (left + right)[1..] == left[1..] + right;
  }

  lemma {:induction false} SplitConcat(a: string, b: string, at: char)
    ensures Split(a + [at] + b, at) == Split(a, at) + Split(b, at)
  {
    var text, right := a + [at] + b, Split(b, at);
    if a == [] {
      assert text[1..] == b;
    } else {
      TailOfConcat(a, b, at);
      SplitConcat(a[1..], b, at);
      var left := Split(a[1..], at);
      if a[0] == at {
        AssociateParts([[]], left, right);
      } else {
        GrowConcat(a[0], left, right);
      }
    }
  }

  lemma {:induction false} AssociateParts(a: seq<string>, b: seq<string>, c: seq<string>)
    ensures a + (b + c) == (a + b) + c
  {
  }

  lemma {:induction false} SplitIsWithout(text: string, at: char)
    ensures Without(Split(text, at), at)
  {
    if text != [] { SplitIsWithout(text[1..], at); }
  }

  lemma {:induction false} JoinSplit(text: string, at: char)
    ensures Join(Split(text, at), at) == text
  {
    if text != [] {
      var rest := Split(text[1..], at);
      JoinSplit(text[1..], at);
      if text[0] == at {
        assert Split(text, at)[1..] == rest;
      } else {
        assert Split(text, at)[1..] == rest[1..];
        assert text == [text[0]] + text[1..];
      }
    }
  }

  // ---- Numbers

  predicate IsDigit(c: char) { '0' <= c <= '9' }

  /** How many digits `s` starts with: what the regex `\d+` takes. */
  function DigitCount(s: string): (n: nat)
    ensures n <= |s|
  {
    if s == [] || !IsDigit(s[0]) then 0 else 1 + DigitCount(s[1..])
  }

  /** Number(digits). */
  function NumberOf(s: string): nat
    requires forall i :: 0 <= i < |s| ==> IsDigit(s[i])
  {
    if s == [] then 0
    else
      assert IsDigit(s[|s| - 1]);
      10 * NumberOf(s[..|s| - 1]) + (s[|s| - 1] as int - '0' as int)
  }

  lemma {:induction false} DigitsAreDigits(s: string)
    ensures forall i :: 0 <= i < DigitCount(s) ==> IsDigit(s[i])
  {
    if s != [] && IsDigit(s[0]) {
      DigitsAreDigits(s[1..]);
      forall i | 0 <= i < DigitCount(s) ensures IsDigit(s[i]) {
        if i > 0 { assert s[i] == s[1..][i - 1]; }
      }
    }
  }

  /** `${n}` */
  function Decimal(n: nat): (s: string)
    ensures |s| > 0 && forall i :: 0 <= i < |s| ==> IsDigit(s[i])
  {
    var digit := [('0' as int + n % 10) as char];
    if n < 10 then digit else Decimal(n / 10) + digit
  }

  lemma {:induction false} NumberOfDecimal(n: nat)
    ensures NumberOf(Decimal(n)) == n
  {
    var s := Decimal(n);
    if n >= 10 {
      NumberOfDecimal(n / 10);
      assert s[..|s| - 1] == Decimal(n / 10);
    } else {
      assert s[..|s| - 1] == [];
    }
  }

  lemma {:induction false} DigitCountStops(digits: string, rest: string)
    requires forall i :: 0 <= i < |digits| ==> IsDigit(digits[i])
    requires rest == [] || !IsDigit(rest[0])
    ensures DigitCount(digits + rest) == |digits|
  {
    if digits == [] {
      assert digits + rest == rest;
    } else {
      assert (digits + rest)[1..] == digits[1..] + rest;
      DigitCountStops(digits[1..], rest);
    }
  }

  // ---- Order

  /** `a <= b` on strings: the first differing character decides. */
  predicate AtMost(a: string, b: string) {
    a == [] || (b != [] && (a[0] < b[0] || (a[0] == b[0] && AtMost(a[1..], b[1..]))))
  }

  lemma {:induction false} AtMostIsTotal(a: string, b: string)
    ensures AtMost(a, b) || AtMost(b, a)
  {
    if a != [] && b != [] && a[0] == b[0] { AtMostIsTotal(a[1..], b[1..]); }
  }

  lemma {:induction false} AtMostIsTransitive(a: string, b: string, c: string)
    requires AtMost(a, b) && AtMost(b, c)
    ensures AtMost(a, c)
  {
    if a != [] && a[0] == b[0] == c[0] { AtMostIsTransitive(a[1..], b[1..], c[1..]); }
  }

  /** The two agree up to `n`, where the first ends or has the smaller character. */
  ghost predicate DiffersAt(a: string, b: string, n: nat) {
    n <= |a| && n <= |b| && a[..n] == b[..n] && (n == |a| || (n < |b| && a[n] < b[n]))
  }

  lemma {:induction false} AtMostIff(a: string, b: string)
    ensures AtMost(a, b) <==> exists n: nat :: DiffersAt(a, b, n)
  {
    if a == [] {
      assert DiffersAt(a, b, 0);
    } else if b != [] && a[0] == b[0] {
      AtMostIff(a[1..], b[1..]);
      if n: nat :| DiffersAt(a[1..], b[1..], n) {
        assert a[..n + 1] == [a[0]] + a[1..][..n] && b[..n + 1] == [b[0]] + b[1..][..n];
        assert DiffersAt(a, b, n + 1);
      }
      if n: nat :| DiffersAt(a, b, n) {
        assert n > 0 && a[1..][..n - 1] == a[..n][1..] && b[1..][..n - 1] == b[..n][1..];
        assert DiffersAt(a[1..], b[1..], n - 1);
      }
    } else if b != [] && a[0] < b[0] {
      assert DiffersAt(a, b, 0);
    } else if n: nat :| DiffersAt(a, b, n) {
      assert n > 0 ==> a[..n][0] == b[..n][0];
    }
  }

  lemma {:induction false} AtMostIsAntisymmetric(a: string, b: string)
    requires AtMost(a, b) && AtMost(b, a)
    ensures a == b
  {
    if a != [] {
      AtMostIsAntisymmetric(a[1..], b[1..]);
      assert a == [a[0]] + a[1..] && b == [b[0]] + b[1..];
    }
  }
}
