/**
 * The function forms that the duplicate gate compares (scripts/dry/dryer_report.py): fingerprint sets and their
 * exact similarity.
 */
module Forms {

  datatype Option<+T> = None | Some(value: T)

  /** `id` stands for the object's identity: two forms with equal fields are still two objects. */
  datatype Form = Form(id: nat, path: string, name: string, startLine: int, endLine: int, fingerprints: set<int>)

  function Min(a: int, b: int): int { if a <= b then a else b }

  function Max(a: int, b: int): int { if a <= b then b else a }

  /** dryer's score over exact rationals; no caller asks for the score of two empty sets. */
  function Jaccard(a: set<int>, b: set<int>): real {
    if |a + b| == 0 then 0.0 else |a * b| as real / |a + b| as real
  }

  function Similar(a: set<int>, b: set<int>, threshold: real): Option<real> {
    var small, large := Min(|a|, |b|), Max(|a|, |b|);
    if large == 0 || small as real / large as real < threshold then
      None
    else
      var score := Jaccard(a, b);
      if score >= threshold then Some(score) else None
  }

  lemma {:induction false} Overlap(a: set<int>, b: set<int>)
    ensures |a * b| <= Min(|a|, |b|)
    ensures |a + b| >= Max(|a|, |b|)
    ensures |a + b| == 0 <==> Max(|a|, |b|) == 0
  {
    Subset(a * b, a);
    Subset(a * b, b);
    Subset(a, a + b);
    Subset(b, a + b);
    if Max(|a|, |b|) == 0 {
      assert a + b == {};
    }
  }

  lemma {:induction false} Subset<T>(s: set<T>, t: set<T>)
    requires s <= t
    ensures |s| <= |t|
    ensures |s| == |t| ==> s == t
  {
    if s != {} {
      var x :| x in s;
      Subset(s - {x}, t - {x});
    } else {
      assert |t| == 0 ==> t == {};
    }
  }

  lemma {:induction false} RatioMonotone(x: real, y: real, s: real, l: real)
    requires 0.0 <= x <= s && 0.0 < l <= y
    ensures x / y <= s / l
  {
    assert x / y <= s / y by { assert (s - x) / y >= 0.0; }
    var q := s / l;
    assert q >= 0.0 && q * l == s;
    assert q * y >= q * l;
    assert (q * y - s) / y >= 0.0;
    assert q * y / y == q;
  }

  /** The size pre-filter drops no pair: the score is at most the ratio of the two sizes. */
  lemma {:induction false} PreFilterIsExact(a: set<int>, b: set<int>, threshold: real)
    ensures Similar(a, b, threshold).Some? <==> a + b != {} && Jaccard(a, b) >= threshold
    ensures Similar(a, b, threshold).Some? ==> Similar(a, b, threshold).value == Jaccard(a, b)
  {
    Overlap(a, b);
    var small, large := Min(|a|, |b|), Max(|a|, |b|);
    if large != 0 {
      RatioMonotone(|a * b| as real, |a + b| as real, small as real, large as real);
    }
  }

  /** The share of common fingerprints: 1 for equal sets only, 0 for sets without a common one only. */
  lemma {:induction false} JaccardIsAShare(a: set<int>, b: set<int>)
    requires a + b != {}
    ensures Jaccard(a, b) * |a + b| as real == |a * b| as real && 0.0 <= Jaccard(a, b) <= 1.0
    ensures (Jaccard(a, b) == 1.0 <==> a == b) && (Jaccard(a, b) == 0.0 <==> a * b == {})
  {
    Subset(a * b, a + b);
    var common, all := |a * b| as real, |a + b| as real;
    assert |a + b| > 0 && 0.0 <= common <= all;
    ShareOf(common, all);
    MeetIsJoinIff(a, b);
    assert |a * b| == 0 <==> a * b == {};
  }

  lemma {:induction false} MeetIsJoinIff<T>(a: set<T>, b: set<T>)
    ensures a * b == a + b <==> a == b
  {
    if a * b == a + b {
      forall x ensures x in a <==> x in b { assert x in a + b <==> x in a * b; }
    }
  }

  lemma {:induction false} ShareOf(part: real, all: real)
    requires 0.0 <= part <= all && all > 0.0
    ensures part / all * all == part && 0.0 <= part / all <= 1.0
    ensures (part / all == 1.0 <==> part == all) && (part / all == 0.0 <==> part == 0.0)
  {
    var share := part / all;
    assert share * all == part;
    assert share > 1.0 ==> share * all > all;
  }

  lemma {:induction false} JaccardIsSymmetric(a: set<int>, b: set<int>)
    ensures a + b == b + a && Jaccard(a, b) == Jaccard(b, a)
  {
    assert a + b == b + a && a * b == b * a;
  }
}
