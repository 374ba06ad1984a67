/** The indicative responsibility split (components/FundingCalculator.tsx): every need gets a
    severity score, the scores are summed per legal category, the s.117 total is shared
    between the ICB and the local authority by the slider, and each body's share of the grand
    total is reported as a percentage. JavaScript numbers are modelled as exact reals. */
module FundingCalculator {
  import opened Types
  import Seqs

  datatype CalculationMethod = Weighted | Count

  /** The s.117 slider: an integer from 0 to 100, the ICB's share of the s.117 total. */
  type SplitPercent = x: int | 0 <= x <= 100 witness 50

  /** `FundingSplit`, the derived figures the calculator displays. */
  datatype FundingSplit = FundingSplit(
    totalScore: real,
    icbScore: real,
    laScore: real,
    icbPercentage: real,
    laPercentage: real,
    s117Score: real,
    careActScore: real,
    physicalHealthScore: real
  )

  /** `getScore`: a flat 1 in count mode, otherwise High 3, Medium 2, Low 1. */
  function Score(severity: Severity, m: CalculationMethod): (r: nat)
    ensures 1 <= r <= 3
  {
    if m == Count then 1
    else match severity
      case High => 3
      case Medium => 2
      case Low => 1
  }

  /** The scoring table, as the source states it. */
  lemma ScoreTable()
    ensures forall s :: Score(s, Count) == 1
    ensures Score(High, Weighted) == 3 && Score(Medium, Weighted) == 2 && Score(Low, Weighted) == 1
  {
  }

  /** What a need adds to the bucket of category `c`. */
  function Contribution(n: NeedItem, c: NeedCategory, m: CalculationMethod): nat
  {
    if n.category == c then Score(n.severity, m) else 0
  }

  /** The bucket total of category `c` after the `forEach` has visited `needs`. */
  function CategorySum(needs: seq<NeedItem>, c: NeedCategory, m: CalculationMethod): nat
  {
    if needs == [] then 0
    else CategorySum(needs[..|needs| - 1], c, m) + Contribution(needs[|needs| - 1], c, m)
  }

  /** The sum of every need's score, whatever its category. */
  function TotalScore(needs: seq<NeedItem>, m: CalculationMethod): nat
  {
    if needs == [] then 0
    else TotalScore(needs[..|needs| - 1], m) + Score(needs[|needs| - 1].severity, m)
  }

  /** The `forEach` over the needs (lines 32-41): each need adds its score to the bucket of its
      own category. */
  method BucketTotals(needs: seq<NeedItem>, m: CalculationMethod)
    returns (s117: nat, careAct: nat, physical: nat)
    ensures s117 == CategorySum(needs, S117, m)
    ensures careAct == CategorySum(needs, CareAct, m)
    ensures physical == CategorySum(needs, PhysicalHealth, m)
  {
    s117, careAct, physical := 0, 0, 0;
    var i := 0;
    while i < |needs|
      invariant 0 <= i <= |needs|
      invariant s117 == CategorySum(needs[..i], S117, m)
      invariant careAct == CategorySum(needs[..i], CareAct, m)
      invariant physical == CategorySum(needs[..i], PhysicalHealth, m)
    {
      var n := needs[i];
      var score := Score(n.severity, m);
      if n.category == S117 { s117 := s117 + score; }
      if n.category == CareAct { careAct := careAct + score; }
      if n.category == PhysicalHealth { physical := physical + score; }
      assert needs[..i + 1][..i] == needs[..i];
      i := i + 1;
    }
    assert needs[..i] == needs;
  }

  /** The arithmetic after the loop (lines 43-59), from the three bucket totals. */
  function SplitFromBuckets(s117: nat, careAct: nat, physical: nat, split: SplitPercent)
    : (r: FundingSplit)
    ensures r.s117Score == s117 as real && r.careActScore == careAct as real
    ensures r.physicalHealthScore == physical as real
    ensures r.icbScore >= physical as real && r.laScore >= careAct as real
    ensures r.totalScore == r.icbScore + r.laScore
    ensures r.totalScore == (s117 + careAct + physical) as real
    ensures r.totalScore > 0.0 ==>
      r.icbPercentage + r.laPercentage == 100.0
      && 0.0 <= r.icbPercentage <= 100.0 && 0.0 <= r.laPercentage <= 100.0
    ensures r.totalScore == 0.0 ==> r.icbPercentage == 0.0 && r.laPercentage == 0.0
    ensures r.totalScore > 0.0 ==>
      r.icbPercentage * r.totalScore == 100.0 * r.icbScore
      && r.laPercentage * r.totalScore == 100.0 * r.laScore
  {
    var s := s117 as real;
    var icbPortion := IcbPortion(s, split);
    var laPortion := LaPortion(s, split);
    PortionsShare(s, split);
    var icbTotal := physical as real + icbPortion;
    var laTotal := careAct as real + laPortion;
    var total := icbTotal + laTotal;
    var icbPct := if total > 0.0 then (icbTotal / total) * 100.0 else 0.0;
    var laPct := if total > 0.0 then (laTotal / total) * 100.0 else 0.0;
    PercentagesOfTotal(icbTotal, laTotal);
    FundingSplit(
      totalScore := total,
      icbScore := icbTotal,
      laScore := laTotal,
      icbPercentage := icbPct,
      laPercentage := laPct,
      s117Score := s,
      careActScore := careAct as real,
      physicalHealthScore := physical as real
    )
  }

  /** Two non-negative parts of a positive total, as percentages, add up to 100. */
  lemma PercentagesOfTotal(a: real, b: real)
    requires 0.0 <= a && 0.0 <= b
    ensures a + b > 0.0 ==>
      (a / (a + b)) * 100.0 * (a + b) == 100.0 * a
      && (b / (a + b)) * 100.0 * (a + b) == 100.0 * b
      && (a / (a + b)) * 100.0 + (b / (a + b)) * 100.0 == 100.0
      && 0.0 <= (a / (a + b)) * 100.0 <= 100.0
      && 0.0 <= (b / (a + b)) * 100.0 <= 100.0
  {
    var t := a + b;
    if t > 0.0 {
      var x := a / t;
      var y := b / t;
      assert x * t == a;
      assert y * t == b;
      assert (x + y) * t == x * t + y * t;
      assert x + y == 1.0;
      assert 0.0 <= x && 0.0 <= y;
    }
  }

  /** `icbPortion` (line 43): the ICB's slider share of the s.117 total. */
  function IcbPortion(s117: real, split: SplitPercent): real
  {
    s117 * (split as real / 100.0)
  }

  /** `laPortion` (line 44): the remainder of the s.117 total. */
  function LaPortion(s117: real, split: SplitPercent): real
  {
    s117 * ((100 - split) as real / 100.0)
  }

  /** The two portions share out the whole s.117 total, neither going negative. */
  lemma PortionsShare(s117: real, split: SplitPercent)
    requires 0.0 <= s117
    ensures IcbPortion(s117, split) + LaPortion(s117, split) == s117
    ensures 0.0 <= IcbPortion(s117, split) && 0.0 <= LaPortion(s117, split)
  {
    var p := split as real / 100.0;
    var q := (100 - split) as real / 100.0;
    assert p + q == 1.0;
    assert 0.0 <= p && 0.0 <= q;
    assert s117 * p + s117 * q == s117 * (p + q);
    ScaleMonotone(s117, 0.0, p);
    ScaleMonotone(s117, 0.0, q);
  }

  /** The memoised `data` (lines 31-60): the buckets from the loop, then the split. */
  method ComputeSplit(needs: seq<NeedItem>, split: SplitPercent, m: CalculationMethod)
    returns (data: FundingSplit)
    ensures data == SplitFromBuckets(CategorySum(needs, S117, m), CategorySum(needs, CareAct, m),
                                     CategorySum(needs, PhysicalHealth, m), split)
  {
    var s117, careAct, physical := BucketTotals(needs, m);
    data := SplitFromBuckets(s117, careAct, physical, split);
  }

  /** The split as a function of the needs, for stating properties across calls. */
  function SplitOf(needs: seq<NeedItem>, split: SplitPercent, m: CalculationMethod): FundingSplit
  {
    SplitFromBuckets(CategorySum(needs, S117, m), CategorySum(needs, CareAct, m),
                     CategorySum(needs, PhysicalHealth, m), split)
  }

  /** Each need adds its score to exactly one bucket, so the buckets partition the total. */
  lemma {:induction false} BucketsPartitionTotal(needs: seq<NeedItem>, m: CalculationMethod)
    ensures CategorySum(needs, S117, m) + CategorySum(needs, CareAct, m)
            + CategorySum(needs, PhysicalHealth, m) == TotalScore(needs, m)
  {
    if needs != [] {
      BucketsPartitionTotal(needs[..|needs| - 1], m);
    }
  }

  /** Every need scores at least 1, so the total is at least the number of needs. */
  lemma {:induction false} TotalAtLeastCount(needs: seq<NeedItem>, m: CalculationMethod)
    ensures TotalScore(needs, m) >= |needs|
  {
    if needs != [] {
      TotalAtLeastCount(needs[..|needs| - 1], m);
    }
  }

  /** The chart is hidden (`totalScore > 0` fails) exactly when there are no needs. */
  lemma TotalZeroIffNoNeeds(needs: seq<NeedItem>, split: SplitPercent, m: CalculationMethod)
    ensures SplitOf(needs, split, m).totalScore == 0.0 <==> needs == []
  {
    BucketsPartitionTotal(needs, m);
    TotalAtLeastCount(needs, m);
  }

  /** In count mode a bucket holds the number of needs of that category. */
  lemma {:induction false} CountModeCountsNeeds(needs: seq<NeedItem>, c: NeedCategory)
    ensures CategorySum(needs, c, Count) == Seqs.Count(needs, (n: NeedItem) => n.category == c)
    decreases |needs|
  {
    if needs != [] {
      var k := |needs| - 1;
      CountModeCountsNeeds(needs[..k], c);
      assert needs == needs[..k] + [needs[k]];
      Seqs.FilterAppend(needs[..k], [needs[k]], (n: NeedItem) => n.category == c);
    }
  }

  /** Moving the slider towards the ICB never lowers the ICB score and never raises the LA score. */
  lemma SliderMonotone(needs: seq<NeedItem>, lo: SplitPercent, hi: SplitPercent, m: CalculationMethod)
    requires lo <= hi
    ensures SplitOf(needs, lo, m).icbScore <= SplitOf(needs, hi, m).icbScore
    ensures SplitOf(needs, lo, m).laScore >= SplitOf(needs, hi, m).laScore
  {
    var s := CategorySum(needs, S117, m);
    var careAct := CategorySum(needs, CareAct, m);
    var physical := CategorySum(needs, PhysicalHealth, m);
    ScoresFromPortions(s, careAct, physical, lo);
    ScoresFromPortions(s, careAct, physical, hi);
    PortionsMonotone(s as real, lo, hi);
  }

  /** The ICB score is the physical health bucket plus the ICB portion, the LA score the Care
      Act bucket plus the LA portion. */
  lemma ScoresFromPortions(s117: nat, careAct: nat, physical: nat, split: SplitPercent)
    ensures SplitFromBuckets(s117, careAct, physical, split).icbScore
            == physical as real + IcbPortion(s117 as real, split)
    ensures SplitFromBuckets(s117, careAct, physical, split).laScore
            == careAct as real + LaPortion(s117 as real, split)
  {
  }

  lemma PortionsMonotone(s: real, lo: SplitPercent, hi: SplitPercent)
    requires 0.0 <= s && lo <= hi
    ensures IcbPortion(s, lo) <= IcbPortion(s, hi)
    ensures LaPortion(s, lo) >= LaPortion(s, hi)
  {
    ScaleMonotone(s, lo as real / 100.0, hi as real / 100.0);
    ScaleMonotone(s, (100 - hi) as real / 100.0, (100 - lo) as real / 100.0);
  }

  lemma ScaleMonotone(s: real, p: real, q: real)
    requires 0.0 <= s && p <= q
    ensures s * p <= s * q
  {
    assert s * q - s * p == s * (q - p);
  }

  /** Appending needs adds their bucket contributions. */
  lemma {:induction false} CategorySumAppend(a: seq<NeedItem>, b: seq<NeedItem>, c: NeedCategory,
                                             m: CalculationMethod)
    ensures CategorySum(a + b, c, m) == CategorySum(a, c, m) + CategorySum(b, c, m)
    decreases |b|
  {
    if b == [] {
      assert a + b == a;
    } else {
      var k := |b| - 1;
      assert (a + b)[..|a + b| - 1] == a + b[..k];
      CategorySumAppend(a, b[..k], c, m);
    }
  }

  /** The bucket totals do not depend on the order of the needs list. */
  lemma {:induction false} CategorySumPermutation(a: seq<NeedItem>, b: seq<NeedItem>,
                                                  c: NeedCategory, m: CalculationMethod)
    requires multiset(a) == multiset(b)
    ensures CategorySum(a, c, m) == CategorySum(b, c, m)
    decreases |a|
  {
    if a == [] {
      assert |b| == |multiset(b)| == 0;
    } else {
      var k := |a| - 1;
      var x := a[k];
      assert x in multiset(a) by { assert a == a[..k] + [x]; }
      var j :| 0 <= j < |b| && b[j] == x;
      var rest := b[..j] + b[j + 1..];
      RemoveOne(a, k, c, m);
      RemoveOne(b, j, c, m);
      assert a[..k] + a[k + 1..] == a[..k];
      CategorySumPermutation(a[..k], rest, c, m);
    }
  }

  /** Taking out the need at position `j` takes its contribution out of the bucket and one copy
      of it out of the multiset. */
  lemma RemoveOne(s: seq<NeedItem>, j: nat, c: NeedCategory, m: CalculationMethod)
    requires j < |s|
    ensures multiset(s[..j] + s[j + 1..]) == multiset(s) - multiset{s[j]}
    ensures CategorySum(s, c, m)
            == CategorySum(s[..j] + s[j + 1..], c, m) + Contribution(s[j], c, m)
  {
    var x := s[j];
    assert s == s[..j] + [x] + s[j + 1..];
    assert multiset(s) == multiset(s[..j]) + multiset{x} + multiset(s[j + 1..]);
    CategorySumAppend(s[..j] + [x], s[j + 1..], c, m);
    CategorySumAppend(s[..j], [x], c, m);
    CategorySumAppend(s[..j], s[j + 1..], c, m);
    assert CategorySum([x], c, m) == Contribution(x, c, m) by {
      assert [x][..0] == [];
    }
  }

  /** The whole split is independent of the order of the needs list. */
  lemma SplitOrderIndependent(a: seq<NeedItem>, b: seq<NeedItem>, split: SplitPercent,
                              m: CalculationMethod)
    requires multiset(a) == multiset(b)
    ensures SplitOf(a, split, m) == SplitOf(b, split, m)
  {
    CategorySumPermutation(a, b, S117, m);
    CategorySumPermutation(a, b, CareAct, m);
    CategorySumPermutation(a, b, PhysicalHealth, m);
  }

  /** The worked example: two s.117 needs (High, Low) and one Care Act need (Medium), slider at
      50, weighted: the ICB carries 2 of 6 points and the LA 4 of 6. */
  lemma WorkedExample(n1: NeedItem, n2: NeedItem, n3: NeedItem)
    requires n1.category == S117 && n1.severity == High
    requires n2.category == S117 && n2.severity == Low
    requires n3.category == CareAct && n3.severity == Medium
    ensures var r := SplitOf([n1, n2, n3], 50, Weighted);
            r.s117Score == 4.0 && r.icbScore == 2.0 && r.laScore == 4.0 && r.totalScore == 6.0
            && r.icbPercentage == 100.0 / 3.0 && r.laPercentage == 200.0 / 3.0
  {
    var needs := [n1, n2, n3];
    WorkedExampleBuckets(n1, n2, n3);
    var r := SplitOf(needs, 50, Weighted);
    assert r.icbScore == 2.0 && r.laScore == 4.0;
    assert r.icbPercentage == (2.0 / 6.0) * 100.0;
  }

  lemma WorkedExampleBuckets(n1: NeedItem, n2: NeedItem, n3: NeedItem)
    requires n1.category == S117 && n1.severity == High
    requires n2.category == S117 && n2.severity == Low
    requires n3.category == CareAct && n3.severity == Medium
    ensures CategorySum([n1, n2, n3], S117, Weighted) == 4
    ensures CategorySum([n1, n2, n3], CareAct, Weighted) == 2
    ensures CategorySum([n1, n2, n3], PhysicalHealth, Weighted) == 0
  {
    var needs := [n1, n2, n3];
    assert needs[..2] == [n1, n2];
    assert [n1, n2][..1] == [n1];
    assert [n1][..0] == [];
    forall c | true
      ensures CategorySum(needs, c, Weighted)
              == Contribution(n1, c, Weighted) + Contribution(n2, c, Weighted)
                 + Contribution(n3, c, Weighted)
    {
      assert CategorySum([n1], c, Weighted) == Contribution(n1, c, Weighted);
      assert CategorySum([n1, n2], c, Weighted)
             == CategorySum([n1], c, Weighted) + Contribution(n2, c, Weighted);
    }
  }
}
