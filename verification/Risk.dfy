/** Risk aggregation (risk_engine.py): descending scores, top-ten means and half-up rounding. */
module Risk {
  datatype Priority = Low | Medium | High | Critical
  datatype AggregateRisk = AggregateRisk(score: int, priority: Priority, highest: int, focusedMean: int, overallMean: int,
                                         reason: string)

  const TOP := 10

  function Clamp(value: int): (r: int)
    ensures 0 <= r <= 100
  {
    if value < 0 then 0 else if value > 100 then 100 else value
  }

  function PriorityFor(score: int): Priority {
    var checked := Clamp(score);
    if checked >= 80 then Critical else if checked >= 60 then High else if checked >= 30 then Medium else Low
  }

  /** num / den rounded to the nearest integer, halves upwards. */
  function RoundHalfUp(num: nat, den: nat): nat
    requires den > 0
  {
    (2 * num + den) / (2 * den)
  }

  function Sum(s: seq<int>): int {
    if s == [] then 0 else s[0] + Sum(s[1..])
  }

  /** Python's mean of a list of scores, 0 for an empty list. */
  function Mean(s: seq<int>): nat
    requires Scores(s)
  {
    if s == [] then 0
    else
      SumBounds(s, 0, 100);
      RoundHalfUp(Sum(s), |s|)
  }

  function Weighted(total: nat): int {
    Clamp(RoundHalfUp(total, 100))
  }

  function Insert(x: int, s: seq<int>): seq<int> {
    if s == [] || x >= s[0] then [x] + s else [s[0]] + Insert(x, s[1..])
  }

  function SortDescending(s: seq<int>): seq<int> {
    if s == [] then [] else Insert(s[0], SortDescending(s[1..]))
  }

  function ClampAll(s: seq<int>): (r: seq<int>)
    ensures |r| == |s| && forall i :: 0 <= i < |s| ==> r[i] == Clamp(s[i])
  {
    seq(|s|, i requires 0 <= i < |s| => Clamp(s[i]))
  }

  function Take(s: seq<int>, n: nat): seq<int> {
    if n <= |s| then s[..n] else s
  }

  function AccountRisk(scores: seq<int>): AggregateRisk {
    if scores == [] then AggregateRisk(0, Low, 0, 0, 0, "no_active_findings")
    else
      var ordered := SortDescending(ClampAll(scores));
      SortedScores(scores);
      var highest, focused, overall := ordered[0], Mean(Take(ordered, TOP)), Mean(ordered);
      var score := Weighted(50 * highest + 30 * focused + 20 * overall);
      AggregateRisk(score, PriorityFor(score), highest, focused, overall, "active_findings_scored")
  }

  function MaxOf(s: seq<int>): (m: int)
    requires s != []
    ensures m in s && forall i :: 0 <= i < |s| ==> s[i] <= m
  {
    if |s| == 1 then s[0]
    else
      var m := MaxOf(s[1..]);
      if m >= s[0] then m else s[0]
  }

  function OrganizationRisk(scores: seq<int>): AggregateRisk {
    if scores == [] then AggregateRisk(0, Low, 0, 0, 0, "no_accounts_scored")
    else
      var checked := ClampAll(scores);
      var highest, mean := MaxOf(checked), Mean(checked);
      var score := Weighted(60 * highest + 40 * mean);
      AggregateRisk(score, PriorityFor(score), highest, mean, mean, "account_risk_aggregated")
  }

  // ---- Orders on sequences ------------------------------------------------------------------------

  /** Every value lies between 0 and 100. */
  predicate Scores(s: seq<int>) {
    forall i :: 0 <= i < |s| ==> 0 <= s[i] <= 100
  }

  predicate Descending(s: seq<int>) {
    |s| <= 1 || (s[0] >= s[1] && Descending(s[1..]))
  }

  /** Same length, and nowhere larger. */
  predicate Below(a: seq<int>, b: seq<int>) {
    |a| == |b| && forall i :: 0 <= i < |a| ==> a[i] <= b[i]
  }

  lemma {:induction false} HeadIsMost(s: seq<int>)
    requires Descending(s) && s != []
    ensures forall i :: 0 <= i < |s| ==> s[i] <= s[0]
  {
    if |s| > 1 {
      HeadIsMost(s[1..]);
      forall i | 0 < i < |s| ensures s[i] <= s[0] { assert s[i] == s[1..][i - 1]; }
    }
  }

  lemma {:induction false} InsertDescending(x: int, s: seq<int>)
    requires Descending(s)
    ensures Descending(Insert(x, s)) && |Insert(x, s)| == |s| + 1
    ensures Insert(x, s)[0] == if s == [] || x >= s[0] then x else s[0]
  {
    if s == [] {
    } else if x >= s[0] {
      assert ([x] + s)[1..] == s;
    } else {
      InsertDescending(x, s[1..]);
      assert Insert(x, s)[1..] == Insert(x, s[1..]);
    }
  }

  lemma {:induction false} InsertAdds(x: int, s: seq<int>)
    ensures multiset(Insert(x, s)) == multiset(s) + multiset{x}
  {
    if s != [] && x < s[0] {
      InsertAdds(x, s[1..]);
      assert s == [s[0]] + s[1..];
    }
  }

  lemma {:induction false} SortCorrect(s: seq<int>)
    ensures Descending(SortDescending(s)) && multiset(SortDescending(s)) == multiset(s)
    ensures |SortDescending(s)| == |s|
  {
    if s != [] {
      SortCorrect(s[1..]);
      InsertDescending(s[0], SortDescending(s[1..]));
      InsertAdds(s[0], SortDescending(s[1..]));
      assert s == [s[0]] + s[1..];
    }
  }

  lemma SortedScores(scores: seq<int>)
    ensures |SortDescending(ClampAll(scores))| == |scores| && Scores(SortDescending(ClampAll(scores)))
  {
    var checked := ClampAll(scores);
    var ordered := SortDescending(checked);
    SortCorrect(checked);
    forall i | 0 <= i < |ordered| ensures 0 <= ordered[i] <= 100 {
      assert ordered[i] in multiset(ordered);
      assert ordered[i] in checked;
    }
  }

  lemma SameHead(a: seq<int>, b: seq<int>)
    requires Descending(a) && Descending(b) && multiset(a) == multiset(b) && a != [] && b != []
    ensures a[0] == b[0]
  {
    HeadIsMost(a);
    HeadIsMost(b);
    assert a[0] in multiset(b) && b[0] in multiset(a);
  }

  /** Dropping one place drops one value. */
  lemma Without(s: seq<int>, i: nat)
    requires i < |s|
    ensures multiset(s[..i] + s[i + 1..]) == multiset(s) - multiset{s[i]}
    ensures i == 0 ==> s[..i] + s[i + 1..] == s[1..]
  {
    assert s == s[..i] + [s[i]] + s[i + 1..];
  }

  /** Descending sequences with the same values are equal. */
  lemma {:induction false} DescendingUnique(a: seq<int>, b: seq<int>)
    requires Descending(a) && Descending(b) && multiset(a) == multiset(b)
    ensures a == b
  {
    assert |multiset(a)| == |a| && |multiset(b)| == |b|;
    if a != [] {
      SameHead(a, b);
      Without(a, 0);
      Without(b, 0);
      DescendingUnique(a[1..], b[1..]);
    }
  }

  /** Inserting a larger value into a larger sequence gives a larger sequence. */
  lemma {:induction false} InsertBelow(x: int, s: seq<int>, y: int, t: seq<int>)
    requires Descending(s) && Descending(t) && Below(s, t) && x <= y
    ensures Below(Insert(x, s), Insert(y, t))
    decreases |s|
  {
    if s != [] {
      var s', t' := s[1..], t[1..];
      assert s == [s[0]] + s' && t == [t[0]] + t';
      if x >= s[0] && y < t[0] {
        HeadIsMost(s);
        assert Insert(s[0], s') == s;
        InsertBelow(s[0], s', y, t');
      } else if x < s[0] && y >= t[0] {
        HeadIsMost(t);
        assert Insert(t[0], t') == t;
        InsertBelow(x, s', t[0], t');
      } else if x < s[0] {
        InsertBelow(x, s', y, t');
      }
    }
  }

  /** Raising values raises the sorted list at every rank. */
  lemma {:induction false} SortBelow(s: seq<int>, t: seq<int>)
    requires Below(s, t)
    ensures Below(SortDescending(s), SortDescending(t))
  {
    if s != [] {
      SortBelow(s[1..], t[1..]);
      SortCorrect(s[1..]);
      SortCorrect(t[1..]);
      InsertBelow(s[0], SortDescending(s[1..]), t[0], SortDescending(t[1..]));
    }
  }

  // ---- Sums and means -----------------------------------------------------------------------------

  lemma {:induction false} SumBounds(s: seq<int>, low: int, high: int)
    requires forall i :: 0 <= i < |s| ==> low <= s[i] <= high
    ensures low * |s| <= Sum(s) <= high * |s|
  {
    if s != [] {
      SumBounds(s[1..], low, high);
    }
  }

  lemma {:induction false} SumBelow(s: seq<int>, t: seq<int>)
    requires Below(s, t)
    ensures Sum(s) <= Sum(t)
  {
    if s != [] {
      SumBelow(s[1..], t[1..]);
    }
  }

  lemma {:induction false} SumSplit(s: seq<int>, k: nat)
    requires k <= |s|
    ensures Sum(s) == Sum(s[..k]) + Sum(s[k..])
  {
    if k == 0 {
      assert s[..0] == [] && s[0..] == s;
    } else {
      SumSplit(s[1..], k - 1);
      assert s[1..][..k - 1] == s[..k][1..] && s[1..][k - 1..] == s[k..];
    }
  }

  lemma {:induction false} SumPermuted(s: seq<int>, t: seq<int>)
    requires multiset(s) == multiset(t)
    ensures Sum(s) == Sum(t)
  {
    SortCorrect(s);
    SortCorrect(t);
    SumSorted(s);
    SumSorted(t);
    DescendingUnique(SortDescending(s), SortDescending(t));
  }

  lemma {:induction false} SumSorted(s: seq<int>)
    ensures Sum(SortDescending(s)) == Sum(s)
  {
    if s != [] {
      SumSorted(s[1..]);
      SumInsert(s[0], SortDescending(s[1..]));
    }
  }

  lemma {:induction false} SumInsert(x: int, s: seq<int>)
    ensures Sum(Insert(x, s)) == x + Sum(s)
  {
    if s == [] || x >= s[0] {
      assert ([x] + s)[1..] == s;
    } else {
      SumInsert(x, s[1..]);
      assert Insert(x, s)[1..] == Insert(x, s[1..]);
    }
  }

  /** The rounded quotient is the one integer within half a unit, the upper one on a tie. */
  lemma RoundNearest(num: nat, den: nat, r: int)
    requires den > 0
    ensures r == RoundHalfUp(num, den) <==> 2 * num - den < 2 * (den * r) <= 2 * num + den
  {
    var d, n := 2 * den, 2 * num + den;
    var q := n / d;
    assert n == d * q + n % d;
    assert 2 * (den * r) == d * r && 2 * (den * q) == d * q;
    if r < q {
      Product(d, r + 1, q);
    } else if r > q {
      Product(d, q + 1, r);
    }
  }

  lemma Product(d: nat, a: int, b: int)
    requires a <= b
    ensures d * a <= d * b
  {
  }

  /** A larger quotient never rounds to less. */
  lemma RoundMonotone(a: nat, b: nat, c: nat, d: nat)
    requires b > 0 && d > 0 && a * d <= c * b
    ensures RoundHalfUp(a, b) <= RoundHalfUp(c, d)
  {
    RoundNearest(a, b, RoundHalfUp(a, b));
    RoundNearest(c, d, RoundHalfUp(c, d));
    NearestMonotone(a, b, c, d, RoundHalfUp(a, b), RoundHalfUp(c, d));
  }

  lemma NearestMonotone(a: nat, b: nat, c: nat, d: nat, q: nat, r: nat)
    requires b > 0 && d > 0 && a * d <= c * b && 2 * (b * q) <= 2 * a + b && 2 * c - d < 2 * (d * r)
    ensures q <= r
  {
    Cross(a, b, c, d, q);
    if q > r {
      Product(d, r + 1, q);
    }
  }

  lemma Cross(a: nat, b: nat, c: nat, d: nat, q: nat)
    requires b > 0 && d > 0 && a * d <= c * b && 2 * (b * q) <= 2 * a + b
    ensures 2 * (d * q) <= 2 * c + d
  {
    calc {
      b * (2 * (d * q));
      d * (2 * (b * q));
    <= { Product(d, 2 * (b * q), 2 * a + b); }
      d * (2 * a + b);
      2 * (a * d) + d * b;
    <=
      2 * (c * b) + d * b;
      b * (2 * c + d);
    }
    Cancel(b, 2 * (d * q), 2 * c + d);
  }

  lemma Cancel(b: nat, x: int, y: int)
    requires b > 0 && b * x <= b * y
    ensures x <= y
  {
    if x > y {
      Product(b, y + 1, x);
    }
  }

  lemma RoundWhole(n: nat, den: nat)
    requires den > 0
    ensures RoundHalfUp(n * den, den) == n
  {
    RoundNearest(n * den, den, n);
  }

  /** Of a descending sequence, a prefix has at least the mean of the whole. */
  lemma PrefixMean(s: seq<int>, k: nat)
    requires Descending(s) && 0 < k <= |s|
    ensures Sum(s) * k <= Sum(s[..k]) * |s|
  {
    var c, P, R := s[k - 1], Sum(s[..k]), Sum(s[k..]);
    SumSplit(s, k);
    Ranked(s, k);
    SumFloor(s[..k], c);
    SumCeiling(s[k..], c);
    Balance(P, R, c, k, |s| - k);
  }

  lemma Balance(P: int, R: int, c: int, k: nat, m: nat)
    requires P >= c * k && R <= c * m
    ensures (P + R) * k <= P * (k + m)
  {
    Product(m, c * k, P);
    Product(k, R, c * m);
    assert m * (c * k) == k * (c * m);
    assert (P + R) * k == k * P + k * R;
    assert P * (k + m) == k * P + m * P;
  }

  lemma {:induction false} SumFloor(s: seq<int>, low: int)
    requires forall i :: 0 <= i < |s| ==> low <= s[i]
    ensures low * |s| <= Sum(s)
  {
    if s != [] {
      SumFloor(s[1..], low);
    }
  }

  lemma {:induction false} SumCeiling(s: seq<int>, high: int)
    requires forall i :: 0 <= i < |s| ==> s[i] <= high
    ensures Sum(s) <= high * |s|
  {
    if s != [] {
      SumCeiling(s[1..], high);
    }
  }

  lemma {:induction false} Ranked(s: seq<int>, k: nat)
    requires Descending(s) && 0 < k <= |s|
    ensures forall i :: 0 <= i < k ==> s[i] >= s[k - 1]
    ensures forall i :: k <= i < |s| ==> s[i] <= s[k - 1]
  {
    HeadIsMost(s);
    if k > 1 {
      Ranked(s[1..], k - 1);
      forall i | 0 < i < |s| ensures s[i] == s[1..][i - 1] {}
    }
  }

  lemma MeanBelow(s: seq<int>, t: seq<int>)
    requires Scores(s) && Scores(t) && Below(s, t)
    ensures Mean(s) <= Mean(t)
  {
    SumBelow(s, t);
    if s != [] {
      SumBounds(s, 0, 100);
      RoundMonotone(Sum(s), |s|, Sum(t), |t|);
    }
  }

  /** A mean lies between any bounds on the values. */
  lemma MeanBetween(s: seq<int>, low: nat, high: nat)
    requires s != [] && Scores(s) && forall i :: 0 <= i < |s| ==> low <= s[i] <= high
    ensures low <= Mean(s) <= high
  {
    SumBounds(s, low, high);
    SumBounds(s, 0, 100);
    RoundWhole(low, |s|);
    RoundWhole(high, |s|);
    Product(|s|, low * |s|, Sum(s));
    Product(|s|, Sum(s), high * |s|);
    RoundMonotone(low * |s|, |s|, Sum(s), |s|);
    RoundMonotone(Sum(s), |s|, high * |s|, |s|);
  }

  // ---- Aggregates ---------------------------------------------------------------------------------

  /** Only the bag of scores matters. */
  lemma AccountRiskPermuted(a: seq<int>, b: seq<int>)
    requires multiset(a) == multiset(b)
    ensures AccountRisk(a) == AccountRisk(b)
  {
    assert |multiset(a)| == |a| && |multiset(b)| == |b|;
    ClampPermuted(a, b);
    SortCorrect(ClampAll(a));
    SortCorrect(ClampAll(b));
    DescendingUnique(SortDescending(ClampAll(a)), SortDescending(ClampAll(b)));
  }

  lemma {:induction false} ClampPermuted(a: seq<int>, b: seq<int>)
    requires multiset(a) == multiset(b)
    ensures multiset(ClampAll(a)) == multiset(ClampAll(b))
  {
    assert |multiset(a)| == |a| && |multiset(b)| == |b|;
    if a != [] {
      assert a[0] in multiset(b);
      var i :| 0 <= i < |b| && b[i] == a[0];
      var rest := b[..i] + b[i + 1..];
      WithoutSame(a, b, i);
      ClampPermuted(a[1..], rest);
      ClampWithout(a, 0);
      ClampWithout(b, i);
    }
  }

  lemma WithoutSame(a: seq<int>, b: seq<int>, i: nat)
    requires multiset(a) == multiset(b) && a != [] && i < |b| && b[i] == a[0]
    ensures multiset(a[1..]) == multiset(b[..i] + b[i + 1..])
  {
    Without(a, 0);
    Without(b, i);
  }

  lemma ClampWithout(s: seq<int>, i: nat)
    requires i < |s|
    ensures multiset(ClampAll(s)) == multiset(ClampAll(s[..i] + s[i + 1..])) + multiset{Clamp(s[i])}
    ensures i == 0 ==> s[..i] + s[i + 1..] == s[1..]
  {
    var checked := ClampAll(s);
    assert checked == checked[..i] + [checked[i]] + checked[i + 1..];
    assert ClampAll(s[..i] + s[i + 1..]) == checked[..i] + checked[i + 1..];
    assert i == 0 ==> s[..i] + s[i + 1..] == s[1..];
  }

  /** Raising scores, with their number fixed, raises no figure downwards. */
  lemma AccountRiskMonotone(a: seq<int>, b: seq<int>)
    requires Below(a, b)
    ensures var r, t := AccountRisk(a), AccountRisk(b);
            r.score <= t.score && r.highest <= t.highest && r.focusedMean <= t.focusedMean && r.overallMean <= t.overallMean
            && Rank(r.priority) <= Rank(t.priority)
  {
    if a != [] {
      var s, t := SortDescending(ClampAll(a)), SortDescending(ClampAll(b));
      assert Below(ClampAll(a), ClampAll(b));
      SortBelow(ClampAll(a), ClampAll(b));
      SortedScores(a);
      SortedScores(b);
      MeanBelow(s, t);
      MeanBelow(Take(s, TOP), Take(t, TOP));
      var r, u := AccountRisk(a), AccountRisk(b);
      RoundMonotone(50 * r.highest + 30 * r.focusedMean + 20 * r.overallMean, 100,
                    50 * u.highest + 30 * u.focusedMean + 20 * u.overallMean, 100);
    }
  }

  /** The means and the maximum are ordered, and the score lies between the outer two. */
  lemma AccountRiskOrdered(a: seq<int>)
    ensures var r := AccountRisk(a); 0 <= r.overallMean <= r.focusedMean <= r.highest <= 100
    ensures var r := AccountRisk(a); r.overallMean <= r.score <= r.highest
    ensures a != [] ==> var r := AccountRisk(a); exists i :: 0 <= i < |a| && r.highest == Clamp(a[i])
    ensures forall i :: 0 <= i < |a| ==> Clamp(a[i]) <= AccountRisk(a).highest
  {
    if a != [] {
      var checked, s := ClampAll(a), SortDescending(ClampAll(a));
      SortedScores(a);
      SortCorrect(checked);
      HeadIsMost(s);
      var r := AccountRisk(a);
      MeanOrder(s);
      var total := 50 * r.highest + 30 * r.focusedMean + 20 * r.overallMean;
      RoundNearest(total, 100, RoundHalfUp(total, 100));
      assert s[0] in multiset(s);
      assert s[0] in checked;
      forall i | 0 <= i < |a| ensures Clamp(a[i]) <= r.highest {
        assert checked[i] in multiset(checked);
        assert checked[i] in s;
      }
    }
  }

  lemma MeanOrder(s: seq<int>)
    requires Descending(s) && Scores(s) && s != []
    ensures Mean(s) <= Mean(Take(s, TOP)) <= s[0]
  {
    var top := Take(s, TOP);
    HeadIsMost(s);
    MeanBetween(top, 0, s[0]);
    if TOP < |s| {
      PrefixMean(s, TOP);
      SumBounds(s, 0, 100);
      SumBounds(top, 0, 100);
      RoundMonotone(Sum(s), |s|, Sum(top), TOP);
    } else {
      assert top == s;
    }
  }

  // ---- Distance from the unrounded value -----------------------------------------------------------

  /** The mean as an exact fraction. */
  function ExactMean(s: seq<int>): real
    requires s != []
  {
    Sum(s) as real / |s| as real
  }

  /** The weighted value with nothing rounded on the way. */
  function ExactAccountRisk(scores: seq<int>): real
    requires scores != []
    ensures |SortDescending(ClampAll(scores))| == |scores|
  {
    SortedScores(scores);
    var ordered := SortDescending(ClampAll(scores));
    0.5 * ordered[0] as real + 0.3 * ExactMean(Take(ordered, TOP)) + 0.2 * ExactMean(ordered)
  }

  lemma RoundError(num: nat, den: nat)
    requires den > 0
    ensures num as real / den as real - 0.5 <= RoundHalfUp(num, den) as real <= num as real / den as real + 0.5
  {
    var r := RoundHalfUp(num, den);
    RoundNearest(num, den, r);
    HalfAway(num as real, den as real, r as real, (den * r) as real);
  }

  lemma HalfAway(x: real, d: real, q: real, product: real)
    requires d > 0.0 && product == d * q && 2.0 * x - d <= 2.0 * product <= 2.0 * x + d
    ensures x / d - 0.5 <= q <= x / d + 0.5
  {
    var e := x / d;
    assert x == e * d;
    NearAt(x, e, d, q);
  }

  lemma NearAt(x: real, e: real, d: real, q: real)
    requires d > 0.0 && x == e * d && 2.0 * x - d <= 2.0 * (d * q) <= 2.0 * x + d
    ensures e - 0.5 <= q <= e + 0.5
  {
    CancelReal(d, e - 0.5, q, x - 0.5 * d, d * q);
    CancelReal(d, q, e + 0.5, d * q, x + 0.5 * d);
  }

  lemma CancelReal(d: real, x: real, y: real, p: real, q: real)
    requires d > 0.0 && p == d * x && q == d * y && p <= q
    ensures x <= y
  {
    var gap := x - y;
    assert d * x == d * y + d * gap;
    if gap > 0.0 {
      PositiveProduct(d, gap);
    }
  }

  lemma PositiveProduct(d: real, x: real)
    requires d > 0.0 && x > 0.0
    ensures d * x > 0.0
  {
  }

  predicate Near(rounded: int, exact: real) {
    exact - 0.5 <= rounded as real <= exact + 0.5
  }

  /** Three roundings together move the score by at most three quarters. */
  lemma AccountRiskNearExact(a: seq<int>)
    requires a != []
    ensures ExactAccountRisk(a) - 0.75 <= AccountRisk(a).score as real <= ExactAccountRisk(a) + 0.75
    ensures Near(AccountRisk(a).focusedMean, ExactMean(Take(SortDescending(ClampAll(a)), TOP)))
    ensures Near(AccountRisk(a).overallMean, ExactMean(SortDescending(ClampAll(a))))
  {
    var s := SortDescending(ClampAll(a));
    SortedScores(a);
    var top := Take(s, TOP);
    SumBounds(s, 0, 100);
    SumBounds(top, 0, 100);
    RoundError(Sum(s), |s|);
    RoundError(Sum(top), |top|);
    AccountRiskOrdered(a);
    var r := AccountRisk(a);
    var total := 50 * r.highest + 30 * r.focusedMean + 20 * r.overallMean;
    RoundNearest(total, 100, RoundHalfUp(total, 100));
    RoundError(total, 100);
  }

  /** The same laws for the organization figure. */
  lemma OrganizationRiskLaws(a: seq<int>)
    ensures var r := OrganizationRisk(a); 0 <= r.overallMean <= r.score <= r.highest <= 100
    ensures forall i :: 0 <= i < |a| ==> Clamp(a[i]) <= OrganizationRisk(a).highest
  {
    if a != [] {
      var checked, r := ClampAll(a), OrganizationRisk(a);
      assert Scores(checked);
      MeanBetween(checked, 0, r.highest);
      var total := 60 * r.highest + 40 * r.overallMean;
      RoundNearest(total, 100, RoundHalfUp(total, 100));
    }
  }

  /** Two roundings move the organization's score by at most seven tenths. */
  lemma OrganizationRiskNearExact(a: seq<int>)
    requires a != []
    ensures var exact := 0.6 * MaxOf(ClampAll(a)) as real + 0.4 * ExactMean(ClampAll(a));
            exact - 0.7 <= OrganizationRisk(a).score as real <= exact + 0.7
    ensures Near(OrganizationRisk(a).overallMean, ExactMean(ClampAll(a)))
  {
    var checked, r := ClampAll(a), OrganizationRisk(a);
    assert Scores(checked);
    SumBounds(checked, 0, 100);
    RoundError(Sum(checked), |checked|);
    OrganizationRiskLaws(a);
    var total := 60 * r.highest + 40 * r.overallMean;
    RoundNearest(total, 100, RoundHalfUp(total, 100));
    RoundError(total, 100);
  }

  function Rank(p: Priority): nat {
    match p case Low => 0 case Medium => 1 case High => 2 case Critical => 3
  }

  lemma OrganizationRiskPermuted(a: seq<int>, b: seq<int>)
    requires multiset(a) == multiset(b)
    ensures OrganizationRisk(a) == OrganizationRisk(b)
  {
    assert |multiset(a)| == |a| && |multiset(b)| == |b|;
    if a != [] {
      var s, t := ClampAll(a), ClampAll(b);
      ClampPermuted(a, b);
      SumPermuted(s, t);
      assert MaxOf(s) in multiset(t) && MaxOf(t) in multiset(s);
    }
  }

  lemma OrganizationRiskMonotone(a: seq<int>, b: seq<int>)
    requires Below(a, b)
    ensures OrganizationRisk(a).score <= OrganizationRisk(b).score
  {
    if a != [] {
      var s, t := ClampAll(a), ClampAll(b);
      MeanBelow(s, t);
      var i :| 0 <= i < |s| && s[i] == MaxOf(s);
      assert MaxOf(s) <= t[i] <= MaxOf(t);
      RoundMonotone(60 * MaxOf(s) + 40 * Mean(s), 100, 60 * MaxOf(t) + 40 * Mean(t), 100);
    }
  }

  // ---- The fixed points of the policy ---------------------------------------------------------------

  lemma ClampMeaning(value: int)
    ensures 0 <= value <= 100 ==> Clamp(value) == value
    ensures value < 0 ==> Clamp(value) == 0
    ensures value > 100 ==> Clamp(value) == 100
  {}

  /** The bands of a figure's priority. */
  predicate Banded(r: AggregateRisk) {
    && (r.priority == Critical <==> r.score >= 80) && (r.priority == High <==> 60 <= r.score < 80)
    && (r.priority == Medium <==> 30 <= r.score < 60) && (r.priority == Low <==> r.score < 30)
  }

  lemma PriorityBands(a: seq<int>)
    ensures Banded(AccountRisk(a)) && Banded(OrganizationRisk(a))
  {
    AccountRiskOrdered(a);
    OrganizationRiskLaws(a);
  }

  /** The focused mean is over the ten highest scores, or over all if there are no more. */
  lemma FocusIsTopTen(a: seq<int>)
    ensures |a| <= 10 ==> AccountRisk(a).focusedMean == AccountRisk(a).overallMean
    ensures |a| > 10 ==> |SortDescending(ClampAll(a))| == |a|
                         && Near(AccountRisk(a).focusedMean, Sum(SortDescending(ClampAll(a))[..10]) as real / 10.0)
  {
    if a != [] {
      SortedScores(a);
      var s := SortDescending(ClampAll(a));
      if |a| <= 10 {
        assert Take(s, TOP) == s;
      } else {
        AccountRiskNearExact(a);
      }
    }
  }

  /** Without scores there is no risk. */
  lemma NoScores()
    ensures AccountRisk([]) == AggregateRisk(0, Low, 0, 0, 0, "no_active_findings")
    ensures OrganizationRisk([]) == AggregateRisk(0, Low, 0, 0, 0, "no_accounts_scored")
  {}
}
