/**
  The Benjamini-Hochberg correction over a family of p-values, and the marking of
  significant comparisons that rests on it (bench/membench/stats.py).
*/
module BenjaminiHochberg {
  import opened Fractions
  import opened StableSort

  function Min(a: real, b: real): real { if a < b then a else b }

  /** `v` times `a` over `b`. */
  function Ratio(v: real, a: nat, b: nat): real
    requires b > 0
  {
    v * a as real / b as real
  }

  /** A larger denominator makes no larger ratio. */
  lemma RatioFalls(v: real, m: nat, a: nat, b: nat)
    requires v >= 0.0 && 0 < a <= b
    ensures Ratio(v, m, b) <= Ratio(v, m, a)
  {
    var x, y := v * m as real, Ratio(v, m, b);
    assert x >= 0.0 && y * b as real == x;
    assert y >= 0.0 by { QuotientsOrdered(0.0, x, b as real); }
    assert y * a as real <= y * b as real;
    QuotientsOrdered(y * a as real, x, a as real);
  }

  lemma RatioOfSame(v: real, m: nat)
    requires m > 0
    ensures Ratio(v, m, m) == v
  {
  }

  /** A value scaled up is below the level exactly when the value is below its share of the level. */
  lemma BelowShare(v: real, level: real, k: nat, m: nat)
    requires k > 0 && m > 0
    ensures Ratio(v, m, k) < level <==> v < Ratio(level, k, m)
  {
    var a, b := Ratio(v, m, k), Ratio(level, k, m);
    assert a * k as real == v * m as real && b * m as real == level * k as real;
    ScalingOrders(a, level, k as real);
    ScalingOrders(v, b, m as real);
  }

  function Key(p: seq<real>, i: nat): real { if i < |p| then p[i] else 0.0 }

  function Range(m: nat): seq<nat> { seq(m, i => i) }

  function ByKey(p: seq<real>): (nat, nat) -> bool {
    (i: nat, j: nat) => Key(p, i) <= Key(p, j)
  }

  /** The indices in ascending order of their p-value. */
  function Order(p: seq<real>): seq<nat> {
    Sort(Range(|p|), ByKey(p))
  }

  /** `order` lists every index once, by ascending p-value. */
  predicate Ranking(p: seq<real>, order: seq<nat>) {
    && |order| == |p|
    && (forall r | 0 <= r < |order| :: order[r] < |p|)
    && (forall i | 0 <= i < |p| :: i in order)
    && Distinct(order)
    && (forall r, s | 0 <= r <= s < |order| :: p[order[r]] <= p[order[s]])
  }

  lemma OrderIsPermutation(p: seq<real>)
    ensures multiset(Order(p)) == multiset(Range(|p|)) && |Order(p)| == |p| && Distinct(Order(p))
  {
    hide Sort;
    SortKeeps(Range(|p|), ByKey(p));
    RearrangedDistinct(Range(|p|), Order(p));
  }

  lemma OrderAscends(p: seq<real>)
    ensures Ordered(Order(p), ByKey(p))
  {
    hide Sort;
    SortOrders(Range(|p|), ByKey(p));
  }

  lemma OrderRanks(p: seq<real>)
    ensures Ranking(p, Order(p))
  {
    hide Order, ByKey, Distinct;
    var range, order := Range(|p|), Order(p);
    OrderIsPermutation(p);
    OrderAscends(p);
    forall r | 0 <= r < |order| ensures order[r] < |p| {
      assert order[r] in multiset(range);
    }
    forall i | 0 <= i < |p| ensures i in order {
      assert range[i] == i && i in multiset(range);
    }
    forall r, s | 0 <= r <= s < |order| ensures p[order[r]] <= p[order[s]] {
      if r < s { KeyOrder(p, order[r], order[s]); }
    }
  }

  lemma KeyOrder(p: seq<real>, i: nat, j: nat)
    requires i < |p| && j < |p| && ByKey(p)(i, j)
    ensures p[i] <= p[j]
  {
  }

  /** The unclamped value at a rank (counted from zero): p times m over the rank. */
  function Raw(p: seq<real>, order: seq<nat>, r: nat): real
    requires Ranking(p, order) && r < |p|
  {
    Ratio(p[order[r]], |p|, r + 1)
  }

  /** The least of 1 and the values at ranks from `r` on. */
  function RankMin(p: seq<real>, order: seq<nat>, r: nat): real
    requires Ranking(p, order) && r <= |p|
    decreases |p| - r
  {
    if r == |p| then 1.0 else Min(RankMin(p, order, r + 1), Raw(p, order, r))
  }

  // ---------- a definition without ranks ----------

  /** How many p-values are at most `v`. */
  function CountAtMost(p: seq<real>, v: real): nat {
    if p == [] then 0
    else CountAtMost(p[..|p| - 1], v) + if p[|p| - 1] <= v then 1 else 0
  }

  lemma {:induction false} CountBounds(p: seq<real>, v: real)
    ensures CountAtMost(p, v) <= |p|
    ensures (exists i :: 0 <= i < |p| && p[i] <= v) ==> CountAtMost(p, v) >= 1
  {
    if p != [] {
      CountBounds(p[..|p| - 1], v);
      if i :| 0 <= i < |p| && p[i] <= v {
        if i < |p| - 1 { assert p[..|p| - 1][i] <= v; }
      }
    }
  }

  /** A p-value times m over the number of p-values it is at least as large as. */
  function Scaled(p: seq<real>, v: real): real {
    if CountAtMost(p, v) == 0 then 1.0 else Ratio(v, |p|, CountAtMost(p, v))
  }

  /** `x` is the least of 1 and the scaled p-values that are `v` or more. */
  predicate Adjusts(p: seq<real>, v: real, x: real) {
    && x <= 1.0
    && (forall j | 0 <= j < |p| && p[j] >= v :: x <= Scaled(p, p[j]))
    && (x == 1.0 || exists j | 0 <= j < |p| && p[j] >= v :: x == Scaled(p, p[j]))
  }

  // ---------- the computation ----------

  predicate Computes(p: seq<real>, out: seq<real>) {
    OrderRanks(p);
    && |out| == |p|
    && forall r | 0 <= r < |p| :: out[Order(p)[r]] == RankMin(p, Order(p), r)
  }

  /** The walk from the largest p-value down, carrying the running minimum. */
  method RunningMinima(p: seq<real>, order: seq<nat>) returns (q: seq<real>)
    requires Ranking(p, order)
    ensures |q| == |p| && forall r | 0 <= r < |p| :: q[r] == RankMin(p, order, r)
  {
    var m := |p|;
    var adjusted := new real[m];
    var runningMin := 1.0;
    var rank := m;
    while rank > 0
      invariant rank <= m
      invariant runningMin == RankMin(p, order, rank) && runningMin <= 1.0
      invariant forall r | rank <= r < m :: adjusted[r] == RankMin(p, order, r)
    {
      runningMin := Min(runningMin, Raw(p, order, rank - 1));
      adjusted[rank - 1] := Min(1.0, runningMin);
      rank := rank - 1;
    }
    q := adjusted[..];
  }

  /** Back to the order of the input. */
  method Scatter(order: seq<nat>, values: seq<real>) returns (q: seq<real>)
    requires |order| == |values| && Distinct(order) && forall r | 0 <= r < |order| :: order[r] < |order|
    ensures |q| == |order| && forall r | 0 <= r < |order| :: q[order[r]] == values[r]
  {
    var out := new real[|order|];
    for r := 0 to |order|
      invariant forall s | 0 <= s < r :: out[order[s]] == values[s]
    {
      out[order[r]] := values[r];
    }
    q := out[..];
  }

  method Adjust(pvalues: seq<real>) returns (q: seq<real>)
    ensures Computes(pvalues, q)
  {
    hide Order, Distinct, Raw;
    if |pvalues| == 0 {
      OrderRanks(pvalues);
      return [];
    }
    OrderRanks(pvalues);
    var order := Order(pvalues);
    var adjusted := RunningMinima(pvalues, order);
    q := Scatter(order, adjusted);
  }

  // ---------- ranked and rank-free agree ----------

  lemma {:induction false} RankMinIsLeast(p: seq<real>, order: seq<nat>, r: nat)
    requires Ranking(p, order) && r <= |p|
    ensures RankMin(p, order, r) <= 1.0
    ensures forall s | r <= s < |p| :: RankMin(p, order, r) <= Raw(p, order, s)
    ensures RankMin(p, order, r) == 1.0 || exists s | r <= s < |p| :: RankMin(p, order, r) == Raw(p, order, s)
    decreases |p| - r
  {
    hide Ranking, Raw;
    if r < |p| {
      RankMinIsLeast(p, order, r + 1);
    }
  }

  predicate Within(order: seq<nat>, n: nat) {
    forall r | 0 <= r < |order| :: order[r] < n
  }

  function At(p: seq<real>, order: seq<nat>): (s: seq<real>)
    requires Within(order, |p|)
    ensures |s| == |order|
  {
    seq(|order|, r requires 0 <= r < |order| => p[order[r]])
  }

  function Without<T>(s: seq<T>, k: nat): seq<T>
    requires k < |s|
  {
    s[..k] + s[k + 1..]
  }

  lemma WithoutOne<T>(s: seq<T>, k: nat)
    requires k < |s|
    ensures multiset(Without(s, k)) == multiset(s) - multiset{s[k]}
  {
    assert s == s[..k] + [s[k]] + s[k + 1..];
  }

  /** A place where the last element of `a` stands in its rearrangement `b`. */
  lemma PlaceOfLast<T>(a: seq<T>, b: seq<T>) returns (k: nat)
    requires a != [] && multiset(a) == multiset(b)
    ensures k < |b| && b[k] == a[|a| - 1] && multiset(Without(b, k)) == multiset(a[..|a| - 1])
  {
    var x := a[|a| - 1];
    assert a == a[..|a| - 1] + [x];
    assert x in multiset(b);
    k :| k < |b| && b[k] == x;
    WithoutOne(b, k);
  }

  lemma {:induction false} CountJoins(a: seq<real>, b: seq<real>, v: real)
    ensures CountAtMost(a + b, v) == CountAtMost(a, v) + CountAtMost(b, v)
  {
    if b == [] {
      assert a + b == a;
    } else {
      assert (a + b)[..|a + b| - 1] == a + b[..|b| - 1];
      CountJoins(a, b[..|b| - 1], v);
    }
  }

  lemma {:induction false} CountPermutes(p: seq<real>, q: seq<real>, v: real)
    requires multiset(p) == multiset(q)
    ensures CountAtMost(p, v) == CountAtMost(q, v) && |p| == |q|
  {
    assert |multiset(p)| == |p| && |multiset(q)| == |q|;
    if p != [] {
      var k := PlaceOfLast(p, q);
      CountPermutes(p[..|p| - 1], Without(q, k), v);
      CountJoins(q[..k], q[k + 1..], v);
      CountJoins(q[..k], [q[k]], v);
      CountJoins(q[..k] + [q[k]], q[k + 1..], v);
      assert q == q[..k] + [q[k]] + q[k + 1..];
      assert [q[k]][..0] == [];
    }
  }

  lemma {:induction false} AtPermutes(p: seq<real>, a: seq<nat>, b: seq<nat>)
    requires Within(a, |p|) && Within(b, |p|)
    requires multiset(a) == multiset(b)
    ensures multiset(At(p, a)) == multiset(At(p, b))
  {
    assert |multiset(a)| == |a| && |multiset(b)| == |b|;
    if a != [] {
      var k := PlaceOfLast(a, b);
      var front := a[..|a| - 1];
      AtPermutes(p, front, Without(b, k));
      assert At(p, a) == At(p, front) + [p[b[k]]];
      var rest, all := At(p, Without(b, k)), At(p, b);
      assert rest == Without(all, k);
      assert all[k] in multiset(all);
      WithoutOne(all, k);
    }
  }

  lemma {:induction false} PrefixCount(sorted: seq<real>, v: real)
    requires forall r, s | 0 <= r <= s < |sorted| :: sorted[r] <= sorted[s]
    ensures forall r | 0 <= r < |sorted| :: sorted[r] <= v <==> r < CountAtMost(sorted, v)
    ensures CountAtMost(sorted, v) <= |sorted|
  {
    if sorted != [] {
      var front := sorted[..|sorted| - 1];
      PrefixCount(front, v);
      if sorted[|sorted| - 1] <= v {
        assert front != [] ==> front[|front| - 1] <= v;
      }
    }
  }

  /** The p-values of rank below the count of those at most `v` are those at most `v`. */
  lemma RanksBelowCount(p: seq<real>, v: real)
    ensures Ranking(p, Order(p))
    ensures forall r | 0 <= r < |p| :: p[Order(p)[r]] <= v <==> r < CountAtMost(p, v)
    ensures CountAtMost(p, v) <= |p|
  {
    hide Order;
    OrderRanks(p);
    OrderIsPermutation(p);
    var order, range := Order(p), Range(|p|);
    var sorted := At(p, order);
    AtPermutes(p, order, range);
    assert At(p, range) == p;
    CountPermutes(p, sorted, v);
    PrefixCount(sorted, v);
    forall r | 0 <= r < |p| ensures sorted[r] == p[order[r]] {}
  }

  /** The scaled value of a p-value is the unclamped value at the last rank it has. */
  lemma ScaledIsRaw(p: seq<real>, r: nat) returns (s: nat)
    requires r < |p|
    ensures Ranking(p, Order(p))
    ensures r <= s < |p| && p[Order(p)[s]] == p[Order(p)[r]] && Scaled(p, p[Order(p)[r]]) == Raw(p, Order(p), s)
  {
    OrderRanks(p);
    hide Order;
    var order := Order(p);
    var v := p[order[r]];
    RanksBelowCount(p, v);
    s := CountAtMost(p, v) - 1;
    assert p[order[s]] <= v;
  }

  /** The ranked computation is the rank-free one. */
  lemma RankMinAdjusts(p: seq<real>, r: nat)
    requires r < |p| && forall i | 0 <= i < |p| :: p[i] >= 0.0
    ensures Ranking(p, Order(p))
    ensures Adjusts(p, p[Order(p)[r]], RankMin(p, Order(p), r))
  {
    OrderRanks(p);
    hide Order, Scaled, RankMin, Raw;
    var order := Order(p);
    var v, x := p[order[r]], RankMin(p, order, r);
    RankMinIsLeast(p, order, r);
    forall j | 0 <= j < |p| && p[j] >= v ensures x <= Scaled(p, p[j]) {
      RankMinBelowScaled(p, r, j);
    }
    if x != 1.0 {
      var s :| r <= s < |p| && x == Raw(p, order, s);
      var t := ScaledIsRaw(p, s);
      RawFalls(p, order, s, t);
      assert p[order[s]] >= v && x == Scaled(p, p[order[s]]);
    }
  }

  lemma RankMinBelowScaled(p: seq<real>, r: nat, j: nat)
    requires Ranking(p, Order(p))
    requires r < |p| && j < |p| && p[j] >= p[Order(p)[r]]
    ensures RankMin(p, Order(p), r) <= Scaled(p, p[j])
  {
    hide Order, Scaled, RankMin, Raw;
    var order := Order(p);
    RankMinIsLeast(p, order, r);
    RanksBelowCount(p, p[j]);
    var s := CountAtMost(p, p[j]) - 1;
    assert j in order;
    var i :| 0 <= i < |p| && order[i] == j;
    assert p[order[s]] == p[j];
    var t := ScaledIsRaw(p, s);
    assert p[order[t]] <= p[j];
  }

  /** With equal p-values, the later rank has the smaller unclamped value. */
  lemma RawFalls(p: seq<real>, order: seq<nat>, s: nat, t: nat)
    requires Ranking(p, order) && s <= t < |p| && p[order[s]] == p[order[t]] && p[order[s]] >= 0.0
    ensures Raw(p, order, t) <= Raw(p, order, s)
  {
    RatioFalls(p[order[s]], |p|, s + 1, t + 1);
  }

  // ---------- what the correction promises ----------

  lemma AdjustsOnce(p: seq<real>, v: real, w: real, x: real, y: real)
    requires Adjusts(p, v, x) && Adjusts(p, w, y) && v <= w
    ensures x <= y
  {
    hide Scaled;
  }

  lemma AdjustsAtLeastRaw(p: seq<real>, v: real, x: real)
    requires Adjusts(p, v, x) && 0.0 <= v <= 1.0
    ensures v <= x
  {
    if x != 1.0 {
      var j :| 0 <= j < |p| && p[j] >= v && x == Scaled(p, p[j]);
      var c := CountAtMost(p, p[j]);
      CountBounds(p, p[j]);
      RatioFalls(p[j], |p|, c, |p|);
      RatioOfSame(p[j], |p|);
    }
  }

  lemma AdjustsPermutes(p: seq<real>, q: seq<real>, v: real, x: real)
    requires Adjusts(p, v, x) && multiset(p) == multiset(q)
    ensures Adjusts(q, v, x)
  {
    forall j | 0 <= j < |q| ensures q[j] in p && Scaled(q, q[j]) == Scaled(p, q[j]) {
      assert q[j] in multiset(p);
      CountPermutes(p, q, q[j]);
    }
    if x != 1.0 {
      var j :| 0 <= j < |p| && p[j] >= v && x == Scaled(p, p[j]);
      assert p[j] in multiset(q);
      var k :| 0 <= k < |q| && q[k] == p[j];
    }
  }

  ghost predicate Probabilities(p: seq<real>) {
    forall i | 0 <= i < |p| :: 0.0 <= p[i] <= 1.0
  }

  /**
    Every value is the rank-free adjustment of its p-value, so the values lie above the p-values
    and in their order.
  */
  lemma AdjustedValues(p: seq<real>, q: seq<real>)
    requires Probabilities(p) && Computes(p, q)
    ensures forall i | 0 <= i < |p| :: Adjusts(p, p[i], q[i]) && p[i] <= q[i] <= 1.0
    ensures forall i, j | 0 <= i < |p| && 0 <= j < |p| && p[i] <= p[j] :: q[i] <= q[j]
  {
    hide Order, Scaled;
    forall i | 0 <= i < |p| ensures Adjusts(p, p[i], q[i]) && p[i] <= q[i] <= 1.0 {
      OrderRanks(p);
      assert i in Order(p);
      var r :| 0 <= r < |p| && Order(p)[r] == i;
      RankMinAdjusts(p, r);
      AdjustsAtLeastRaw(p, p[i], q[i]);
    }
    forall i, j | 0 <= i < |p| && 0 <= j < |p| && p[i] <= p[j] ensures q[i] <= q[j] {
      AdjustsOnce(p, p[i], p[j], q[i], q[j]);
    }
  }

  /** Rearranging the family rearranges the adjusted values with it; ties get equal values. */
  lemma AdjustmentPermutes(p: seq<real>, q: seq<real>, p': seq<real>, q': seq<real>, i: nat, j: nat)
    requires Probabilities(p) && Probabilities(p') && Computes(p, q) && Computes(p', q')
    requires multiset(p) == multiset(p') && i < |p| && j < |p'| && p[i] == p'[j]
    ensures q[i] == q'[j]
  {
    hide Computes, Adjusts;
    AdjustedLength(p, q);
    AdjustedLength(p', q');
    AdjustedValues(p, q);
    AdjustedValues(p', q');
    AdjustsPermutes(p, p', p[i], q[i]);
    AdjustsOnce(p', p[i], p[i], q[i], q'[j]);
    AdjustsOnce(p', p[i], p[i], q'[j], q[i]);
  }

  lemma AdjustedLength(p: seq<real>, q: seq<real>)
    requires Computes(p, q)
    ensures |q| == |p|
  {
  }

  // ---------- the step-up procedure ----------

  /** Whether the p-value of rank `k` (from one) is below its share of the level. */
  predicate BelowItsShare(p: seq<real>, order: seq<nat>, level: real, k: nat)
    requires Ranking(p, order) && 1 <= k <= |p|
  {
    p[order[k - 1]] < Ratio(level, k, |p|)
  }

  /** The largest rank up to `k` whose p-value is below its share of the level, or 0. */
  function StepUp(p: seq<real>, order: seq<nat>, level: real, k: nat): (n: nat)
    requires Ranking(p, order) && k <= |p|
    ensures n <= k
    ensures n > 0 ==> BelowItsShare(p, order, level, n)
    ensures forall s | n < s <= k :: !BelowItsShare(p, order, level, s)
  {
    if k == 0 then 0
    else if BelowItsShare(p, order, level, k) then k
    else StepUp(p, order, level, k - 1)
  }

  /** What is significant at a level of at most 1 is exactly what the step-up procedure rejects. */
  lemma SignificantIsStepUp(p: seq<real>, q: seq<real>, level: real, r: nat)
    requires Computes(p, q) && r < |p| && level <= 1.0
    ensures Ranking(p, Order(p))
    ensures q[Order(p)[r]] < level <==> r < StepUp(p, Order(p), level, |p|)
  {
    OrderRanks(p);
    hide Order, StepUp, RankMin, Ratio, Distinct;
    var order := Order(p);
    RankMinIsLeast(p, order, r);
    forall s | r <= s < |p| ensures Raw(p, order, s) < level <==> BelowItsShare(p, order, level, s + 1) {
      BelowShare(p[order[s]], level, s + 1, |p|);
    }
    hide Ranking, Raw, BelowItsShare;
    var n := StepUp(p, order, level, |p|);
    if r < n {
      assert Raw(p, order, n - 1) < level;
    }
  }

  // ---------- marking comparisons ----------

  datatype Comparison = Comparison(adapterA: string, adapterB: string, meanA: real, meanB: real, pValue: real)

  datatype Verdict = Verdict(adjusted: real, significant: bool, winner: string)

  function PValues(comparisons: seq<Comparison>): (p: seq<real>)
    ensures |p| == |comparisons| && forall i | 0 <= i < |p| :: p[i] == comparisons[i].pValue
  {
    seq(|comparisons|, i requires 0 <= i < |comparisons| => comparisons[i].pValue)
  }

  /** What one comparison is told about its adjusted p-value. */
  predicate Judged(c: Comparison, v: Verdict, level: real) {
    && (v.significant <==> v.adjusted < level && c.meanA != c.meanB)
    && (v.significant && c.meanA > c.meanB ==> v.winner == c.adapterA)
    && (v.significant && c.meanA < c.meanB ==> v.winner == c.adapterB)
    && (!v.significant ==> v.winner == "")
  }

  method MarkSignificant(comparisons: seq<Comparison>, level: real) returns (verdicts: seq<Verdict>, q: seq<real>)
    ensures Computes(PValues(comparisons), q) && |q| == |verdicts| == |comparisons|
    ensures forall i | 0 <= i < |verdicts| :: verdicts[i].adjusted == q[i] && Judged(comparisons[i], verdicts[i], level)
  {
    hide Computes;
    q := Adjust(PValues(comparisons));
    AdjustedLength(PValues(comparisons), q);
    verdicts := [];
    for i := 0 to |comparisons|
      invariant |verdicts| == i
      invariant forall k | 0 <= k < i :: verdicts[k].adjusted == q[k] && Judged(comparisons[k], verdicts[k], level)
    {
      var c := comparisons[i];
      var significant := q[i] < level && c.meanA != c.meanB;
      var winner := "";
      if significant {
        winner := if c.meanA > c.meanB then c.adapterA else c.adapterB;
      }
      verdicts := verdicts + [Verdict(q[i], significant, winner)];
    }
  }
}
