/**
  Cohen's kappa over paired judgments and the gate that keeps an uncalibrated judge
  from being published (bench/membench/judge.py, bench/membench/config.py).
*/
module JudgeGate {
  import opened Fractions
  import opened Sets
  import opened Wrappers

  const MIN_SUBSET_N := 40
  const MIN_AGREEMENT := 0.8
  const MIN_KAPPA := 0.6

  function Count(s: seq<int>, x: int): (c: nat)
    ensures c <= |s|
  {
    if s == [] then 0 else Count(s[..|s| - 1], x) + if s[|s| - 1] == x then 1 else 0
  }

  /** How often the two raters agree. */
  function Agreements(human: seq<int>, judge: seq<int>): (c: nat)
    requires |human| == |judge|
    ensures c <= |human|
  {
    if human == [] then 0
    else
      var last := |human| - 1;
      Agreements(human[..last], judge[..last]) + if human[last] == judge[last] then 1 else 0
  }

  /** The pairs of a human label and a judge label, taken anywhere, that are equal. */
  function Cross(human: seq<int>, judge: seq<int>): nat {
    if human == [] then 0
    else Cross(human[..|human| - 1], judge) + Count(judge, human[|human| - 1])
  }

  /** The same, for the human labels in a set only. */
  function CrossIn(human: seq<int>, judge: seq<int>, labels: set<int>): nat {
    if human == [] then 0
    else
      var x := human[|human| - 1];
      CrossIn(human[..|human| - 1], judge, labels) + if x in labels then Count(judge, x) else 0
  }

  /** Kappa from the two counts: agreement beyond chance, over what there could be. */
  function KappaOf(agreements: nat, cross: nat, n: nat): real {
    if cross == n * n then 0.0
    else (agreements * n - cross) as real / (n * n - cross) as real
  }

  function Labels(s: seq<int>): set<int> {
    set x | x in s
  }

  datatype GateError = LengthMismatch | EmptySubset | TooFew | BadConfig | LowAgreement | LowKappa

  /** The agreement expected by chance, summed over the labels in any order. */
  method ChanceAgreement(human: seq<int>, judge: seq<int>) returns (chance: real)
    requires |human| == |judge| > 0
    ensures chance * (|human| * |human|) as real == Cross(human, judge) as real
  {
    hide Count, CrossIn, Cross;
    var n := |human|;
    var labels := Labels(human) + Labels(judge);
    ghost var done: set<int> := {};
    chance := 0.0;
    CrossInNothing(human, judge);
    while labels != {}
      invariant done + labels == Labels(human) + Labels(judge) && done !! labels
      invariant chance * (n * n) as real == CrossIn(human, judge, done) as real
    {
      assert exists x :: x in labels by { var x := Member(labels); }
      var lab :| lab in labels;
      var ph := Count(human, lab) as real / n as real;
      var pj := Count(judge, lab) as real / n as real;
      ChanceStep(chance, CrossIn(human, judge, done), Count(human, lab), Count(judge, lab), n);
      CrossInOneMore(human, judge, done, lab);
      chance := chance + ph * pj;
      labels := labels - {lab};
      done := done + {lab};
    }
    CrossInAll(human, judge, done);
  }

  /** One more label in the sum. */
  lemma ChanceStep(chance: real, cross: nat, a: nat, b: nat, n: nat)
    requires n > 0 && chance * (n * n) as real == cross as real
    ensures (chance + (a as real / n as real) * (b as real / n as real)) * (n * n) as real == (cross + a * b) as real
  {
    ProductOfShares(a, b, n);
    ScaledSum(chance, (a as real / n as real) * (b as real / n as real), (n * n) as real);
  }

  lemma ScaledSum(a: real, b: real, c: real)
    ensures (a + b) * c == a * c + b * c
  {
  }

  method ComputeCohenKappa(human: seq<int>, judge: seq<int>) returns (r: Result<real, GateError>)
    ensures |human| != |judge| ==> r == Failure(LengthMismatch)
    ensures |human| == |judge| == 0 ==> r == Failure(EmptySubset)
    ensures |human| == |judge| > 0 ==>
              r == Success(KappaOf(Agreements(human, judge), Cross(human, judge), |human|))
  {
    hide Agreements, Cross, KappaOf;
    if |human| != |judge| {
      return Failure(LengthMismatch);
    }
    var n := |human|;
    if n == 0 {
      return Failure(EmptySubset);
    }
    var observed := Agreements(human, judge) as real / n as real;
    var chance := ChanceAgreement(human, judge);
    KappaFromShares(Agreements(human, judge), Cross(human, judge), n, chance);
    var denom := 1.0 - chance;
    if denom == 0.0 {
      return Success(0.0);
    }
    return Success((observed - chance) / denom);
  }

  lemma ProductOfShares(a: nat, b: nat, n: nat)
    requires n > 0
    ensures (a as real / n as real) * (b as real / n as real) * (n * n) as real == (a * b) as real
  {
    var x, y, m := a as real / n as real, b as real / n as real, n as real;
    assert x * m == a as real && y * m == b as real;
    assert (n * n) as real == m * m && (a * b) as real == a as real * b as real;
    assert x * y * (m * m) == (x * m) * (y * m);
  }

  /** The source's quotient is the one of the counts. */
  lemma KappaFromShares(agreements: nat, cross: nat, n: nat, chance: real)
    requires n > 0 && chance * (n * n) as real == cross as real
    ensures 1.0 - chance == 0.0 <==> cross == n * n
    ensures KappaOf(agreements, cross, n) ==
              if 1.0 - chance == 0.0 then 0.0 else (agreements as real / n as real - chance) / (1.0 - chance)
  {
    var m, o := n as real, agreements as real / n as real;
    var q := (n * n) as real;
    assert q == m * m && q > 0.0;
    assert (1.0 - chance) * q == q - cross as real;
    assert o * m == agreements as real;
    assert (agreements * n) as real == agreements as real * m;
    assert (o - chance) * q == o * m * m - cross as real;
    if 1.0 - chance != 0.0 {
      SameQuotient(o - chance, 1.0 - chance, q);
    }
  }

  lemma SameQuotient(x: real, y: real, q: real)
    requires y != 0.0 && q > 0.0
    ensures y * q != 0.0 && x / y == (x * q) / (y * q)
  {
    var z := x / y;
    assert z * y == x;
    assert z * (y * q) == x * q;
  }

  // ---------- counting pairs ----------

  lemma {:induction false} CrossInNothing(human: seq<int>, judge: seq<int>)
    ensures CrossIn(human, judge, {}) == 0
  {
    if human != [] {
      CrossInNothing(human[..|human| - 1], judge);
    }
  }

  lemma {:induction false} CrossInOneMore(human: seq<int>, judge: seq<int>, labels: set<int>, lab: int)
    requires lab !in labels
    ensures CrossIn(human, judge, labels + {lab}) ==
              CrossIn(human, judge, labels) + Count(human, lab) * Count(judge, lab)
  {
    if human != [] {
      var front := human[..|human| - 1];
      CrossInOneMore(front, judge, labels, lab);
      OneTimesMore(Count(front, lab), Count(judge, lab));
    }
  }

  lemma OneTimesMore(a: nat, b: nat)
    ensures (a + 1) * b == a * b + b
  {
  }

  lemma {:induction false} CrossInAll(human: seq<int>, judge: seq<int>, labels: set<int>)
    requires Labels(human) <= labels
    ensures CrossIn(human, judge, labels) == Cross(human, judge)
  {
    if human != [] {
      assert human[|human| - 1] in Labels(human);
      assert Labels(human[..|human| - 1]) <= Labels(human);
      CrossInAll(human[..|human| - 1], judge, labels);
    }
  }

  /** The two raters can change places. */
  lemma {:induction false} CrossIsSymmetric(human: seq<int>, judge: seq<int>)
    ensures Cross(human, judge) == Cross(judge, human)
  {
    if human == [] {
      CrossWithNothing(judge);
    } else {
      var front, x := human[..|human| - 1], human[|human| - 1];
      CrossIsSymmetric(front, judge);
      CrossOneMore(judge, front, x);
      assert human == front + [x];
    }
  }

  lemma {:induction false} CrossWithNothing(s: seq<int>)
    ensures Cross(s, []) == 0
  {
    if s != [] {
      CrossWithNothing(s[..|s| - 1]);
    }
  }

  lemma {:induction false} CrossOneMore(s: seq<int>, t: seq<int>, x: int)
    ensures Cross(s, t + [x]) == Cross(s, t) + Count(s, x)
  {
    if s != [] {
      CrossOneMore(s[..|s| - 1], t, x);
      assert (t + [x])[..|t|] == t;
    }
  }

  /** Every element of `s` is `c`. */
  predicate Constant(s: seq<int>, c: int) {
    forall i | 0 <= i < |s| :: s[i] == c
  }

  lemma {:induction false} CountIsFull(s: seq<int>, c: int)
    ensures Count(s, c) == |s| <==> Constant(s, c)
  {
    if s != [] {
      CountIsFull(s[..|s| - 1], c);
    }
  }

  lemma {:induction false} CrossBound(human: seq<int>, judge: seq<int>)
    ensures Cross(human, judge) <= |human| * |judge|
    ensures Cross(human, judge) == |human| * |judge| <==> forall i | 0 <= i < |human| :: Constant(judge, human[i])
  {
    if human != [] {
      var last := |human| - 1;
      CrossBound(human[..last], judge);
      CountIsFull(judge, human[last]);
      assert |human| * |judge| == last * |judge| + |judge|;
    }
  }

  lemma {:induction false} AgreementsAreFull(human: seq<int>, judge: seq<int>)
    requires |human| == |judge|
    ensures Agreements(human, judge) == |human| <==> human == judge
  {
    if human != [] {
      var last := |human| - 1;
      AgreementsAreFull(human[..last], judge[..last]);
      assert human == human[..last] + [human[last]] && judge == judge[..last] + [judge[last]];
    }
  }

  // ---------- what kappa says ----------

  lemma QuotientAtMostOne(x: int, y: int)
    requires y > 0 && x <= y
    ensures x as real / y as real <= 1.0
    ensures x as real / y as real == 1.0 <==> x == y
  {
    var z := x as real / y as real;
    assert z * y as real == x as real;
    ScalingOrders(z, 1.0, y as real);
    ScalingOrders(1.0, z, y as real);
  }

  lemma FullCross(human: seq<int>, judge: seq<int>)
    requires |human| == |judge| > 0
    ensures Cross(human, judge) <= |human| * |human|
    ensures Cross(human, judge) == |human| * |human| <==> Constant(human, human[0]) && human == judge
  {
    hide Cross;
    CrossBound(human, judge);
    if forall i | 0 <= i < |human| :: Constant(judge, human[i]) {
      forall i | 0 <= i < |human| ensures human[i] == judge[i] == human[0] {
        assert Constant(judge, human[i]) && Constant(judge, human[0]);
        assert judge[i] == human[i] && judge[i] == human[0];
      }
    }
  }

  lemma KappaAtMostOne(a: nat, p: nat, n: nat)
    requires a <= n && p <= n * n && n > 0
    ensures KappaOf(a, p, n) <= 1.0
    ensures KappaOf(a, p, n) == 1.0 <==> a == n && p < n * n
  {
    assert a * n <= n * n && (a < n ==> a * n < n * n);
    if p < n * n {
      QuotientAtMostOne(a * n - p, n * n - p);
    }
  }

  /** Chance agreement is at most 1, and kappa is at most 1: 1 exactly on full agreement over more than one label. */
  lemma KappaBounds(human: seq<int>, judge: seq<int>)
    requires |human| == |judge| > 0
    ensures Cross(human, judge) <= |human| * |human|
    ensures var kappa := KappaOf(Agreements(human, judge), Cross(human, judge), |human|);
            kappa <= 1.0 && (kappa == 1.0 <==> human == judge && !Constant(human, human[0]))
  {
    hide Cross, Agreements, KappaOf;
    FullCross(human, judge);
    AgreementsAreFull(human, judge);
    KappaAtMostOne(Agreements(human, judge), Cross(human, judge), |human|);
  }

  lemma {:induction false} ConstantJudge(human: seq<int>, judge: seq<int>, c: int)
    requires |human| == |judge| && Constant(judge, c)
    ensures Agreements(human, judge) == Count(human, c)
  {
    if human != [] {
      var last := |human| - 1;
      ConstantJudge(human[..last], judge[..last], c);
    }
  }

  lemma {:induction false} CrossWithConstant(human: seq<int>, judge: seq<int>, c: int)
    requires Constant(judge, c)
    ensures Cross(human, judge) == Count(human, c) * |judge|
  {
    if human != [] {
      CrossWithConstant(human[..|human| - 1], judge, c);
      CountOfConstant(judge, c, human[|human| - 1]);
    }
  }

  lemma {:induction false} CountOfConstant(s: seq<int>, c: int, x: int)
    requires Constant(s, c)
    ensures Count(s, x) == if x == c then |s| else 0
  {
    if s != [] {
      CountOfConstant(s[..|s| - 1], c, x);
    }
  }

  /** A rater with a single label scores 0 against every labelling of every length. */
  lemma ConstantRaterScoresZero(human: seq<int>, judge: seq<int>, c: int)
    requires |human| == |judge| > 0 && (Constant(judge, c) || Constant(human, c))
    ensures KappaOf(Agreements(human, judge), Cross(human, judge), |human|) == 0.0
  {
    hide Cross, Agreements, Count, Constant, KappaOf;
    if Constant(judge, c) {
      ConstantJudge(human, judge, c);
      CrossWithConstant(human, judge, c);
      KappaOfChance(Agreements(human, judge), |human|);
    } else {
      AgreementIsSymmetric(human, judge);
      CrossIsSymmetric(human, judge);
      ConstantJudge(judge, human, c);
      CrossWithConstant(judge, human, c);
      KappaOfChance(Agreements(judge, human), |human|);
    }
  }

  lemma KappaOfChance(a: nat, n: nat)
    ensures KappaOf(a, a * n, n) == 0.0
  {
    if a * n != n * n {
      assert 0.0 / (n * n - a * n) as real == 0.0;
    }
  }

  lemma {:induction false} AgreementIsSymmetric(human: seq<int>, judge: seq<int>)
    requires |human| == |judge|
    ensures Agreements(human, judge) == Agreements(judge, human)
  {
    if human != [] {
      AgreementIsSymmetric(human[..|human| - 1], judge[..|judge| - 1]);
    }
  }

  // ---------- kappa is at least -1 ----------

  /** The agreements on one label. */
  function AgreementsOn(human: seq<int>, judge: seq<int>, x: int): nat
    requires |human| == |judge|
  {
    if human == [] then 0
    else
      var last := |human| - 1;
      AgreementsOn(human[..last], judge[..last], x) + if human[last] == judge[last] == x then 1 else 0
  }

  function CountIn(s: seq<int>, labels: set<int>): nat {
    if s == [] then 0 else CountIn(s[..|s| - 1], labels) + if s[|s| - 1] in labels then 1 else 0
  }

  function AgreementsIn(human: seq<int>, judge: seq<int>, labels: set<int>): nat
    requires |human| == |judge|
  {
    if human == [] then 0
    else
      var last := |human| - 1;
      AgreementsIn(human[..last], judge[..last], labels) +
      if human[last] == judge[last] && human[last] in labels then 1 else 0
  }

  lemma {:induction false} InNothing(human: seq<int>, judge: seq<int>)
    requires |human| == |judge|
    ensures CountIn(human, {}) == CountIn(judge, {}) == AgreementsIn(human, judge, {}) == 0
  {
    if human != [] {
      InNothing(human[..|human| - 1], judge[..|judge| - 1]);
    }
  }

  lemma {:induction false} InOneMore(human: seq<int>, judge: seq<int>, labels: set<int>, x: int)
    requires |human| == |judge| && x !in labels
    ensures CountIn(human, labels + {x}) == CountIn(human, labels) + Count(human, x)
    ensures CountIn(judge, labels + {x}) == CountIn(judge, labels) + Count(judge, x)
    ensures AgreementsIn(human, judge, labels + {x}) ==
              AgreementsIn(human, judge, labels) + AgreementsOn(human, judge, x)
  {
    if human != [] {
      InOneMore(human[..|human| - 1], judge[..|judge| - 1], labels, x);
    }
  }

  lemma {:induction false} InAtMost(human: seq<int>, judge: seq<int>, labels: set<int>)
    requires |human| == |judge|
    ensures CountIn(human, labels) <= |human| && CountIn(judge, labels) <= |judge|
    ensures AgreementsIn(human, judge, labels) <= Agreements(human, judge)
  {
    if human != [] {
      InAtMost(human[..|human| - 1], judge[..|judge| - 1], labels);
    }
  }

  lemma {:induction false} OnOneLabel(human: seq<int>, judge: seq<int>, x: int)
    requires |human| == |judge|
    ensures var h, j, d := Count(human, x), Count(judge, x), AgreementsOn(human, judge, x);
            d <= h && d <= j && h + j <= |human| + d
  {
    if human != [] {
      OnOneLabel(human[..|human| - 1], judge[..|judge| - 1], x);
    }
  }

  lemma SquareOfSum(h: int, j: int)
    ensures (h + j) * (h + j) >= 4 * (h * j)
  {
    var d := h - j;
    SquareIsNotNegative(d);
    calc {
      (h + j) * (h + j);
      h * h + 2 * (h * j) + j * j;
      d * d + 4 * (h * j);
    }
  }

  lemma SquareIsNotNegative(d: int)
    ensures d * d >= 0
  {
  }

  lemma ProductsOrdered(a: nat, b: nat, c: nat)
    requires a <= b
    ensures c * a <= c * b
  {
  }

  lemma LabelBound(h: nat, j: nat, d: nat, n: nat)
    requires h <= n && j <= n && h + j <= n + d
    ensures 4 * (h * j) <= n * h + n * j + 2 * (n * d)
  {
    var s := h + j;
    SquareOfSum(h, j);
    ProductsOrdered(s, n + d, s);
    ProductsOrdered(s, 2 * n, d);
    calc {
      s * (n + d);
      s * n + d * s;
      n * h + n * j + d * s;
    }
    assert d * (2 * n) == 2 * (n * d);
  }

  lemma {:induction false} ChanceBound(human: seq<int>, judge: seq<int>, labels: set<int>)
    requires |human| == |judge|
    ensures var n := |human|;
            4 * CrossIn(human, judge, labels) <=
              n * CountIn(human, labels) + n * CountIn(judge, labels) + 2 * (n * AgreementsIn(human, judge, labels))
  {
    hide CrossIn, CountIn, AgreementsIn, Count, AgreementsOn;
    if labels == {} {
      CrossInNothing(human, judge);
      InNothing(human, judge);
    } else {
      var x := Member(labels);
      var rest, n := labels - {x}, |human|;
      ChanceBound(human, judge, rest);
      assert labels == rest + {x};
      CrossInOneMore(human, judge, rest, x);
      InOneMore(human, judge, rest, x);
      OnOneLabel(human, judge, x);
      LabelBound(Count(human, x), Count(judge, x), AgreementsOn(human, judge, x), n);
      Distribute(n, CountIn(human, rest), Count(human, x));
      Distribute(n, CountIn(judge, rest), Count(judge, x));
      Distribute(n, AgreementsIn(human, judge, rest), AgreementsOn(human, judge, x));
    }
  }

  lemma Distribute(n: int, a: int, b: int)
    ensures n * (a + b) == n * a + n * b
  {
  }

  lemma QuotientAtLeast(x: int, y: int)
    requires y > 0 && x >= -y
    ensures x as real / y as real >= -1.0
  {
    ScalingOrders(x as real / y as real, -1.0, y as real);
  }

  /** Kappa is never below -1, whatever labels the raters use. */
  lemma KappaAtLeastMinusOne(human: seq<int>, judge: seq<int>)
    requires |human| == |judge| > 0
    ensures KappaOf(Agreements(human, judge), Cross(human, judge), |human|) >= -1.0
  {
    hide Cross, Agreements, CrossIn, CountIn, AgreementsIn;
    var a, p, n := Agreements(human, judge), Cross(human, judge), |human|;
    var labels := Labels(human);
    ChanceBound(human, judge, labels);
    CrossInAll(human, judge, labels);
    InAtMost(human, judge, labels);
    FullCross(human, judge);
    AtLeastMinusOne(a, p, n, CountIn(human, labels), CountIn(judge, labels), AgreementsIn(human, judge, labels));
  }

  lemma AtLeastMinusOne(a: nat, p: nat, n: nat, h: nat, j: nat, d: nat)
    requires p <= n * n && h <= n && j <= n && d <= a && 4 * p <= n * h + n * j + 2 * (n * d)
    ensures KappaOf(a, p, n) >= -1.0
  {
    assert n * h <= n * n && n * j <= n * n && n * d <= n * a == a * n;
    if p < n * n {
      QuotientAtLeast(a * n - p, n * n - p);
    }
  }

  // ---------- the gate ----------

  /** The measurement, reported even when the gate is not cleared. */
  datatype Calibration = Calibration(n: nat, agreement: real, kappa: real, passed: bool)

  function RawAgreement(human: seq<int>, judge: seq<int>): Result<real, GateError> {
    if |human| != |judge| then Failure(LengthMismatch)
    else if human == [] then Failure(EmptySubset)
    else Success(Agreements(human, judge) as real / |human| as real)
  }

  datatype Thresholds = Thresholds(subset: int, agreement: real, kappa: real)

  const DEFAULT_THRESHOLDS := Thresholds(MIN_SUBSET_N, MIN_AGREEMENT, MIN_KAPPA)

  method CalibrateJudge(human: seq<int>, judge: seq<int>, min: Thresholds) returns (r: Result<Calibration, GateError>)
    ensures r == Calibrate(human, judge, min)
  {
    if |human| != |judge| {
      return Failure(LengthMismatch);
    }
    var n := |human|;
    if n == 0 {
      return Failure(EmptySubset);
    }
    var agreement := RawAgreement(human, judge).value;
    var kappa := ComputeCohenKappa(human, judge);
    var passed := n >= min.subset && agreement >= min.agreement && kappa.value >= min.kappa;
    return Success(Calibration(n, agreement, kappa.value, passed));
  }

  function Calibrate(human: seq<int>, judge: seq<int>, min: Thresholds): Result<Calibration, GateError> {
    if |human| != |judge| then Failure(LengthMismatch)
    else if human == [] then Failure(EmptySubset)
    else
      var n := |human|;
      var agreement := Agreements(human, judge) as real / n as real;
      var kappa := KappaOf(Agreements(human, judge), Cross(human, judge), n);
      Success(Calibration(n, agreement, kappa, n >= min.subset && agreement >= min.agreement && kappa >= min.kappa))
  }

  /** The families of agent and judge are set and differ. */
  predicate ConfigValid(agentFamily: string, judgeFamily: string) {
    agentFamily != "" && judgeFamily != "" && agentFamily != judgeFamily
  }

  /** The checks in the order in which the source raises. */
  method AssertPublishable(human: seq<int>, judge: seq<int>, min: Thresholds, agentFamily: string, judgeFamily: string)
    returns (r: Result<Calibration, GateError>)
    ensures r.Success? <==>
              var c := Calibrate(human, judge, min);
              ConfigValid(agentFamily, judgeFamily) && c.Success? && c.value.passed
    ensures r.Success? ==> r == Calibrate(human, judge, min)
    ensures r == Failure(TooFew) <==> |human| < min.subset
    ensures r == Failure(BadConfig) <==>
              |human| >= min.subset && (agentFamily == "" || judgeFamily == "" || agentFamily == judgeFamily)
    ensures |human| >= min.subset && ConfigValid(agentFamily, judgeFamily) ==>
              var c := Calibrate(human, judge, min);
              && (c.Failure? ==> r == c)
              && (r == Failure(LowAgreement) <==> c.Success? && c.value.agreement < min.agreement)
              && (r == Failure(LowKappa) <==>
                    c.Success? && c.value.agreement >= min.agreement && c.value.kappa < min.kappa)
  {
    if |human| < min.subset {
      return Failure(TooFew);
    }
    if !ConfigValid(agentFamily, judgeFamily) {
      return Failure(BadConfig);
    }
    var result := CalibrateJudge(human, judge, min);
    if result.Failure? {
      return result;
    }
    if result.value.agreement < min.agreement {
      return Failure(LowAgreement);
    }
    if result.value.kappa < min.kappa {
      return Failure(LowKappa);
    }
    return result;
  }

  /**
    What clears the thresholds: no constant rater, and a perfect one exactly when it saw enough of
    more than one label.
  */
  lemma ConstantRaterNeverPasses(human: seq<int>, judge: seq<int>, c: int, min: Thresholds)
    requires min.kappa > 0.0 && |human| == |judge| > 0 && (Constant(judge, c) || Constant(human, c))
    ensures Calibrate(human, judge, min).Success? && !Calibrate(human, judge, min).value.passed
  {
    ConstantRaterScoresZero(human, judge, c);
  }

  lemma PerfectJudgePasses(human: seq<int>, min: Thresholds)
    requires |human| > 0 && 0.0 < min.kappa <= 1.0 && min.agreement <= 1.0
    ensures Calibrate(human, human, min).Success?
    ensures Calibrate(human, human, min).value.passed <==> |human| >= min.subset && !Constant(human, human[0])
  {
    hide Cross, KappaOf;
    KappaBounds(human, human);
    AgreementsAreFull(human, human);
    if Constant(human, human[0]) {
      ConstantRaterScoresZero(human, human, human[0]);
    }
  }
}
