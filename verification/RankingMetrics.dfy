/**
  Scores of a ranked answer against a set of relevant documents
  (bench/membench/metrics.py), with 1/log2(i + 1) as an arbitrary discount, and the
  duplicate check that makes the scores fractions (bench/membench/contract.py).
*/
module RankingMetrics {
  import opened Fractions
  import opened Sets
  import opened StableSort
  import opened Wrappers

  function MinNat(a: nat, b: nat): nat { if a < b then a else b }

  function TopK(ranked: seq<string>, k: nat): seq<string> {
    ranked[..MinNat(k, |ranked|)]
  }

  function Elements(list: seq<string>): set<string> {
    set x | x in list
  }

  /** What a rank is worth: positive, and less further down. Ranks count from one. */
  ghost predicate IsDiscount(d: nat -> real) {
    && (forall i | i >= 1 :: d(i) > 0.0)
    && (forall i, j | 1 <= i < j :: d(i) > d(j))
  }

  function Dcg(list: seq<string>, gold: set<string>, d: nat -> real): real {
    if list == [] then 0.0
    else Dcg(list[..|list| - 1], gold, d) + if list[|list| - 1] in gold then d(|list|) else 0.0
  }

  function Idcg(n: nat, d: nat -> real): real {
    if n == 0 then 0.0 else Idcg(n - 1, d) + d(n)
  }

  function Ndcg(ranked: seq<string>, gold: set<string>, k: nat, d: nat -> real): Result<real, string> {
    if gold == {} then Failure("nDCG@k is undefined for a negative query")
    else
      var ideal := Idcg(MinNat(k, |gold|), d);
      Success(if ideal == 0.0 then 0.0 else Dcg(TopK(ranked, k), gold, d) / ideal)
  }

  method NdcgAtK(ranked: seq<string>, gold: set<string>, k: nat, d: nat -> real) returns (r: Result<real, string>)
    ensures r == Ndcg(ranked, gold, k, d)
  {
    if gold == {} {
      return Failure("nDCG@k is undefined for a negative query");
    }
    var rk := TopK(ranked, k);
    var dcg := 0.0;
    for i := 0 to |rk|
      invariant dcg == Dcg(rk[..i], gold, d)
    {
      assert rk[..i + 1][..i] == rk[..i];
      if rk[i] in gold {
        dcg := dcg + d(i + 1);
      }
    }
    assert rk[..|rk|] == rk;
    var idealHits := MinNat(k, |gold|);
    var idcg := 0.0;
    for i := 0 to idealHits
      invariant idcg == Idcg(i, d)
    {
      idcg := idcg + d(i + 1);
    }
    if idcg == 0.0 {
      return Success(0.0);
    }
    r := Success(dcg / idcg);
  }

  function RecallAtK(ranked: seq<string>, gold: set<string>, k: nat): Result<real, string> {
    if gold == {} then Failure("recall@k is undefined for a negative query")
    else Success(|Elements(TopK(ranked, k)) * gold| as real / |gold| as real)
  }

  function PrecisionAtK(ranked: seq<string>, gold: set<string>, k: nat): Result<real, string> {
    if gold == {} then Failure("precision@k is undefined for a negative query")
    else if k == 0 then Success(0.0)
    else Success(|Elements(TopK(ranked, k)) * gold| as real / k as real)
  }

  /** The rank of the first relevant document of a list, or 0. */
  function FirstRelevant(list: seq<string>, gold: set<string>): (n: nat)
    ensures n <= |list|
    ensures n > 0 ==> list[n - 1] in gold && forall i | 0 <= i < n - 1 :: list[i] !in gold
    ensures n == 0 ==> forall i | 0 <= i < |list| :: list[i] !in gold
  {
    if list == [] then 0
    else
      var n := FirstRelevant(list[..|list| - 1], gold);
      if n == 0 && list[|list| - 1] in gold then |list| else n
  }

  method ReciprocalRank(ranked: seq<string>, gold: set<string>, k: nat) returns (r: Result<real, string>)
    ensures r.Failure? <==> gold == {}
    ensures r.Success? ==>
              var n := FirstRelevant(TopK(ranked, k), gold);
              r.value == if n == 0 then 0.0 else 1.0 / n as real
  {
    if gold == {} {
      return Failure("MRR is undefined for a negative query");
    }
    var rk := TopK(ranked, k);
    for i := 0 to |rk|
      invariant forall j | 0 <= j < i :: rk[j] !in gold
    {
      if rk[i] in gold {
        return Success(1.0 / (i + 1) as real);
      }
    }
    r := Success(0.0);
  }

  // ---------- counting hits ----------

  function HitCount(list: seq<string>, gold: set<string>): (n: nat)
    ensures n <= |list|
  {
    if list == [] then 0
    else HitCount(list[..|list| - 1], gold) + if list[|list| - 1] in gold then 1 else 0
  }

  lemma HitsOfOneMore(front: seq<string>, last: string, gold: set<string>)
    requires last !in front
    ensures |Elements(front + [last]) * gold| == |Elements(front) * gold| + if last in gold then 1 else 0
  {
    var hits := Elements(front) * gold;
    assert Elements(front + [last]) == Elements(front) + {last};
    if last in gold {
      assert Elements(front + [last]) * gold == hits + {last};
    } else {
      assert Elements(front + [last]) * gold == hits;
    }
  }

  lemma {:induction false} HitsAreCounted(list: seq<string>, gold: set<string>)
    requires Distinct(list)
    ensures HitCount(list, gold) == |Elements(list) * gold|
  {
    if list == [] {
      assert Elements(list) * gold == {};
    } else {
      var front, last := list[..|list| - 1], list[|list| - 1];
      HitsAreCounted(front, gold);
      assert last !in front;
      hide Elements, Distinct;
      assert list == front + [last];
      HitsOfOneMore(front, last, gold);
    }
  }

  lemma HitsAtMostIdeal(ranked: seq<string>, gold: set<string>, k: nat)
    requires Distinct(ranked)
    ensures HitCount(TopK(ranked, k), gold) <= MinNat(k, |gold|)
  {
    var list := TopK(ranked, k);
    HitsAreCounted(list, gold);
    SubsetIsSmaller(Elements(list) * gold, gold);
  }

  /** The first `n` of a list are all relevant. */
  predicate Leads(list: seq<string>, gold: set<string>, n: nat) {
    n <= |list| && forall i | 0 <= i < n :: list[i] in gold
  }

  lemma {:induction false} LeadersAreHits(list: seq<string>, gold: set<string>, n: nat)
    requires Leads(list, gold, n)
    ensures HitCount(list, gold) >= n
  {
    if |list| > n {
      LeadersAreHits(list[..|list| - 1], gold, n);
    } else if n > 0 {
      LeadersAreHits(list[..n - 1], gold, n - 1);
    }
  }

  /** A list gains at most what its hits would gain at the top, and as much exactly when they are there. */
  lemma {:induction false} DcgBounds(list: seq<string>, gold: set<string>, d: nat -> real)
    requires IsDiscount(d)
    ensures var h := HitCount(list, gold);
            0.0 <= Dcg(list, gold, d) <= Idcg(h, d)
            && (Dcg(list, gold, d) == Idcg(h, d) <==> Leads(list, gold, h))
  {
    if list != [] {
      var front := list[..|list| - 1];
      DcgBounds(front, gold, d);
      var h := HitCount(front, gold);
      if list[|list| - 1] in gold {
        assert d(|list|) <= d(h + 1);
        if Leads(front, gold, h + 1) {
          LeadersAreHits(front, gold, h + 1);
        }
      }
    }
  }

  /** Each hit is worth what its rank is worth, whatever else is in the list: that is what it loses without it. */
  lemma {:induction false} HitIsWorthItsRank(list: seq<string>, gold: set<string>, d: nat -> real, i: nat,
                                             other: string)
    requires i < |list| && other !in gold
    ensures Dcg(list[i := other], gold, d) == Dcg(list, gold, d) - if list[i] in gold then d(i + 1) else 0.0
  {
    var front, without := list[..|list| - 1], list[i := other];
    if i < |front| {
      HitIsWorthItsRank(front, gold, d, i, other);
      assert without[..|list| - 1] == front[i := other];
    } else {
      assert without[..|list| - 1] == front;
    }
  }

  lemma {:induction false} NoHitsNoGain(list: seq<string>, gold: set<string>, d: nat -> real)
    requires forall x | x in list :: x !in gold
    ensures Dcg(list, gold, d) == 0.0
  {
    if list != [] {
      NoHitsNoGain(list[..|list| - 1], gold, d);
    }
  }

  lemma {:induction false} IdcgGrows(a: nat, b: nat, d: nat -> real)
    requires IsDiscount(d) && a <= b
    ensures 0.0 <= Idcg(a, d) <= Idcg(b, d)
    ensures Idcg(a, d) == Idcg(b, d) <==> a == b
    decreases b
  {
    if a < b {
      IdcgGrows(a, b - 1, d);
    } else if a > 0 {
      IdcgGrows(a - 1, b - 1, d);
    }
  }

  // ---------- the scores are fractions ----------

  /**
    Without duplicates the score lies in [0, 1], and is 1 exactly when as many
    relevant documents as there can be stand at the very top.
  */
  lemma NdcgIsNormalised(ranked: seq<string>, gold: set<string>, k: nat, d: nat -> real)
    requires IsDiscount(d) && Distinct(ranked) && gold != {}
    ensures var r := Ndcg(ranked, gold, k, d);
            var n := MinNat(k, |gold|);
            && r.Success? && 0.0 <= r.value <= 1.0
            && (r.value == 1.0 <==> k > 0 && Leads(ranked, gold, n))
  {
    var list, n := TopK(ranked, k), MinNat(k, |gold|);
    var h := HitCount(list, gold);
    HitsAtMostIdeal(ranked, gold, k);
    DcgBounds(list, gold, d);
    IdcgGrows(h, n, d);
    IdcgGrows(0, n, d);
    assert |gold| > 0;
    if k > 0 {
      FractionOf(Dcg(list, gold, d), Idcg(n, d));
      if Leads(ranked, gold, n) {
        LeadersAreHits(list, gold, n);
      }
    }
  }

  /** A relevant document listed twice scores above 1. */
  lemma DuplicatesExceedOne(doc: string, d: nat -> real)
    requires IsDiscount(d)
    ensures Ndcg([doc, doc], {doc}, 2, d).Success? && Ndcg([doc, doc], {doc}, 2, d).value > 1.0
  {
    var list := [doc, doc];
    assert TopK(list, 2) == list && list[..1] == [doc] && [doc][..0] == [];
    assert Dcg([doc], {doc}, d) == Dcg([], {doc}, d) + d(1);
    assert Dcg(list, {doc}, d) == Dcg([doc], {doc}, d) + d(2);
    assert Idcg(1, d) == d(1);
    assert MinNat(2, |{doc}|) == 1;
    SumOverPart(d(1), d(2));
  }

  lemma SumOverPart(x: real, y: real)
    requires x > 0.0 && y > 0.0
    ensures (x + y) / x > 1.0
  {
    ScalingOrders(1.0, (x + y) / x, x);
  }

  /** The relevant documents at the first `k` ranks. */
  ghost function FoundIn(ranked: seq<string>, gold: set<string>, k: nat): set<string> {
    set x | x in gold && exists i | 0 <= i < |ranked| && i < k :: ranked[i] == x
  }

  /** Both count the relevant documents at the first `k` ranks, each once. */
  lemma PrecisionTimesK(ranked: seq<string>, gold: set<string>, k: nat)
    requires gold != {}
    ensures var found := |FoundIn(ranked, gold, k)|;
            && PrecisionAtK(ranked, gold, k).value * k as real == found as real
            && RecallAtK(ranked, gold, k).value * |gold| as real == found as real
  {
    FoundAmongFirst(ranked, gold, k);
    hide Elements, TopK;
    assert |gold| > 0;
    FractionTimes(|Elements(TopK(ranked, k)) * gold| as real, |gold| as real);
    if k == 0 {
      NoneInNothing(ranked, gold);
    } else {
      FractionTimes(|Elements(TopK(ranked, k)) * gold| as real, k as real);
    }
  }

  lemma FoundAmongFirst(ranked: seq<string>, gold: set<string>, k: nat)
    ensures FoundIn(ranked, gold, k) == Elements(TopK(ranked, k)) * gold
  {
    var list := TopK(ranked, k);
    forall x ensures x in list <==> exists i | 0 <= i < |ranked| && i < k :: ranked[i] == x {
      if i :| 0 <= i < |ranked| && i < k && ranked[i] == x {
        assert list[i] == x;
      }
    }
  }

  lemma NoneInNothing(ranked: seq<string>, gold: set<string>)
    ensures |Elements(TopK(ranked, 0)) * gold| == 0
  {
    assert Elements(TopK(ranked, 0)) * gold == {};
  }

  /** The four scores agree on whether anything relevant was found in the first `k`. */
  lemma ScoresAgreeOnAHit(ranked: seq<string>, gold: set<string>, k: nat, d: nat -> real)
    requires IsDiscount(d) && Distinct(ranked) && gold != {}
    ensures var hit := exists i | 0 <= i < |TopK(ranked, k)| :: TopK(ranked, k)[i] in gold;
            && (FirstRelevant(TopK(ranked, k), gold) > 0 <==> hit)
            && (RecallAtK(ranked, gold, k).value > 0.0 <==> hit)
            && (PrecisionAtK(ranked, gold, k).value > 0.0 <==> hit)
            && (Ndcg(ranked, gold, k, d).value > 0.0 <==> hit)
  {
    var list, n := TopK(ranked, k), MinNat(k, |gold|);
    var found := Elements(list) * gold;
    assert |gold| > 0;
    if i :| 0 <= i < |list| && list[i] in gold {
      assert list[i] in Elements(list) && list[i] in found;
    }
    if found != {} {
      var x :| x in found;
      var i :| 0 <= i < |list| && list[i] == x;
    }
    FractionSign(|found| as real, |gold| as real);
    if k > 0 { FractionSign(|found| as real, k as real); }
    HitsAreCounted(list, gold);
    DcgSign(list, gold, d);
    IdcgGrows(0, n, d);
    if n > 0 { FractionSign(Dcg(list, gold, d), Idcg(n, d)); }
  }

  lemma {:induction false} DcgSign(list: seq<string>, gold: set<string>, d: nat -> real)
    requires IsDiscount(d)
    ensures Dcg(list, gold, d) >= 0.0
    ensures Dcg(list, gold, d) > 0.0 <==> HitCount(list, gold) > 0
  {
    if list != [] {
      DcgSign(list[..|list| - 1], gold, d);
    }
  }

  // ---------- the duplicate check ----------

  /** The checks of `assert_well_formed` on the ranked list: nothing on success, a message otherwise. */
  method AssertRankedWellFormed(ids: seq<string>, valid: set<string>, maxDocs: nat) returns (error: Option<string>)
    ensures error.None? <==> Distinct(ids) && Elements(ids) <= valid && |ids| <= maxDocs
  {
    var seen: set<string> := {};
    for i := 0 to |ids|
      invariant seen == Elements(ids[..i]) <= valid && Distinct(ids[..i])
    {
      assert ids[i] in Elements(ids);
      assert Elements(ids[..i + 1]) == Elements(ids[..i]) + {ids[i]};
      if ids[i] !in valid {
        return Some("ranked_results doc_id not in corpus");
      }
      if ids[i] in seen {
        return Some("ranked_results contains duplicate doc_id");
      }
      seen := seen + {ids[i]};
    }
    assert ids[..|ids|] == ids;
    if |ids| > maxDocs {
      return Some("ranked_results exceeds max_docs");
    }
    return None;
  }
}
