/**
  Greedy grouping of a list under a token budget (`split_list_by_token_budget` in
  src/minni/afm_chunking.py), and why no other grouping needs fewer groups.
*/
module TokenGroups {

  function Total<T>(items: seq<T>, size: T -> nat): nat {
    if items == [] then 0 else Total(items[..|items| - 1], size) + size(items[|items| - 1])
  }

  /** A group is in order when it fits the budget or cannot be made smaller. */
  predicate Fits<T>(group: seq<T>, budget: int, size: T -> nat) {
    |group| == 1 || Total(group, size) <= budget
  }

  function Concat<T>(groups: seq<seq<T>>): seq<T> {
    if groups == [] then [] else groups[0] + Concat(groups[1..])
  }

  /** A division of `items` into consecutive, non-empty groups in order. */
  predicate Division<T(==)>(groups: seq<seq<T>>, items: seq<T>, budget: int, size: T -> nat) {
    && Concat(groups) == items
    && forall g | 0 <= g < |groups| :: groups[g] != [] && Fits(groups[g], budget, size)
  }

  /** The groups the loop of `split_list_by_token_budget` still produces. */
  function Pack<T>(current: seq<T>, rest: seq<T>, budget: int, size: T -> nat): seq<seq<T>>
    decreases |rest|
  {
    if rest == [] then if current == [] then [] else [current]
    else if current != [] && Total(current, size) + size(rest[0]) > budget
    then [current] + Pack([rest[0]], rest[1..], budget, size)
    else Pack(current + [rest[0]], rest[1..], budget, size)
  }

  function SplitList<T>(items: seq<T>, budget: int, size: T -> nat): seq<seq<T>> {
    var groups := Pack([], items, budget, size);
    if groups == [] then [[]] else groups
  }

  method SplitListByTokenBudget<T>(items: seq<T>, budget: int, size: T -> nat) returns (groups: seq<seq<T>>)
    ensures groups == SplitList(items, budget, size)
  {
    groups := [];
    var current: seq<T> := [];
    var tokens := 0;
    for i := 0 to |items|
      invariant tokens == Total(current, size)
      invariant groups + Pack(current, items[i..], budget, size) == Pack([], items, budget, size)
    {
      var item := items[i];
      if current != [] && tokens + size(item) > budget {
        groups := groups + [current];
        current, tokens := [], 0;
      }
      assert (current + [item])[..|current|] == current;
      current := current + [item];
      tokens := tokens + size(item);
    }
    if current != [] {
      groups := groups + [current];
    }
    if groups == [] {
      groups := [[]];
    }
  }

  // ---------- the greedy division is a division ----------

  lemma {:induction false} PackDivides<T>(current: seq<T>, rest: seq<T>, budget: int, size: T -> nat)
    requires current == [] || Fits(current, budget, size)
    ensures Division(Pack(current, rest, budget, size), current + rest, budget, size)
    decreases |rest|
  {
    if rest == [] {
      assert current + rest == current;
    } else if current != [] && Total(current, size) + size(rest[0]) > budget {
      PackDivides([rest[0]], rest[1..], budget, size);
      assert current + ([rest[0]] + rest[1..]) == current + rest;
    } else {
      assert (current + [rest[0]])[..|current|] == current;
      PackDivides(current + [rest[0]], rest[1..], budget, size);
      assert current + [rest[0]] + rest[1..] == current + rest;
    }
  }

  // ---------- no division has fewer groups ----------

  lemma {:induction false} TotalSplit<T>(a: seq<T>, b: seq<T>, size: T -> nat)
    ensures Total(a + b, size) == Total(a, size) + Total(b, size)
  {
    if b == [] {
      assert a + b == a;
    } else {
      assert (a + b)[..|a + b| - 1] == a + b[..|b| - 1];
      TotalSplit(a, b[..|b| - 1], size);
    }
  }

  /** What is left of a division after its first `k` items are dropped. */
  function DropItems<T>(groups: seq<seq<T>>, k: nat): seq<seq<T>>
    requires k <= |Concat(groups)|
    decreases |groups|
  {
    if k == 0 then groups
    else if k < |groups[0]| then [groups[0][k..]] + groups[1..]
    else DropItems(groups[1..], k - |groups[0]|)
  }

  lemma {:induction false} DropItemsDivides<T>(groups: seq<seq<T>>, items: seq<T>, k: nat, budget: int, size: T -> nat)
    requires Division(groups, items, budget, size) && k <= |items|
    ensures Division(DropItems(groups, k), items[k..], budget, size)
    ensures |DropItems(groups, k)| <= |groups|
    decreases |groups|
  {
    if k == 0 {
      assert items[0..] == items;
    } else {
      assert groups != [];
      var first, rest := groups[0], groups[1..];
      assert items == first + Concat(rest);
      if k < |first| {
        TotalSplit(first[..k], first[k..], size);
        assert first[..k] + first[k..] == first;
        assert items[k..] == first[k..] + Concat(rest);
        assert ([first[k..]] + rest)[1..] == rest;
      } else {
        assert items[k..] == Concat(rest)[k - |first|..];
        DropItemsDivides(rest, Concat(rest), k - |first|, budget, size);
      }
    }
  }

  lemma PrefixWeighsNoMore<T>(group: seq<T>, k: nat, size: T -> nat)
    requires k <= |group|
    ensures Total(group[..k], size) <= Total(group, size)
  {
    TotalSplit(group[..k], group[k..], size);
    assert group[..k] + group[k..] == group;
  }

  /** Once the next item does not fit, the first group of any division of the same items ends no later. */
  lemma FirstGroupIsNoLonger<T>(current: seq<T>, rest: seq<T>, groups: seq<seq<T>>, budget: int, size: T -> nat)
    requires current != [] && rest != [] && Total(current, size) + size(rest[0]) > budget
    requires Division(groups, current + rest, budget, size)
    ensures groups != [] && |groups[0]| <= |current|
  {
    assert groups != [];
    var first := groups[0];
    assert first == (current + rest)[..|first|];
    var head := current + [rest[0]];
    var k := if |first| < |head| then |first| else |head|;
    assert first[..k] == head[..k] && head[..|head|] == head;
    PrefixWeighsNoMore(first, k, size);
    TotalSplit(current, [rest[0]], size);
  }

  lemma {:induction false} PackIsOptimal<T>(current: seq<T>, rest: seq<T>, groups: seq<seq<T>>, budget: int,
                                            size: T -> nat)
    requires Division(groups, current + rest, budget, size)
    ensures |Pack(current, rest, budget, size)| <= |groups|
    decreases |rest|
  {
    if rest == [] {
      assert current + rest == current;
    } else if current != [] && Total(current, size) + size(rest[0]) > budget {
      FirstGroupIsNoLonger(current, rest, groups, budget, size);
      var k := |current| - |groups[0]|;
      var others := groups[1..];
      assert Concat(others) == (current + rest)[|groups[0]|..];
      DropItemsDivides(others, Concat(others), k, budget, size);
      assert Concat(others)[k..] == rest;
      assert [rest[0]] + rest[1..] == rest;
      PackIsOptimal([rest[0]], rest[1..], DropItems(others, k), budget, size);
    } else {
      assert current + [rest[0]] + rest[1..] == current + rest;
      PackIsOptimal(current + [rest[0]], rest[1..], groups, budget, size);
    }
  }

  /**
    The groups give the items back in order, each fits or is a single item, and
    no division into consecutive groups needs fewer, for every list but the
    empty one, whose single empty group is one more than necessary.
  */
  lemma GreedyGroupingIsOptimal<T>(items: seq<T>, budget: int, size: T -> nat)
    ensures var groups := SplitList(items, budget, size);
            && Concat(groups) == items
            && (forall g | 0 <= g < |groups| :: |groups[g]| >= 2 ==> Total(groups[g], size) <= budget)
            && ((forall other: seq<seq<T>> | Division(other, items, budget, size) :: |groups| <= |other|)
                <==> items != [])
            && (items != [] ==> Division(groups, items, budget, size))
  {
    PackDivides([], items, budget, size);
    assert [] + items == items;
    if items == [] {
      assert Concat<T>([[]]) == [];
      assert Division([], items, budget, size);
    } else {
      forall other: seq<seq<T>> | Division(other, items, budget, size)
        ensures |SplitList(items, budget, size)| <= |other|
      {
        PackIsOptimal([], items, other, budget, size);
      }
    }
  }
}
