/** Python's `sorted`: a stable sort under a total preorder. */
module StableSort {

  ghost predicate TotalPreorder<T(!new)>(le: (T, T) -> bool) {
    && (forall a, b :: le(a, b) || le(b, a))
    && (forall a, b, c :: le(a, b) && le(b, c) ==> le(a, c))
  }

  predicate Ordered<T>(s: seq<T>, le: (T, T) -> bool) {
    forall i, j | 0 <= i < j < |s| :: le(s[i], s[j])
  }

  /** `x` behind everything that is not above it. */
  function Insert<T>(x: T, s: seq<T>, le: (T, T) -> bool): seq<T> {
    if s == [] then [x]
    else
      var last := s[|s| - 1];
      if le(last, x) then s + [x] else Insert(x, s[..|s| - 1], le) + [last]
  }

  function Sort<T>(s: seq<T>, le: (T, T) -> bool): seq<T> {
    if s == [] then [] else Insert(s[|s| - 1], Sort(s[..|s| - 1], le), le)
  }

  lemma {:induction false} InsertKeeps<T>(x: T, s: seq<T>, le: (T, T) -> bool)
    ensures multiset(Insert(x, s, le)) == multiset(s) + multiset{x}
  {
    if s != [] {
      var front, last := s[..|s| - 1], s[|s| - 1];
      assert s == front + [last];
      if !le(last, x) {
        InsertKeeps(x, front, le);
      }
    }
  }

  lemma {:induction false} SortKeeps<T>(s: seq<T>, le: (T, T) -> bool)
    ensures multiset(Sort(s, le)) == multiset(s)
    ensures |Sort(s, le)| == |s|
  {
    if s != [] {
      var front, last := s[..|s| - 1], s[|s| - 1];
      assert s == front + [last];
      SortKeeps(front, le);
      InsertKeeps(last, Sort(front, le), le);
    }
    assert |multiset(Sort(s, le))| == |Sort(s, le)| && |multiset(s)| == |s|;
  }

  lemma {:induction false} InsertOrders<T(!new)>(x: T, s: seq<T>, le: (T, T) -> bool)
    requires TotalPreorder(le) && Ordered(s, le)
    ensures Ordered(Insert(x, s, le), le)
  {
    if s != [] {
      var front, last := s[..|s| - 1], s[|s| - 1];
      if le(last, x) {
        forall i | 0 <= i < |s| ensures le(s[i], x) {
          assert i < |s| - 1 ==> le(s[i], last);
        }
      } else {
        InsertOrders(x, front, le);
        InsertKeeps(x, front, le);
        var placed := Insert(x, front, le);
        forall i | 0 <= i < |placed| ensures le(placed[i], last) {
          assert placed[i] in multiset(placed);
          if placed[i] != x {
            assert placed[i] in front;
          }
        }
      }
    }
  }

  lemma {:induction false} SortOrders<T(!new)>(s: seq<T>, le: (T, T) -> bool)
    requires TotalPreorder(le)
    ensures Ordered(Sort(s, le), le)
  {
    if s != [] {
      SortOrders(s[..|s| - 1], le);
      InsertOrders(s[|s| - 1], Sort(s[..|s| - 1], le), le);
    }
  }

  predicate Distinct<T(==)>(s: seq<T>) {
    forall i, j | 0 <= i < j < |s| :: s[i] != s[j]
  }

  lemma TwiceCountsTwice<T>(s: seq<T>, i: nat, j: nat)
    requires i < j < |s| && s[i] == s[j]
    ensures multiset(s)[s[i]] >= 2
  {
    assert s == s[..j] + [s[j]] + s[j + 1..];
    assert s[i] in s[..j];
  }

  lemma {:induction false} DistinctCountsOnce<T>(s: seq<T>)
    requires Distinct(s)
    ensures forall x | x in s :: multiset(s)[x] == 1
  {
    if s != [] {
      var front, last := s[..|s| - 1], s[|s| - 1];
      assert s == front + [last];
      DistinctCountsOnce(front);
    }
  }

  /** A rearrangement of distinct elements is distinct. */
  lemma RearrangedDistinct<T>(s: seq<T>, t: seq<T>)
    requires Distinct(s) && multiset(s) == multiset(t)
    ensures Distinct(t)
  {
    DistinctCountsOnce(s);
    forall i: nat, j: nat | i < j < |t| ensures t[i] != t[j] {
      assert t[i] in multiset(t);
      if t[i] == t[j] {
        TwiceCountsTwice(t, i, j);
      }
    }
  }

  // ---------- what sorting preserves ----------

  /** A relation between any two elements, whichever comes first, is kept. */
  lemma {:induction false} InsertKeepsPairs<T(!new)>(x: T, s: seq<T>, le: (T, T) -> bool, rel: (T, T) -> bool)
    requires forall a, b | rel(a, b) :: rel(b, a)
    requires Ordered(s, rel) && forall y | y in s :: rel(y, x)
    ensures Ordered(Insert(x, s, le), rel)
  {
    if s != [] {
      var front, last := s[..|s| - 1], s[|s| - 1];
      if !le(last, x) {
        InsertKeepsPairs(x, front, le, rel);
        InsertKeeps(x, front, le);
        var placed := Insert(x, front, le);
        forall i | 0 <= i < |placed| ensures rel(placed[i], last) {
          assert placed[i] in multiset(placed);
          if placed[i] != x {
            assert placed[i] in front;
          }
        }
      }
    }
  }

  lemma {:induction false} SortKeepsPairs<T(!new)>(s: seq<T>, le: (T, T) -> bool, rel: (T, T) -> bool)
    requires forall a, b | rel(a, b) :: rel(b, a)
    requires Ordered(s, rel)
    ensures Ordered(Sort(s, le), rel)
  {
    if s != [] {
      var front, last := s[..|s| - 1], s[|s| - 1];
      SortKeepsPairs(front, le, rel);
      SortKeeps(front, le);
      forall y | y in Sort(front, le) ensures rel(y, last) {
        assert y in multiset(front);
      }
      InsertKeepsPairs(last, Sort(front, le), le, rel);
    }
  }

  /** `a` may stand before `b`: below it, or level with it and before it by `tie`. */
  function Then<T>(le: (T, T) -> bool, tie: (T, T) -> bool): (T, T) -> bool {
    (a, b) => le(a, b) && (le(b, a) ==> tie(a, b))
  }

  lemma {:induction false} InsertIsStable<T(!new)>(x: T, s: seq<T>, le: (T, T) -> bool, tie: (T, T) -> bool)
    requires TotalPreorder(le) && Ordered(s, Then(le, tie)) && forall y | y in s :: tie(y, x)
    ensures Ordered(Insert(x, s, le), Then(le, tie))
  {
    if s != [] {
      var front, last := s[..|s| - 1], s[|s| - 1];
      if le(last, x) {
        forall i | 0 <= i < |s| ensures le(s[i], x) {
          assert i < |s| - 1 ==> Then(le, tie)(s[i], last);
        }
      } else {
        InsertIsStable(x, front, le, tie);
        InsertKeeps(x, front, le);
        var placed := Insert(x, front, le);
        forall i | 0 <= i < |placed| ensures Then(le, tie)(placed[i], last) {
          assert placed[i] in multiset(placed);
          if placed[i] != x {
            assert placed[i] in front;
          }
        }
      }
    }
  }

  /** Elements level under `le` keep the order they had. */
  lemma {:induction false} SortIsStable<T(!new)>(s: seq<T>, le: (T, T) -> bool, tie: (T, T) -> bool)
    requires TotalPreorder(le) && Ordered(s, tie)
    ensures Ordered(Sort(s, le), Then(le, tie))
  {
    if s != [] {
      var front, last := s[..|s| - 1], s[|s| - 1];
      SortIsStable(front, le, tie);
      SortKeeps(front, le);
      forall y | y in Sort(front, le) ensures tie(y, last) {
        assert y in multiset(front);
        var i :| 0 <= i < |front| && front[i] == y;
        assert tie(s[i], s[|s| - 1]);
      }
      InsertIsStable(last, Sort(front, le), le, tie);
    }
  }
}
