/**
  The batch cursors of the embedding backfill (src/minni/backfill.py): each pass
  takes the next rows after the last one attempted and wraps when none is left.
*/
module Backfill {
  import opened Sets

  type Key = (string, string)

  predicate IsLeast(x: int, s: set<int>) {
    x in s && forall y | y in s :: x <= y
  }

  lemma {:induction false} LeastExists(s: set<int>) returns (x: int)
    requires s != {}
    ensures IsLeast(x, s)
  {
    var any := Member(s);
    var rest := s - {any};
    x := any;
    if rest != {} {
      var least := LeastExists(rest);
      x := if any <= least then any else least;
    }
    assert forall y | y in s :: y == any || y in rest;
  }

  function Least(s: set<int>): (x: int)
    requires s != {}
    ensures IsLeast(x, s)
  {
    assert exists x :: IsLeast(x, s) by { var x := LeastExists(s); }
    assert forall x, y | IsLeast(x, s) && IsLeast(y, s) :: x == y;
    var x :| IsLeast(x, s);
    x
  }

  function After(rows: set<int>, cursor: int): set<int> {
    set e | e in rows && e > cursor
  }

  function UpTo(rows: set<int>, row: int): set<int> {
    set e | e in rows && e <= row
  }

  /** The first `limit` of a set of ids, ascending: what an ordered, limited query returns. */
  function First(rows: set<int>, limit: nat): seq<int> {
    if limit == 0 || rows == {} then []
    else [Least(rows)] + First(rows - {Least(rows)}, limit - 1)
  }

  function Elements(s: seq<int>): set<int> {
    set x | x in s
  }

  /** The rows of one pass over the eligible ids. */
  function Batch(eligible: set<int>, cursor: int, limit: nat): seq<int> {
    var rows := First(After(eligible, cursor), limit);
    if rows == [] && cursor != 0 then First(After(eligible, 0), limit) else rows
  }

  function NextCursor(rows: seq<int>): int {
    if rows == [] then 0 else rows[|rows| - 1]
  }

  /** A run of passes: the ids eligible at each. */
  type Passes = nat -> set<int>

  /** The cursor of a queue before pass `i`. */
  function CursorAt(cursor: int, passes: Passes, limit: nat, i: nat): int {
    if i == 0 then cursor else NextCursor(Batch(passes(i - 1), CursorAt(cursor, passes, limit, i - 1), limit))
  }

  /** Pass `i` takes the row. */
  predicate AttemptedAt(row: int, cursor: int, passes: Passes, limit: nat, i: nat) {
    row in Elements(Batch(passes(i), CursorAt(cursor, passes, limit, i), limit))
  }

  class BatchCursors {
    var cursors: map<Key, int>

    constructor ()
      ensures cursors == map[]
    {
      cursors := map[];
    }

    function Get(key: Key): int
      reads this
    {
      if key in cursors then cursors[key] else 0
    }

    method CursorBatch(eligible: set<int>, key: Key, limit: nat) returns (rows: seq<int>)
      ensures rows == Batch(eligible, if key in cursors then cursors[key] else 0, limit)
    {
      var after := Get(key);
      rows := First(After(eligible, after), limit);
      if rows == [] && after != 0 {
        after := 0;
        rows := First(After(eligible, after), limit);
      }
    }

    /** The fetch of one backfill pass: only its own queue's cursor moves, to the last row it takes. */
    method FetchPass(eligible: set<int>, key: Key, limit: nat) returns (rows: seq<int>)
      modifies this
      ensures rows == Batch(eligible, if key in old(cursors) then old(cursors)[key] else 0, limit)
      ensures cursors == old(cursors)[key := NextCursor(rows)]
    {
      rows := CursorBatch(eligible, key, limit);
      cursors := cursors[key := if rows != [] then rows[|rows| - 1] else 0];
    }
  }

  // ---------- what one pass takes ----------

  lemma {:induction false} FirstAscends(rows: set<int>, limit: nat)
    ensures var batch := First(rows, limit);
            && |batch| == (if |rows| < limit then |rows| else limit)
            && Elements(batch) <= rows
            && |Elements(batch)| == |batch|
  {
    if limit > 0 && rows != {} {
      var x := Least(rows);
      var tail := First(rows - {x}, limit - 1);
      FirstAscends(rows - {x}, limit - 1);
      assert forall t | t in tail :: t in Elements(tail);
      assert Elements([x] + tail) == {x} + Elements(tail);
    }
  }

  lemma {:induction false} FirstIsInitial(rows: set<int>, limit: nat)
    ensures var batch := First(rows, limit);
            batch != [] ==> batch[|batch| - 1] in rows && Elements(batch) == UpTo(rows, batch[|batch| - 1])
  {
    if limit > 0 && rows != {} {
      var x := Least(rows);
      var rest := rows - {x};
      var tail := First(rest, limit - 1);
      var batch := First(rows, limit);
      FirstIsInitial(rest, limit - 1);
      assert Elements(batch) == {x} + Elements(tail);
      if tail == [] {
        assert UpTo(rows, x) == {x};
      } else {
        var last := tail[|tail| - 1];
        assert batch[|batch| - 1] == last;
        assert UpTo(rows, last) == {x} + UpTo(rest, last);
      }
    }
  }

  /** Where the query of a pass starts. */
  function Start(eligible: set<int>, cursor: int): int {
    if After(eligible, cursor) == {} then 0 else cursor
  }

  lemma PartsAddUp(a: set<int>, b: set<int>, whole: set<int>)
    requires whole == a + b && a !! b
    ensures |whole| == |a| + |b|
  {
  }

  /** A pass takes the eligible rows from its start up to its new cursor: all that are left, or as many as the limit. */
  lemma BatchFacts(eligible: set<int>, cursor: int, limit: nat)
    requires 0 <= cursor && 1 <= limit
    ensures var batch := Batch(eligible, cursor, limit);
            var start := Start(eligible, cursor);
            var left := After(eligible, start);
            && batch == First(left, limit)
            && |Elements(batch)| == (if |left| < limit then |left| else limit)
            && (left != {} ==>
                  && batch != [] && NextCursor(batch) in left
                  && Elements(batch) == UpTo(left, NextCursor(batch)))
            && (left == {} ==> batch == [])
            && NextCursor(batch) >= 0
  {
    var start := Start(eligible, cursor);
    FirstAscends(After(eligible, cursor), limit);
    FirstAscends(After(eligible, 0), limit);
    FirstIsInitial(After(eligible, cursor), limit);
    FirstIsInitial(After(eligible, 0), limit);
  }

  // ---------- bounded waiting ----------

  /** `a` over `l`, rounded up. */
  function Ceil(a: nat, l: nat): (c: nat)
    requires 1 <= l
    ensures a <= c * l && (a > 0 ==> (c - 1) * l < a)
  {
    if a == 0 then 0 else if a <= l then 1 else 1 + Ceil(a - l, l)
  }

  lemma {:induction false} CeilGrows(a: nat, b: nat, l: nat)
    requires 1 <= l
    ensures a <= b ==> Ceil(a, l) <= Ceil(b, l)
    ensures a + l <= b ==> Ceil(a, l) + 1 <= Ceil(b, l)
    decreases a
  {
    if l < a <= b {
      CeilGrows(a - l, b - l, l);
    }
    if a + l <= b && l < b {
      if a > l { CeilGrows(a - l, b - l - l, l); }
      CeilGrowsOnce(a, b - l, l);
    }
  }

  lemma {:induction false} CeilGrowsOnce(a: nat, b: nat, l: nat)
    requires 1 <= l && a <= b
    ensures Ceil(a, l) <= Ceil(b, l)
    decreases a
  {
    if a > l {
      CeilGrowsOnce(a - l, b - l, l);
    }
  }

  lemma {:induction false} CeilAdds(a: nat, b: nat, l: nat)
    requires 1 <= l
    ensures Ceil(a, l) + Ceil(b, l) <= Ceil(a + b, l) + 1
    decreases a
  {
    if a > l {
      CeilAdds(a - l, b, l);
    } else {
      CeilGrowsOnce(b, a + b, l);
    }
  }

  /** A bound on how many passes may still go by before `row` is attempted. */
  function Wait(row: int, cursor: int, eligible: set<int>, limit: nat): nat
    requires 1 <= limit
  {
    if row > cursor then Ceil(|UpTo(After(eligible, cursor), row)|, limit)
    else Ceil(|After(eligible, cursor)|, limit) + Ceil(|UpTo(After(eligible, 0), row)|, limit)
  }

  lemma {:induction false} WaitIsBounded(row: int, cursor: int, eligible: set<int>, limit: nat)
    requires 1 <= limit && 0 <= cursor && 0 < row
    ensures Wait(row, cursor, eligible, limit) <= Ceil(|eligible|, limit) + 1
  {
    var above, below := After(eligible, cursor), UpTo(After(eligible, 0), row);
    if row > cursor {
      SubsetIsSmaller(UpTo(above, row), eligible);
      CeilGrowsOnce(|UpTo(above, row)|, |eligible|, limit);
    } else {
      PartsAddUp(above, below, above + below);
      SubsetIsSmaller(above + below, eligible);
      CeilAdds(|above|, |below|, limit);
      CeilGrowsOnce(|above + below|, |eligible|, limit);
    }
  }

  /** A row is due while it waits. */
  lemma RowIsDue(row: int, cursor: int, eligible: set<int>, limit: nat)
    requires 1 <= limit && 0 <= cursor && 0 < row && row in eligible
    ensures Wait(row, cursor, eligible, limit) >= 1
  {
    if row > cursor {
      assert row in UpTo(After(eligible, cursor), row);
    } else {
      assert row in UpTo(After(eligible, 0), row);
    }
  }

  lemma UpToShrinks(now: set<int>, next: set<int>, cursor: int, row: int)
    requires next <= now
    ensures |UpTo(After(next, cursor), row)| <= |UpTo(After(now, cursor), row)|
    ensures |After(next, cursor)| <= |After(now, cursor)|
  {
    SubsetIsSmaller(UpTo(After(next, cursor), row), UpTo(After(now, cursor), row));
    SubsetIsSmaller(After(next, cursor), After(now, cursor));
  }

  lemma WaitShrinks(row: int, cursor: int, now: set<int>, next: set<int>, limit: nat)
    requires 1 <= limit && next <= now
    ensures Wait(row, cursor, next, limit) <= Wait(row, cursor, now, limit)
  {
    UpToShrinks(now, next, cursor, row);
    UpToShrinks(now, next, 0, row);
    CeilGrowsOnce(|UpTo(After(next, cursor), row)|, |UpTo(After(now, cursor), row)|, limit);
    CeilGrowsOnce(|After(next, cursor)|, |After(now, cursor)|, limit);
    CeilGrowsOnce(|UpTo(After(next, 0), row)|, |UpTo(After(now, 0), row)|, limit);
  }

  /** Each pass that does not attempt the row brings it one pass closer. */
  lemma PassBringsCloser(row: int, cursor: int, eligible: set<int>, limit: nat)
    requires 1 <= limit && 0 <= cursor && 0 < row && row in eligible
    requires row !in Elements(Batch(eligible, cursor, limit))
    ensures var c := NextCursor(Batch(eligible, cursor, limit));
            0 <= c && Wait(row, c, eligible, limit) < Wait(row, cursor, eligible, limit)
  {
    var batch := Batch(eligible, cursor, limit);
    var taken, c := Elements(batch), NextCursor(batch);
    var start := Start(eligible, cursor);
    var left := After(eligible, start);
    BatchFacts(eligible, cursor, limit);
    assert left != {} by {
      if start == 0 { assert row in left; }
    }
    if row > start {
      assert row in left && row > c;
      if |left| < limit { FullBatch(left, taken); }
      var ahead := UpTo(left, row);
      PartsAddUp(taken, UpTo(After(eligible, c), row), ahead);
      CeilGrows(|UpTo(After(eligible, c), row)|, |ahead|, limit);
      if row <= cursor {
        assert After(eligible, cursor) == {};
      }
    } else {
      PartsAddUp(taken, After(eligible, c), left);
      if |left| < limit { FullBatch(left, taken); }
      CeilGrows(|After(eligible, c)|, |left|, limit);
    }
  }

  lemma FullBatch(left: set<int>, taken: set<int>)
    requires taken <= left && |taken| == |left|
    ensures taken == left
  {
    PartsAddUp(taken, left - taken, left);
  }

  lemma {:induction false} CursorIsNatural(cursor: int, passes: Passes, limit: nat, i: nat)
    requires 1 <= limit && 0 <= cursor
    ensures CursorAt(cursor, passes, limit, i) >= 0
  {
    if i > 0 {
      CursorIsNatural(cursor, passes, limit, i - 1);
      BatchFacts(passes(i - 1), CursorAt(cursor, passes, limit, i - 1), limit);
    }
  }

  lemma {:induction false} ReachedInTime(row: int, cursor: int, passes: Passes, limit: nat, w: nat) returns (i: nat)
    requires 1 <= limit && 0 <= cursor && 0 < row
    requires forall i: nat :: row in passes(i) && passes(i + 1) <= passes(i)
    ensures w <= i < w + Wait(row, CursorAt(cursor, passes, limit, w), passes(w), limit)
    ensures AttemptedAt(row, cursor, passes, limit, i)
    decreases Wait(row, CursorAt(cursor, passes, limit, w), passes(w), limit)
  {
    hide Wait, Batch;
    var c := CursorAt(cursor, passes, limit, w);
    CursorIsNatural(cursor, passes, limit, w);
    RowIsDue(row, c, passes(w), limit);
    i := w;
    if !AttemptedAt(row, cursor, passes, limit, w) {
      PassBringsCloser(row, c, passes(w), limit);
      WaitShrinks(row, CursorAt(cursor, passes, limit, w + 1), passes(w), passes(w + 1), limit);
      i := ReachedInTime(row, cursor, passes, limit, w + 1);
    }
  }

  /**
    Wherever the cursor stands, a row that stays eligible while no new row becomes
    so is attempted within |eligible| / limit passes, rounded up, and one more,
    however many other rows fail for good or succeed and leave in the meantime.
  */
  lemma NoRowStarves(row: int, cursor: int, passes: Passes, limit: nat)
    requires 1 <= limit && 0 <= cursor && 0 < row
    requires forall i: nat :: row in passes(i) && passes(i + 1) <= passes(i)
    ensures exists i: nat | i < Ceil(|passes(0)|, limit) + 1 :: AttemptedAt(row, cursor, passes, limit, i)
  {
    WaitIsBounded(row, cursor, passes(0), limit);
    var i := ReachedInTime(row, cursor, passes, limit, 0);
  }

  // ---------- rows that arrive ----------

  /** Nothing is left ahead of the cursor: the pass starts over at the head. */
  predicate Wraps(cursor: int, passes: Passes, limit: nat, i: nat) {
    After(passes(i), CursorAt(cursor, passes, limit, i)) == {}
  }

  /** A row ahead of the cursor is reached within as many passes as ids lie between, whatever arrives and leaves. */
  lemma {:induction false} AheadIsReached(row: int, cursor: int, passes: Passes, limit: nat, w: nat) returns (i: nat)
    requires 1 <= limit && 0 <= cursor && forall i: nat :: row in passes(i)
    requires CursorAt(cursor, passes, limit, w) < row
    ensures w <= i < w + (row - CursorAt(cursor, passes, limit, w)) && AttemptedAt(row, cursor, passes, limit, i)
    decreases row - CursorAt(cursor, passes, limit, w)
  {
    hide Batch, CursorAt;
    var c, d := CursorAt(cursor, passes, limit, w), CursorAt(cursor, passes, limit, w + 1);
    CursorIsNatural(cursor, passes, limit, w);
    BatchFacts(passes(w), c, limit);
    NextCursorAt(cursor, passes, limit, w);
    assert row in After(passes(w), c);
    var left := After(passes(w), c);
    i := w;
    if !AttemptedAt(row, cursor, passes, limit, w) {
      assert row !in UpTo(left, d);
      i := AheadIsReached(row, cursor, passes, limit, w + 1);
    }
  }

  lemma NextCursorAt(cursor: int, passes: Passes, limit: nat, i: nat)
    ensures CursorAt(cursor, passes, limit, i + 1) ==
              NextCursor(Batch(passes(i), CursorAt(cursor, passes, limit, i), limit))
  {
  }

  /** After a wrap every row that stays is reached, within as many passes as its id. */
  lemma WrapReaches(row: int, cursor: int, passes: Passes, limit: nat, w: nat) returns (i: nat)
    requires 1 <= limit && 0 <= cursor && 0 < row && forall i: nat :: row in passes(i)
    requires Wraps(cursor, passes, limit, w)
    ensures w <= i < w + row && AttemptedAt(row, cursor, passes, limit, i)
  {
    hide Batch, CursorAt;
    CursorIsNatural(cursor, passes, limit, w);
    BatchFacts(passes(w), CursorAt(cursor, passes, limit, w), limit);
    NextCursorAt(cursor, passes, limit, w);
    var left := After(passes(w), 0);
    assert row in left;
    i := w;
    if !AttemptedAt(row, cursor, passes, limit, w) {
      var d := CursorAt(cursor, passes, limit, w + 1);
      assert row !in UpTo(left, d);
      i := AheadIsReached(row, cursor, passes, limit, w + 1);
    }
  }

  /** Up to the first wrap the cursor only moves on, and no row at or behind it is taken. */
  lemma {:induction false} NothingBehindBeforeWrap(row: int, cursor: int, passes: Passes, limit: nat, n: nat)
    requires 1 <= limit && 0 <= cursor && row <= cursor
    requires forall i: nat | i < n :: !Wraps(cursor, passes, limit, i)
    ensures CursorAt(cursor, passes, limit, n) >= cursor
    ensures forall i: nat | i < n :: !AttemptedAt(row, cursor, passes, limit, i)
  {
    hide Batch, CursorAt;
    if n == 0 {
      assert CursorAt(cursor, passes, limit, 0) == cursor by { StartsAt(cursor, passes, limit); }
    } else {
      NothingBehindBeforeWrap(row, cursor, passes, limit, n - 1);
      CursorIsNatural(cursor, passes, limit, n - 1);
      BatchFacts(passes(n - 1), CursorAt(cursor, passes, limit, n - 1), limit);
      NextCursorAt(cursor, passes, limit, n - 1);
      assert !Wraps(cursor, passes, limit, n - 1);
    }
  }

  lemma StartsAt(cursor: int, passes: Passes, limit: nat)
    ensures CursorAt(cursor, passes, limit, 0) == cursor
  {
  }

  /**
    The exact condition, whatever rows arrive and leave: a row that stays eligible
    is attempted at some pass if and only if it lies ahead of the cursor or some
    pass finds nothing left ahead of the cursor and wraps.
  */
  lemma AttemptedExactly(row: int, cursor: int, passes: Passes, limit: nat)
    requires 1 <= limit && 0 <= cursor && 0 < row && forall i: nat :: row in passes(i)
    ensures (exists i: nat :: AttemptedAt(row, cursor, passes, limit, i))
            <==> cursor < row || exists i: nat :: Wraps(cursor, passes, limit, i)
  {
    hide AttemptedAt, Wraps;
    StartsAt(cursor, passes, limit);
    if cursor < row {
      var i := AheadIsReached(row, cursor, passes, limit, 0);
    } else if w: nat :| Wraps(cursor, passes, limit, w) {
      var i := WrapReaches(row, cursor, passes, limit, w);
    } else {
      forall i: nat ensures !AttemptedAt(row, cursor, passes, limit, i) {
        NothingBehindBeforeWrap(row, cursor, passes, limit, i + 1);
      }
    }
  }

  /** A new id right after the cursor before every pass, while `row` waits. */
  function Arrivals(row: int, cursor: int): Passes {
    (i: nat) => {row, cursor + 1 + i}
  }

  /** A steady stream of new rows keeps every row at or behind the cursor waiting for ever, whatever the limit. */
  lemma SteadyArrivalsStarveTheHead(row: int, cursor: int, limit: nat)
    requires 1 <= limit && 0 < row <= cursor
    ensures forall i: nat ::
              row in Arrivals(row, cursor)(i) && !AttemptedAt(row, cursor, Arrivals(row, cursor), limit, i)
  {
    hide AttemptedAt, Wraps;
    forall i: nat ensures !AttemptedAt(row, cursor, Arrivals(row, cursor), limit, i) {
      NeverWraps(row, cursor, limit, i + 1);
      NothingBehindBeforeWrap(row, cursor, Arrivals(row, cursor), limit, i + 1);
    }
  }

  lemma {:induction false} NeverWraps(row: int, cursor: int, limit: nat, n: nat)
    requires 1 <= limit && 0 < row <= cursor
    ensures CursorAt(cursor, Arrivals(row, cursor), limit, n) == cursor + n
    ensures forall i: nat | i < n :: !Wraps(cursor, Arrivals(row, cursor), limit, i)
  {
    hide Batch;
    if n > 0 {
      var passes, c := Arrivals(row, cursor), cursor + (n - 1);
      NeverWraps(row, cursor, limit, n - 1);
      BatchFacts(passes(n - 1), c, limit);
      assert After(passes(n - 1), c) == {cursor + n};
    }
  }

  /** The wait when any row of `all` may become eligible at any time. */
  function WaitAmong(row: int, cursor: int, all: set<int>): nat {
    if row > cursor then |UpTo(After(all, cursor), row)|
    else |After(all, cursor)| + |UpTo(After(all, 0), row)|
  }

  lemma PassBringsCloserAmong(row: int, cursor: int, eligible: set<int>, all: set<int>, limit: nat)
    requires 1 <= limit && 0 <= cursor && 0 < row && row in eligible && eligible <= all
    requires row !in Elements(Batch(eligible, cursor, limit))
    ensures var c := NextCursor(Batch(eligible, cursor, limit));
            0 <= c && WaitAmong(row, c, all) < WaitAmong(row, cursor, all)
  {
    var batch := Batch(eligible, cursor, limit);
    var taken, c := Elements(batch), NextCursor(batch);
    var start := Start(eligible, cursor);
    var left := After(eligible, start);
    BatchFacts(eligible, cursor, limit);
    assert left != {} by {
      if start == 0 { assert row in left; }
    }
    assert c in left && |taken| >= 1;
    if row > start {
      assert row in left && row > c;
      var rest, ahead := UpTo(After(all, c), row), UpTo(After(all, start), row);
      PartsAddUp(taken, rest, taken + rest);
      SubsetIsSmaller(taken + rest, ahead);
    } else {
      var rest, ahead := After(all, c), After(all, start);
      PartsAddUp(taken, rest, taken + rest);
      SubsetIsSmaller(taken + rest, ahead);
    }
  }

  /** While only finitely many rows ever come and go, every row that stays is attempted, one pass per row at worst. */
  lemma {:induction false} FinitelyManyArrivals(row: int, cursor: int, passes: Passes, all: set<int>, limit: nat,
                                                w: nat)
    returns (i: nat)
    requires 1 <= limit && 0 <= cursor && 0 < row
    requires forall i: nat :: row in passes(i) && passes(i) <= all
    ensures w <= i < w + WaitAmong(row, CursorAt(cursor, passes, limit, w), all)
    ensures AttemptedAt(row, cursor, passes, limit, i)
    decreases WaitAmong(row, CursorAt(cursor, passes, limit, w), all)
  {
    hide Batch;
    var c := CursorAt(cursor, passes, limit, w);
    CursorIsNatural(cursor, passes, limit, w);
    assert row in passes(w);
    assert row in (if row > c then UpTo(After(all, c), row) else UpTo(After(all, 0), row));
    i := w;
    if !AttemptedAt(row, cursor, passes, limit, w) {
      PassBringsCloserAmong(row, c, passes(w), all, limit);
      i := FinitelyManyArrivals(row, cursor, passes, all, limit, w + 1);
    }
  }

  lemma WaitAmongIsBounded(row: int, cursor: int, all: set<int>)
    requires 0 <= cursor && 0 < row
    ensures WaitAmong(row, cursor, all) <= |all|
  {
    var above, below := After(all, cursor), UpTo(After(all, 0), row);
    if row > cursor {
      SubsetIsSmaller(UpTo(above, row), all);
    } else {
      PartsAddUp(above, below, above + below);
      SubsetIsSmaller(above + below, all);
    }
  }

  /** The query starts above zero at the lowest, so ids that are not positive are never taken. */
  lemma OnlyPositiveIds(row: int, cursor: int, passes: Passes, limit: nat, i: nat)
    requires 1 <= limit && 0 <= cursor && AttemptedAt(row, cursor, passes, limit, i)
    ensures row > 0
  {
    var c := CursorAt(cursor, passes, limit, i);
    CursorIsNatural(cursor, passes, limit, i);
    BatchFacts(passes(i), c, limit);
    FirstAscends(After(passes(i), Start(passes(i), c)), limit);
  }
}
