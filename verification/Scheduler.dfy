/**
  The idle scheduler of the AFM loop (src/minni/afm_scheduler.py): at each tick the
  most overdue pass runs. Times are in seconds.
*/
module Scheduler {
  import opened StableSort
  import opened Wrappers

  // ---------- the order of (overdue, name) pairs ----------

  /** Python's order of strings. */
  predicate Less(a: string, b: string) {
    b != "" && (a == "" || a[0] < b[0] || (a[0] == b[0] && Less(a[1..], b[1..])))
  }

  lemma {:induction false} LessIsTotal(a: string, b: string)
    ensures Less(a, b) || a == b || Less(b, a)
    ensures !(Less(a, b) && Less(b, a)) && !Less(a, a)
    decreases |a|
  {
    if a != "" && b != "" {
      LessIsTotal(a[1..], b[1..]);
      assert a == [a[0]] + a[1..] && b == [b[0]] + b[1..];
    }
    if a != "" {
      LessIsTotal(a[1..], a[1..]);
    }
  }

  lemma {:induction false} LessIsTransitive(a: string, b: string, c: string)
    ensures Less(a, b) && Less(b, c) ==> Less(a, c)
    decreases |a|
  {
    if a != "" && b != "" && c != "" {
      LessIsTransitive(a[1..], b[1..], c[1..]);
    }
  }

  datatype Entry = Entry(overdue: int, name: string)

  predicate AtLeast(a: Entry, b: Entry) {
    a.overdue > b.overdue || (a.overdue == b.overdue && (a.name == b.name || Less(b.name, a.name)))
  }

  function Descending(): (Entry, Entry) -> bool { (a, b) => AtLeast(a, b) }

  lemma DescendingIsOrder()
    ensures TotalPreorder(Descending())
  {
    forall a, b ensures AtLeast(a, b) || AtLeast(b, a) {
      LessIsTotal(a.name, b.name);
    }
    forall a, b, c | AtLeast(a, b) && AtLeast(b, c) ensures AtLeast(a, c) {
      LessIsTransitive(c.name, b.name, a.name);
    }
  }

  // ---------- which pass is due ----------

  /** The passes with their intervals, and when each last ran. */
  type Passes = map<string, int>

  function DueAt(passes: Passes, lastRun: map<string, int>, name: string): int
    requires name in passes
  {
    (if name in lastRun then lastRun[name] else 0) + passes[name]
  }

  /** `a` is served before `b`: it fell due earlier, or at the same time with the larger name. */
  predicate Ahead(passes: Passes, lastRun: map<string, int>, a: string, b: string)
    requires a in passes && b in passes
  {
    var x, y := DueAt(passes, lastRun, a), DueAt(passes, lastRun, b);
    x < y || (x == y && Less(b, a))
  }

  predicate IsDue(passes: Passes, lastRun: map<string, int>, now: int, name: string) {
    name in passes && DueAt(passes, lastRun, name) <= now
  }

  predicate MostOverdue(passes: Passes, lastRun: map<string, int>, now: int, name: string) {
    && IsDue(passes, lastRun, now, name)
    && forall other | other in passes && IsDue(passes, lastRun, now, other) && other != name ::
         Ahead(passes, lastRun, name, other)
  }

  datatype Schedule = Schedule(enabled: bool, idleSeconds: int, passes: Passes)

  class AFMScheduler {
    const schedule: Schedule
    var lastActivity: int
    var longRunningOps: int
    var lastRun: map<string, int>

    constructor (schedule: Schedule, now: int)
      ensures this.schedule == schedule && lastActivity == now && longRunningOps == 0 && lastRun == map[]
    {
      this.schedule := schedule;
      lastActivity, longRunningOps, lastRun := now, 0, map[];
    }

    method MarkActivity(now: int)
      modifies this`lastActivity
      ensures lastActivity == now
    {
      lastActivity := now;
    }

    method BeginLongOp()
      modifies this`longRunningOps
      ensures longRunningOps == old(longRunningOps) + 1
    {
      longRunningOps := longRunningOps + 1;
    }

    method EndLongOp()
      modifies this`longRunningOps
      ensures longRunningOps == if old(longRunningOps) > 1 then old(longRunningOps) - 1 else 0
    {
      longRunningOps := if longRunningOps > 1 then longRunningOps - 1 else 0;
    }

    /** How long a pass has not run; one that never ran counts from time 0. */
    function Waited(name: string, now: int): int
      reads this
    {
      if name in lastRun then now - lastRun[name] else now
    }

    /** Whether the loop may run a pass at all. */
    predicate Open(now: int)
      reads this
    {
      schedule.enabled && now - lastActivity >= schedule.idleSeconds && longRunningOps <= 0
    }

    method DuePass(idleNow: int, now: int) returns (name: Option<string>)
      ensures name.Some? ==> Open(idleNow) && MostOverdue(schedule.passes, lastRun, now, name.value)
      ensures name.None? ==>
                !Open(idleNow) || forall n | n in schedule.passes :: !IsDue(schedule.passes, lastRun, now, n)
      ensures name.Some? <==>
                && schedule.enabled && idleNow - lastActivity >= schedule.idleSeconds && longRunningOps <= 0
                && exists n | n in schedule.passes :: Waited(n, now) >= schedule.passes[n]
    {
      if !schedule.enabled || idleNow - lastActivity < schedule.idleSeconds || longRunningOps > 0 {
        return None;
      }
      var overdue: seq<Entry> := [];
      var todo := schedule.passes.Keys;
      while todo != {}
        invariant todo <= schedule.passes.Keys
        invariant forall e | e in overdue :: EntryOf(e, now)
        invariant forall n | n in schedule.passes && n !in todo && IsDue(schedule.passes, lastRun, now, n) ::
                    Entry(now - DueAt(schedule.passes, lastRun, n), n) in overdue
      {
        var n :| n in todo;
        todo := todo - {n};
        var interval := schedule.passes[n];
        var last := if n in lastRun then lastRun[n] else 0;
        if now - last >= interval {
          overdue := overdue + [Entry(now - last - interval, n)];
        }
      }
      if overdue == [] {
        return None;
      }
      FirstIsGreatest(overdue);
      overdue := Sort(overdue, Descending());
      name := Some(overdue[0].name);
    }

    predicate EntryOf(e: Entry, now: int)
      reads this
    {
      IsDue(schedule.passes, lastRun, now, e.name) && e.overdue == now - DueAt(schedule.passes, lastRun, e.name)
    }

    /** One tick; `done` is the time at which the pass it runs has finished. */
    method Tick(idleNow: int, now: int, done: int) returns (ran: Option<string>)
      modifies this`lastRun
      ensures (lastRun, ran) == After(schedule.passes, old(lastRun), TickAt(old(Open(idleNow)), now, done))
      ensures ran.Some? ==> ran.value != "" && old(Open(idleNow))
                            && MostOverdue(schedule.passes, old(lastRun), now, ran.value)
      ensures lastRun == if ran.Some? then old(lastRun)[ran.value := done] else old(lastRun)
    {
      var name := DuePass(idleNow, now);
      DueNameIs(schedule.passes, lastRun, now, name, Open(idleNow));
      if name.None? || name.value == "" {
        return None;
      }
      lastRun := lastRun[name.value := done];
      return name;
    }
  }

  lemma FirstIsGreatest(entries: seq<Entry>)
    requires entries != []
    ensures var sorted := Sort(entries, Descending());
            sorted != [] && sorted[0] in entries && forall e | e in entries :: AtLeast(sorted[0], e)
  {
    DescendingIsOrder();
    SortKeeps(entries, Descending());
    SortOrders(entries, Descending());
    var sorted := Sort(entries, Descending());
    assert sorted[0] in multiset(sorted);
    forall e | e in entries ensures AtLeast(sorted[0], e) {
      assert e in multiset(sorted);
      var i :| 0 <= i < |sorted| && sorted[i] == e;
      if i > 0 { assert Descending()(sorted[0], sorted[i]); }
    }
  }

  // ---------- runs ----------

  /** A tick: whether the gates are open, the time it starts and the time its pass is done. */
  datatype TickAt = TickAt(open: bool, now: int, done: int)

  ghost function DueName(passes: Passes, lastRun: map<string, int>, t: TickAt): (name: Option<string>)
    ensures name.Some? ==> t.open && MostOverdue(passes, lastRun, t.now, name.value)
  {
    if t.open && exists n :: MostOverdue(passes, lastRun, t.now, n)
    then var n :| MostOverdue(passes, lastRun, t.now, n); Some(n)
    else None
  }

  ghost function After(passes: Passes, lastRun: map<string, int>, t: TickAt): (map<string, int>, Option<string>) {
    match DueName(passes, lastRun, t)
    case None => (lastRun, None)
    case Some(n) => if n == "" then (lastRun, None) else (lastRun[n := t.done], Some(n))
  }

  lemma OneMostOverdue(passes: Passes, lastRun: map<string, int>, now: int, a: string, b: string)
    requires MostOverdue(passes, lastRun, now, a) && MostOverdue(passes, lastRun, now, b)
    ensures a == b
  {
    LessIsTotal(a, b);
  }

  lemma DueNameIs(passes: Passes, lastRun: map<string, int>, now: int, name: Option<string>, open: bool)
    requires name.Some? ==> open && MostOverdue(passes, lastRun, now, name.value)
    requires name.None? ==> !open || forall n | n in passes :: !IsDue(passes, lastRun, now, n)
    ensures forall done :: DueName(passes, lastRun, TickAt(open, now, done)) == name
  {
    forall done ensures DueName(passes, lastRun, TickAt(open, now, done)) == name {
      var found := DueName(passes, lastRun, TickAt(open, now, done));
      if name.Some? && found.Some? {
        OneMostOverdue(passes, lastRun, now, name.value, found.value);
      }
    }
  }

  /** The passes run by a sequence of ticks, in order. */
  ghost function Ran(passes: Passes, lastRun: map<string, int>, run: seq<TickAt>): seq<string>
    decreases |run|
  {
    if run == [] then []
    else
      var (next, ran) := After(passes, lastRun, run[0]);
      (if ran.Some? then [ran.value] else []) + Ran(passes, next, run[1..])
  }

  /** The clock does not go back from `from` on. */
  predicate Clocked(run: seq<TickAt>, from: int)
    decreases |run|
  {
    run == [] || (from <= run[0].now <= run[0].done && Clocked(run[1..], run[0].done))
  }

  predicate Positive(passes: Passes) {
    forall n | n in passes :: passes[n] > 0
  }

  function AheadOf(passes: Passes, lastRun: map<string, int>, p: string): set<string>
    requires p in passes
  {
    set q | q in passes && q != p && Ahead(passes, lastRun, q, p)
  }

  /** A pass that runs while `p` is due was ahead of `p`, and is not any more. */
  lemma RunningFallsBehind(passes: Passes, lastRun: map<string, int>, t: TickAt, p: string)
    requires p in passes && Positive(passes) && t.now <= t.done && DueAt(passes, lastRun, p) <= t.now
    ensures var (next, ran) := After(passes, lastRun, t);
            match ran
            case None => next == lastRun
            case Some(n) => n == p || (DueAt(passes, next, p) == DueAt(passes, lastRun, p)
                                       && n in AheadOf(passes, lastRun, p)
                                       && AheadOf(passes, next, p) == AheadOf(passes, lastRun, p) - {n})
  {
    var (next, ran) := After(passes, lastRun, t);
    if ran.Some? && ran.value != p {
      var n := ran.value;
      assert n in passes && DueAt(passes, next, n) > DueAt(passes, next, p);
      assert forall q | q in passes && q != n :: DueAt(passes, next, q) == DueAt(passes, lastRun, q);
    }
  }

  lemma {:induction false} OthersRunOnce(passes: Passes, lastRun: map<string, int>, run: seq<TickAt>, from: int,
                                         p: string)
    requires p in passes && Positive(passes) && Clocked(run, from) && DueAt(passes, lastRun, p) <= from
    requires p !in Ran(passes, lastRun, run)
    ensures |Ran(passes, lastRun, run)| <= |AheadOf(passes, lastRun, p)|
    decreases |run|
  {
    if run != [] {
      var (next, ran) := After(passes, lastRun, run[0]);
      RunningFallsBehind(passes, lastRun, run[0], p);
      var all, rest := Ran(passes, lastRun, run), Ran(passes, next, run[1..]);
      if ran.Some? {
        assert all == [ran.value] + rest && all[0] == ran.value;
        assert p != ran.value;
      }
      assert forall n | n in rest :: n in all;
      OthersRunOnce(passes, next, run[1..], run[0].done, p);
    }
  }

  lemma AheadAreFewer(passes: Passes, lastRun: map<string, int>, p: string)
    requires p in passes
    ensures |AheadOf(passes, lastRun, p)| < |passes|
  {
    var others := passes.Keys - {p};
    assert others == AheadOf(passes, lastRun, p) + (others - AheadOf(passes, lastRun, p));
    assert |passes| == |passes.Keys|;
  }

  /** A due pass runs within as many productive ticks as there are passes: every other pass goes first at most once. */
  lemma BoundedWaiting(passes: Passes, lastRun: map<string, int>, run: seq<TickAt>, from: int, p: string)
    requires p in passes && Positive(passes) && Clocked(run, from) && DueAt(passes, lastRun, p) <= from
    requires |Ran(passes, lastRun, run)| >= |passes|
    ensures p in Ran(passes, lastRun, run)
  {
    if p !in Ran(passes, lastRun, run) {
      OthersRunOnce(passes, lastRun, run, from, p);
      AheadAreFewer(passes, lastRun, p);
    }
  }

  // ---------- which ticks are productive ----------

  lemma {:induction false} SomeIsMostOverdue(passes: Passes, lastRun: map<string, int>, now: int, due: set<string>)
    returns (n: string)
    requires due != {} && forall m | m in due :: IsDue(passes, lastRun, now, m)
    ensures n in due && n in passes
    ensures forall m | m in due && m != n :: m in passes && Ahead(passes, lastRun, n, m)
    decreases due
  {
    n :| n in due;
    assert IsDue(passes, lastRun, now, n);
    var rest := due - {n};
    assert forall m | m in due :: m == n || m in rest;
    if rest != {} {
      var best := SomeIsMostOverdue(passes, lastRun, now, rest);
      LessIsTotal(n, best);
      if Ahead(passes, lastRun, best, n) {
        n := best;
      } else {
        assert Ahead(passes, lastRun, n, best);
        forall m | m in due && m != n ensures Ahead(passes, lastRun, n, m) {
          assert IsDue(passes, lastRun, now, m) && (m == best || m in rest);
          LessIsTransitive(m, best, n);
        }
      }
    }
  }

  /** With the gates open and something due, a tick runs a pass, unless the most overdue one has the empty name. */
  lemma OpenTickRuns(passes: Passes, lastRun: map<string, int>, t: TickAt, p: string)
    requires t.open && IsDue(passes, lastRun, t.now, p)
    ensures After(passes, lastRun, t).1.None? <==> MostOverdue(passes, lastRun, t.now, "")
  {
    var due := set n | n in passes && IsDue(passes, lastRun, t.now, n);
    assert p in due;
    var n := SomeIsMostOverdue(passes, lastRun, t.now, due);
    assert MostOverdue(passes, lastRun, t.now, n);
    var found := DueName(passes, lastRun, t);
    assert found.Some?;
    if MostOverdue(passes, lastRun, t.now, "") {
      OneMostOverdue(passes, lastRun, t.now, "", found.value);
    }
  }

  lemma {:induction false} OpenTicksRunUntil(passes: Passes, lastRun: map<string, int>, run: seq<TickAt>, from: int,
                                             p: string)
    requires p in passes && Positive(passes) && Clocked(run, from) && DueAt(passes, lastRun, p) <= from
    requires "" !in passes && (forall i | 0 <= i < |run| :: run[i].open)
    requires p !in Ran(passes, lastRun, run)
    ensures |Ran(passes, lastRun, run)| == |run|
    decreases |run|
  {
    if run != [] {
      var (next, ran) := After(passes, lastRun, run[0]);
      OpenTickRuns(passes, lastRun, run[0], p);
      RunningFallsBehind(passes, lastRun, run[0], p);
      var all, rest := Ran(passes, lastRun, run), Ran(passes, next, run[1..]);
      assert all == [ran.value] + rest && all[0] == ran.value;
      assert forall n | n in rest :: n in all;
      OpenTicksRunUntil(passes, next, run[1..], run[0].done, p);
    }
  }

  /** So with no pass of the empty name, a due pass runs within as many open ticks as there are passes. */
  lemma DuePassRuns(passes: Passes, lastRun: map<string, int>, run: seq<TickAt>, from: int, p: string)
    requires p in passes && Positive(passes) && Clocked(run, from) && DueAt(passes, lastRun, p) <= from
    requires "" !in passes && (forall i | 0 <= i < |run| :: run[i].open) && |run| >= |passes|
    ensures p in Ran(passes, lastRun, run)
  {
    if p !in Ran(passes, lastRun, run) {
      OpenTicksRunUntil(passes, lastRun, run, from, p);
      BoundedWaiting(passes, lastRun, run, from, p);
    }
  }

  lemma {:induction false} EmptyNameNeverRuns(passes: Passes, lastRun: map<string, int>, run: seq<TickAt>)
    ensures "" !in Ran(passes, lastRun, run)
    decreases |run|
  {
    if run != [] {
      EmptyNameNeverRuns(passes, After(passes, lastRun, run[0]).0, run[1..]);
    }
  }

  /**
    A due pass whose name is empty never runs and is never marked as run, so it
    stops the loop: no more than the other passes ever run again, however long it goes on.
  */
  lemma EmptyNameStopsTheLoop(passes: Passes, lastRun: map<string, int>, run: seq<TickAt>, from: int)
    requires "" in passes && Positive(passes) && Clocked(run, from) && DueAt(passes, lastRun, "") <= from
    ensures |Ran(passes, lastRun, run)| < |passes|
  {
    EmptyNameNeverRuns(passes, lastRun, run);
    OthersRunOnce(passes, lastRun, run, from, "");
    AheadAreFewer(passes, lastRun, "");
  }

  // ---------- why intervals must be positive ----------

  function Stalled(n: nat): (run: seq<TickAt>)
    ensures |run| == n
    decreases n
  {
    if n == 0 then [] else [TickAt(true, 10, 10)] + Stalled(n - 1)
  }

  /**
    With an interval of zero and a clock that stands still, one pass runs every time and another
    that is due never does.
  */
  lemma {:induction false} ZeroIntervalStarves(n: nat)
    ensures var passes, lastRun := map["a" := 10, "z" := 0], map["z" := 10];
            && Clocked(Stalled(n), 10) && IsDue(passes, lastRun, 10, "a")
            && |Ran(passes, lastRun, Stalled(n))| == n && "a" !in Ran(passes, lastRun, Stalled(n))
  {
    var passes: Passes, lastRun: map<string, int> := map["a" := 10, "z" := 0], map["z" := 10];
    if n > 0 {
      var t := TickAt(true, 10, 10);
      assert MostOverdue(passes, lastRun, 10, "z");
      OneMostOverdue(passes, lastRun, 10, "z", DueName(passes, lastRun, t).value);
      assert lastRun["z" := 10] == lastRun;
      assert Stalled(n)[1..] == Stalled(n - 1);
      ZeroIntervalStarves(n - 1);
    }
  }
}
