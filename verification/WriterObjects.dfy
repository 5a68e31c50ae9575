/**
  The objects of a batch in src/minni/afm_writer.py, what ties them to the
  protocol, and what each step of the protocol means for them. A batch is three
  objects, the job dictionary, its event and its `out` dictionary, to which the
  submitting thread, the queue, the worker and the table of passes in flight refer
  at the same time: what one of them sets, the others see. Each lemma about a step
  speaks of values only: how the tables change, which objects hold something else
  afterwards, and that queue and in-flight table still refer to the right ones.
*/
module WriterObjects {
  import opened Wrappers
  import opened WriterProtocol
  import opened WriterInvariants

  // ---------- the objects of a batch ----------

  /** `threading.Event`. */
  class DoneEvent {
    ghost const id: nat
    var isSet: bool

    constructor (ghost id: nat)
      ensures !isSet && this.id == id
    {
      isSet, this.id := false, id;
    }
  }

  /** The `out` dictionary: empty, or with a result or an error. */
  class OutDict {
    ghost const id: nat
    var content: Output

    constructor (ghost id: nat)
      ensures content.NoOutput? && this.id == id
    {
      content, this.id := NoOutput, id;
    }
  }

  /** The job dictionary with the flags its submitter writes into it and the worker reads. */
  class JobDict {
    ghost const id: nat
    const job: Job
    var waiterTimedOut: bool
    var deferLifecycle: bool

    constructor (job: Job, ghost id: nat)
      ensures this.job == job && this.id == id && !waiterTimedOut && !deferLifecycle
    {
      this.job, waiterTimedOut, deferLifecycle, this.id := job, false, false, id;
    }

    /** The waiter is gone; a lifecycle is left to the worker. */
    method GiveUp()
      modifies this
      ensures waiterTimedOut && deferLifecycle == (old(deferLifecycle) || job.lifecycle.Some?)
    {
      waiterTimedOut := true;
      if job.lifecycle.Some? {
        deferLifecycle := true;
      }
    }
  }

  /** What goes through the queue: `(job, done, out)`. */
  datatype Entry = Entry(job: JobDict, done: DoneEvent, out: OutDict)

  /** What the three objects hold, and what a record says they hold. */
  datatype Shown = Shown(job: Job, out: Output, done: bool, timedOut: bool, deferred: bool)

  ghost function Show(e: Entry): Shown
    reads e.job, e.done, e.out
  {
    Shown(e.job.job, e.out.content, e.done.isSet, e.job.waiterTimedOut, e.job.deferLifecycle)
  }

  ghost function ShownOf(r: Record): Shown {
    Shown(r.job, r.out, r.done, r.timedOut, r.deferred)
  }

  // ---------- what ties the objects to the protocol ----------

  /** The module's tables of plain values and its counters. */
  datatype Tables = Tables(
    pending: map<string, Lifecycle>,
    handlers: set<string>,
    reapplying: set<string>,
    sidecar: map<string, Lifecycle>,
    timeouts: nat,
    unrecovered: nat,
    dropped: nat,
    recoveredDrafts: nat)

  ghost predicate Mirrors(s: State, x: Tables) {
    && x.pending == s.pending && x.handlers == s.handlers && x.reapplying == s.reapplying && x.sidecar == s.sidecar
    && x.timeouts == s.timeouts && x.unrecovered == s.unrecovered
    && x.dropped == s.dropped && x.recoveredDrafts == s.recoveredDrafts
  }

  /** The tables after a lifecycle was set aside, with or without its handler. */
  function SetAsideIn(x: Tables, p: string, life: Lifecycle, handler: bool): Tables {
    x.(pending := x.pending[p := life],
       handlers := if handler then x.handlers + {p} else x.handlers - {p},
       sidecar := x.sidecar[p := life])
  }

  /** The tables after a pass was cleared. */
  function ClearedIn(x: Tables, p: string): Tables {
    x.(pending := x.pending - {p}, handlers := x.handlers - {p}, sidecar := x.sidecar - {p})
  }

  /** How a submitter goes on after a complete re-apply. */
  function AnswerTo(didWork: bool, full: bool): Waiter {
    if didWork then Recovered else if full then Dropped else Waiting
  }

  /** The tables after a complete re-apply. */
  function RecoveredIn(x: Tables, job: Job, didWork: bool, full: bool): Tables {
    var c := ClearedIn(x, job.pass);
    if didWork then c.(recoveredDrafts := c.recoveredDrafts + job.drafts)
    else if full then c.(dropped := c.dropped + 1)
    else c
  }

  /** The objects of different calls are different ones. */
  ghost predicate Owned(e: Entry, id: nat) {
    e.job.id == e.done.id == e.out.id == id
  }

  /** Queue and in-flight table refer to the objects of the calls that the protocol names. */
  ghost predicate Linked(s: State, calls: map<nat, Entry>, queue: seq<Entry>, inFlight: map<string, DoneEvent>) {
    && (forall i :: i in calls <==> i in s.jobs)
    && (forall i | i in calls :: Owned(calls[i], i))
    && |queue| == |s.queue|
    && (forall k | 0 <= k < |queue| :: s.queue[k] in calls && queue[k] == calls[s.queue[k]])
    && (!s.worker.Idle? ==> s.worker.id in calls)
    && (forall p :: p in inFlight <==> p in s.inFlight)
    && forall p | p in inFlight :: s.inFlight[p] in calls && inFlight[p] == calls[s.inFlight[p]].done
  }

  ghost predicate Ties(s: State, calls: map<nat, Entry>, queue: seq<Entry>, inFlight: map<string, DoneEvent>,
                       x: Tables) {
    Inv(s) && Linked(s, calls, queue, inFlight) && Mirrors(s, x)
  }

  /** A step that changes nothing the objects of a call hold. */
  ghost predicate Unseen(s: State, t: State, calls: map<nat, Entry>) {
    forall i | i in calls :: i in s.jobs && i in t.jobs && ShownOf(t.jobs[i]) == ShownOf(s.jobs[i])
  }

  /** A step that changes what the objects of one call hold. */
  ghost predicate Redrawn(s: State, t: State, calls: map<nat, Entry>, id: nat, y: Shown) {
    && id in calls && Owned(calls[id], id) && id in t.jobs && ShownOf(t.jobs[id]) == y
    && forall i | i in calls && i != id ::
         && i in s.jobs && i in t.jobs && ShownOf(t.jobs[i]) == ShownOf(s.jobs[i])
         && calls[i].job.id != id && calls[i].done.id != id && calls[i].out.id != id
  }

  // ---------- the steps of the process and the worker, on values ----------

  lemma CallIsRecorded(s: State, calls: map<nat, Entry>, queue: seq<Entry>, inFlight: map<string, DoneEvent>, x: Tables)
    requires Ties(s, calls, queue, inFlight, x)
    ensures forall i :: i in calls <==> i in s.jobs
    ensures !s.worker.Idle? ==> s.worker.id in calls
  {
    hide Inv;
  }

  /** Records may change: the links stay while queue and in-flight table do and the worker keeps its batch or rests. */
  lemma StillLinked(s: State, t: State, calls: map<nat, Entry>, queue: seq<Entry>, inFlight: map<string, DoneEvent>)
    requires Linked(s, calls, queue, inFlight)
    requires (forall i :: i in t.jobs <==> i in s.jobs) && t.queue == s.queue && t.inFlight == s.inFlight
    requires t.worker.Idle? || (!s.worker.Idle? && t.worker.id == s.worker.id)
    ensures Linked(t, calls, queue, inFlight)
  {
  }

  lemma AllOwned(s: State, calls: map<nat, Entry>, queue: seq<Entry>, inFlight: map<string, DoneEvent>)
    requires Linked(s, calls, queue, inFlight)
    ensures forall i | i in calls :: Owned(calls[i], i)
  {
  }

  lemma CrashStep(s: State, calls: map<nat, Entry>, queue: seq<Entry>, inFlight: map<string, DoneEvent>, x: Tables)
    requires Ties(s, calls, queue, inFlight, x)
    ensures Ties(CrashNext(s), map[], [], map[], Tables(map[], {}, {}, x.sidecar, 0, 0, 0, 0))
  {
    hide Inv;
    CrashKeeps(s);
  }

  lemma HydrateStep(s: State, calls: map<nat, Entry>, queue: seq<Entry>, inFlight: map<string, DoneEvent>, x: Tables)
    requires Ties(s, calls, queue, inFlight, x)
    ensures var t := WriterProtocol.Hydrate(s);
            Ties(t, calls, queue, inFlight, x.(pending := x.sidecar + x.pending)) && Unseen(s, t, calls)
  {
    hide Inv;
    HydrateKeeps(s);
  }

  lemma TimeoutShape(s: State, id: nat)
    requires id in s.jobs && (s.jobs[id].out.NoOutput? ==> !s.jobs[id].deferred)
    ensures var t, y := TimeoutNext(s, id), ShownOf(s.jobs[id]);
            && (forall i :: i in t.jobs <==> i in s.jobs) && t.queue == s.queue && t.inFlight == s.inFlight
            && t.worker == s.worker && (forall i | i in s.jobs && i != id :: t.jobs[i] == s.jobs[i])
            && ShownOf(t.jobs[id]) ==
                 (if y.out.NoOutput?
                  then y.(timedOut := true, deferred := y.deferred || y.job.lifecycle.Some?) else y)
            && t.jobs[id].waiter ==
                 match y.out case NoOutput => TimedOut case Error => GotError case Result => GotResult
  {
  }

  lemma TimeoutTables(s: State, id: nat, x: Tables)
    requires id in s.jobs && Mirrors(s, x)
    ensures Mirrors(TimeoutNext(s, id), if ShownOf(s.jobs[id]).out.NoOutput? then x.(timeouts := x.timeouts + 1) else x)
  {
  }

  lemma TimeoutSeen(s: State, id: nat, calls: map<nat, Entry>)
    requires id in s.jobs && (s.jobs[id].out.NoOutput? ==> !s.jobs[id].deferred)
    requires id in calls && (forall i :: i in calls <==> i in s.jobs) && forall i | i in calls :: Owned(calls[i], i)
    ensures var t, y := TimeoutNext(s, id), ShownOf(s.jobs[id]);
            if y.out.NoOutput?
            then Redrawn(s, t, calls, id, y.(timedOut := true, deferred := y.deferred || y.job.lifecycle.Some?))
            else Unseen(s, t, calls)
  {
    hide TimeoutNext;
    TimeoutShape(s, id);
    hide ShownOf;
  }

  lemma TimeoutStep(s: State, id: nat, calls: map<nat, Entry>, queue: seq<Entry>, inFlight: map<string, DoneEvent>,
                    x: Tables)
    requires Ties(s, calls, queue, inFlight, x) && id in calls && id in s.jobs && s.jobs[id].waiter.Waiting?
    ensures var t, y := TimeoutNext(s, id), ShownOf(s.jobs[id]);
            if y.out.NoOutput?
            then Ties(t, calls, queue, inFlight, x.(timeouts := x.timeouts + 1))
                 && Redrawn(s, t, calls, id, y.(timedOut := true, deferred := y.deferred || y.job.lifecycle.Some?))
            else Ties(t, calls, queue, inFlight, x) && Unseen(s, t, calls)
    ensures var t, y := TimeoutNext(s, id), ShownOf(s.jobs[id]);
            t.jobs[id].waiter == match y.out case NoOutput => TimedOut case Error => GotError case Result => GotResult
  {
    CallIsRecorded(s, calls, queue, inFlight, x);
    UntouchedFlags(s, id);
    AllOwned(s, calls, queue, inFlight);
    hide Inv, Linked, Mirrors, TimeoutNext, Redrawn, Unseen;
    TimeoutShape(s, id);
    hide ShownOf, Owned;
    TimeoutKeeps(s, id);
    TimeoutTables(s, id, x);
    TimeoutSeen(s, id, calls);
    StillLinked(s, TimeoutNext(s, id), calls, queue, inFlight);
  }

  lemma ObserveStep(s: State, id: nat, calls: map<nat, Entry>, queue: seq<Entry>, inFlight: map<string, DoneEvent>,
                    x: Tables)
    requires Ties(s, calls, queue, inFlight, x) && id in calls && id in s.jobs && s.jobs[id].waiter.Waiting?
    requires ShownOf(s.jobs[id]).done
    ensures var t, y := ObserveNext(s, id), ShownOf(s.jobs[id]);
            && Ties(t, calls, queue, inFlight, x) && Unseen(s, t, calls) && !y.out.NoOutput?
            && t.jobs[id].waiter == if y.out.Error? then GotError else GotResult
  {
    hide Inv;
    ObserveKeeps(s, id);
    UntouchedFlags(s, id);
  }

  lemma TakeStep(s: State, calls: map<nat, Entry>, queue: seq<Entry>, inFlight: map<string, DoneEvent>, x: Tables)
    requires Ties(s, calls, queue, inFlight, x) && s.worker.Idle? && queue != []
    ensures s.queue != [] && s.queue[0] in calls && queue[0] == calls[s.queue[0]]
    ensures Ties(TakeNext(s), calls, queue[1..], inFlight, x) && Unseen(s, TakeNext(s), calls)
  {
    hide Inv;
    TakeKeeps(s);
  }

  lemma WriteStep(s: State, ok: bool, calls: map<nat, Entry>, queue: seq<Entry>, inFlight: map<string, DoneEvent>,
                  x: Tables)
    requires Ties(s, calls, queue, inFlight, x) && s.worker.Writing?
    ensures s.worker.id in s.jobs
    ensures var t, y := WriteNext(s, ok), ShownOf(s.jobs[s.worker.id]);
            && Ties(t, calls, queue, inFlight, x)
            && Redrawn(s, t, calls, s.worker.id, y.(out := if ok then Result else Error))
  {
    hide Inv;
    WriteKeeps(s, ok);
  }

  lemma CountFailureStep(s: State, calls: map<nat, Entry>, queue: seq<Entry>, inFlight: map<string, DoneEvent>,
                         x: Tables)
    requires Ties(s, calls, queue, inFlight, x) && s.worker.Failing?
    ensures s.worker.id in s.jobs
    ensures var t, y := CountFailureNext(s), ShownOf(s.jobs[s.worker.id]);
            && Ties(t, calls, queue, inFlight, if y.timedOut || y.deferred then x.(unrecovered := x.unrecovered + 1)
                else x)
            && Unseen(s, t, calls)
  {
    hide Inv;
    CountFailureKeeps(s);
  }

  /** A step that touches neither queue nor in-flight table, and no record in what its objects hold. */
  ghost predicate Quiet(s: State, t: State) {
    && t.queue == s.queue && t.inFlight == s.inFlight && (forall i :: i in t.jobs <==> i in s.jobs)
    && forall i | i in s.jobs :: ShownOf(t.jobs[i]) == ShownOf(s.jobs[i])
  }

  lemma QuietRecord(s: State, id: nat, r: Record)
    requires id in s.jobs && ShownOf(r) == ShownOf(s.jobs[id])
    ensures Quiet(s, SetRecord(s, id, r)) && SetRecord(s, id, r).worker == s.worker
  {
    hide ShownOf;
  }

  lemma QuietSticky(s: State, p: string, life: Lifecycle, handler: bool)
    ensures Quiet(s, RecordSticky(s, p, life, handler)) && RecordSticky(s, p, life, handler).worker == s.worker
    ensures RecordSticky(s, p, life, handler).jobs == s.jobs
    ensures Quiet(s, ClearSticky(s, p)) && ClearSticky(s, p).worker == s.worker
  {
    hide ShownOf;
  }

  lemma QuietTwice(s: State, t: State, u: State)
    requires Quiet(s, t) && Quiet(t, u)
    ensures Quiet(s, u)
  {
    hide ShownOf;
  }

  /** The worker moves, one record changes unseen and one pass is recorded or cleared, in either order. */
  lemma QuietMove(s: State, w: Worker, id: nat, r: Record, p: string, life: Lifecycle, handler: bool)
    requires id in s.jobs && ShownOf(r) == ShownOf(s.jobs[id])
    ensures var u := s.(worker := w);
            && Quiet(s, u) && Quiet(s, SetRecord(u, id, r)) && Quiet(s, ClearSticky(SetRecord(u, id, r), p))
            && Quiet(s, SetRecord(RecordSticky(u, p, life, handler), id, r))
            && SetRecord(u, id, r).worker == ClearSticky(SetRecord(u, id, r), p).worker == w
            && SetRecord(RecordSticky(u, p, life, handler), id, r).worker == w
  {
    hide ShownOf, SetRecord, RecordSticky, ClearSticky;
    var u := s.(worker := w);
    var v := RecordSticky(u, p, life, handler);
    assert Quiet(s, u);
    QuietRecord(u, id, r);
    QuietSticky(SetRecord(u, id, r), p, life, handler);
    QuietSticky(u, p, life, handler);
    QuietRecord(v, id, r);
    hide Quiet;
    QuietTwice(s, u, SetRecord(u, id, r));
    QuietTwice(s, SetRecord(u, id, r), ClearSticky(SetRecord(u, id, r), p));
    QuietTwice(s, u, v);
    QuietTwice(s, v, SetRecord(v, id, r));
  }

  /** What a claim does besides the tables. */
  lemma ClaimShape(s: State)
    requires s.worker.Wrote? && s.worker.id in s.jobs
    ensures var t, r := ClaimNext(s), s.jobs[s.worker.id];
            && Quiet(s, t)
            && t.worker == (if r.job.lifecycle.None? || !r.job.lifecycle.value.HasOps() || !r.deferred
                then Ending(s.worker.id)
                            else if r.job.hasHandler then Applying(s.worker.id) else Idle)
  {
    var id := s.worker.id;
    var r := s.jobs[id];
    assert ShownOf(r.(workerOwns := true, fate := SetAside)) == ShownOf(r.(workerOwns := true)) == ShownOf(r);
    var life := if r.job.lifecycle.Some? then r.job.lifecycle.value else Lifecycle([], [], []);
    hide ShownOf, SetRecord, RecordSticky, ClearSticky, Quiet;
    QuietMove(s, Ending(id), id, r, r.job.pass, life, false);
    QuietMove(s, Applying(id), id, r.(workerOwns := true), r.job.pass, life, false);
    QuietMove(s, Idle, id, r.(workerOwns := true, fate := SetAside), r.job.pass, life, false);
  }

  lemma ClaimTables(s: State, x: Tables)
    requires s.worker.Wrote? && s.worker.id in s.jobs && Mirrors(s, x)
    ensures var t, r := ClaimNext(s), s.jobs[s.worker.id];
            Mirrors(t, if t.worker.Idle? && r.job.lifecycle.Some?
                       then SetAsideIn(x, r.job.pass, r.job.lifecycle.value, false) else x)
  {
  }

  lemma ClaimStep(s: State, calls: map<nat, Entry>, queue: seq<Entry>, inFlight: map<string, DoneEvent>, x: Tables)
    requires Ties(s, calls, queue, inFlight, x) && s.worker.Wrote?
    ensures s.worker.id in s.jobs
    ensures var t, y := ClaimNext(s), ShownOf(s.jobs[s.worker.id]);
            var p, life := y.job.pass, y.job.lifecycle;
            && Unseen(s, t, calls)
            && (if life.None? || !life.value.HasOps() || !y.deferred
                then t.worker == Ending(s.worker.id) && Ties(t, calls, queue, inFlight, x)
                else if y.job.hasHandler
                then t.worker == Applying(s.worker.id) && Ties(t, calls, queue, inFlight, x)
                else t.worker.Idle? && Ties(t, calls, queue, inFlight, SetAsideIn(x, p, life.value, false)))
  {
    CallIsRecorded(s, calls, queue, inFlight, x);
    hide Inv, Linked, Mirrors, ClaimNext, SetAsideIn;
    ClaimKeeps(s);
    ClaimShape(s);
    ClaimTables(s, x);
    StillLinked(s, ClaimNext(s), calls, queue, inFlight);
  }

  /** What the end of a deferred apply does besides the tables. */
  lemma ReportShape(s: State, outcome: HandlerOutcome)
    requires s.worker.Applying? && s.worker.id in s.jobs && s.jobs[s.worker.id].job.lifecycle.Some?
    ensures var t, r := ReportNext(s, outcome), s.jobs[s.worker.id];
            && Quiet(s, t)
            && t.worker == (if Verdict(outcome, r.job.lifecycle.value).complete then Ending(s.worker.id) else Idle)
  {
    var id := s.worker.id;
    var r := s.jobs[id];
    assert ShownOf(r.(fate := Applied)) == ShownOf(r.(fate := SetAside)) == ShownOf(r);
    hide ShownOf, SetRecord, RecordSticky, ClearSticky, Verdict, Quiet;
    QuietMove(s, Ending(id), id, r.(fate := Applied), r.job.pass, r.job.lifecycle.value, true);
    QuietMove(s, Idle, id, r.(fate := SetAside), r.job.pass, r.job.lifecycle.value, true);
  }

  lemma ReportTables(s: State, outcome: HandlerOutcome, x: Tables)
    requires s.worker.Applying? && s.worker.id in s.jobs && s.jobs[s.worker.id].job.lifecycle.Some? && Mirrors(s, x)
    ensures var t, r := ReportNext(s, outcome), s.jobs[s.worker.id];
            Mirrors(t, if t.worker.Idle? then SetAsideIn(x, r.job.pass, r.job.lifecycle.value, true)
                       else ClearedIn(x, r.job.pass))
  {
    hide Verdict;
  }

  lemma ReportStep(s: State, outcome: HandlerOutcome, calls: map<nat, Entry>, queue: seq<Entry>,
                   inFlight: map<string, DoneEvent>, x: Tables)
    requires Ties(s, calls, queue, inFlight, x) && s.worker.Applying? && s.worker.id in s.jobs
    requires s.jobs[s.worker.id].job.lifecycle.Some?
    ensures var t, y := ReportNext(s, outcome), ShownOf(s.jobs[s.worker.id]);
            var p, life := y.job.pass, y.job.lifecycle.value;
            && Unseen(s, t, calls)
            && (if Verdict(outcome, life).complete
                then t.worker == Ending(s.worker.id) && Ties(t, calls, queue, inFlight, ClearedIn(x, p))
                else t.worker.Idle? && Ties(t, calls, queue, inFlight, SetAsideIn(x, p, life, true)))
  {
    CallIsRecorded(s, calls, queue, inFlight, x);
    hide Inv, Linked, Mirrors, ReportNext, SetAsideIn, ClearedIn, Verdict;
    ReportKeeps(s, outcome);
    ReportShape(s, outcome);
    ReportTables(s, outcome, x);
    StillLinked(s, ReportNext(s, outcome), calls, queue, inFlight);
  }

  lemma EndStep(s: State, calls: map<nat, Entry>, queue: seq<Entry>, inFlight: map<string, DoneEvent>, x: Tables)
    requires Ties(s, calls, queue, inFlight, x) && s.worker.Ending?
    ensures s.worker.id in s.jobs
    ensures var t, y := EndNext(s), ShownOf(s.jobs[s.worker.id]);
            Ties(t, calls, queue, inFlight, x) && Redrawn(s, t, calls, s.worker.id, y.(done := true))
  {
    hide Inv;
    EndKeeps(s);
  }

  lemma ReleaseStep(s: State, id: nat, calls: map<nat, Entry>, queue: seq<Entry>, inFlight: map<string, DoneEvent>,
                    x: Tables)
    requires Ties(s, calls, queue, inFlight, x) && id in calls && id in s.jobs && s.jobs[id].waiter.Releasing?
    ensures var t := ReleaseNext(s, id);
            && Ties(t, calls, queue, inFlight, x.(reapplying := x.reapplying - {ShownOf(s.jobs[id]).job.pass}))
            && Unseen(s, t, calls)
  {
    hide Inv;
    ReleaseKeeps(s, id);
  }

  lemma UntouchedFlags(s: State, id: nat)
    requires Inv(s) && id in s.jobs
    ensures s.jobs[id].waiter.Waiting? ==> !s.jobs[id].deferred && !s.jobs[id].timedOut
    ensures s.jobs[id].done ==> !s.jobs[id].out.NoOutput?
  {
    assert RecordOk(s.worker, id in s.queue, id, s.jobs[id]);
  }

  // ---------- the steps of a submitter, on values ----------

  /** What the objects of a call hold when it begins. */
  function Blank(job: Job): Shown {
    Shown(job, NoOutput, false, false, false)
  }

  /** A step that adds a call and changes nothing the objects of the others hold. */
  ghost predicate Joined(s: State, t: State, calls: map<nat, Entry>, id: nat, job: Job) {
    && id !in calls && id in t.jobs && ShownOf(t.jobs[id]) == Blank(job)
    && Unseen(s, t, calls)
  }

  /** The event that holds a pass, if one does. */
  lemma Holder(s: State, calls: map<nat, Entry>, queue: seq<Entry>, inFlight: map<string, DoneEvent>, x: Tables,
               p: string)
    requires Ties(s, calls, queue, inFlight, x)
    ensures p in inFlight <==> p in s.inFlight
    ensures p in inFlight ==>
              var q := s.inFlight[p];
              q in calls && q in s.jobs && inFlight[p] == calls[q].done
                  && (InFlight(s, p) <==> !ShownOf(s.jobs[q]).done)
    ensures p !in inFlight ==> !InFlight(s, p)
  {
    hide Inv;
  }

  lemma LinkedWithOne(s: State, t: State, id: nat, calls: map<nat, Entry>, queue: seq<Entry>,
                      inFlight: map<string, DoneEvent>, e: Entry)
    requires Linked(s, calls, queue, inFlight) && id !in s.jobs && Owned(e, id)
    requires (forall i :: i in t.jobs <==> i in s.jobs || i == id) && t.worker == s.worker
    requires t.queue == s.queue && t.inFlight == s.inFlight
    ensures Linked(t, calls[id := e], queue, inFlight)
  {
  }

  /** The call, new or known, is queued and holds its pass. */
  lemma LinkedInQueue(s: State, t: State, id: nat, p: string, calls: map<nat, Entry>, queue: seq<Entry>,
                      inFlight: map<string, DoneEvent>, e: Entry)
    requires Linked(s, calls, queue, inFlight) && Owned(e, id) && (id in calls ==> calls[id] == e)
    requires (forall i :: i in t.jobs <==> i in s.jobs || i == id) && t.worker == s.worker
    requires t.queue == s.queue + [id] && t.inFlight == s.inFlight[p := id]
    ensures Linked(t, calls[id := e], queue + [e], inFlight[p := e.done])
  {
  }

  lemma RefuseStep(s: State, id: nat, job: Job, calls: map<nat, Entry>, queue: seq<Entry>,
                   inFlight: map<string, DoneEvent>, x: Tables, e: Entry)
    requires Ties(s, calls, queue, inFlight, x) && id !in s.jobs && Owned(e, id)
    ensures var t := SubmitNext(s, id, job, false);
            && Ties(t, calls[id := e], queue, inFlight, x) && Joined(s, t, calls, id, job)
            && t.jobs[id].waiter == Refused
  {
    hide Inv;
    SubmitKeeps(s, id, job, false);
    hide Linked;
    LinkedWithOne(s, SubmitNext(s, id, job, false), id, calls, queue, inFlight, e);
    CallIsRecorded(s, calls, queue, inFlight, x);
  }

  lemma AdmitShape(s: State, id: nat, job: Job)
    requires id !in s.jobs
    ensures var t, p := AdmitNext(s, id, job), job.pass;
            && (forall i :: i in t.jobs <==> i in s.jobs || i == id) && t.worker == s.worker
            && (forall i | i in s.jobs :: t.jobs[i] == s.jobs[i])
            && ShownOf(t.jobs[id]) == Blank(job)
            && (if p in s.pending || InFlight(s, p) || |s.queue| >= WRITER_QUEUE_MAX
                then t.queue == s.queue && t.inFlight == s.inFlight
                else t.queue == s.queue + [id] && t.inFlight == s.inFlight[p := id])
  {
    var w := AdmitRecord(s, id, job);
    FreshIsBlank(job, w);
    AdmitQueue(s, id, job);
    hide ShownOf, InFlight, AdmitNext, Fresh, Blank;
  }

  lemma AdmitQueue(s: State, id: nat, job: Job)
    ensures var t, p := AdmitNext(s, id, job), job.pass;
            && t.worker == s.worker
            && (if p in s.pending || InFlight(s, p) || |s.queue| >= WRITER_QUEUE_MAX
                then t.queue == s.queue && t.inFlight == s.inFlight
                else t.queue == s.queue + [id] && t.inFlight == s.inFlight[p := id])
  {
    FreshIsBlank(job, Waiting);
    hide InFlight, Fresh, ShownOf, Blank;
  }

  lemma FreshIsBlank(job: Job, w: Waiter)
    ensures ShownOf(Fresh(job, w)) == Blank(job) && Fresh(job, w).job == job
  {
  }

  lemma AdmitRecord(s: State, id: nat, job: Job) returns (w: Waiter)
    ensures AdmitNext(s, id, job).jobs == s.jobs[id := Fresh(job, w)]
  {
    hide InFlight, Fresh;
    var p := job.pass;
    w := if p in s.pending then
        if p in s.reapplying || !(job.hasHandler || p in s.handlers) then Refused else Reapplying(s.pending[p])
      else if InFlight(s, p) then Refused else if |s.queue| >= WRITER_QUEUE_MAX then Dropped else Waiting;
  }

  /** The answer and the tables, for a pass with a pending lifecycle and for one without. */
  lemma AdmitTables(s: State, id: nat, job: Job, x: Tables)
    requires id !in s.jobs && Mirrors(s, x)
    ensures var t, p := AdmitNext(s, id, job), job.pass;
            && id in t.jobs
            && var w := t.jobs[id].waiter;
            if p in x.pending then
              if p in x.reapplying || !(job.hasHandler || p in x.handlers) then w == Refused && Mirrors(t, x)
              else w == Reapplying(x.pending[p]) && Mirrors(t, x.(reapplying := x.reapplying + {p}))
            else if InFlight(s, p) then w == Refused && Mirrors(t, x)
            else if |s.queue| >= WRITER_QUEUE_MAX then w == Dropped && Mirrors(t, x.(dropped := x.dropped + 1))
            else w == Waiting && Mirrors(t, x)
  {
    hide InFlight;
    if job.pass in s.pending {
      AdmitPending(s, id, job, x);
    } else {
      AdmitFree(s, id, job, x);
    }
    hide AdmitNext, Fresh;
  }

  lemma AdmitPending(s: State, id: nat, job: Job, x: Tables)
    requires id !in s.jobs && Mirrors(s, x) && job.pass in s.pending
    ensures var t, p := AdmitNext(s, id, job), job.pass;
            id in t.jobs &&
            if p in x.reapplying || !(job.hasHandler || p in x.handlers)
            then t.jobs[id].waiter == Refused && Mirrors(t, x)
            else t.jobs[id].waiter == Reapplying(x.pending[p]) && Mirrors(t, x.(reapplying := x.reapplying + {p}))
  {
  }

  lemma AdmitFree(s: State, id: nat, job: Job, x: Tables)
    requires id !in s.jobs && Mirrors(s, x) && job.pass !in s.pending
    ensures var t, p := AdmitNext(s, id, job), job.pass;
            id in t.jobs && var w := t.jobs[id].waiter;
            if InFlight(s, p) then w == Refused && Mirrors(t, x)
            else if |s.queue| >= WRITER_QUEUE_MAX then w == Dropped && Mirrors(t, x.(dropped := x.dropped + 1))
            else w == Waiting && Mirrors(t, x)
  {
    hide InFlight;
  }

  lemma AdmitStep(s: State, id: nat, job: Job, calls: map<nat, Entry>, queue: seq<Entry>,
                  inFlight: map<string, DoneEvent>, x: Tables, e: Entry)
    requires Ties(s, calls, queue, inFlight, x) && s.hydrated && id !in s.jobs && Owned(e, id)
    ensures var t, p, more := AdmitNext(s, id, job), job.pass, calls[id := e];
            && Joined(s, t, calls, id, job)
            && var w := t.jobs[id].waiter;
            if p in x.pending then
              if p in x.reapplying || !(job.hasHandler || p in x.handlers)
              then w == Refused && Ties(t, more, queue, inFlight, x)
              else w == Reapplying(x.pending[p]) && Ties(t, more, queue, inFlight, x.(reapplying := x.reapplying + {p}))
            else if InFlight(s, p) then w == Refused && Ties(t, more, queue, inFlight, x)
            else if |queue| >= WRITER_QUEUE_MAX
            then w == Dropped && Ties(t, more, queue, inFlight, x.(dropped := x.dropped + 1))
            else w == Waiting && Ties(t, more, queue + [e], inFlight[p := e.done], x)
  {
    CallIsRecorded(s, calls, queue, inFlight, x);
    SameTables(s, calls, queue, inFlight, x);
    hide Inv, Linked, Mirrors, AdmitNext, ShownOf, Blank;
    AdmitKeeps(s, id, job);
    AdmitShape(s, id, job);
    AdmitTables(s, id, job, x);
    if job.pass in s.pending || InFlight(s, job.pass) || |s.queue| >= WRITER_QUEUE_MAX {
      LinkedWithOne(s, AdmitNext(s, id, job), id, calls, queue, inFlight, e);
    } else {
      LinkedInQueue(s, AdmitNext(s, id, job), id, job.pass, calls, queue, inFlight, e);
    }
  }

  lemma SameTables(s: State, calls: map<nat, Entry>, queue: seq<Entry>, inFlight: map<string, DoneEvent>, x: Tables)
    requires Ties(s, calls, queue, inFlight, x)
    ensures x.pending == s.pending && x.handlers == s.handlers && x.reapplying == s.reapplying && |queue| == |s.queue|
  {
    hide Inv;
  }

  /** The entry that a submitter re-applies is in memory and on disk as it claimed it. */
  lemma HeldEntry(s: State, id: nat, calls: map<nat, Entry>, queue: seq<Entry>, inFlight: map<string, DoneEvent>,
                  x: Tables)
    requires Ties(s, calls, queue, inFlight, x) && id in s.jobs && s.jobs[id].waiter.Reapplying?
    ensures var p, life := s.jobs[id].job.pass, s.jobs[id].waiter.life;
            p in x.pending && x.pending[p] == life && p in x.sidecar && x.sidecar[p] == life
  {
    hide Linked, QueueOk, AllLiveOk, FlightOk, ClaimsOwned, RecordsOk, CountersOk, LogOk;
    assert s.hydrated;
  }

  /** A re-apply that raised or fell short: the entry stays, on disk as well, and the submitter is refused. */
  lemma FailedStep(s: State, id: nat, outcome: HandlerOutcome, calls: map<nat, Entry>, queue: seq<Entry>,
                   inFlight: map<string, DoneEvent>, x: Tables)
    requires Ties(s, calls, queue, inFlight, x) && id in calls && id in s.jobs && s.jobs[id].waiter.Reapplying?
    requires outcome.Raises? || !Verdict(outcome, s.jobs[id].waiter.life).complete
    ensures var t, p, life := FinishReapplyNext(s, id, outcome), s.jobs[id].job.pass, s.jobs[id].waiter.life;
            && Unseen(s, t, calls) && t.jobs[id].waiter == Releasing(Refused)
            && Ties(t, calls, queue, inFlight,
                    if !outcome.Raises? then SetAsideIn(x, p, life, true)
                    else if p in x.pending then x.(sidecar := x.sidecar[p := x.pending[p]]) else x)
  {
    CallIsRecorded(s, calls, queue, inFlight, x);
    hide Inv, Linked, Mirrors, FinishReapplyNext, Verdict, SetAsideIn;
    FinishReapplyKeeps(s, id, outcome);
    FailedShape(s, id, outcome);
    FailedTables(s, id, outcome, x);
    StillLinked(s, FinishReapplyNext(s, id, outcome), calls, queue, inFlight);
  }

  lemma FailedShape(s: State, id: nat, outcome: HandlerOutcome)
    requires id in s.jobs && s.jobs[id].waiter.Reapplying?
    requires outcome.Raises? || !Verdict(outcome, s.jobs[id].waiter.life).complete
    ensures var t := FinishReapplyNext(s, id, outcome);
            && Quiet(s, t) && t.worker == s.worker && t.jobs[id].waiter == Releasing(Refused)
  {
    var r := s.jobs[id];
    var q := r.(waiter := Releasing(Refused));
    assert ShownOf(q) == ShownOf(r);
    hide ShownOf, RecordSticky, Verdict, Quiet;
    QuietMove(s, s.worker, id, q, r.job.pass, r.waiter.life, true);
    if r.job.pass in s.pending {
      QuietMove(s, s.worker, id, q, r.job.pass, s.pending[r.job.pass], r.job.pass in s.handlers);
    }
    assert s.(worker := s.worker) == s;
  }

  lemma FailedTables(s: State, id: nat, outcome: HandlerOutcome, x: Tables)
    requires id in s.jobs && s.jobs[id].waiter.Reapplying? && Mirrors(s, x)
    requires outcome.Raises? || !Verdict(outcome, s.jobs[id].waiter.life).complete
    ensures var t, p, life := FinishReapplyNext(s, id, outcome), s.jobs[id].job.pass, s.jobs[id].waiter.life;
            Mirrors(t, if !outcome.Raises? then SetAsideIn(x, p, life, true)
                       else if p in x.pending then x.(sidecar := x.sidecar[p := x.pending[p]]) else x)
  {
    hide Verdict;
    var p := s.jobs[id].job.pass;
    if outcome.Raises? && p in s.pending {
      assert s.pending[p := s.pending[p]] == s.pending;
      assert (if p in s.handlers then s.handlers + {p} else s.handlers - {p}) == s.handlers;
    }
  }

  lemma FreePassShape(s: State, p: string)
    requires p in s.inFlight ==> s.inFlight[p] in s.jobs
    ensures var f := FreePass(s, p);
            && (forall i :: i in f.jobs <==> i in s.jobs)
            && (forall i | i in s.jobs && !(InFlight(s, p) && i == s.inFlight[p]) :: f.jobs[i] == s.jobs[i])
            && (InFlight(s, p) ==> (
                  && p in s.inFlight && s.inFlight[p] in s.jobs
                  && ShownOf(f.jobs[s.inFlight[p]]) == ShownOf(s.jobs[s.inFlight[p]]).(done := true)))
            && f.queue == s.queue && f.inFlight == s.inFlight && f.worker == s.worker
  {
  }

  lemma RecoverRecord(s: State, id: nat, didWork: bool) returns (w: Waiter)
    requires id in s.jobs
    ensures var t, p := RecoverNext(s, id, didWork), s.jobs[id].job.pass;
            var f := FreePass(s, p);
            && w == (if didWork then Recovered else if |f.queue| >= WRITER_QUEUE_MAX then Dropped else Waiting)
            && t.jobs == f.jobs[id := s.jobs[id].(waiter := Releasing(w))] && t.worker == f.worker
            && (if w.Waiting? then t.queue == f.queue + [id] && t.inFlight == f.inFlight[p := id]
                else t.queue == f.queue && t.inFlight == f.inFlight)
  {
    hide FreePass;
    var f := FreePass(s, s.jobs[id].job.pass);
    w := if didWork then Recovered else if |f.queue| >= WRITER_QUEUE_MAX then Dropped else Waiting;
  }

  lemma SameShown(r: Record, w: Waiter)
    ensures ShownOf(r.(waiter := w)) == ShownOf(r)
  {
  }

  /** What setting the held event, clearing the entry and answering do to records, queue and in-flight table. */
  lemma RecoverShape(s: State, id: nat, didWork: bool)
    requires id in s.jobs && s.jobs[id].waiter.Reapplying?
    requires forall p | p in s.inFlight :: s.inFlight[p] in s.jobs && s.inFlight[p] != id
    ensures var t, p := RecoverNext(s, id, didWork), s.jobs[id].job.pass;
            && (forall i :: i in t.jobs <==> i in s.jobs) && t.worker == s.worker
            && (forall i | i in s.jobs && !(InFlight(s, p) && i == s.inFlight[p]) ::
                  ShownOf(t.jobs[i]) == ShownOf(s.jobs[i]))
            && (InFlight(s, p) ==> ShownOf(t.jobs[s.inFlight[p]]) == ShownOf(s.jobs[s.inFlight[p]]).(done := true))
            && t.jobs[id].waiter == Releasing(if didWork then Recovered
                                              else if |s.queue| >= WRITER_QUEUE_MAX then Dropped else Waiting)
            && (if didWork || |s.queue| >= WRITER_QUEUE_MAX
                then t.queue == s.queue && t.inFlight == s.inFlight
                else t.queue == s.queue + [id] && t.inFlight == s.inFlight[p := id])
  {
    hide FreePass, ShownOf, InFlight, RecoverNext;
    FreePassShape(s, s.jobs[id].job.pass);
    var w := RecoverRecord(s, id, didWork);
    SameShown(s.jobs[id], Releasing(w));
  }

  lemma RecoverTables(s: State, id: nat, didWork: bool, x: Tables)
    requires id in s.jobs && Mirrors(s, x)
    ensures Mirrors(RecoverNext(s, id, didWork), RecoveredIn(x, s.jobs[id].job, didWork, |s.queue| >= WRITER_QUEUE_MAX))
  {
    FreePassTables(s, s.jobs[id].job.pass, x);
    hide FreePass;
  }

  lemma FreePassTables(s: State, p: string, x: Tables)
    requires Mirrors(s, x)
    ensures Mirrors(FreePass(s, p), x) && FreePass(s, p).queue == s.queue
  {
  }

  lemma HolderIsAnother(s: State, id: nat)
    requires Inv(s) && id in s.jobs && s.jobs[id].waiter.Reapplying?
    ensures forall p | p in s.inFlight :: s.inFlight[p] in s.jobs && s.inFlight[p] != id
  {
    assert FlightOk(s);
    hide Inv, QueueOk, AllLiveOk, RecordOk;
    forall p | p in s.inFlight ensures s.inFlight[p] in s.jobs && s.inFlight[p] != id {
      assert Admitted(s.jobs[s.inFlight[p]]);
    }
  }

  lemma RecoverSeen(s: State, id: nat, didWork: bool, calls: map<nat, Entry>)
    requires (forall i :: i in calls <==> i in s.jobs) && (forall i | i in calls :: Owned(calls[i], i))
    requires id in s.jobs && s.jobs[id].waiter.Reapplying?
    requires forall p | p in s.inFlight :: s.inFlight[p] in s.jobs && s.inFlight[p] != id
    ensures var t, p := RecoverNext(s, id, didWork), s.jobs[id].job.pass;
            if p in s.inFlight
            then s.inFlight[p] in s.jobs && s.inFlight[p] in calls
                 && Redrawn(s, t, calls, s.inFlight[p], ShownOf(s.jobs[s.inFlight[p]]).(done := true))
            else Unseen(s, t, calls)
  {
    hide RecoverNext;
    RecoverShape(s, id, didWork);
    var p := s.jobs[id].job.pass;
    assert p in s.inFlight && !InFlight(s, p) ==>
        ShownOf(s.jobs[s.inFlight[p]]) == ShownOf(s.jobs[s.inFlight[p]]).(done := true);
    hide ShownOf;
  }

  lemma RecoverLinks(s: State, id: nat, didWork: bool, calls: map<nat, Entry>, queue: seq<Entry>,
                     inFlight: map<string, DoneEvent>)
    requires Linked(s, calls, queue, inFlight) && id in s.jobs && s.jobs[id].waiter.Reapplying?
    requires forall p | p in s.inFlight :: s.inFlight[p] in s.jobs && s.inFlight[p] != id
    ensures var t, p := RecoverNext(s, id, didWork), s.jobs[id].job.pass;
            && id in calls && |queue| == |s.queue|
            && if AnswerTo(didWork, |queue| >= WRITER_QUEUE_MAX).Waiting?
               then Linked(t, calls, queue + [calls[id]], inFlight[p := calls[id].done])
               else Linked(t, calls, queue, inFlight)
  {
    AllOwned(s, calls, queue, inFlight);
    hide Linked, RecoverNext, ShownOf, InFlight;
    var t := RecoverNext(s, id, didWork);
    RecoverShape(s, id, didWork);
    if didWork || |queue| >= WRITER_QUEUE_MAX {
      StillLinked(s, t, calls, queue, inFlight);
    } else {
      LinkedInQueue(s, t, id, s.jobs[id].job.pass, calls, queue, inFlight, calls[id]);
      assert calls[id := calls[id]] == calls;
    }
  }

  /** A complete re-apply: the held event is set, the entry goes, and a no-op frees the way for this job. */
  lemma RecoverStep(s: State, id: nat, outcome: HandlerOutcome, calls: map<nat, Entry>, queue: seq<Entry>,
                    inFlight: map<string, DoneEvent>, x: Tables)
    requires Ties(s, calls, queue, inFlight, x) && id in calls && id in s.jobs && s.jobs[id].waiter.Reapplying?
    requires outcome.Returns? && Verdict(outcome, s.jobs[id].waiter.life).complete
    ensures var t, job := FinishReapplyNext(s, id, outcome), s.jobs[id].job;
            var p, didWork := job.pass, Verdict(outcome, s.jobs[id].waiter.life).didWork;
            var w := AnswerTo(didWork, |queue| >= WRITER_QUEUE_MAX);
            && id in t.jobs && t.jobs[id].waiter == Releasing(w)
            && Ties(t, calls, if w.Waiting? then queue + [calls[id]] else queue,
                    if w.Waiting? then inFlight[p := calls[id].done] else inFlight,
                    RecoveredIn(x, job, didWork, |queue| >= WRITER_QUEUE_MAX))
            && (if p in s.inFlight
                then s.inFlight[p] in s.jobs && s.inFlight[p] in calls
                     && Redrawn(s, t, calls, s.inFlight[p], ShownOf(s.jobs[s.inFlight[p]]).(done := true))
                else Unseen(s, t, calls))
            && forall i | i in calls :: Owned(calls[i], i)
  {
    CallIsRecorded(s, calls, queue, inFlight, x);
    HolderIsAnother(s, id);
    AllOwned(s, calls, queue, inFlight);
    hide Inv, Linked, Mirrors, Verdict, ShownOf, RecoverNext, RecoveredIn, AnswerTo, Redrawn, Unseen, Owned, InFlight;
    FinishReapplyKeeps(s, id, outcome);
    var didWork := Verdict(outcome, s.jobs[id].waiter.life).didWork;
    assert FinishReapplyNext(s, id, outcome) == RecoverNext(s, id, didWork);
    hide FinishReapplyNext;
    RecoverSeen(s, id, didWork, calls);
    RecoverLinks(s, id, didWork, calls, queue, inFlight);
    RecoverTables(s, id, didWork, x);
    RecoverAnswer(s, id, didWork);
  }

  lemma RecoverAnswer(s: State, id: nat, didWork: bool)
    requires id in s.jobs && s.jobs[id].waiter.Reapplying?
    requires forall p | p in s.inFlight :: s.inFlight[p] in s.jobs && s.inFlight[p] != id
    ensures var t := RecoverNext(s, id, didWork);
            id in t.jobs && t.jobs[id].waiter == Releasing(AnswerTo(didWork, |s.queue| >= WRITER_QUEUE_MAX))
  {
    hide RecoverNext, ShownOf;
    RecoverShape(s, id, didWork);
  }
}
