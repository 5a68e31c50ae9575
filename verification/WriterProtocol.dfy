/**
  The draft writer of src/minni/afm_writer.py as a state machine.

  One daemon process runs one worker thread and any number of submitting
  threads; every section that the source runs under `_IN_FLIGHT_LOCK`, and
  every unlocked write another thread can observe, is one atomic step. Memory
  is lost on a crash, the vault's sidecar file is not.
*/
module WriterProtocol {
  import opened Wrappers

  const WRITER_QUEUE_MAX: nat := 256

  // ---------- lifecycle payloads and the handler's report ----------

  datatype Lifecycle = Lifecycle(promote: seq<string>, dedup: seq<string>, review: seq<string>) {
    predicate HasOps() {
      promote != [] || dedup != [] || review != []
    }

    function Requested(): nat {
      |promote| + |dedup| + |review|
    }
  }

  /** The `applied` entry a lifecycle handler leaves behind; any of its parts may be missing. */
  datatype ApplyReport =
    | NotADict
    | Report(promoted: nat, deduped: nat, reviewed: nat, errors: int,
             remaining: Option<seq<string>>, requested: Option<nat>)

  datatype HandlerOutcome = Raises | Returns(applied: ApplyReport)

  datatype Completion = Completion(complete: bool, didWork: bool)

  function Terminalized(r: ApplyReport): nat
    requires r.Report?
  {
    r.promoted + r.deduped + r.reviewed
  }

  /** `_lifecycle_apply_complete`. */
  function ApplyComplete(applied: ApplyReport, life: Lifecycle): Completion {
    match applied
    case NotADict => Completion(true, true)
    case Report(_, _, _, errors, remaining, requested) =>
      var terminalized := Terminalized(applied);
      var didWork := terminalized > 0;
      if remaining.Some? then Completion(errors == 0 && remaining.value == [], didWork)
      else
        var wanted := if requested.Some? then requested.value else life.Requested();
        if errors > 0 then Completion(false, didWork)
        else if terminalized == 0 then Completion(true, false)
        else if wanted > 0 && terminalized >= wanted then Completion(true, true)
        else Completion(false, didWork)
  }

  /** A handler that raises counts as incomplete. */
  function Verdict(outcome: HandlerOutcome, life: Lifecycle): Completion {
    if outcome.Raises? then Completion(false, false) else ApplyComplete(outcome.applied, life)
  }

  /** How many candidates the report says were promoted, deduped or reviewed; none if it says nothing at all. */
  function Handled(r: ApplyReport): nat {
    if r.NotADict? then 0 else r.promoted + r.deduped + r.reviewed
  }

  /**
    What a handler has to answer for its lifecycle to be done with: something that is
    no dictionary; or that nothing is still proposed and nothing failed; or, silent
    about what is still proposed, that nothing failed and that it handled either
    nothing or at least the positive number of candidates asked for.
  */
  predicate SaysComplete(outcome: HandlerOutcome, life: Lifecycle) {
    && outcome.Returns?
    && var r := outcome.applied;
    || r.NotADict?
    || (r.remaining == Some([]) && r.errors == 0)
    || (r.remaining.None? && r.errors <= 0 && Handled(r) == 0)
    || (r.remaining.None? && r.errors <= 0 && r.requested.Some? && 0 < r.requested.value <= Handled(r))
    || (r.remaining.None? && r.errors <= 0 && r.requested.None?
        && 0 < |life.promote| + |life.dedup| + |life.review| <= Handled(r))
  }

  /** It also has to answer with a dictionary that counts nothing for the re-apply to be a no-op. */
  predicate SaysNoWork(outcome: HandlerOutcome) {
    outcome.Returns? && outcome.applied.Report? && Handled(outcome.applied) == 0
  }

  /** The verdict of the code, over the fields of every answer a handler can give. */
  lemma VerdictMeans(outcome: HandlerOutcome, life: Lifecycle)
    ensures Verdict(outcome, life).complete <==> SaysComplete(outcome, life)
    ensures outcome.Returns? ==> (Verdict(outcome, life).didWork <==> !SaysNoWork(outcome))
    ensures SaysComplete(outcome, life) ==> outcome.Returns?
  {
  }

  // ---------- state ----------

  /** What a caller hands to `submit_drafts`. */
  datatype Job = Job(pass: string, drafts: nat, lifecycle: Option<Lifecycle>, hasHandler: bool)

  /** Where the submitting thread of a job stands, or how its call ended. */
  datatype Waiter =
    | Reapplying(life: Lifecycle)  // invoking the sticky handler, outside the lock
    | Releasing(after: Waiter)     // about to drop its entry of `_REAPPLYING_LIFECYCLE`
    | Waiting                      // in done.wait(timeout)
    | GotResult                    // its caller is about to apply the lifecycle itself
    | Finished(complete: bool)     // the caller's own apply is over
    | GotError
    | TimedOut
    | Refused                      // write_in_flight
    | Recovered                    // lifecycle_recovered
    | Dropped                      // DraftQueueFull

  datatype Output = NoOutput | Result | Error

  /** What has become of a batch's lifecycle: nothing yet, recorded as sticky and not applied since, or applied. */
  datatype Fate = Open | SetAside | Applied

  /** One job together with its `out` dictionary, its event and its flags. */
  datatype Record = Record(
    job: Job, waiter: Waiter, out: Output, done: bool,
    timedOut: bool,     // waiter_timed_out
    deferred: bool,     // defer_lifecycle_to_worker
    workerOwns: bool,   // the worker claimed the lifecycle, or recorded it as sticky
    unrecovered: bool,  // counted in _UNRECOVERED_WRITE_FAILURES
    fate: Fate)

  datatype Worker =
    | Idle
    | Writing(id: nat)
    | Wrote(id: nat)
    | Failing(id: nat)
    | Applying(id: nat)
    | Ending(id: nat)

  datatype Event = Enqueued(pass: string) | Recorded(pass: string) | Cleared(pass: string) | Crashed

  datatype State = State(
    queue: seq<nat>,
    worker: Worker,
    jobs: map<nat, Record>,
    inFlight: map<string, nat>,
    pending: map<string, Lifecycle>,
    handlers: set<string>,     // passes whose sticky entry carries a handler; memory only
    reapplying: set<string>,
    sidecar: map<string, Lifecycle>,
    hydrated: bool,            // this process has read the sidecar at least once
    timeouts: nat,
    unrecovered: nat,
    dropped: nat,
    recoveredDrafts: nat,
    log: seq<Event>)           // what happened so far, across restarts

  const Init := State([], Idle, map[], map[], map[], {}, {}, map[], false, 0, 0, 0, 0, [])

  // ---------- pieces shared by several steps ----------

  /** `_hydrate_pending_lifecycle_from_vault`: memory wins over the file. */
  function Hydrate(s: State): State {
    s.(pending := s.sidecar + s.pending, hydrated := true)
  }

  /** Memory set and `_persist_pending_lifecycle`, one critical section. */
  function RecordSticky(s: State, p: string, life: Lifecycle, handler: bool): State {
    s.(pending := s.pending[p := life],
       handlers := if handler then s.handlers + {p} else s.handlers - {p},
       sidecar := s.sidecar[p := life],
       log := s.log + [Recorded(p)])
  }

  /** Memory pop and `_clear_persisted_pending_lifecycle`, one critical section. */
  function ClearSticky(s: State, p: string): State {
    s.(pending := s.pending - {p},
       handlers := s.handlers - {p},
       sidecar := s.sidecar - {p},
       log := s.log + [Cleared(p)])
  }

  function SetRecord(s: State, id: nat, r: Record): State {
    s.(jobs := s.jobs[id := r])
  }

  function Fresh(job: Job, w: Waiter): Record {
    Record(job, w, NoOutput, false, false, false, false, false, Open)
  }

  /** `put_nowait` and the in-flight entry; the caller has checked that the queue has room. */
  function Enqueue(s: State, id: nat, r: Record): State {
    s.(queue := s.queue + [id],
       jobs := s.jobs[id := r],
       inFlight := s.inFlight[r.job.pass := id],
       log := s.log + [Enqueued(r.job.pass)])
  }

  // ---------- the submitter's steps ----------

  predicate InFlight(s: State, p: string) {
    p in s.inFlight && s.inFlight[p] in s.jobs && !s.jobs[s.inFlight[p]].done
  }

  /** `submit_drafts` under the lock, after the sidecar has been read. */
  function AdmitNext(s: State, id: nat, job: Job): State {
    var p := job.pass;
    if p in s.pending then
      if p in s.reapplying || !(job.hasHandler || p in s.handlers)
      then SetRecord(s, id, Fresh(job, Refused))
      else SetRecord(s.(reapplying := s.reapplying + {p}), id, Fresh(job, Reapplying(s.pending[p])))
    else if InFlight(s, p) then SetRecord(s, id, Fresh(job, Refused))
    else if |s.queue| >= WRITER_QUEUE_MAX
    then SetRecord(s.(dropped := s.dropped + 1), id, Fresh(job, Dropped))
    else Enqueue(s, id, Fresh(job, Waiting))
  }

  /** The first critical section of `submit_drafts`. */
  function SubmitNext(s: State, id: nat, job: Job, readable: bool): State {
    if readable then AdmitNext(Hydrate(s), id, job) else SetRecord(s, id, Fresh(job, Refused))
  }

  /** Setting the event that still holds the pass, if any: the batch whose lifecycle has just been applied. */
  function FreePass(s: State, p: string): State {
    if InFlight(s, p) then SetRecord(s, s.inFlight[p], s.jobs[s.inFlight[p]].(done := true, fate := Applied)) else s
  }

  /** The re-apply reported its lifecycle complete. */
  function RecoverNext(s: State, id: nat, didWork: bool): State
    requires id in s.jobs
  {
    var r := s.jobs[id];
    var c := ClearSticky(FreePass(s, r.job.pass), r.job.pass);
    if didWork then
      SetRecord(c.(recoveredDrafts := c.recoveredDrafts + r.job.drafts), id, r.(waiter := Releasing(Recovered)))
    else if |c.queue| >= WRITER_QUEUE_MAX then
      SetRecord(c.(dropped := c.dropped + 1), id, r.(waiter := Releasing(Dropped)))
    else Enqueue(c, id, r.(waiter := Releasing(Waiting)))
  }

  /** The section that ends a sticky re-apply, for each way the handler can end. */
  function FinishReapplyNext(s: State, id: nat, outcome: HandlerOutcome): State
    requires id in s.jobs && s.jobs[id].waiter.Reapplying?
  {
    var r := s.jobs[id];
    var p := r.job.pass;
    var verdict := Verdict(outcome, r.waiter.life);
    if outcome.Raises? then
      var kept := if p in s.pending then RecordSticky(s, p, s.pending[p], p in s.handlers) else s;
      SetRecord(kept, id, r.(waiter := Releasing(Refused)))
    else if !verdict.complete then
      SetRecord(RecordSticky(s, p, r.waiter.life, true), id, r.(waiter := Releasing(Refused)))
    else RecoverNext(s, id, verdict.didWork)
  }

  /** The `finally` that drops the re-apply claim. */
  function ReleaseNext(s: State, id: nat): State
    requires id in s.jobs && s.jobs[id].waiter.Releasing?
  {
    var r := s.jobs[id];
    SetRecord(s.(reapplying := s.reapplying - {r.job.pass}), id, r.(waiter := r.waiter.after))
  }

  /** What the section after an expired wait does to the job's record. */
  function AfterTimeout(r: Record): Record {
    match r.out
    case NoOutput => r.(waiter := TimedOut, timedOut := true, deferred := r.job.lifecycle.Some?)
    case Result => r.(waiter := GotResult)
    case Error => r.(waiter := GotError)
  }

  /** The section a waiter runs after its wait expired. */
  function TimeoutNext(s: State, id: nat): State
    requires id in s.jobs
  {
    var r := s.jobs[id];
    SetRecord(s.(timeouts := s.timeouts + if r.out.NoOutput? then 1 else 0), id, AfterTimeout(r))
  }

  /** The waiter saw the event; `out["result"]` must be there unless there is an error. */
  function ObserveNext(s: State, id: nat): State
    requires id in s.jobs
  {
    var r := s.jobs[id];
    SetRecord(s, id, r.(waiter := if r.out.Error? then GotError else GotResult))
  }

  /** The caller that got the result applies the lifecycle itself; nobody retries an apply that falls short. */
  function ApplyOwnNext(s: State, id: nat, outcome: HandlerOutcome): State
    requires id in s.jobs && s.jobs[id].job.lifecycle.Some?
  {
    var r := s.jobs[id];
    var complete := Verdict(outcome, r.job.lifecycle.value).complete;
    SetRecord(s, id, r.(waiter := Finished(complete), fate := if complete then Applied else r.fate))
  }

  // ---------- the worker's steps ----------

  function TakeNext(s: State): State
    requires s.queue != []
  {
    s.(queue := s.queue[1..], worker := Writing(s.queue[0]))
  }

  function WriteNext(s: State, ok: bool): State
    requires s.worker.Writing? && s.worker.id in s.jobs
  {
    var id := s.worker.id;
    SetRecord(s.(worker := if ok then Wrote(id) else Failing(id)), id,
              s.jobs[id].(out := if ok then Result else Error))
  }

  function CountFailureNext(s: State): State
    requires s.worker.Failing? && s.worker.id in s.jobs
  {
    var id := s.worker.id;
    var r := s.jobs[id];
    var lost := r.timedOut || r.deferred;
    SetRecord(s.(worker := Ending(id), unrecovered := s.unrecovered + if lost then 1 else 0), id,
              r.(unrecovered := lost))
  }

  /** `_maybe_apply_deferred_lifecycle` up to the handler call. */
  function ClaimNext(s: State): State
    requires s.worker.Wrote? && s.worker.id in s.jobs
  {
    var id := s.worker.id;
    var r := s.jobs[id];
    if r.job.lifecycle.None? || !r.job.lifecycle.value.HasOps() || !r.deferred then
      s.(worker := Ending(id))
    else if !r.job.hasHandler then
      SetRecord(RecordSticky(s.(worker := Idle), r.job.pass, r.job.lifecycle.value, false),
                id, r.(workerOwns := true, fate := SetAside))
    else SetRecord(s.(worker := Applying(id)), id, r.(workerOwns := true))
  }

  /** What follows the deferred handler call; an incomplete apply holds the event. */
  function ReportNext(s: State, outcome: HandlerOutcome): State
    requires s.worker.Applying? && s.worker.id in s.jobs && s.jobs[s.worker.id].job.lifecycle.Some?
  {
    var id := s.worker.id;
    var r := s.jobs[id];
    if Verdict(outcome, r.job.lifecycle.value).complete
    then ClearSticky(SetRecord(s.(worker := Ending(id)), id, r.(fate := Applied)), r.job.pass)
    else SetRecord(RecordSticky(s.(worker := Idle), r.job.pass, r.job.lifecycle.value, true), id, r.(fate := SetAside))
  }

  function EndNext(s: State): State
    requires s.worker.Ending? && s.worker.id in s.jobs
  {
    var id := s.worker.id;
    SetRecord(s.(worker := Idle), id, s.jobs[id].(done := true))
  }

  /** The process dies at any moment; only the sidecar survives. */
  function CrashNext(s: State): State {
    State([], Idle, map[], map[], map[], {}, {}, s.sidecar, false, 0, 0, 0, 0, s.log + [Crashed])
  }

  // ---------- steps and runs ----------

  datatype Step =
    | Status(readable: bool)
    | Submit(id: nat, job: Job, readable: bool)
    | FinishReapply(id: nat, outcome: HandlerOutcome)
    | Release(id: nat)
    | Timeout(id: nat)
    | Observe(id: nat)
    | ApplyOwn(id: nat, outcome: HandlerOutcome)
    | Take
    | Write(ok: bool)
    | CountFailure
    | Claim
    | Reported(outcome: HandlerOutcome)
    | End
    | Crash

  predicate Enabled(s: State, a: Step) {
    match a
    case Status(_) => true
    case Submit(id, _, _) => id !in s.jobs
    case FinishReapply(id, _) => id in s.jobs && s.jobs[id].waiter.Reapplying?
    case Release(id) => id in s.jobs && s.jobs[id].waiter.Releasing?
    case Timeout(id) => id in s.jobs && s.jobs[id].waiter.Waiting?
    case Observe(id) => id in s.jobs && s.jobs[id].waiter.Waiting? && s.jobs[id].done
    case ApplyOwn(id, _) =>
      && id in s.jobs && s.jobs[id].waiter.GotResult?
      && s.jobs[id].job.lifecycle.Some? && s.jobs[id].job.lifecycle.value.HasOps()
    case Take => s.worker.Idle? && s.queue != []
    case Write(_) => s.worker.Writing? && s.worker.id in s.jobs
    case CountFailure => s.worker.Failing? && s.worker.id in s.jobs
    case Claim => s.worker.Wrote? && s.worker.id in s.jobs
    case Reported(_) => s.worker.Applying? && s.worker.id in s.jobs && s.jobs[s.worker.id].job.lifecycle.Some?
    case End => s.worker.Ending? && s.worker.id in s.jobs
    case Crash => true
  }

  function Next(s: State, a: Step): State
    requires Enabled(s, a)
  {
    match a
    case Status(readable) => if readable then Hydrate(s) else s
    case Submit(id, job, readable) => SubmitNext(s, id, job, readable)
    case FinishReapply(id, outcome) => FinishReapplyNext(s, id, outcome)
    case Release(id) => ReleaseNext(s, id)
    case Timeout(id) => TimeoutNext(s, id)
    case Observe(id) => ObserveNext(s, id)
    case ApplyOwn(id, outcome) => ApplyOwnNext(s, id, outcome)
    case Take => TakeNext(s)
    case Write(ok) => WriteNext(s, ok)
    case CountFailure => CountFailureNext(s)
    case Claim => ClaimNext(s)
    case Reported(outcome) => ReportNext(s, outcome)
    case End => EndNext(s)
    case Crash => CrashNext(s)
  }

  /** A run lists the steps taken from `Init`, in order. */
  ghost predicate Legal(s: State, run: seq<Step>)
    decreases |run|
  {
    run == [] || (Enabled(s, run[0]) && Legal(Next(s, run[0]), run[1..]))
  }

  ghost function Exec(s: State, run: seq<Step>): State
    requires Legal(s, run)
    decreases |run|
  {
    if run == [] then s else Exec(Next(s, run[0]), run[1..])
  }
}
