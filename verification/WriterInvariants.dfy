/**
  What every step of the writer protocol keeps. The invariant is split into
  parts: where the jobs stand, what a pass in flight means, who owns a re-apply,
  what each record may say, what the sidecar mirrors, what the counters count,
  and what the log has recorded. Each step is shown to keep each part by a
  lemma of its own where the solver needs one; a step that changes one record
  only goes through the lemmas about patching, one that adds a job through the
  lemmas about adding and enqueueing.
*/
module WriterInvariants {
  import opened Wrappers
  import opened WriterProtocol

  // ---------- vocabulary ----------

  ghost predicate WorkerHas(w: Worker, id: nat) {
    !w.Idle? && w.id == id
  }

  /** The batch is queued or in the worker's hands. */
  ghost predicate Live(s: State, id: nat) {
    id in s.queue || WorkerHas(s.worker, id)
  }

  ghost predicate Claims(r: Record) {
    r.waiter.Reapplying? || r.waiter.Releasing?
  }

  /** The job entered the queue at some time. */
  ghost predicate Admitted(r: Record) {
    var w := if r.waiter.Releasing? then r.waiter.after else r.waiter;
    w.Waiting? || w.GotResult? || w.Finished? || w.GotError? || w.TimedOut?
  }

  /** The batch of a pass recorded last in the log has not been cleared since. */
  ghost predicate Owed(log: seq<Event>, p: string) {
    log != [] &&
    var last := log[|log| - 1];
    last == Recorded(p) || (last != Cleared(p) && Owed(log[..|log| - 1], p))
  }

  /** Every enqueue in the log happened while nothing recorded for its pass was owed. */
  ghost predicate NoSecondSet(log: seq<Event>) {
    forall k | 0 <= k < |log| && log[k].Enqueued? :: !Owed(log[..k], log[k].pass)
  }

  // ---------- the parts of the invariant ----------

  /** Queued jobs are distinct, bounded in number, and not in the worker's hands. */
  ghost predicate QueueOk(s: State) {
    && |s.queue| <= WRITER_QUEUE_MAX
    && (forall a, b | 0 <= a < b < |s.queue| :: s.queue[a] != s.queue[b])
    && (forall a | 0 <= a < |s.queue| :: !WorkerHas(s.worker, s.queue[a]))
  }

  /** A live batch holds its pass: its event is the one in flight, unset, and nothing is sticky. */
  ghost predicate LiveOk(s: State, id: nat) {
    && id in s.jobs
    && var p := s.jobs[id].job.pass;
    && p in s.inFlight
    && s.inFlight[p] == id
    && !s.jobs[id].done
    && p !in s.pending
  }

  ghost predicate AllLiveOk(s: State) {
    forall id | Live(s, id) :: LiveOk(s, id)
  }

  /** An unset event in flight belongs to a live batch, or its pass has a sticky lifecycle. */
  ghost predicate FlightOk(s: State) {
    forall p | p in s.inFlight ::
      && s.inFlight[p] in s.jobs
      && s.jobs[s.inFlight[p]].job.pass == p
      && Admitted(s.jobs[s.inFlight[p]])
      && (s.jobs[s.inFlight[p]].done || Live(s, s.inFlight[p]) || p in s.pending)
  }

  /** Memory and sidecar name the same lifecycles once the process has looked at the sidecar. */
  ghost predicate MirrorOk(s: State) {
    if s.hydrated then s.pending == s.sidecar
    else
      && s.pending == map[] && s.queue == [] && s.worker.Idle? && s.inFlight == map[] && s.reapplying == {}
      && forall id | id in s.jobs :: s.jobs[id].waiter.Refused?
  }

  /** Re-apply claims: one per pass, listed in memory, and backed by an unchanged sticky. */
  ghost predicate ClaimsOk(s: State) {
    && (forall id | id in s.jobs && Claims(s.jobs[id]) :: s.jobs[id].job.pass in s.reapplying)
    && (forall id | id in s.jobs && s.jobs[id].waiter.Reapplying? ::
          && s.jobs[id].job.pass in s.pending
          && s.pending[s.jobs[id].job.pass] == s.jobs[id].waiter.life)
    && (forall i, j | i in s.jobs && j in s.jobs && i != j && Claims(s.jobs[i]) && Claims(s.jobs[j]) ::
          s.jobs[i].job.pass != s.jobs[j].job.pass)
  }

  /** No claim outlives its submitter. */
  ghost predicate ClaimsOwned(s: State) {
    forall p | p in s.reapplying :: exists id :: id in s.jobs && Claims(s.jobs[id]) && s.jobs[id].job.pass == p
  }

  /** The flags of one record agree with one another and with the place of its batch. */
  ghost predicate RecordOk(w: Worker, queued: bool, id: nat, r: Record) {
    var live := queued || WorkerHas(w, id);
    var waiter := if r.waiter.Releasing? then r.waiter.after else r.waiter;
    var ops := r.job.lifecycle.Some? && r.job.lifecycle.value.HasOps();
    && (r.waiter.Releasing? ==> waiter.Refused? || waiter.Recovered? || waiter.Dropped? || waiter.Waiting?)
    && (live ==> Admitted(r))
    && (!Admitted(r) ==> r.out.NoOutput? && !r.done && r.fate.Open?)
    && ((queued || (WorkerHas(w, id) && w.Writing?)) ==> r.out.NoOutput?)
    && (WorkerHas(w, id) && (w.Wrote? || w.Applying?) ==> r.out.Result?)
    && (WorkerHas(w, id) && w.Failing? ==> r.out.Error? && !r.unrecovered)
    && (WorkerHas(w, id) && w.Wrote? ==> !r.workerOwns)
    && (WorkerHas(w, id) && w.Applying? ==> r.workerOwns)
    && (WorkerHas(w, id) && w.Ending? ==> !r.out.NoOutput?)
    && (Admitted(r) && !live ==> !r.out.NoOutput?)
    && (r.done ==> Admitted(r) && !live)
    && (r.timedOut <==> waiter.TimedOut?)
    && (r.deferred <==> r.timedOut && r.job.lifecycle.Some?)
    && (waiter.GotResult? || waiter.Finished? ==> r.out.Result?)
    && (waiter.GotError? ==> r.out.Error?)
    && (r.workerOwns ==> r.deferred && ops && r.out.Result?)
    && (r.unrecovered ==> r.timedOut && r.out.Error?)
    && (r.out.Result? && ops && r.deferred && !(WorkerHas(w, id) && w.Wrote?) ==> r.workerOwns)
    && (r.out.Error? && r.timedOut && !(WorkerHas(w, id) && w.Failing?) ==> r.unrecovered)
  }

  ghost predicate RecordsOk(s: State) {
    forall id | id in s.jobs :: RecordOk(s.worker, id in s.queue, id, s.jobs[id])
  }

  ghost function Unrecovered(jobs: map<nat, Record>): set<nat> {
    set id | id in jobs && jobs[id].unrecovered
  }

  ghost function TimedOutJobs(jobs: map<nat, Record>): set<nat> {
    set id | id in jobs && jobs[id].timedOut
  }

  /** The two counters of the status surface count what they say. */
  ghost predicate CountersOk(s: State) {
    && s.unrecovered == |Unrecovered(s.jobs)|
    && s.timeouts == |TimedOutJobs(s.jobs)|
  }

  /** What the log owes is what the sidecar names. */
  ghost predicate LogOk(sidecar: map<string, Lifecycle>, log: seq<Event>) {
    && (forall p :: p in sidecar <==> Owed(log, p))
    && NoSecondSet(log)
  }

  ghost predicate Inv(s: State) {
    && QueueOk(s)
    && AllLiveOk(s)
    && FlightOk(s)
    && MirrorOk(s)
    && ClaimsOk(s)
    && ClaimsOwned(s)
    && RecordsOk(s)
    && CountersOk(s)
    && LogOk(s.sidecar, s.log)
  }

  // ---------- log lemmas ----------

  lemma OwedAfter(log: seq<Event>, e: Event, p: string)
    ensures Owed(log + [e], p) == (e == Recorded(p) || (e != Cleared(p) && Owed(log, p)))
  {
    assert (log + [e])[..|log|] == log;
  }

  lemma NoSecondSetAfter(log: seq<Event>, e: Event)
    requires NoSecondSet(log)
    requires e.Enqueued? ==> !Owed(log, e.pass)
    ensures NoSecondSet(log + [e])
  {
    var more := log + [e];
    forall k | 0 <= k < |more| && more[k].Enqueued? ensures !Owed(more[..k], more[k].pass) {
      assert more[..k] == log[..k];
      assert log[..|log|] == log;
    }
  }

  // ---------- steps that change one record and leave queue, sticky state and log alone ----------

  ghost predicate Patch(s: State, t: State, id: nat) {
    && id in s.jobs && t.jobs.Keys == s.jobs.Keys
    && (forall i | i in s.jobs && i != id :: t.jobs[i] == s.jobs[i])
    && t.jobs[id].job == s.jobs[id].job
    && t.queue == s.queue && t.inFlight == s.inFlight && t.pending == s.pending
    && t.sidecar == s.sidecar && t.log == s.log && t.hydrated == s.hydrated
  }

  lemma PatchPlaces(s: State, t: State, id: nat)
    requires Patch(s, t, id)
    requires QueueOk(s) && AllLiveOk(s) && FlightOk(s) && MirrorOk(s) && s.hydrated
    requires forall i :: WorkerHas(t.worker, i) ==> WorkerHas(s.worker, i)
    requires forall i :: WorkerHas(s.worker, i) && !WorkerHas(t.worker, i) ==>
               i == id && (t.jobs[id].done || s.jobs[id].job.pass in s.pending)
    requires t.jobs[id].done != s.jobs[id].done ==> t.jobs[id].done && !Live(t, id)
    requires Admitted(s.jobs[id]) ==> Admitted(t.jobs[id])
    ensures QueueOk(t) && AllLiveOk(t) && FlightOk(t) && MirrorOk(t)
  {
    assert forall i :: Live(t, i) ==> Live(s, i);
  }

  lemma PatchClaims(s: State, t: State, id: nat)
    requires Patch(s, t, id)
    requires ClaimsOk(s)
    requires t.reapplying == s.reapplying
    requires Claims(s.jobs[id]) == Claims(t.jobs[id]) && !t.jobs[id].waiter.Reapplying?
    ensures ClaimsOk(t)
  {}

  lemma PatchOwned(s: State, t: State, id: nat)
    requires Patch(s, t, id)
    requires ClaimsOwned(s)
    requires t.reapplying == s.reapplying
    requires Claims(s.jobs[id]) == Claims(t.jobs[id])
    ensures ClaimsOwned(t)
  {
    forall p | p in t.reapplying ensures exists i :: i in t.jobs && Claims(t.jobs[i]) && t.jobs[i].job.pass == p {
      var i :| i in s.jobs && Claims(s.jobs[i]) && s.jobs[i].job.pass == p;
      assert i in t.jobs && Claims(t.jobs[i]);
    }
  }

  lemma PatchRecords(s: State, t: State, id: nat)
    requires Patch(s, t, id)
    requires RecordsOk(s)
    requires RecordOk(t.worker, id in t.queue, id, t.jobs[id])
    requires forall i | i != id :: WorkerHas(t.worker, i) ==> t.worker == s.worker
    requires forall i | i != id :: WorkerHas(s.worker, i) ==> t.worker == s.worker
    ensures RecordsOk(t)
  {
    forall i | i in t.jobs ensures RecordOk(t.worker, i in t.queue, i, t.jobs[i]) {
      if i != id {
        assert RecordOk(s.worker, i in s.queue, i, s.jobs[i]);
      }
    }
  }

  lemma PatchUnrecovered(s: State, t: State, id: nat)
    requires Patch(s, t, id)
    requires s.jobs[id].unrecovered ==> t.jobs[id].unrecovered
    ensures |Unrecovered(t.jobs)| ==
              |Unrecovered(s.jobs)| + if t.jobs[id].unrecovered && !s.jobs[id].unrecovered then 1 else 0
  {
    if t.jobs[id].unrecovered && !s.jobs[id].unrecovered {
      assert Unrecovered(t.jobs) == Unrecovered(s.jobs) + {id};
    } else {
      assert Unrecovered(t.jobs) == Unrecovered(s.jobs);
    }
  }

  lemma PatchTimeouts(s: State, t: State, id: nat)
    requires Patch(s, t, id)
    requires s.jobs[id].timedOut ==> t.jobs[id].timedOut
    ensures |TimedOutJobs(t.jobs)| ==
              |TimedOutJobs(s.jobs)| + if t.jobs[id].timedOut && !s.jobs[id].timedOut then 1 else 0
  {
    if t.jobs[id].timedOut && !s.jobs[id].timedOut {
      assert TimedOutJobs(t.jobs) == TimedOutJobs(s.jobs) + {id};
    } else {
      assert TimedOutJobs(t.jobs) == TimedOutJobs(s.jobs);
    }
  }

  /** A process that has not read the sidecar runs no batch and waits for none. */
  lemma BusyMeansHydrated(s: State, id: nat)
    requires MirrorOk(s)
    requires !s.worker.Idle? || (id in s.jobs && !s.jobs[id].waiter.Refused?)
    ensures s.hydrated
  {}

  /** The conditions under which a change of one record keeps the invariant. */
  ghost predicate SafePatch(s: State, t: State, id: nat) {
    && Patch(s, t, id)
    && t.reapplying == s.reapplying
    && Claims(s.jobs[id]) == Claims(t.jobs[id]) && !t.jobs[id].waiter.Reapplying?
    && (Admitted(s.jobs[id]) ==> Admitted(t.jobs[id]))
    && RecordOk(t.worker, id in t.queue, id, t.jobs[id])
    && (t.worker == s.worker || ((s.worker.Idle? || s.worker.id == id) && (t.worker.Idle? || t.worker.id == id)))
    && (s.worker.Idle? ==> t.worker.Idle?)
    && (!s.worker.Idle? && t.worker.Idle? ==> t.jobs[id].done)
    && (t.jobs[id].done != s.jobs[id].done ==> t.jobs[id].done && !Live(t, id))
    && (s.jobs[id].unrecovered ==> t.jobs[id].unrecovered)
    && (s.jobs[id].timedOut ==> t.jobs[id].timedOut)
    && t.unrecovered == s.unrecovered + (if t.jobs[id].unrecovered && !s.jobs[id].unrecovered then 1 else 0)
    && t.timeouts == s.timeouts + (if t.jobs[id].timedOut && !s.jobs[id].timedOut then 1 else 0)
  }

  lemma PatchKeeps(s: State, t: State, id: nat)
    requires Inv(s) && s.hydrated && SafePatch(s, t, id)
    ensures Inv(t)
  {
    hide QueueOk, AllLiveOk, FlightOk, MirrorOk, ClaimsOk, ClaimsOwned, RecordsOk, RecordOk, LogOk, Unrecovered,
        TimedOutJobs;
    PatchPlaces(s, t, id);
    PatchClaims(s, t, id);
    PatchOwned(s, t, id);
    PatchRecords(s, t, id);
    PatchUnrecovered(s, t, id);
    PatchTimeouts(s, t, id);
  }

  lemma TimeoutRecord(w: Worker, queued: bool, id: nat, r: Record)
    requires RecordOk(w, queued, id, r) && r.waiter.Waiting?
    ensures RecordOk(w, queued, id, AfterTimeout(r))
    ensures r.timedOut ==> AfterTimeout(r).timedOut
    ensures AfterTimeout(r).timedOut && !r.timedOut <==> r.out.NoOutput?
  {}

  lemma TimeoutFacts(s: State, id: nat)
    requires Enabled(s, Timeout(id)) && RecordsOk(s)
    ensures SafePatch(s, TimeoutNext(s, id), id)
  {
    hide RecordOk;
    assert RecordOk(s.worker, id in s.queue, id, s.jobs[id]);
    TimeoutRecord(s.worker, id in s.queue, id, s.jobs[id]);
  }

  lemma TimeoutKeeps(s: State, id: nat)
    requires Inv(s) && Enabled(s, Timeout(id))
    ensures Inv(TimeoutNext(s, id))
  {
    hide QueueOk, AllLiveOk, FlightOk, ClaimsOk, ClaimsOwned, RecordsOk, RecordOk, LogOk, TimeoutNext;
    BusyMeansHydrated(s, id);
    TimeoutFacts(s, id);
    PatchKeeps(s, TimeoutNext(s, id), id);
  }

  lemma ObserveKeeps(s: State, id: nat)
    requires Inv(s) && Enabled(s, Observe(id))
    ensures Inv(ObserveNext(s, id))
  {
    hide QueueOk, AllLiveOk, FlightOk, ClaimsOk, ClaimsOwned, LogOk;
    BusyMeansHydrated(s, id);
    assert RecordOk(s.worker, id in s.queue, id, s.jobs[id]);
    PatchKeeps(s, ObserveNext(s, id), id);
  }

  lemma ApplyOwnKeeps(s: State, id: nat, outcome: HandlerOutcome)
    requires Inv(s) && Enabled(s, ApplyOwn(id, outcome))
    ensures Inv(ApplyOwnNext(s, id, outcome))
  {
    hide QueueOk, AllLiveOk, FlightOk, ClaimsOk, ClaimsOwned, LogOk, ApplyComplete;
    BusyMeansHydrated(s, id);
    assert RecordOk(s.worker, id in s.queue, id, s.jobs[id]);
    PatchKeeps(s, ApplyOwnNext(s, id, outcome), id);
  }

  lemma WriteFacts(s: State, ok: bool)
    requires Enabled(s, Write(ok)) && RecordsOk(s) && s.worker.id !in s.queue
    ensures SafePatch(s, WriteNext(s, ok), s.worker.id)
  {
    var id := s.worker.id;
    assert RecordOk(s.worker, id in s.queue, id, s.jobs[id]);
  }

  lemma WriteKeeps(s: State, ok: bool)
    requires Inv(s) && Enabled(s, Write(ok))
    ensures Inv(WriteNext(s, ok))
  {
    hide FlightOk, ClaimsOk, ClaimsOwned, LogOk, AllLiveOk, RecordOk, WriteNext;
    var id := s.worker.id;
    BusyMeansHydrated(s, id);
    assert id !in s.queue;
    WriteFacts(s, ok);
    PatchKeeps(s, WriteNext(s, ok), id);
  }

  lemma CountFailureKeeps(s: State)
    requires Inv(s) && Enabled(s, CountFailure)
    ensures Inv(CountFailureNext(s))
  {
    hide FlightOk, ClaimsOk, ClaimsOwned, LogOk;
    var id := s.worker.id;
    BusyMeansHydrated(s, id);
    assert id !in s.queue;
    assert RecordOk(s.worker, id in s.queue, id, s.jobs[id]);
    PatchKeeps(s, CountFailureNext(s), id);
  }

  lemma EndKeeps(s: State)
    requires Inv(s) && Enabled(s, End)
    ensures Inv(EndNext(s))
  {
    hide FlightOk, ClaimsOk, ClaimsOwned, LogOk;
    var id := s.worker.id;
    BusyMeansHydrated(s, id);
    assert id !in s.queue;
    assert RecordOk(s.worker, id in s.queue, id, s.jobs[id]);
    PatchKeeps(s, EndNext(s), id);
  }

  // ---------- the worker takes a job ----------

  lemma TakePlaces(s: State)
    requires Enabled(s, Take) && QueueOk(s) && AllLiveOk(s) && FlightOk(s) && MirrorOk(s)
    ensures var t := TakeNext(s); QueueOk(t) && AllLiveOk(t) && FlightOk(t) && MirrorOk(t)
  {
    var t := TakeNext(s);
    assert forall i :: Live(t, i) <==> Live(s, i);
  }

  lemma TakeRecords(s: State)
    requires Enabled(s, Take) && QueueOk(s) && RecordsOk(s)
    ensures RecordsOk(TakeNext(s))
  {
    var t := TakeNext(s);
    forall i | i in t.jobs ensures RecordOk(t.worker, i in t.queue, i, t.jobs[i]) {
      assert RecordOk(s.worker, i in s.queue, i, s.jobs[i]);
      assert i in s.queue <==> i == s.queue[0] || i in t.queue;
      if i == s.queue[0] {
        assert i !in t.queue;
      }
    }
  }

  lemma TakeKeeps(s: State)
    requires Inv(s) && Enabled(s, Take)
    ensures Inv(TakeNext(s))
  {
    hide QueueOk, AllLiveOk, FlightOk, MirrorOk, RecordsOk, LogOk;
    TakePlaces(s);
    TakeRecords(s);
  }

  // ---------- sticky lifecycles are recorded and cleared ----------

  /** Recording a lifecycle for a pass that has a sticky one already. */
  lemma RerecordKeeps(s: State, p: string, handler: bool)
    requires Inv(s) && s.hydrated && p in s.pending
    ensures Inv(RecordSticky(s, p, s.pending[p], handler))
  {
    hide RecordOk, LogOk, Owed, NoSecondSet, Admitted;
    var t := RecordSticky(s, p, s.pending[p], handler);
    LogAfterRecord(s.sidecar, s.log, p, s.pending[p]);
    assert t.pending == s.pending;
    RerecordClaims(s, t);
    assert forall i :: Live(t, i) <==> Live(s, i);
  }

  lemma RerecordClaims(s: State, t: State)
    requires t.pending == s.pending && t.jobs == s.jobs && t.reapplying == s.reapplying
    requires ClaimsOk(s) && ClaimsOwned(s)
    ensures ClaimsOk(t) && ClaimsOwned(t)
  {
    forall p | p in t.reapplying ensures exists i :: i in t.jobs && Claims(t.jobs[i]) && t.jobs[i].job.pass == p {
      var i :| i in s.jobs && Claims(s.jobs[i]) && s.jobs[i].job.pass == p;
      assert i in t.jobs && Claims(t.jobs[i]);
    }
  }

  lemma LogAfterRecord(sidecar: map<string, Lifecycle>, log: seq<Event>, p: string, life: Lifecycle)
    requires LogOk(sidecar, log)
    ensures LogOk(sidecar[p := life], log + [Recorded(p)])
  {
    forall q ensures q in sidecar[p := life] <==> Owed(log + [Recorded(p)], q) {
      OwedAfter(log, Recorded(p), q);
    }
    NoSecondSetAfter(log, Recorded(p));
  }

  lemma LogAfterClear(sidecar: map<string, Lifecycle>, log: seq<Event>, p: string)
    requires LogOk(sidecar, log)
    ensures LogOk(sidecar - {p}, log + [Cleared(p)])
  {
    forall q ensures q in sidecar - {p} <==> Owed(log + [Cleared(p)], q) {
      OwedAfter(log, Cleared(p), q);
    }
    NoSecondSetAfter(log, Cleared(p));
  }

  lemma LogAfterEnqueue(sidecar: map<string, Lifecycle>, log: seq<Event>, p: string)
    requires LogOk(sidecar, log) && p !in sidecar
    ensures LogOk(sidecar, log + [Enqueued(p)])
  {
    forall q ensures q in sidecar <==> Owed(log + [Enqueued(p)], q) {
      OwedAfter(log, Enqueued(p), q);
    }
    NoSecondSetAfter(log, Enqueued(p));
  }

  lemma LogAfterCrash(sidecar: map<string, Lifecycle>, log: seq<Event>)
    requires LogOk(sidecar, log)
    ensures LogOk(sidecar, log + [Crashed])
  {
    forall q ensures q in sidecar <==> Owed(log + [Crashed], q) {
      OwedAfter(log, Crashed, q);
    }
    NoSecondSetAfter(log, Crashed);
  }

  // ---------- the worker holds a pass ----------

  /** The worker leaves a landed batch whose lifecycle could not be applied. */
  ghost predicate HoldsPass(s: State, t: State, id: nat, life: Lifecycle, handler: bool) {
    && id in s.jobs && id in t.jobs && WorkerHas(s.worker, id)
    && t == SetRecord(RecordSticky(s.(worker := Idle), s.jobs[id].job.pass, life, handler), id, t.jobs[id])
    && t.jobs[id] == s.jobs[id].(workerOwns := true, fate := SetAside)
  }

  lemma HoldPlaces(s: State, t: State, id: nat, life: Lifecycle, handler: bool)
    requires HoldsPass(s, t, id, life, handler)
    requires QueueOk(s) && AllLiveOk(s) && FlightOk(s) && MirrorOk(s)
    ensures QueueOk(t) && AllLiveOk(t) && FlightOk(t) && MirrorOk(t)
  {
    hide RecordOk;
    var p := s.jobs[id].job.pass;
    assert Live(s, id);
    forall i | Live(t, i) ensures LiveOk(t, i) {
      assert Live(s, i) && i in s.queue;
      assert i != id;
      assert s.jobs[i].job.pass != p;
    }
  }

  lemma HoldClaims(s: State, t: State, id: nat, life: Lifecycle, handler: bool)
    requires HoldsPass(s, t, id, life, handler)
    requires ClaimsOk(s) && ClaimsOwned(s) && AllLiveOk(s)
    requires Admitted(s.jobs[id])
    ensures ClaimsOk(t) && ClaimsOwned(t)
  {
    var p := s.jobs[id].job.pass;
    assert Live(s, id);
    assert p !in s.pending;
    forall q | q in t.reapplying ensures exists i :: i in t.jobs && Claims(t.jobs[i]) && t.jobs[i].job.pass == q {
      var i :| i in s.jobs && Claims(s.jobs[i]) && s.jobs[i].job.pass == q;
      assert i in t.jobs && Claims(t.jobs[i]);
    }
  }

  lemma HoldRecords(s: State, t: State, id: nat, life: Lifecycle, handler: bool)
    requires HoldsPass(s, t, id, life, handler)
    requires RecordsOk(s)
    requires RecordOk(Idle, id in s.queue, id, t.jobs[id])
    ensures RecordsOk(t)
  {
    forall i | i in t.jobs ensures RecordOk(t.worker, i in t.queue, i, t.jobs[i]) {
      assert RecordOk(s.worker, i in s.queue, i, s.jobs[i]);
    }
  }

  lemma HoldCounters(s: State, t: State, id: nat, life: Lifecycle, handler: bool)
    requires HoldsPass(s, t, id, life, handler) && CountersOk(s)
    ensures CountersOk(t)
  {
    assert Unrecovered(t.jobs) == Unrecovered(s.jobs);
    assert TimedOutJobs(t.jobs) == TimedOutJobs(s.jobs);
  }

  lemma HoldKeeps(s: State, t: State, id: nat, life: Lifecycle, handler: bool)
    requires Inv(s) && HoldsPass(s, t, id, life, handler)
    requires Admitted(s.jobs[id]) && RecordOk(Idle, id in s.queue, id, t.jobs[id])
    ensures Inv(t)
  {
    hide QueueOk, AllLiveOk, FlightOk, MirrorOk, ClaimsOk, ClaimsOwned, RecordsOk, RecordOk, CountersOk, LogOk;
    HoldPlaces(s, t, id, life, handler);
    HoldClaims(s, t, id, life, handler);
    HoldRecords(s, t, id, life, handler);
    HoldCounters(s, t, id, life, handler);
    LogAfterRecord(s.sidecar, s.log, s.jobs[id].job.pass, life);
  }

  lemma ClaimKeeps(s: State)
    requires Inv(s) && Enabled(s, Claim)
    ensures Inv(ClaimNext(s))
  {
    hide FlightOk, ClaimsOk, ClaimsOwned, CountersOk, LogOk;
    var id, t := s.worker.id, ClaimNext(s);
    BusyMeansHydrated(s, id);
    assert id !in s.queue;
    assert RecordOk(s.worker, id in s.queue, id, s.jobs[id]);
    if t.worker.Idle? {
      HoldKeeps(s, t, id, s.jobs[id].job.lifecycle.value, false);
    } else {
      PatchKeeps(s, t, id);
    }
  }

  lemma ReportKeeps(s: State, outcome: HandlerOutcome)
    requires Inv(s) && Enabled(s, Reported(outcome))
    ensures Inv(ReportNext(s, outcome))
  {
    hide ClaimsOk, ClaimsOwned, CountersOk, LogOk, FlightOk, ApplyComplete;
    var id, t := s.worker.id, ReportNext(s, outcome);
    var p := s.jobs[id].job.pass;
    BusyMeansHydrated(s, id);
    assert id !in s.queue && Live(s, id);
    assert RecordOk(s.worker, id in s.queue, id, s.jobs[id]);
    if t.worker.Idle? {
      HoldKeeps(s, t, id, s.jobs[id].job.lifecycle.value, true);
    } else {
      var u := SetRecord(s.(worker := Ending(id)), id, s.jobs[id].(fate := Applied));
      PatchKeeps(s, u, id);
      assert p !in s.pending;
      ClearAbsentKeeps(u, p);
    }
  }

  /** Clearing a pass that has nothing sticky changes only the log. */
  lemma ClearAbsentKeeps(s: State, p: string)
    requires Inv(s) && s.hydrated && p !in s.pending
    ensures Inv(ClearSticky(s, p))
  {
    hide RecordOk, Owed, NoSecondSet, LogOk;
    LogAfterClear(s.sidecar, s.log, p);
    assert s.pending - {p} == s.pending;
    assert p !in s.pending.Keys;
    assert s.sidecar - {p} == s.sidecar;
    assert forall i :: Live(ClearSticky(s, p), i) <==> Live(s, i);
  }

  lemma CrashKeeps(s: State)
    requires Inv(s)
    ensures Inv(CrashNext(s))
  {
    LogAfterCrash(s.sidecar, s.log);
    var t := CrashNext(s);
    assert Unrecovered(t.jobs) == {} && TimedOutJobs(t.jobs) == {};
  }

  // ---------- submitting ----------

  lemma HydrateKeeps(s: State)
    requires Inv(s)
    ensures Inv(Hydrate(s)) && Hydrate(s).hydrated
    ensures s.hydrated ==> Hydrate(s) == s
  {
    var t := Hydrate(s);
    if s.hydrated {
      assert t.pending == s.pending;
    } else {
      hide RecordOk, LogOk, Owed, NoSecondSet;
        assert forall i :: !Live(t, i);
    }
  }

  /** A new record, or one that has not been admitted yet, that stays out of the queue. */
  ghost predicate Outside(r: Record) {
    r == Fresh(r.job, r.waiter) && !Admitted(r)
        && !(r.waiter.Releasing? && (r.waiter.after.Releasing? || r.waiter.after.Reapplying?))
  }

  lemma AddPlaces(s: State, t: State, id: nat, r: Record)
    requires id !in s.jobs && Outside(r) && (s.hydrated || r.waiter.Refused?)
    requires t == SetRecord(s.(reapplying := t.reapplying, dropped := t.dropped), id, r)
    requires s.hydrated || t.reapplying == s.reapplying
    requires QueueOk(s) && AllLiveOk(s) && FlightOk(s) && MirrorOk(s)
    ensures QueueOk(t) && AllLiveOk(t) && FlightOk(t) && MirrorOk(t)
  {
    assert forall i :: Live(t, i) <==> Live(s, i);
  }

  lemma AddRecords(s: State, t: State, id: nat, r: Record)
    requires id !in s.jobs && Outside(r)
    requires t.jobs == s.jobs[id := r] && t.queue == s.queue && t.worker == s.worker
    requires AllLiveOk(s) && RecordsOk(s) && CountersOk(s) && t.unrecovered == s.unrecovered && t.timeouts == s.timeouts
    ensures RecordsOk(t) && CountersOk(t)
  {
    assert !Live(s, id);
    assert Unrecovered(t.jobs) == Unrecovered(s.jobs);
    assert TimedOutJobs(t.jobs) == TimedOutJobs(s.jobs);
    forall i | i in t.jobs ensures RecordOk(t.worker, i in t.queue, i, t.jobs[i]) {
      if i != id {
        assert RecordOk(s.worker, i in s.queue, i, s.jobs[i]);
      }
    }
  }

  lemma AddClaims(s: State, t: State, id: nat, r: Record)
    requires id !in s.jobs && Outside(r)
    requires t == SetRecord(s.(reapplying := t.reapplying, dropped := t.dropped), id, r)
    requires ClaimsOk(s)
    requires if Claims(r) then t.reapplying == s.reapplying + {r.job.pass} && r.job.pass !in s.reapplying
              else t.reapplying == s.reapplying
    requires r.waiter.Reapplying? ==> r.job.pass in s.pending && s.pending[r.job.pass] == r.waiter.life
    ensures ClaimsOk(t)
  {}

  lemma AddOwned(s: State, t: State, id: nat, r: Record)
    requires id !in s.jobs
    requires t.jobs == s.jobs[id := r]
    requires ClaimsOwned(s)
    requires t.reapplying == s.reapplying || (Claims(r) && t.reapplying == s.reapplying + {r.job.pass})
    ensures ClaimsOwned(t)
  {
    forall p | p in t.reapplying ensures exists i :: i in t.jobs && Claims(t.jobs[i]) && t.jobs[i].job.pass == p {
      if p in s.reapplying {
        var i :| i in s.jobs && Claims(s.jobs[i]) && s.jobs[i].job.pass == p;
        assert i in t.jobs && Claims(t.jobs[i]);
      } else {
        assert id in t.jobs && Claims(t.jobs[id]);
      }
    }
  }

  lemma AddKeeps(s: State, t: State, id: nat, r: Record)
    requires Inv(s) && id !in s.jobs && Outside(r) && (s.hydrated || r.waiter.Refused?)
    requires t == SetRecord(s.(reapplying := t.reapplying, dropped := t.dropped), id, r)
    requires if Claims(r) then t.reapplying == s.reapplying + {r.job.pass} && r.job.pass !in s.reapplying
              else t.reapplying == s.reapplying
    requires r.waiter.Reapplying? ==> r.job.pass in s.pending && s.pending[r.job.pass] == r.waiter.life
    ensures Inv(t)
  {
    hide QueueOk, AllLiveOk, FlightOk, MirrorOk, ClaimsOk, ClaimsOwned, RecordsOk, CountersOk, LogOk;
    AddPlaces(s, t, id, r);
    AddRecords(s, t, id, r);
    AddClaims(s, t, id, r);
    AddOwned(s, t, id, r);
  }

  // ---------- a batch enters the queue ----------

  /** `id` is new, or belongs to the submitter whose re-apply turned out to be a no-op. */
  ghost predicate MayEnqueue(s: State, id: nat, r: Record) {
    && s.hydrated
    && |s.queue| < WRITER_QUEUE_MAX
    && r.job.pass !in s.pending
    && !InFlight(s, r.job.pass)
    && Admitted(r) && r == Fresh(r.job, r.waiter) && (r.waiter.Waiting? || r.waiter == Releasing(Waiting))
    && (if id in s.jobs then !Admitted(s.jobs[id]) && s.jobs[id].job == r.job && s.jobs[id].waiter.Releasing?
        && r.waiter.Releasing?
        else r.waiter.Waiting?)
  }

  lemma EnqueuePlaces(s: State, id: nat, r: Record)
    requires MayEnqueue(s, id, r)
    requires QueueOk(s) && AllLiveOk(s) && FlightOk(s) && MirrorOk(s) && RecordsOk(s)
    ensures var t := Enqueue(s, id, r); QueueOk(t) && AllLiveOk(t) && MirrorOk(t)
  {
    hide RecordsOk, RecordOk;
    var t := Enqueue(s, id, r);
    NotAdmittedNotLive(s, id);
    assert forall i :: Live(t, i) <==> i == id || Live(s, i);
    forall i | Live(t, i) ensures LiveOk(t, i) {
      if i != id {
        assert LiveOk(s, i);
        assert s.jobs[i].job.pass != r.job.pass;
      }
    }
  }

  lemma EnqueueFlight(s: State, id: nat, r: Record)
    requires MayEnqueue(s, id, r)
    requires FlightOk(s)
    ensures FlightOk(Enqueue(s, id, r))
  {
    var t := Enqueue(s, id, r);
    forall p | p in t.inFlight && p != r.job.pass ensures t.inFlight[p] != id {
      assert p in s.inFlight;
    }
    assert id in t.queue;
    assert forall i :: Live(s, i) ==> Live(t, i);
  }

  lemma NotAdmittedNotLive(s: State, id: nat)
    requires AllLiveOk(s) && RecordsOk(s)
    requires id in s.jobs ==> !Admitted(s.jobs[id])
    ensures !Live(s, id)
  {}

  lemma EnqueueRecords(s: State, id: nat, r: Record)
    requires MayEnqueue(s, id, r)
    requires AllLiveOk(s) && RecordsOk(s) && CountersOk(s)
    ensures var t := Enqueue(s, id, r); RecordsOk(t) && CountersOk(t)
  {
    var t := Enqueue(s, id, r);
    NotAdmittedNotLive(s, id);
    if id in s.jobs {
      assert RecordOk(s.worker, id in s.queue, id, s.jobs[id]);
    }
    assert Unrecovered(t.jobs) == Unrecovered(s.jobs);
    assert TimedOutJobs(t.jobs) == TimedOutJobs(s.jobs);
    forall i | i in t.jobs ensures RecordOk(t.worker, i in t.queue, i, t.jobs[i]) {
      if i != id {
        assert RecordOk(s.worker, i in s.queue, i, s.jobs[i]);
      }
    }
  }

  lemma EnqueueClaims(s: State, id: nat, r: Record)
    requires MayEnqueue(s, id, r) && ClaimsOk(s)
    ensures ClaimsOk(Enqueue(s, id, r))
  {}

  lemma EnqueueOwned(s: State, id: nat, r: Record)
    requires MayEnqueue(s, id, r) && ClaimsOwned(s)
    ensures ClaimsOwned(Enqueue(s, id, r))
  {
    var t := Enqueue(s, id, r);
    forall p | p in t.reapplying ensures exists i :: i in t.jobs && Claims(t.jobs[i]) && t.jobs[i].job.pass == p {
      var i :| i in s.jobs && Claims(s.jobs[i]) && s.jobs[i].job.pass == p;
      assert i in t.jobs && Claims(t.jobs[i]);
    }
  }

  lemma EnqueueKeeps(s: State, id: nat, r: Record)
    requires Inv(s) && MayEnqueue(s, id, r)
    ensures Inv(Enqueue(s, id, r))
  {
    assert r.job.pass !in s.sidecar by {
      assert r.job.pass !in s.pending.Keys;
    }
    hide QueueOk, AllLiveOk, FlightOk, MirrorOk, ClaimsOk, ClaimsOwned, RecordsOk, CountersOk, LogOk;
    EnqueuePlaces(s, id, r);
    EnqueueFlight(s, id, r);
    EnqueueRecords(s, id, r);
    EnqueueClaims(s, id, r);
    EnqueueOwned(s, id, r);
    LogAfterEnqueue(s.sidecar, s.log, r.job.pass);
  }

  lemma AdmitKeeps(s: State, id: nat, job: Job)
    requires Inv(s) && s.hydrated && id !in s.jobs
    ensures Inv(AdmitNext(s, id, job))
  {
    hide Inv, InFlight, Admitted;
    var p, t := job.pass, AdmitNext(s, id, job);
    if p in s.pending {
      AdmitOutside(s, t, id, job);
    } else if InFlight(s, p) || |s.queue| >= WRITER_QUEUE_MAX {
      AdmitOutside(s, t, id, job);
    } else {
      AdmitInside(s, id, job);
    }
  }

  lemma AdmitInside(s: State, id: nat, job: Job)
    requires Inv(s) && s.hydrated && id !in s.jobs
    requires job.pass !in s.pending && !InFlight(s, job.pass) && |s.queue| < WRITER_QUEUE_MAX
    ensures Inv(Enqueue(s, id, Fresh(job, Waiting)))
  {
    hide Inv, Enqueue;
    EnqueueKeeps(s, id, Fresh(job, Waiting));
  }

  lemma AdmitOutside(s: State, t: State, id: nat, job: Job)
    requires Inv(s) && s.hydrated && id !in s.jobs && t == AdmitNext(s, id, job)
    requires job.pass in s.pending || InFlight(s, job.pass) || |s.queue| >= WRITER_QUEUE_MAX
    ensures Inv(t)
  {
    hide Inv, Enqueue, InFlight;
    AddKeeps(s, t, id, t.jobs[id]);
  }

  lemma SubmitKeeps(s: State, id: nat, job: Job, readable: bool)
    requires Inv(s) && Enabled(s, Submit(id, job, readable))
    ensures Inv(SubmitNext(s, id, job, readable))
  {
    hide Inv, AdmitNext;
    if readable {
      HydrateKeeps(s);
      AdmitKeeps(Hydrate(s), id, job);
    } else {
      AddKeeps(s, SetRecord(s, id, Fresh(job, Refused)), id, Fresh(job, Refused));
    }
  }

  // ---------- ending a re-apply ----------

  /** The submitter has its answer and only has to drop its claim; no batch was enqueued for it. */
  lemma AnswerKeeps(s: State, id: nat, answer: Waiter)
    requires Inv(s) && id in s.jobs && s.jobs[id].waiter.Reapplying?
    requires answer.Refused? || answer.Recovered? || answer.Dropped?
    ensures s.hydrated
    ensures Inv(SetRecord(s, id, s.jobs[id].(waiter := Releasing(answer))))
  {
    hide QueueOk, AllLiveOk, FlightOk, ClaimsOk, ClaimsOwned, LogOk;
    BusyMeansHydrated(s, id);
    assert RecordOk(s.worker, id in s.queue, id, s.jobs[id]);
    PatchKeeps(s, SetRecord(s, id, s.jobs[id].(waiter := Releasing(answer))), id);
  }

  /** A held event may be set once its pass has a sticky lifecycle. */
  lemma FreePassKeeps(s: State, p: string)
    requires Inv(s) && s.hydrated && p in s.pending
    ensures Inv(FreePass(s, p)) && !InFlight(FreePass(s, p), p)
  {
    hide QueueOk, ClaimsOk, ClaimsOwned, LogOk;
    if InFlight(s, p) {
      var q := s.inFlight[p];
      assert !Live(s, q);
      assert RecordOk(s.worker, q in s.queue, q, s.jobs[q]);
      PatchKeeps(s, FreePass(s, p), q);
    }
  }

  lemma ClearFreedPlaces(s: State, p: string)
    requires s.hydrated && !InFlight(s, p)
    requires QueueOk(s) && AllLiveOk(s) && FlightOk(s) && MirrorOk(s)
    ensures var t := ClearSticky(s, p); QueueOk(t) && AllLiveOk(t) && FlightOk(t) && MirrorOk(t)
  {
    var t := ClearSticky(s, p);
    assert forall i :: Live(t, i) <==> Live(s, i);
  }

  lemma ClearFreedClaims(s: State, p: string)
    requires forall i | i in s.jobs && s.jobs[i].waiter.Reapplying? :: s.jobs[i].job.pass != p
    requires ClaimsOk(s) && ClaimsOwned(s)
    ensures ClaimsOk(ClearSticky(s, p)) && ClaimsOwned(ClearSticky(s, p))
  {
    var t := ClearSticky(s, p);
    forall q | q in t.reapplying ensures exists i :: i in t.jobs && Claims(t.jobs[i]) && t.jobs[i].job.pass == q {
      var i :| i in s.jobs && Claims(s.jobs[i]) && s.jobs[i].job.pass == q;
      assert i in t.jobs && Claims(t.jobs[i]);
    }
  }

  lemma ClearFreedKeeps(s: State, p: string)
    requires Inv(s) && s.hydrated && !InFlight(s, p)
    requires forall i | i in s.jobs && s.jobs[i].waiter.Reapplying? :: s.jobs[i].job.pass != p
    ensures Inv(ClearSticky(s, p))
  {
    hide QueueOk, AllLiveOk, FlightOk, MirrorOk, ClaimsOk, ClaimsOwned, RecordOk, LogOk, Unrecovered, TimedOutJobs;
    ClearFreedPlaces(s, p);
    ClearFreedClaims(s, p);
    LogAfterClear(s.sidecar, s.log, p);
  }

  lemma FinishFailedKeeps(s: State, id: nat, handler: bool)
    requires Inv(s) && id in s.jobs && s.jobs[id].waiter.Reapplying?
    ensures var r := s.jobs[id];
            Inv(SetRecord(RecordSticky(s, r.job.pass, r.waiter.life, handler), id, r.(waiter := Releasing(Refused))))
  {
    hide QueueOk, AllLiveOk, FlightOk, MirrorOk, ClaimsOwned, RecordsOk, CountersOk, LogOk;
    AnswerKeeps(s, id, Refused);
    RerecordKeeps(SetRecord(s, id, s.jobs[id].(waiter := Releasing(Refused))), s.jobs[id].job.pass, handler);
  }

  lemma ReapplierNotInFlight(s: State, id: nat)
    requires FlightOk(s) && MirrorOk(s) && id in s.jobs && s.jobs[id].waiter.Reapplying?
    ensures s.hydrated
    ensures s.jobs[id].job.pass in s.inFlight ==> s.inFlight[s.jobs[id].job.pass] != id
  {}

  /** Two re-appliers of one pass cannot exist, so after the answer nobody re-applies it. */
  lemma OnlyReapplier(s: State, id: nat, answer: Waiter)
    requires ClaimsOk(s) && id in s.jobs && s.jobs[id].waiter.Reapplying?
    ensures var a := SetRecord(s, id, s.jobs[id].(waiter := Releasing(answer)));
            var f := FreePass(a, s.jobs[id].job.pass);
            forall i | i in f.jobs && f.jobs[i].waiter.Reapplying? :: f.jobs[i].job.pass != s.jobs[id].job.pass
  {}

  /** The applied lifecycle is cleared and the pass is free again. */
  lemma FinishAppliedKeeps(s: State, id: nat, answer: Waiter)
    requires Inv(s) && id in s.jobs && s.jobs[id].waiter.Reapplying?
    requires answer.Refused? || answer.Recovered? || answer.Dropped?
    ensures var p := s.jobs[id].job.pass;
            var c := ClearSticky(FreePass(s, p), p);
            Inv(SetRecord(c, id, s.jobs[id].(waiter := Releasing(answer))))
  {
    assert s.jobs[id].job.pass in s.pending;
    hide QueueOk, AllLiveOk, FlightOk, MirrorOk, ClaimsOk, ClaimsOwned, RecordsOk, CountersOk, LogOk, FreePass;
    var p := s.jobs[id].job.pass;
    var a := SetRecord(s, id, s.jobs[id].(waiter := Releasing(answer)));
    ReapplierNotInFlight(s, id);
    AnswerKeeps(s, id, answer);
    FreePassKeeps(a, p);
    FreedIsSame(s, a, id, p, s.jobs[id].(waiter := Releasing(answer)));
    OnlyReapplier(s, id, answer);
    FreePassFrame(a, p);
    ClearFreedKeeps(FreePass(a, p), p);
  }

  lemma FreePassFrame(s: State, p: string)
    ensures FreePass(s, p).hydrated == s.hydrated && FreePass(s, p).pending == s.pending
    ensures FreePass(s, p).jobs.Keys == s.jobs.Keys
    ensures forall i | i in s.jobs && !(p in s.inFlight && s.inFlight[p] == i) :: FreePass(s, p).jobs[i] == s.jobs[i]
    ensures !InFlight(FreePass(s, p), p)
  {}

  lemma FreedIsSame(s: State, a: State, id: nat, p: string, r: Record)
    requires id in s.jobs && a == SetRecord(s, id, r) && r.done == s.jobs[id].done
    requires InFlight(s, p) ==> s.inFlight[p] != id
    ensures FreePass(a, p) == SetRecord(FreePass(s, p), id, r)
  {
    if InFlight(s, p) {
      var q := s.inFlight[p];
      var freed := s.jobs[q].(done := true, fate := Applied);
      assert s.jobs[q := freed][id := r] == s.jobs[id := r][q := freed];
    }
  }

  lemma FinishReapplyKeeps(s: State, id: nat, outcome: HandlerOutcome)
    requires Inv(s) && Enabled(s, FinishReapply(id, outcome))
    ensures Inv(FinishReapplyNext(s, id, outcome))
  {
    hide QueueOk, AllLiveOk, FlightOk, MirrorOk, ClaimsOwned, RecordsOk, CountersOk, LogOk, ApplyComplete;
    var r := s.jobs[id];
    var p := r.job.pass;
    var v := Verdict(outcome, r.waiter.life);
    assert p in s.pending && s.pending[p] == r.waiter.life;
    if outcome.Raises? {
      FinishFailedKeeps(s, id, p in s.handlers);
    } else if !v.complete {
      FinishFailedKeeps(s, id, true);
    } else {
      FinishCompleteKeeps(s, id, outcome);
    }
  }

  lemma ReapplierIsFresh(s: State, id: nat)
    requires RecordsOk(s) && id in s.jobs && s.jobs[id].waiter.Reapplying?
    ensures s.jobs[id] == Fresh(s.jobs[id].job, s.jobs[id].waiter)
  {
    assert RecordOk(s.worker, id in s.queue, id, s.jobs[id]);
  }

  lemma FinishCompleteKeeps(s: State, id: nat, outcome: HandlerOutcome)
    requires Inv(s) && Enabled(s, FinishReapply(id, outcome))
    requires outcome.Returns? && Verdict(outcome, s.jobs[id].waiter.life).complete
    ensures Inv(FinishReapplyNext(s, id, outcome))
  {
    hide QueueOk, AllLiveOk, FlightOk, MirrorOk, ClaimsOk, ClaimsOwned, RecordsOk, CountersOk, LogOk, ApplyComplete,
        FreePass;
    var r := s.jobs[id];
    var c := ClearSticky(FreePass(s, r.job.pass), r.job.pass);
    ReapplierNotInFlight(s, id);
    FreePassFrame(s, r.job.pass);
    FinishAppliedKeeps(s, id, Dropped);
    FinishAppliedKeeps(s, id, Recovered);
    CountersElsewhere(SetRecord(c, id, r.(waiter := Releasing(Recovered))), c.recoveredDrafts + r.job.drafts,
        c.dropped);
    var base := SetRecord(c, id, r.(waiter := Releasing(Dropped)));
    CountersElsewhere(base, c.recoveredDrafts, c.dropped + 1);
    if |c.queue| < WRITER_QUEUE_MAX {
      ReapplierIsFresh(s, id);
      assert base.jobs[id := r.(waiter := Releasing(Waiting))] == c.jobs[id := r.(waiter := Releasing(Waiting))];
      EnqueueKeeps(base, id, r.(waiter := Releasing(Waiting)));
    }
  }

  /** The invariant does not speak of the two counters of refused drafts. */
  lemma CountersElsewhere(s: State, recovered: nat, dropped: nat)
    requires Inv(s)
    ensures Inv(s.(recoveredDrafts := recovered, dropped := dropped))
  {
    hide RecordOk, LogOk;
    assert forall i :: Live(s.(recoveredDrafts := recovered, dropped := dropped), i) <==> Live(s, i);
  }

  // ---------- dropping a re-apply claim ----------

  lemma ReleasePlaces(s: State, id: nat)
    requires Enabled(s, Release(id)) && RecordsOk(s)
    requires QueueOk(s) && AllLiveOk(s) && FlightOk(s) && MirrorOk(s)
    ensures var t := ReleaseNext(s, id); QueueOk(t) && AllLiveOk(t) && FlightOk(t) && MirrorOk(t)
  {
    var t := ReleaseNext(s, id);
    BusyMeansHydrated(s, id);
    assert RecordOk(s.worker, id in s.queue, id, s.jobs[id]);
    assert Admitted(s.jobs[id]) ==> Admitted(t.jobs[id]);
    hide RecordsOk;
    assert forall i :: Live(t, i) <==> Live(s, i);
  }

  lemma ReleaseRecords(s: State, id: nat)
    requires Enabled(s, Release(id)) && RecordsOk(s) && CountersOk(s)
    ensures var t := ReleaseNext(s, id); RecordsOk(t) && CountersOk(t)
  {
    var t := ReleaseNext(s, id);
    forall i | i in t.jobs ensures RecordOk(t.worker, i in t.queue, i, t.jobs[i]) {
      assert RecordOk(s.worker, i in s.queue, i, s.jobs[i]);
    }
    assert Unrecovered(t.jobs) == Unrecovered(s.jobs);
    assert TimedOutJobs(t.jobs) == TimedOutJobs(s.jobs);
  }

  lemma ReleaseClaims(s: State, id: nat)
    requires Enabled(s, Release(id)) && RecordsOk(s) && ClaimsOk(s) && ClaimsOwned(s)
    ensures var t := ReleaseNext(s, id); ClaimsOk(t) && ClaimsOwned(t)
  {
    var t := ReleaseNext(s, id);
    assert RecordOk(s.worker, id in s.queue, id, s.jobs[id]);
    assert !Claims(t.jobs[id]);
    hide RecordsOk;
    forall p | p in t.reapplying ensures exists i :: i in t.jobs && Claims(t.jobs[i]) && t.jobs[i].job.pass == p {
      var i :| i in s.jobs && Claims(s.jobs[i]) && s.jobs[i].job.pass == p;
      assert i in t.jobs && Claims(t.jobs[i]);
    }
  }

  lemma ReleaseKeeps(s: State, id: nat)
    requires Inv(s) && Enabled(s, Release(id))
    ensures Inv(ReleaseNext(s, id))
  {
    hide QueueOk, AllLiveOk, FlightOk, MirrorOk, ClaimsOk, ClaimsOwned, RecordsOk, CountersOk, LogOk;
    ReleasePlaces(s, id);
    ReleaseRecords(s, id);
    ReleaseClaims(s, id);
  }

  // ---------- every step ----------

  lemma StepKeeps(s: State, a: Step)
    requires Inv(s) && Enabled(s, a)
    ensures Inv(Next(s, a))
  {
    hide Inv;
    match a
    case Status(_) => HydrateKeeps(s);
    case Submit(id, job, readable) => SubmitKeeps(s, id, job, readable);
    case FinishReapply(id, outcome) => FinishReapplyKeeps(s, id, outcome);
    case Release(id) => ReleaseKeeps(s, id);
    case Timeout(id) => TimeoutKeeps(s, id);
    case Observe(id) => ObserveKeeps(s, id);
    case ApplyOwn(id, outcome) => ApplyOwnKeeps(s, id, outcome);
    case Take => TakeKeeps(s);
    case Write(ok) => WriteKeeps(s, ok);
    case CountFailure => CountFailureKeeps(s);
    case Claim => ClaimKeeps(s);
    case Reported(outcome) => ReportKeeps(s, outcome);
    case End => EndKeeps(s);
    case Crash => CrashKeeps(s);
  }
}
