/**
  What becomes of a landed batch's lifecycle. A record says whether nothing has
  become of it yet, whether it has been set aside on disk, or whether it has been
  applied; here those marks are tied to who owes the lifecycle (the worker between
  its write and the end of a deferred apply, or the caller that has the result and
  has not finished applying it), to what the sidecar names, and to the steps that
  move a mark. The result is the exact list of landed batches whose lifecycle a
  crash makes the daemon forget, and that each entry of the list is reachable.
*/
module WriterFates {
  import opened Wrappers
  import opened WriterProtocol
  import opened WriterInvariants
  import opened WriterTheorems

  /** The batch is in the vault and there is something to apply. */
  predicate Landed(r: Record) {
    r.out.Result? && r.job.lifecycle.Some? && r.job.lifecycle.value.HasOps()
  }

  /** The worker is between its write and the end of the apply. */
  predicate WorkerOwes(w: Worker, id: nat) {
    w == Wrote(id) || w == Applying(id)
  }

  ghost predicate RecordFate(owes: bool, live: bool, r: Record) {
    && (!r.fate.Open? ==> Landed(r))
    && (r.fate.SetAside? ==> r.deferred)
    && (Landed(r) && r.deferred ==> (r.fate.Open? <==> owes))
    && (Landed(r) && !r.deferred ==> (r.fate.Open? <==> r.waiter != Finished(true)))
    && (Admitted(r) && !r.done && !live ==> r.fate.SetAside?)
  }

  /** The lifecycle is the sticky one of its pass, and the batch still holds the pass. */
  ghost predicate Held(s: State, id: nat)
    requires id in s.jobs
  {
    var r := s.jobs[id];
    var p := r.job.pass;
    p in s.inFlight && s.inFlight[p] == id && !r.done && p in s.pending && Some(s.pending[p]) == r.job.lifecycle
  }

  ghost predicate FateOk(s: State, id: nat)
    requires id in s.jobs
  {
    RecordFate(WorkerOwes(s.worker, id), Live(s, id), s.jobs[id]) && (s.jobs[id].fate.SetAside? ==> Held(s, id))
  }

  ghost predicate FatesOk(s: State) {
    forall id | id in s.jobs :: FateOk(s, id)
  }

  // ---------- every step keeps the fates straight ----------

  /** The two workers are in the same place, or neither has the batch. */
  ghost predicate SameFor(v: Worker, w: Worker, id: nat) {
    v == w || (!WorkerHas(v, id) && !WorkerHas(w, id))
  }

  /** A step that touches one record, and the worker only if it has that record. */
  lemma PatchFates(s: State, t: State, id: nat)
    requires FatesOk(s) && Patch(s, t, id) && FateOk(t, id)
    requires forall i | i != id :: SameFor(s.worker, t.worker, i)
    ensures FatesOk(t)
  {
    forall i | i in t.jobs ensures FateOk(t, i) {
      if i != id {
        assert FateOk(s, i) && SameFor(s.worker, t.worker, i);
      }
    }
  }

  lemma SubmitterFates(s: State, a: Step)
    requires Inv(s) && FatesOk(s) && Enabled(s, a) && (a.Timeout? || a.Observe? || a.ApplyOwn? || a.Release?)
    ensures FatesOk(Next(s, a))
  {
    hide FatesOk, QueueOk, AllLiveOk, FlightOk, MirrorOk, ClaimsOk, ClaimsOwned, CountersOk, LogOk;
    RecordAndFate(s, a.id);
    SubmitterFate(s, a);
    hide Inv, Live, FateOk, RecordOk, Held, Next;
    SubmitterPatch(s, a);
    PatchFates(s, Next(s, a), a.id);
  }

  lemma RecordAndFate(s: State, id: nat)
    requires RecordsOk(s) && FatesOk(s) && id in s.jobs
    ensures RecordOk(s.worker, id in s.queue, id, s.jobs[id]) && FateOk(s, id)
  {
  }

  lemma SubmitterPatch(s: State, a: Step)
    requires Enabled(s, a) && (a.Timeout? || a.Observe? || a.ApplyOwn? || a.Release?)
    ensures Patch(s, Next(s, a), a.id) && Next(s, a).worker == s.worker
  {
    hide ApplyComplete;
  }

  lemma SubmitterFate(s: State, a: Step)
    requires Enabled(s, a) && (a.Timeout? || a.Observe? || a.ApplyOwn? || a.Release?)
    requires RecordOk(s.worker, a.id in s.queue, a.id, s.jobs[a.id]) && FateOk(s, a.id)
    ensures FateOk(Next(s, a), a.id)
  {
    hide ApplyComplete;
    var t := Next(s, a);
    assert Live(t, a.id) <==> Live(s, a.id);
  }

  lemma WorkerFates(s: State, a: Step)
    requires Inv(s) && FatesOk(s) && Enabled(s, a) && (a.Write? || a.CountFailure? || a.End?)
    ensures FatesOk(Next(s, a))
  {
    hide FatesOk, FlightOk, MirrorOk, ClaimsOk, ClaimsOwned, CountersOk, LogOk;
    var id := s.worker.id;
    assert Live(s, id) && LiveOk(s, id);
    assert id !in s.queue by { NotQueued(s); }
    RecordAndFate(s, id);
    hide Inv, QueueOk, AllLiveOk, RecordsOk;
    WorkerFate(s, a);
    WorkerPatch(s, a);
    hide FateOk, RecordOk, Held, Next, Patch, SameFor, LiveOk, Live;
    PatchFates(s, Next(s, a), id);
  }

  lemma WorkerPatch(s: State, a: Step)
    requires Enabled(s, a) && (a.Write? || a.CountFailure? || a.End?)
    ensures Patch(s, Next(s, a), s.worker.id)
    ensures forall i | i != s.worker.id :: SameFor(s.worker, Next(s, a).worker, i)
  {
  }

  /** What the worker has is no longer queued. */
  lemma NotQueued(s: State)
    requires QueueOk(s) && !s.worker.Idle?
    ensures s.worker.id !in s.queue
  {
    assert WorkerHas(s.worker, s.worker.id);
  }

  lemma WorkerFate(s: State, a: Step)
    requires Enabled(s, a) && (a.Write? || a.CountFailure? || a.End?) && LiveOk(s, s.worker.id)
    requires s.worker.id !in s.queue && RecordOk(s.worker, false, s.worker.id, s.jobs[s.worker.id])
              && FateOk(s, s.worker.id)
    ensures FateOk(Next(s, a), s.worker.id)
  {
    assert Live(s, s.worker.id);
  }

  lemma TakeFates(s: State)
    requires Inv(s) && FatesOk(s) && Enabled(s, Take)
    ensures FatesOk(TakeNext(s))
  {
    hide FlightOk, MirrorOk, ClaimsOk, ClaimsOwned, CountersOk, LogOk;
    var t := TakeNext(s);
    forall i | i in t.jobs ensures FateOk(t, i) {
      assert FateOk(s, i) && RecordOk(s.worker, i in s.queue, i, s.jobs[i]);
      assert i in s.queue <==> i == s.queue[0] || i in t.queue;
    }
  }

  /**
    The worker records a lifecycle, or applies it: nobody else's is touched, because nothing was
    sticky for the pass.
  */
  lemma LifecycleFates(s: State, t: State, id: nat)
    requires FatesOk(s) && WorkerHas(s.worker, id) && id in s.jobs && s.jobs[id].job.pass !in s.pending
    requires OwnPass(s, t, id) && FateOk(t, id)
    ensures FatesOk(t)
  {
    forall i | i in t.jobs ensures FateOk(t, i) {
      if i != id {
        assert FateOk(s, i);
      }
    }
  }

  lemma ClaimFates(s: State, a: Step)
    requires Inv(s) && FatesOk(s) && Enabled(s, a) && (a.Claim? || a.Reported?)
    ensures FatesOk(Next(s, a))
  {
    hide FatesOk, FlightOk, MirrorOk, ClaimsOk, ClaimsOwned, CountersOk, LogOk, ApplyComplete;
    var id := s.worker.id;
    assert Live(s, id) && LiveOk(s, id);
    NotQueued(s);
    RecordAndFate(s, id);
    hide Inv, QueueOk, AllLiveOk, RecordsOk;
    ClaimFate(s, a);
    if a.Claim? {
      ClaimPatch(s);
    } else {
      ReportPatch(s, a.outcome);
    }
    hide FateOk, RecordOk, Held, Live, OwnPass;
    LifecycleFates(s, Next(s, a), id);
  }

  /** What the worker's lifecycle steps leave alone. */
  ghost predicate OwnPass(s: State, t: State, id: nat) {
    && id in s.jobs && id in t.jobs && t.jobs == s.jobs[id := t.jobs[id]] && t.queue == s.queue
        && t.inFlight == s.inFlight
    && (t.worker.Idle? || WorkerHas(t.worker, id))
    && forall p | p in s.pending && p != s.jobs[id].job.pass :: p in t.pending && t.pending[p] == s.pending[p]
  }

  lemma ClaimPatch(s: State)
    requires Enabled(s, Claim)
    ensures OwnPass(s, ClaimNext(s), s.worker.id)
  {
  }

  lemma ReportPatch(s: State, outcome: HandlerOutcome)
    requires Enabled(s, Reported(outcome))
    ensures OwnPass(s, ReportNext(s, outcome), s.worker.id)
  {
    hide ApplyComplete;
  }

  lemma ClaimFate(s: State, a: Step)
    requires Enabled(s, a) && (a.Claim? || a.Reported?) && LiveOk(s, s.worker.id) && s.worker.id !in s.queue
    requires RecordOk(s.worker, false, s.worker.id, s.jobs[s.worker.id]) && FateOk(s, s.worker.id)
    ensures FateOk(Next(s, a), s.worker.id)
  {
    hide ApplyComplete;
    assert Live(s, s.worker.id);
  }

  lemma HydrateFates(s: State)
    requires FatesOk(s)
    ensures FatesOk(Hydrate(s))
  {
    forall i | i in s.jobs ensures FateOk(Hydrate(s), i) {
      assert FateOk(s, i);
    }
  }

  /** A record that is new or not admitted changes; the pass it may enter has nothing sticky. */
  ghost predicate Entry(s: State, t: State, id: nat) {
    && t.worker == s.worker && id in t.jobs && t.jobs == s.jobs[id := t.jobs[id]]
    && (t.queue == s.queue || t.queue == s.queue + [id])
    && t.pending == s.pending
    && (t.inFlight == s.inFlight
        || (t.jobs[id].job.pass !in s.pending && t.inFlight == s.inFlight[t.jobs[id].job.pass := id]))
  }

  lemma EntryFates(s: State, t: State, id: nat)
    requires FatesOk(s) && Entry(s, t, id) && !Live(s, id) && FateOk(t, id)
    ensures FatesOk(t)
  {
    forall i | i in t.jobs ensures FateOk(t, i) {
      if i != id {
        assert FateOk(s, i);
      }
    }
  }

  /** A new record has an open fate, and its batch is live if it was admitted. */
  lemma FreshFate(t: State, id: nat)
    requires id in t.jobs && t.jobs[id] == Fresh(t.jobs[id].job, t.jobs[id].waiter)
    requires Admitted(t.jobs[id]) ==> t.queue != [] && t.queue[|t.queue| - 1] == id
    ensures FateOk(t, id)
  {
    hide Held;
  }

  /** The record is set and the batch stays out of the queue. */
  lemma OutsideEntry(s: State, t: State, id: nat, r: Record)
    requires t == SetRecord(s.(reapplying := t.reapplying, dropped := t.dropped), id, r)
    ensures Entry(s, t, id) && t.jobs[id] == r
  {
  }

  lemma InsideEntry(s: State, id: nat, r: Record)
    requires r.job.pass !in s.pending
    ensures Entry(s, Enqueue(s, id, r), id) && Enqueue(s, id, r).jobs[id] == r
    ensures var q := Enqueue(s, id, r).queue; q != [] && q[|q| - 1] == id
  {
  }

  lemma AdmitEntry(s: State, t: State, id: nat, job: Job)
    requires t == AdmitNext(s, id, job)
    ensures Entry(s, t, id)
  {
    hide InFlight, Entry, Enqueue;
    if job.pass !in s.pending && !InFlight(s, job.pass) && |s.queue| < WRITER_QUEUE_MAX {
      InsideEntry(s, id, Fresh(job, Waiting));
    } else {
      OutsideEntry(s, t, id, t.jobs[id]);
    }
  }

  lemma AdmitAnswer(s: State, t: State, id: nat, job: Job)
    requires t == AdmitNext(s, id, job)
    ensures id in t.jobs && t.jobs[id] == Fresh(t.jobs[id].job, t.jobs[id].waiter)
    ensures Admitted(t.jobs[id]) ==> t.queue != [] && t.queue[|t.queue| - 1] == id
  {
    FreshFacts(job);
    hide InFlight, Fresh, Admitted;
    if job.pass in s.pending {
      PendingAnswer(s, t, id, job);
    } else {
      FreeAnswer(s, t, id, job);
    }
    hide AdmitNext;
  }

  lemma FreeAnswer(s: State, t: State, id: nat, job: Job)
    requires t == AdmitNext(s, id, job) && job.pass !in s.pending
    ensures id in t.jobs
    ensures || t.jobs[id] == Fresh(job, Refused) || t.jobs[id] == Fresh(job, Dropped)
            || (t.jobs[id] == Fresh(job, Waiting) && t.queue == s.queue + [id])
  {
    hide InFlight, Fresh;
  }

  lemma PendingAnswer(s: State, t: State, id: nat, job: Job)
    requires t == AdmitNext(s, id, job) && job.pass in s.pending
    ensures id in t.jobs
            && (t.jobs[id] == Fresh(job, Refused) || t.jobs[id] == Fresh(job, Reapplying(s.pending[job.pass])))
  {
    hide Fresh;
  }

  lemma FreshFacts(job: Job)
    ensures forall w :: Fresh(job, w).job == job && Fresh(job, w).waiter == w
    ensures forall w :: Admitted(Fresh(job, w)) && !w.Releasing? ==>
              w.Waiting? || w.GotResult? || w.Finished? || w.GotError? || w.TimedOut?
  {
  }

  lemma AdmitFates(s: State, t: State, id: nat, job: Job)
    requires AllLiveOk(s) && FatesOk(s) && id !in s.jobs && t == AdmitNext(s, id, job)
    ensures FatesOk(t)
  {
    assert !Live(s, id);
    AdmitEntry(s, t, id, job);
    AdmitAnswer(s, t, id, job);
    hide FatesOk, FateOk, Live, AllLiveOk, AdmitNext;
    FreshFate(t, id);
    EntryFates(s, t, id);
  }

  lemma SubmitFates(s: State, id: nat, job: Job, readable: bool)
    requires Inv(s) && FatesOk(s) && id !in s.jobs
    ensures FatesOk(SubmitNext(s, id, job, readable))
  {
    hide Inv, FateOk, AdmitNext;
    if readable {
      HydrateKeeps(s);
      HydrateFates(s);
      LiveInside(Hydrate(s));
      AdmitFates(Hydrate(s), AdmitNext(Hydrate(s), id, job), id, job);
    } else {
      LiveInside(s);
      RefusedFates(s, id, job);
    }
  }

  lemma LiveInside(s: State)
    requires Inv(s)
    ensures AllLiveOk(s)
  {
  }

  lemma RefusedFates(s: State, id: nat, job: Job)
    requires AllLiveOk(s) && FatesOk(s) && id !in s.jobs
    ensures FatesOk(SetRecord(s, id, Fresh(job, Refused)))
  {
    assert !Live(s, id);
    FreshFate(SetRecord(s, id, Fresh(job, Refused)), id);
    EntryFates(s, SetRecord(s, id, Fresh(job, Refused)), id);
  }

  // ---------- the end of a re-apply ----------

  /** The sticky entry goes and the batch that held the pass is settled. */
  lemma FreedFates(s: State, p: string)
    requires Inv(s) && FatesOk(s) && p in s.pending && s.hydrated
    ensures FatesOk(ClearSticky(FreePass(s, p), p))
  {
    hide QueueOk, ClaimsOk, ClaimsOwned, CountersOk, LogOk;
    var t := ClearSticky(FreePass(s, p), p);
    if InFlight(s, p) {
      var q := s.inFlight[p];
      assert !Live(s, q);
      assert FateOk(s, q) && RecordOk(s.worker, q in s.queue, q, s.jobs[q]);
    }
    forall i | i in t.jobs ensures FateOk(t, i) {
      assert FateOk(s, i);
    }
  }

  lemma RecoverFates(s: State, id: nat, didWork: bool)
    requires Inv(s) && FatesOk(s) && id in s.jobs && s.jobs[id].waiter.Reapplying?
    ensures FatesOk(RecoverNext(s, id, didWork))
  {
    var r, p := s.jobs[id], s.jobs[id].job.pass;
    ReapplierFacts(s, id);
    FreePassFrame(s, p);
    FreePassPlaces(s, p);
    FreedFates(s, p);
    hide Inv, FreePass, FatesOk;
    var c, t := ClearSticky(FreePass(s, p), p), RecoverNext(s, id, didWork);
    RecoverEntry(s, c, t, id, didWork);
    hide RecoverNext;
    FreshFate(t, id);
    EntryFates(c, t, id);
  }

  lemma RecoverEntry(s: State, c: State, t: State, id: nat, didWork: bool)
    requires id in s.jobs && s.jobs[id] == Fresh(s.jobs[id].job, s.jobs[id].waiter)
    requires c == ClearSticky(FreePass(s, s.jobs[id].job.pass), s.jobs[id].job.pass) && t == RecoverNext(s, id, didWork)
    ensures Entry(c, t, id)
    ensures t.jobs[id] == Fresh(t.jobs[id].job, t.jobs[id].waiter)
    ensures Admitted(t.jobs[id]) ==> t.queue != [] && t.queue[|t.queue| - 1] == id
  {
    hide FreePass;
  }

  lemma ReapplierFacts(s: State, id: nat)
    requires Inv(s) && id in s.jobs && s.jobs[id].waiter.Reapplying?
    ensures var p := s.jobs[id].job.pass;
            s.hydrated && p in s.pending && s.pending[p] == s.jobs[id].waiter.life
            && !(p in s.inFlight && s.inFlight[p] == id) && !Live(s, id)
    ensures s.jobs[id] == Fresh(s.jobs[id].job, s.jobs[id].waiter)
  {
    ReapplierNotInFlight(s, id);
    ReapplierIsFresh(s, id);
    NotAdmittedNotLive(s, id);
  }

  lemma ReapplyFates(s: State, id: nat, outcome: HandlerOutcome)
    requires Inv(s) && FatesOk(s) && Enabled(s, FinishReapply(id, outcome))
    ensures FatesOk(FinishReapplyNext(s, id, outcome))
  {
    hide ApplyComplete;
    ReapplierFacts(s, id);
    var r := s.jobs[id];
    if outcome.Returns? && Verdict(outcome, r.waiter.life).complete {
      RecoverFates(s, id, Verdict(outcome, r.waiter.life).didWork);
    } else {
      hide Inv;
      var t := FinishReapplyNext(s, id, outcome);
      assert t.pending == s.pending;
      EntryFates(s, t, id);
    }
  }

  lemma StepFates(s: State, a: Step)
    requires Inv(s) && FatesOk(s) && Enabled(s, a)
    ensures FatesOk(Next(s, a))
  {
    hide Inv, FatesOk;
    match a
    case Status(readable) => HydrateFates(s);
    case Submit(id, job, readable) => SubmitFates(s, id, job, readable);
    case FinishReapply(id, outcome) => ReapplyFates(s, id, outcome);
    case Release(_) => SubmitterFates(s, a);
    case Timeout(_) => SubmitterFates(s, a);
    case Observe(_) => SubmitterFates(s, a);
    case ApplyOwn(_, _) => SubmitterFates(s, a);
    case Take => TakeFates(s);
    case Write(_) => WorkerFates(s, a);
    case CountFailure => WorkerFates(s, a);
    case Claim => ClaimFates(s, a);
    case Reported(_) => ClaimFates(s, a);
    case End => WorkerFates(s, a);
    case Crash => NoFates(s);
  }

  lemma NoFates(s: State)
    ensures FatesOk(CrashNext(s))
  {
  }

  lemma {:induction false} RunFates(s: State, run: seq<Step>)
    requires Inv(s) && FatesOk(s) && Legal(s, run)
    ensures FatesOk(Exec(s, run))
    decreases |run|
  {
    hide Inv, FatesOk;
    if run != [] {
      StepKeeps(s, run[0]);
      StepFates(s, run[0]);
      RunFates(Next(s, run[0]), run[1..]);
    }
  }

  lemma ReachableFates(run: seq<Step>)
    requires Legal(Init, run)
    ensures FatesOk(Exec(Init, run)) && Inv(Exec(Init, run))
  {
    InitInv();
    assert FatesOk(Init);
    RunFates(Init, run);
    ReachableInv(run);
  }

  // ---------- what the fates mean ----------

  /** The step reports the lifecycle of this batch complete: by the worker, by its own caller, or by a re-apply. */
  predicate Completes(s: State, a: Step, id: nat)
    requires id in s.jobs && s.jobs[id].job.lifecycle.Some?
  {
    var r := s.jobs[id];
    var life := r.job.lifecycle.value;
    || (a.Reported? && s.worker == Applying(id) && SaysComplete(a.outcome, life))
    || (a.ApplyOwn? && a.id == id && SaysComplete(a.outcome, life))
    || (r.fate.SetAside? && Applies(s, a, r.job.pass, life))
  }

  /** One step, seen from one landed batch. */
  ghost predicate FateMoves(s: State, a: Step, t: State, id: nat)
    requires id in s.jobs && Landed(s.jobs[id])
  {
    var r := s.jobs[id];
    && id in t.jobs && t.jobs[id].job == r.job && Landed(t.jobs[id])
    && (t.jobs[id].fate.Applied? <==> r.fate.Applied? || Completes(s, a, id))
    && (t.jobs[id].fate.SetAside? && !r.fate.SetAside? ==>
          WorkerHas(s.worker, id) && SetsAside(s, a, r.job.pass, r.job.lifecycle.value))
    && (t.jobs[id].fate.Open? ==> r.fate.Open?)
  }

  lemma ReapplyMoves(s: State, a: Step, id: nat)
    requires Inv(s) && FatesOk(s) && Enabled(s, a) && a.FinishReapply? && id in s.jobs && Landed(s.jobs[id])
    ensures FateMoves(s, a, Next(s, a), id)
  {
    var j, p := a.id, s.jobs[a.id].job.pass;
    ReapplierFacts(s, j);
    RecordAndFate(s, id);
    assert Live(s, id) ==> LiveOk(s, id);
    assert InFlight(s, p) ==> !Live(s, s.inFlight[p]);
    hide Inv, FatesOk;
    ReapplyRecord(s, j, a.outcome, id);
    VerdictMeans(a.outcome, s.jobs[j].waiter.life);
    hide Verdict, SaysComplete, Next;
    assert Next(s, a) == FinishReapplyNext(s, j, a.outcome);
  }

  /** The only record a re-apply changes, apart from its own, is the one that held the pass. */
  lemma ReapplyRecord(s: State, j: nat, outcome: HandlerOutcome, id: nat)
    requires Enabled(s, FinishReapply(j, outcome)) && id in s.jobs && id != j
    ensures var t, p := FinishReapplyNext(s, j, outcome), s.jobs[j].job.pass;
            && id in t.jobs
            && t.jobs[id] == if Verdict(outcome, s.jobs[j].waiter.life).complete && InFlight(s, p)
                && s.inFlight[p] == id
                             then s.jobs[id].(done := true, fate := Applied) else s.jobs[id]
  {
    hide ApplyComplete, FreePass;
    FreedRecord(s, s.jobs[j].job.pass, id);
    FreedRecord(s, s.jobs[j].job.pass, j);
  }

  lemma FreedRecord(s: State, p: string, id: nat)
    requires id in s.jobs
    ensures var t := FreePass(s, p);
            && id in t.jobs
            && t.jobs[id] == if InFlight(s, p) && s.inFlight[p] == id then s.jobs[id].(done := true, fate := Applied)
                else s.jobs[id]
  {
  }

  lemma OtherMoves(s: State, a: Step, id: nat)
    requires Enabled(s, a) && !a.Crash? && !a.FinishReapply? && id in s.jobs && Landed(s.jobs[id])
    requires RecordOk(s.worker, id in s.queue, id, s.jobs[id]) && FateOk(s, id)
    ensures FateMoves(s, a, Next(s, a), id)
  {
    hide FateMoves, RecordOk, FateOk, SubmitNext, ClaimNext, ReportNext, TimeoutNext, ObserveNext, ApplyOwnNext,
        ReleaseNext;
    hide TakeNext, WriteNext, CountFailureNext, EndNext, Hydrate;
    match a
    case Submit(i, job, readable) => SubmitRecord(s, i, job, readable, id); SubmitMoves(s, a, id);
    case Claim => ClaimMoves(s, id);
    case Reported(outcome) => ReportMoves(s, outcome, id);
    case Timeout(_) => PlainMoves(s, a, id);
    case Observe(_) => PlainMoves(s, a, id);
    case ApplyOwn(_, _) => PlainMoves(s, a, id);
    case Release(_) => PlainMoves(s, a, id);
    case Status(_) => WorkMoves(s, a, id);
    case Take => WorkMoves(s, a, id);
    case Write(_) => WorkMoves(s, a, id);
    case CountFailure => WorkMoves(s, a, id);
    case End => WorkMoves(s, a, id);
  }

  lemma SubmitMoves(s: State, a: Step, id: nat)
    requires Enabled(s, a) && a.Submit? && id in s.jobs && Landed(s.jobs[id])
    requires id in Next(s, a).jobs && Next(s, a).jobs[id] == s.jobs[id]
    ensures FateMoves(s, a, Next(s, a), id)
  {
    hide Next;
  }

  lemma ClaimMoves(s: State, id: nat)
    requires Enabled(s, Claim) && id in s.jobs && Landed(s.jobs[id])
    requires RecordOk(s.worker, id in s.queue, id, s.jobs[id]) && FateOk(s, id)
    ensures FateMoves(s, Claim, ClaimNext(s), id)
  {
    hide ApplyComplete, Held;
  }

  lemma ReportMoves(s: State, outcome: HandlerOutcome, id: nat)
    requires Enabled(s, Reported(outcome)) && id in s.jobs && Landed(s.jobs[id])
    requires RecordOk(s.worker, id in s.queue, id, s.jobs[id]) && FateOk(s, id)
    ensures FateMoves(s, Reported(outcome), ReportNext(s, outcome), id)
  {
    VerdictMeans(outcome, s.jobs[s.worker.id].job.lifecycle.value);
    hide Verdict, SaysComplete, Held;
  }

  lemma PlainMoves(s: State, a: Step, id: nat)
    requires Enabled(s, a) && (a.Timeout? || a.Observe? || a.ApplyOwn? || a.Release?) && id in s.jobs
              && Landed(s.jobs[id])
    requires RecordOk(s.worker, id in s.queue, id, s.jobs[id]) && FateOk(s, id)
    ensures FateMoves(s, a, Next(s, a), id)
  {
    if a.ApplyOwn? {
      VerdictMeans(a.outcome, s.jobs[a.id].job.lifecycle.value);
    }
    hide Verdict, SaysComplete, Held;
  }

  lemma WorkMoves(s: State, a: Step, id: nat)
    requires Enabled(s, a) && (a.Status? || a.Take? || a.Write? || a.CountFailure? || a.End?)
    requires id in s.jobs && Landed(s.jobs[id])
    requires RecordOk(s.worker, id in s.queue, id, s.jobs[id]) && FateOk(s, id)
    ensures FateMoves(s, a, Next(s, a), id)
  {
    hide ApplyComplete, Held;
  }

  lemma SubmitRecord(s: State, id: nat, job: Job, readable: bool, other: nat)
    requires Enabled(s, Submit(id, job, readable)) && other in s.jobs
    ensures var t := Next(s, Submit(id, job, readable)); other in t.jobs && t.jobs[other] == s.jobs[other]
  {
  }

  /**
    The fates are what their names say: a lifecycle set aside is on disk as it
    was submitted, it gets there only when the worker sets it aside, it counts as
    applied exactly from the step on that reports it complete, and nothing but a
    crash takes either back.
  */
  lemma FateStep(run: seq<Step>, a: Step, id: nat)
    requires Legal(Init, run) && Enabled(Exec(Init, run), a) && !a.Crash?
    requires id in Exec(Init, run).jobs && Landed(Exec(Init, run).jobs[id])
    ensures var s := Exec(Init, run);
            var t, r, p := Next(s, a), s.jobs[id], s.jobs[id].job.pass;
            && id in t.jobs && t.jobs[id].job == r.job && Landed(t.jobs[id])
            && (r.fate.SetAside? ==> p in s.sidecar && Some(s.sidecar[p]) == r.job.lifecycle)
            && (t.jobs[id].fate.Applied? <==> r.fate.Applied? || Completes(s, a, id))
            && (t.jobs[id].fate.SetAside? && !r.fate.SetAside? ==>
                  WorkerHas(s.worker, id) && SetsAside(s, a, p, r.job.lifecycle.value))
            && (t.jobs[id].fate.Open? ==> r.fate.Open?)
  {
    var s := Exec(Init, run);
    ReachableFates(run);
    RecordAndFate(s, id);
    if s.hydrated {
      HydratedNamesSidecar(s);
    }
    hide FatesOk, SaysComplete, Next;
    if a.FinishReapply? {
      ReapplyMoves(s, a, id);
    } else {
      OtherMoves(s, a, id);
    }
  }

  // ---------- what a crash makes the daemon forget ----------

  /**
    Somebody in this process still owes the batch its lifecycle: the worker, if the
    lifecycle was left to it, and otherwise the caller, who has not applied it completely.
  */
  predicate Exposed(s: State, id: nat)
    requires id in s.jobs
  {
    if s.jobs[id].deferred then WorkerOwes(s.worker, id) else s.jobs[id].waiter != Finished(true)
  }

  /**
    What a crash loses, exactly. At any moment of any run, the lifecycle of a
    landed batch is neither recorded nor applied if and only if it is exposed; and
    a crash at that moment followed by a submit of the same pass queues a second
    draft set, with the first one's lifecycle forgotten, if and only if it is
    exposed and nothing else of its pass is on disk, which is always so in the
    worker's window.
  */
  lemma CrashWindow(run: seq<Step>, id: nat, again: nat, job: Job)
    requires Legal(Init, run) && id in Exec(Init, run).jobs && Landed(Exec(Init, run).jobs[id])
    requires job.pass == Exec(Init, run).jobs[id].job.pass
    ensures var s := Exec(Init, run);
            var t := SubmitNext(Next(s, Crash), again, job, true);
            && (s.jobs[id].fate.Open? <==> Exposed(s, id))
            && again in t.jobs
            && (s.jobs[id].fate.Open? && t.jobs[again].waiter.Waiting? <==> Exposed(s, id) && job.pass !in s.sidecar)
            && (Exposed(s, id) && s.jobs[id].deferred ==> job.pass !in s.sidecar)
            && (s.jobs[id].fate.SetAside? ==>
                  job.pass in s.sidecar && Some(s.sidecar[job.pass]) == s.jobs[id].job.lifecycle)
  {
    var s := Exec(Init, run);
    ReachableFates(run);
    SubmitAfterCrash(s, again, job);
    hide Inv, FatesOk, SubmitNext;
    ExposedFacts(s, id);
    assert Next(s, Crash) == CrashNext(s);
  }

  lemma ExposedFacts(s: State, id: nat)
    requires Inv(s) && FatesOk(s) && id in s.jobs && Landed(s.jobs[id])
    ensures var r, p := s.jobs[id], s.jobs[id].job.pass;
            && (r.fate.Open? <==> Exposed(s, id))
            && (Exposed(s, id) && r.deferred ==> p !in s.sidecar)
            && (r.fate.SetAside? ==> p in s.sidecar && Some(s.sidecar[p]) == r.job.lifecycle)
  {
    hide QueueOk, FlightOk, ClaimsOk, ClaimsOwned, CountersOk, LogOk;
    RecordAndFate(s, id);
    if s.hydrated {
      HydratedNamesSidecar(s);
    }
    hide FatesOk, RecordsOk;
    if WorkerOwes(s.worker, id) {
      assert Live(s, id) && LiveOk(s, id);
    }
  }

  lemma SubmitAfterCrash(s: State, again: nat, job: Job)
    ensures var t := SubmitNext(CrashNext(s), again, job, true);
            again in t.jobs && (t.jobs[again].waiter.Waiting? <==> job.pass !in s.sidecar)
  {
    var h := Hydrate(CrashNext(s));
    assert h.pending == s.sidecar + map[];
  }

  /** So from every such moment the run that goes on with the crash and the submit queues the pass again. */
  lemma CrashMintsAgain(run: seq<Step>, id: nat, again: nat, job: Job)
    requires Legal(Init, run) && id in Exec(Init, run).jobs && Landed(Exec(Init, run).jobs[id])
    requires job.pass == Exec(Init, run).jobs[id].job.pass
    requires Exposed(Exec(Init, run), id) && job.pass !in Exec(Init, run).sidecar
    ensures Legal(Init, run + ([Crash] + [Submit(again, job, true)]))
    ensures var s, t := Exec(Init, run), Exec(Init, run + ([Crash] + [Submit(again, job, true)]));
            t.log == s.log + [Crashed] + [Enqueued(job.pass)] && t.sidecar == s.sidecar
  {
    hide Landed, Exposed;
    var s := Exec(Init, run);
    var c := CrashNext(s);
    SubmitLogs(c, again, job);
    PlayStep(c, Submit(again, job, true), []);
    assert [Submit(again, job, true)] + [] == [Submit(again, job, true)];
    PlayStep(s, Crash, [Submit(again, job, true)]);
    RunOn(Init, run, [Crash] + [Submit(again, job, true)]);
  }

  lemma SubmitLogs(c: State, again: nat, job: Job)
    requires job.pass !in c.sidecar && c.pending == map[] && c.queue == [] && c.inFlight == map[]
    ensures var t := SubmitNext(c, again, job, true); t.log == c.log + [Enqueued(job.pass)] && t.sidecar == c.sidecar
  {
  }

  lemma {:induction false} RunOn(s: State, a: seq<Step>, b: seq<Step>)
    requires Legal(s, a) && Legal(Exec(s, a), b)
    ensures Legal(s, a + b) && Exec(s, a + b) == Exec(Exec(s, a), b)
    decreases |a|
  {
    hide Next, Enabled;
    if a == [] {
      assert a + b == b;
    } else {
      RunOn(Next(s, a[0]), a[1..], b);
      assert (a + b)[1..] == a[1..] + b;
    }
  }

  lemma PlayStep(s: State, a: Step, rest: seq<Step>)
    requires Enabled(s, a) && Legal(Next(s, a), rest)
    ensures Legal(s, [a] + rest) && Exec(s, [a] + rest) == Exec(Next(s, a), rest)
  {
    assert ([a] + rest)[1..] == rest;
  }

  function DemoJob(): Job {
    Job("session", 3, Some(Lifecycle(["c1"], [], [])), true)
  }

  const SUBMIT := Submit(0, DemoJob(), true)

  /** The waiter times out, the drafts land, and the worker has yet to apply the lifecycle. */
  lemma WorkerOwesIt() returns (run: seq<Step>)
    ensures Legal(Init, run) && 0 in Exec(Init, run).jobs && Landed(Exec(Init, run).jobs[0])
    ensures Exec(Init, run).jobs[0].deferred && Exposed(Exec(Init, run), 0)
  {
    run := [SUBMIT] + ([Timeout(0)] + ([Take] + [Write(true)]));
    var s1 := Next(Init, SUBMIT);
    var s2 := Next(s1, Timeout(0));
    var s3 := Next(s2, Take);
    PlayStep(s3, Write(true), []);
    assert [Write(true)] + [] == [Write(true)];
    PlayStep(s2, Take, [Write(true)]);
    PlayStep(s1, Timeout(0), [Take] + [Write(true)]);
    PlayStep(Init, SUBMIT, [Timeout(0)] + ([Take] + [Write(true)]));
  }

  /** From a landed batch whose waiter still waits to the state in which the caller has its result. */
  lemma CallerGetsResult(s: State) returns (rest: seq<Step>)
    requires s.worker == Wrote(0) && 0 in s.jobs && s.jobs[0] == Fresh(DemoJob(), Waiting).(out := Result)
    ensures Legal(s, rest)
    ensures var t := Exec(s, rest);
            t.worker.Idle? && t.sidecar == s.sidecar && 0 in t.jobs
                && t.jobs[0] == s.jobs[0].(done := true, waiter := GotResult)
  {
    rest := [Claim] + ([End] + [Observe(0)]);
    var s1 := Next(s, Claim);
    var s2 := Next(s1, End);
    PlayStep(s2, Observe(0), []);
    assert [Observe(0)] + [] == [Observe(0)];
    PlayStep(s1, End, [Observe(0)]);
    PlayStep(s, Claim, [End] + [Observe(0)]);
  }

  /** The drafts land and the caller has its result; the worker is idle. */
  lemma CallerOwesIt() returns (run: seq<Step>)
    ensures Legal(Init, run) && 0 in Exec(Init, run).jobs && Landed(Exec(Init, run).jobs[0])
    ensures !Exec(Init, run).jobs[0].deferred && Exposed(Exec(Init, run), 0)
    ensures Exec(Init, run).worker.Idle? && Exec(Init, run).sidecar == map[]
  {
    var s1 := Next(Init, SUBMIT);
    var s2 := Next(s1, Take);
    var s3 := Next(s2, Write(true));
    var rest := CallerGetsResult(s3);
    run := [SUBMIT] + ([Take] + ([Write(true)] + rest));
    PlayStep(s2, Write(true), rest);
    PlayStep(s1, Take, [Write(true)] + rest);
    PlayStep(Init, SUBMIT, [Take] + ([Write(true)] + rest));
  }
}
