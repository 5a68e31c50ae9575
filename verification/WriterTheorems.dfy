/** What holds in every state that any run of the draft writer reaches. */
module WriterTheorems {
  import opened Wrappers
  import opened WriterProtocol
  import opened WriterInvariants

  lemma InitInv()
    ensures Inv(Init)
  {}

  lemma {:induction false} RunKeeps(s: State, run: seq<Step>)
    requires Inv(s) && Legal(s, run)
    ensures Inv(Exec(s, run))
    decreases |run|
  {
    hide Inv;
    if run != [] {
      StepKeeps(s, run[0]);
      RunKeeps(Next(s, run[0]), run[1..]);
    }
  }

  lemma ReachableInv(run: seq<Step>)
    requires Legal(Init, run)
    ensures Inv(Exec(Init, run))
  {
    hide Inv;
    InitInv();
    RunKeeps(Init, run);
  }

  /**
    In every run, across crashes and restarts: a batch enters the queue only
    while no lifecycle recorded for its pass is still un-applied, the sidecar
    names exactly the passes whose recorded lifecycle has not been cleared, and
    memory agrees with the sidecar once the process has looked at it.
  */
  lemma NoSecondDraftSet(run: seq<Step>)
    requires Legal(Init, run)
    ensures var s := Exec(Init, run);
            && NoSecondSet(s.log)
            && (forall p :: p in s.sidecar <==> Owed(s.log, p))
            && (s.hydrated ==> s.pending == s.sidecar)
  {
    ReachableInv(run);
  }

  /** At most one unfinished batch per pass, and a bounded queue, in every reachable state. */
  lemma OneBatchPerPass(run: seq<Step>)
    requires Legal(Init, run)
    ensures var s := Exec(Init, run);
            && |s.queue| <= WRITER_QUEUE_MAX
            && (forall i, j | Live(s, i) && Live(s, j) && i in s.jobs && j in s.jobs && i != j ::
                  s.jobs[i].job.pass != s.jobs[j].job.pass)
            && (forall i | Live(s, i) && i in s.jobs ::
                  s.jobs[i].job.pass !in s.pending && s.jobs[i].job.pass !in s.sidecar)
  {
    var s := Exec(Init, run);
    ReachableInv(run);
    forall i | Live(s, i) && i in s.jobs ensures s.jobs[i].job.pass !in s.pending && s.jobs[i].job.pass !in s.sidecar {
      assert LiveOk(s, i);
      assert s.hydrated;
      assert s.jobs[i].job.pass !in s.pending.Keys;
    }
    assert forall i | Live(s, i) :: LiveOk(s, i);
  }

  /** The worker has nothing left to do for the batch but set its event. */
  ghost predicate Settled(s: State, id: nat) {
    id !in s.queue && (WorkerHas(s.worker, id) ==> s.worker.Ending?)
  }

  /** The submitting call returned the result. */
  predicate Returned(w: Waiter) { w.GotResult? || w.Finished? }

  /**
    Exactly-once hand-off. However timeout and completion interleave, once the
    batch is settled and its waiter has its answer, the lifecycle of a landed
    batch belongs to exactly one of submitter and worker, and a failed batch is
    either raised or counted as unrecovered, never both and never neither. At no
    time do both own it.
  */
  lemma ExactlyOnceHandOff(run: seq<Step>, id: nat)
    requires Legal(Init, run)
    requires id in Exec(Init, run).jobs
    ensures var s := Exec(Init, run);
            var r := s.jobs[id];
            && !(Returned(r.waiter) && r.workerOwns)
            && !(r.waiter.GotError? && r.unrecovered)
            && (Settled(s, id) && (Returned(r.waiter) || r.waiter.GotError? || r.waiter.TimedOut?) ==>
                  && (r.out.Result? && r.job.lifecycle.Some? && r.job.lifecycle.value.HasOps() ==>
                        (Returned(r.waiter) <==> !r.workerOwns))
                  && (r.out.Error? ==> (r.waiter.GotError? <==> !r.unrecovered)))
  {
    ReachableInv(run);
    var s := Exec(Init, run);
    assert RecordOk(s.worker, id in s.queue, id, s.jobs[id]);
  }

  /** The status counters are exact, and a waiter that sees the event always finds an outcome. */
  lemma CountersExactAndEventsCarryOutcome(run: seq<Step>)
    requires Legal(Init, run)
    ensures var s := Exec(Init, run);
            && s.unrecovered == |Unrecovered(s.jobs)|
            && s.timeouts == |TimedOutJobs(s.jobs)|
            && forall id | id in s.jobs && s.jobs[id].done :: !s.jobs[id].out.NoOutput?
  {
    ReachableInv(run);
    var s := Exec(Init, run);
    forall id | id in s.jobs && s.jobs[id].done ensures !s.jobs[id].out.NoOutput? {
      assert RecordOk(s.worker, id in s.queue, id, s.jobs[id]);
    }
  }

  /** A batch of the pass is queued or with the worker. */
  ghost predicate PassLive(s: State, p: string) {
    exists id :: Live(s, id) && id in s.jobs && s.jobs[id].job.pass == p
  }

  /** A handler is at hand: the submit brings one, or this process kept one with the entry. */
  predicate HandlerAtHand(s: State, job: Job) {
    job.hasHandler || job.pass in s.handlers
  }

  /**
    No pass is wedged: a submit that can read the sidecar is refused only while a
    batch of its pass is unfinished, another submitter is re-applying, or no handler
    is at hand for the entry, and then it is refused; otherwise it re-applies what
    the sidecar holds, is queued behind everything else, or finds the queue full.
  */
  lemma NeverWedged(run: seq<Step>, id: nat, job: Job)
    requires Legal(Init, run) && id !in Exec(Init, run).jobs
    ensures var s, p := Exec(Init, run), job.pass;
            var t := SubmitNext(s, id, job, true);
            var w, full := t.jobs[id].waiter, |s.queue| == WRITER_QUEUE_MAX;
            && (w.Refused? <==>
                  PassLive(s, p) || (p in s.sidecar && (p in s.reapplying || !HandlerAtHand(s, job))))
            && (w.Reapplying? <==> p in s.sidecar && p !in s.reapplying && HandlerAtHand(s, job))
            && (w.Reapplying? ==> w.life == s.sidecar[p] && p in t.reapplying)
            && (w.Dropped? <==> p !in s.sidecar && !PassLive(s, p) && full)
            && (w.Waiting? <==> p !in s.sidecar && !PassLive(s, p) && !full)
            && t.queue == (if w.Waiting? then s.queue + [id] else s.queue)
            && t.dropped == s.dropped + (if w.Dropped? then 1 else 0)
            && (p in s.reapplying ==>
                  exists i :: i in s.jobs && Claims(s.jobs[i]) && s.jobs[i].job.pass == p)
  {
    ReachableInv(run);
    var s := Exec(Init, run);
    var h := Hydrate(s);
    var p := job.pass;
    HydrateKeeps(s);
    HydratedNamesSidecar(h);
    LiveMeansInFlight(h, p);
    HydratedPlaces(s, p);
    QueueFits(s);
    assert p in s.reapplying ==> exists i :: i in s.jobs && Claims(s.jobs[i]) && s.jobs[i].job.pass == p by {
      assert ClaimsOwned(s);
    }
    hide Inv, PassLive, InFlight, Hydrate;
    AdmitAnswers(h, id, job);
  }

  lemma QueueFits(s: State)
    requires Inv(s)
    ensures |s.queue| <= WRITER_QUEUE_MAX
  {
  }

  lemma HydratedPlaces(s: State, p: string)
    ensures var h := Hydrate(s);
            && (PassLive(h, p) <==> PassLive(s, p)) && h.sidecar == s.sidecar && h.queue == s.queue
            && h.hydrated && h.reapplying == s.reapplying && h.handlers == s.handlers && h.dropped == s.dropped
  {
    var h := Hydrate(s);
    assert PassLive(h, p) <==> PassLive(s, p) by {
      assert forall i :: Live(h, i) <==> Live(s, i);
    }
  }

  lemma AdmitAnswers(h: State, id: nat, job: Job)
    requires MirrorOk(h) && h.hydrated
    requires |h.queue| <= WRITER_QUEUE_MAX
    ensures var t, p := AdmitNext(h, id, job), job.pass;
            && id in t.jobs
            && t.jobs[id].waiter ==
                 (if p in h.sidecar then
                    if p !in h.reapplying && HandlerAtHand(h, job) then Reapplying(h.sidecar[p]) else Refused
                  else if InFlight(h, p) then Refused
                  else if |h.queue| == WRITER_QUEUE_MAX then Dropped
                  else Waiting)
            && (t.jobs[id].waiter.Reapplying? ==> p in t.reapplying)
            && t.queue == (if t.jobs[id].waiter.Waiting? then h.queue + [id] else h.queue)
            && t.dropped == h.dropped + (if t.jobs[id].waiter.Dropped? then 1 else 0)
  {
  }

  lemma HydratedNamesSidecar(s: State)
    requires MirrorOk(s) && s.hydrated
    ensures s.pending.Keys == s.sidecar.Keys
  {
  }

  lemma LiveMeansInFlight(s: State, p: string)
    requires Inv(s)
    ensures PassLive(s, p) ==> p !in s.pending && InFlight(s, p)
    ensures p !in s.pending && InFlight(s, p) ==> PassLive(s, p)
  {
    if PassLive(s, p) {
      var id :| Live(s, id) && id in s.jobs && s.jobs[id].job.pass == p;
      assert LiveOk(s, id);
    }
    if p !in s.pending && InFlight(s, p) {
      assert Live(s, s.inFlight[p]);
    }
  }

  // ---------- a recorded lifecycle lives until it is applied ----------

  /** The step reports that `life`, sticky for pass `p`, is fully applied. */
  predicate Applies(s: State, a: Step, p: string, life: Lifecycle) {
    && a.FinishReapply? && a.id in s.jobs
    && s.jobs[a.id].job.pass == p
    && SaysComplete(a.outcome, life)
  }

  /** The step sets the worker's landed, deferred batch aside, its lifecycle un-applied. */
  predicate SetsAside(s: State, a: Step, p: string, life: Lifecycle) {
    && (a.Claim? || a.Reported?)
    && !s.worker.Idle? && s.worker.id in s.jobs
    && var r := s.jobs[s.worker.id];
    && r.job.pass == p && r.job.lifecycle == Some(life) && life.HasOps()
    && r.out.Result? && r.deferred
    && (a.Claim? ==> !r.job.hasHandler)
    && (a.Reported? ==> !SaysComplete(a.outcome, life))
  }

  /**
    One step, crash included: the sidecar loses a pass only to a re-apply that
    reported the recorded lifecycle complete, never changes what it holds for a
    pass, and gains a pass only by setting aside that batch's own lifecycle.
  */
  lemma SidecarStep(s: State, a: Step, p: string)
    requires Inv(s) && Enabled(s, a)
    ensures var t := Next(s, a);
            if p in s.sidecar then
              if p in t.sidecar then t.sidecar[p] == s.sidecar[p] && !Applies(s, a, p, s.sidecar[p])
              else Applies(s, a, p, s.sidecar[p])
            else p in t.sidecar ==> SetsAside(s, a, p, t.sidecar[p])
  {
    if a.FinishReapply? {
      FinishSidecar(s, a.id, a.outcome);
    } else if a.Reported? {
      ReportedSidecar(s, a.outcome, p);
    } else {
      OtherSidecar(s, a, p);
    }
  }

  lemma OtherSidecar(s: State, a: Step, p: string)
    requires Inv(s) && Enabled(s, a) && !a.FinishReapply? && !a.Reported?
    ensures var t := Next(s, a);
            if p in s.sidecar then p in t.sidecar && t.sidecar[p] == s.sidecar[p]
            else p in t.sidecar ==> SetsAside(s, a, p, t.sidecar[p])
  {
    hide QueueOk, FlightOk, ClaimsOk, ClaimsOwned, CountersOk, LogOk, Verdict, SaysComplete;
    if !s.worker.Idle? {
      assert Live(s, s.worker.id);
      assert RecordOk(s.worker, s.worker.id in s.queue, s.worker.id, s.jobs[s.worker.id]);
    }
    if s.hydrated {
      HydratedNamesSidecar(s);
    }
    hide RecordsOk, AllLiveOk;
  }

  /** The worker's entry goes in where none was. */
  lemma ReportedSidecar(s: State, outcome: HandlerOutcome, p: string)
    requires Inv(s) && Enabled(s, Reported(outcome))
    ensures var t := Next(s, Reported(outcome));
            if p in s.sidecar then p in t.sidecar && t.sidecar[p] == s.sidecar[p]
            else p in t.sidecar ==> SetsAside(s, Reported(outcome), p, t.sidecar[p])
  {
    hide QueueOk, FlightOk, ClaimsOk, ClaimsOwned, CountersOk, LogOk, Verdict, SaysComplete;
    var id := s.worker.id;
    VerdictMeans(outcome, s.jobs[id].job.lifecycle.value);
    assert Live(s, id) && LiveOk(s, id);
    assert RecordOk(s.worker, id in s.queue, id, s.jobs[id]);
    if s.hydrated {
      HydratedNamesSidecar(s);
    }
    hide RecordsOk, AllLiveOk;
  }

  /** How the end of a re-apply changes the sidecar. */
  lemma FinishSidecar(s: State, id: nat, outcome: HandlerOutcome)
    requires Inv(s) && Enabled(s, FinishReapply(id, outcome))
    ensures var t, p, life := Next(s, FinishReapply(id, outcome)), s.jobs[id].job.pass, s.jobs[id].waiter.life;
            && p in s.sidecar && s.sidecar[p] == life
            && t.pending == t.sidecar
            && t.sidecar == if SaysComplete(outcome, life) then s.sidecar - {p} else s.sidecar
  {
    hide QueueOk, AllLiveOk, FlightOk, ClaimsOwned, RecordsOk, CountersOk, LogOk;
    var p, life := s.jobs[id].job.pass, s.jobs[id].waiter.life;
    assert s.hydrated && s.pending == s.sidecar && s.pending[p] == life;
    hide Inv;
    assert s.sidecar[p := life] == s.sidecar;
    VerdictMeans(outcome, life);
    hide Verdict, SaysComplete;
  }

  /**
    The worker's apply: the entry is gone and the batch counts as applied exactly
    when the handler said that it is done; otherwise this very lifecycle is the
    entry, in memory and on disk, and the event stays unset.
  */
  lemma ReportedExactly(s: State, outcome: HandlerOutcome)
    requires Inv(s) && Enabled(s, Reported(outcome))
    ensures var t, id := Next(s, Reported(outcome)), s.worker.id;
            var p, life := s.jobs[id].job.pass, s.jobs[id].job.lifecycle.value;
            && id in t.jobs && !t.jobs[id].done
            && if SaysComplete(outcome, life)
               then p !in t.sidecar && p !in t.pending && t.jobs[id].fate.Applied? && t.worker == Ending(id)
               else
                 && p in t.sidecar && t.sidecar[p] == life && p in t.pending && t.pending[p] == life
                 && p in t.handlers && t.jobs[id].fate.SetAside? && t.worker.Idle? && InFlight(t, p)
  {
    hide QueueOk, FlightOk, ClaimsOk, ClaimsOwned, CountersOk, LogOk, Verdict, SaysComplete;
    VerdictMeans(outcome, s.jobs[s.worker.id].job.lifecycle.value);
    assert Live(s, s.worker.id);
    assert RecordOk(s.worker, s.worker.id in s.queue, s.worker.id, s.jobs[s.worker.id]);
    assert LiveOk(s, s.worker.id);
  }

  /**
    A sticky re-apply, seen from before its last section: the entry is there; it is
    gone afterwards exactly when the handler said that it is done, and stays as it
    was otherwise, with the submit refused. When it is gone the submit's own batch is
    queued, or finds the queue full, exactly when the handler counted no work.
  */
  lemma ReapplyExactly(s: State, id: nat, outcome: HandlerOutcome)
    requires Inv(s) && Enabled(s, FinishReapply(id, outcome))
    ensures var t, p, life := Next(s, FinishReapply(id, outcome)), s.jobs[id].job.pass, s.jobs[id].waiter.life;
            var full := |s.queue| >= WRITER_QUEUE_MAX;
            && p in s.sidecar && s.sidecar[p] == life && id in t.jobs
            && (if SaysComplete(outcome, life) then p !in t.sidecar && p !in t.pending
                else
                  && p in t.sidecar && t.sidecar[p] == life && p in t.pending && t.pending[p] == life
                  && t.jobs[id].waiter == Releasing(Refused)
                  && t.handlers == if outcome.Returns? then s.handlers + {p} else s.handlers)
            && (t.jobs[id].waiter == Releasing(Waiting) <==>
                  SaysComplete(outcome, life) && SaysNoWork(outcome) && !full)
            && (t.jobs[id].waiter == Releasing(Dropped) <==>
                  SaysComplete(outcome, life) && SaysNoWork(outcome) && full)
            && (t.jobs[id].waiter == Releasing(Recovered) <==>
                  SaysComplete(outcome, life) && !SaysNoWork(outcome))
            && t.queue == (if t.jobs[id].waiter == Releasing(Waiting) then s.queue + [id] else s.queue)
            && t.dropped == s.dropped + (if t.jobs[id].waiter == Releasing(Dropped) then 1 else 0)
            && t.recoveredDrafts ==
                 s.recoveredDrafts + (if t.jobs[id].waiter == Releasing(Recovered) then s.jobs[id].job.drafts else 0)
  {
    FinishSidecar(s, id, outcome);
    hide Inv;
    VerdictMeans(outcome, s.jobs[id].waiter.life);
    hide Verdict, SaysComplete, SaysNoWork, FreePass;
    FreePassPlaces(s, s.jobs[id].job.pass);
  }

  lemma FreePassPlaces(s: State, p: string)
    ensures var f := FreePass(s, p);
            && f.queue == s.queue && f.worker == s.worker && f.handlers == s.handlers
            && f.dropped == s.dropped && f.recoveredDrafts == s.recoveredDrafts
  {
  }

  /** A caller that applies its own lifecycle has it applied exactly when the handler said so; nothing else changes. */
  lemma OwnApplyExactly(s: State, id: nat, outcome: HandlerOutcome)
    requires Enabled(s, ApplyOwn(id, outcome))
    ensures var t, r := Next(s, ApplyOwn(id, outcome)), s.jobs[id];
            var says := SaysComplete(outcome, r.job.lifecycle.value);
            && t == s.(jobs := s.jobs[id := t.jobs[id]])
            && t.jobs[id] == r.(waiter := Finished(says), fate := if says then Applied else r.fate)
  {
    VerdictMeans(outcome, s.jobs[id].job.lifecycle.value);
  }

  /** Whatever happens, a recorded lifecycle stays on disk unchanged until some step applies it. */
  lemma {:induction false} DurableUntilApplied(s: State, run: seq<Step>, p: string)
    requires Inv(s) && Legal(s, run) && p in s.sidecar
    ensures var t := Exec(s, run);
            || (p in t.sidecar && t.sidecar[p] == s.sidecar[p])
            || (exists k | 0 <= k < |run| :: Legal(s, run[..k]) && Applies(Exec(s, run[..k]), run[k], p, s.sidecar[p]))
    decreases |run|
  {
    hide Inv, Applies, Next, Enabled;
    if run != [] {
      var a, rest := run[0], run[1..];
      var n := Next(s, a);
      StepKeeps(s, a);
      SidecarStep(s, a, p);
      assert run[..0] == [];
      if p !in n.sidecar {
        assert Applies(Exec(s, run[..0]), run[0], p, s.sidecar[p]);
      } else {
        DurableUntilApplied(n, rest, p);
        if !(p in Exec(n, rest).sidecar && Exec(n, rest).sidecar[p] == s.sidecar[p]) {
          var k :| 0 <= k < |rest| && Legal(n, rest[..k]) && Applies(Exec(n, rest[..k]), rest[k], p, n.sidecar[p]);
          assert run[..k + 1] == [a] + rest[..k];
          assert run[..k + 1][1..] == rest[..k];
          assert Exec(s, run[..k + 1]) == Exec(n, rest[..k]);
          assert Applies(Exec(s, run[..k + 1]), run[k + 1], p, s.sidecar[p]);
        }
      }
    }
  }
}
