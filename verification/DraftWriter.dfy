/**
  The tables of src/minni/afm_writer.py and the sections of code that
  change them and the objects of the batches. Each method is one atomic section,
  written after the source, and is proved to take exactly one step of the protocol:
  `Represents` says when the objects stand for a state of the protocol, and a method
  gets that state, and the entries of the calls made so far, as ghost parameters.
  The event that a re-apply sets through the in-flight table is the one on which a
  submitter waits, and the result the worker puts into `out` is the one the waiter
  finds there; so a method that set or filled another object would be refused.
*/
module DraftWriter {
  import opened Wrappers
  import opened WriterInvariants
  import opened WriterObjects
  import opened WriterProtocol

  class Writer {
    var queue: seq<Entry>                    // _WORK_QUEUE
    var inFlight: map<string, DoneEvent>     // _IN_FLIGHT_PER_PASS
    var pending: map<string, Lifecycle>      // _PENDING_LIFECYCLE
    var handlers: set<string>                // the passes whose pending entry has a "_handler"
    var reapplying: set<string>              // _REAPPLYING_LIFECYCLE
    var sidecar: map<string, Lifecycle>      // the file in the vault
    var timeouts: nat
    var unrecovered: nat
    var dropped: nat
    var recoveredDrafts: nat

    ghost function Now(): Tables
      reads this
    {
      Tables(pending, handlers, reapplying, sidecar, timeouts, unrecovered, dropped, recoveredDrafts)
    }

    /** The objects stand for the state `s` of the protocol, in which the calls have these entries. */
    ghost predicate Represents(s: State, calls: map<nat, Entry>)
      reads this, set i | i in calls :: calls[i].job
      reads set i | i in calls :: calls[i].done, set i | i in calls :: calls[i].out
    {
      && Ties(s, calls, queue, inFlight, Now())
      && forall i | i in calls :: i in s.jobs && Show(calls[i]) == ShownOf(s.jobs[i])
    }

    constructor ()
      ensures Represents(Init, map[])
    {
      queue, inFlight := [], map[];
      pending, handlers, reapplying, sidecar := map[], {}, {}, map[];
      timeouts, unrecovered, dropped, recoveredDrafts := 0, 0, 0, 0;
    }

    /** The process dies and a new one starts on the same vault. */
    method Restart(ghost s: State, ghost calls: map<nat, Entry>)
      requires Represents(s, calls)
      modifies this
      ensures Represents(CrashNext(s), map[])
    {
      hide Ties, CrashNext;
      CrashStep(s, calls, queue, inFlight, Now());
      queue, inFlight := [], map[];
      pending, handlers, reapplying := map[], {}, {};
      timeouts, unrecovered, dropped, recoveredDrafts := 0, 0, 0, 0;
    }

    method HydratePending(ghost s: State, ghost calls: map<nat, Entry>)
      requires Represents(s, calls)
      modifies `pending
      ensures Represents(WriterProtocol.Hydrate(s), calls)
    {
      hide Ties, Hydrate, ShownOf;
      HydrateStep(s, calls, queue, inFlight, Now());
      pending := sidecar + pending;
    }

    /** The section entered when `done.wait(timeout)` came back false; the worker may just have filled `out`. */
    method WaitExpired(e: Entry, ghost id: nat, ghost s: State, ghost calls: map<nat, Entry>) returns (answer: Waiter)
      requires Represents(s, calls) && id in calls && calls[id] == e && s.jobs[id].waiter.Waiting?
      modifies `timeouts, e.job
      ensures id in s.jobs && Represents(TimeoutNext(s, id), calls) && answer == TimeoutNext(s, id).jobs[id].waiter
    {
      hide Ties, TimeoutNext, ShownOf;
      TimeoutStep(s, id, calls, queue, inFlight, Now());
      match e.out.content
      case NoOutput =>
        timeouts := timeouts + 1;
        e.job.GiveUp();
        answer := TimedOut;
      case Error => answer := GotError;
      case Result => answer := GotResult;
    }

    /** The waiter saw the event; it never looks up an outcome that is not there. */
    method WaitReturned(e: Entry, ghost id: nat, ghost s: State, ghost calls: map<nat, Entry>) returns (answer: Waiter)
      requires Represents(s, calls) && id in calls && calls[id] == e && s.jobs[id].waiter.Waiting? && e.done.isSet
      ensures id in s.jobs && Represents(ObserveNext(s, id), calls) && answer == ObserveNext(s, id).jobs[id].waiter
      ensures !e.out.content.NoOutput?
    {
      hide Ties, ObserveNext, ShownOf;
      ObserveStep(s, id, calls, queue, inFlight, Now());
      answer := if e.out.content.Error? then GotError else GotResult;
    }

    /** The worker takes the oldest entry. */
    method GetJob(ghost s: State, ghost calls: map<nat, Entry>) returns (e: Entry)
      requires Represents(s, calls) && s.worker.Idle? && queue != []
      modifies `queue
      ensures s.queue != [] && Represents(TakeNext(s), calls) && s.queue[0] in calls && e == calls[s.queue[0]]
    {
      hide Ties, TakeNext, ShownOf;
      TakeStep(s, calls, queue, inFlight, Now());
      e := queue[0];
      queue := queue[1..];
    }

    /** `_write_batch` returned or raised; the worker says so in the `out` it was handed. */
    method BatchWritten(e: Entry, ok: bool, ghost s: State, ghost calls: map<nat, Entry>)
      requires Represents(s, calls) && s.worker.Writing? && s.worker.id in calls && calls[s.worker.id] == e
      modifies e.out
      ensures s.worker.id in s.jobs && Represents(WriteNext(s, ok), calls)
    {
      hide Ties, WriteNext, ShownOf;
      WriteStep(s, ok, calls, queue, inFlight, Now());
      e.out.content := if ok then Result else Error;
    }

    method FailureCounted(e: Entry, ghost s: State, ghost calls: map<nat, Entry>)
      requires Represents(s, calls) && s.worker.Failing? && s.worker.id in calls && calls[s.worker.id] == e
      modifies `unrecovered
      ensures s.worker.id in s.jobs && Represents(CountFailureNext(s), calls)
    {
      hide Ties, CountFailureNext, ShownOf;
      CountFailureStep(s, calls, queue, inFlight, Now());
      if e.job.waiterTimedOut || e.job.deferLifecycle {
        unrecovered := unrecovered + 1;
      }
    }

    /** `_maybe_apply_deferred_lifecycle` until it either returns or calls the handler. */
    method ClaimLifecycle(e: Entry, ghost s: State, ghost calls: map<nat, Entry>) returns (call: bool, hold: bool)
      requires Represents(s, calls) && s.worker.Wrote? && s.worker.id in calls && calls[s.worker.id] == e
      modifies `pending, `handlers, `sidecar
      ensures s.worker.id in s.jobs && Represents(ClaimNext(s), calls)
      ensures call <==> ClaimNext(s).worker.Applying?
      ensures hold <==> ClaimNext(s).worker.Idle?
    {
      hide Ties, ClaimNext, ShownOf;
      ClaimStep(s, calls, queue, inFlight, Now());
      var job := e.job.job;
      if job.lifecycle.None? || !job.lifecycle.value.HasOps() || !e.job.deferLifecycle {
        return false, false;
      }
      if !job.hasHandler {
        pending := pending[job.pass := job.lifecycle.value];
        handlers := handlers - {job.pass};
        sidecar := sidecar[job.pass := job.lifecycle.value];
        return false, true;
      }
      return true, false;
    }

    /** Memory and disk hold this lifecycle for the pass. */
    ghost predicate Holds(p: string, life: Lifecycle)
      reads `pending, `sidecar
    {
      p in pending && pending[p] == life && p in sidecar && sidecar[p] == life
    }

    /** The lifecycle and its handler become the entry of the pass, in memory and on disk. */
    method KeepEntry(p: string, life: Lifecycle)
      modifies `pending, `handlers, `sidecar
      ensures Now() == SetAsideIn(old(Now()), p, life, true) && Holds(p, life)
    {
      pending := pending[p := life];
      handlers := handlers + {p};
      sidecar := sidecar[p := life];
    }

    /** The entry of the pass goes, from memory and disk. */
    method DropEntry(p: string)
      modifies `pending, `handlers, `sidecar
      ensures Now() == ClearedIn(old(Now()), p) && p !in pending && p !in sidecar
    {
      pending := pending - {p};
      handlers := handlers - {p};
      sidecar := sidecar - {p};
    }

    /** What follows the deferred handler call; `hold` leaves the event unset. */
    method LifecycleReported(e: Entry, outcome: HandlerOutcome, ghost s: State, ghost calls: map<nat, Entry>)
      returns (hold: bool)
      requires Represents(s, calls) && s.worker.Applying? && s.worker.id in calls && calls[s.worker.id] == e
      requires e.job.job.lifecycle.Some?
      modifies `pending, `handlers, `sidecar
      ensures s.worker.id in s.jobs && s.jobs[s.worker.id].job.lifecycle.Some?
              && Represents(ReportNext(s, outcome), calls)
      ensures hold <==> !SaysComplete(outcome, e.job.job.lifecycle.value)
      ensures if hold then Holds(e.job.job.pass, e.job.job.lifecycle.value)
              else e.job.job.pass !in pending && e.job.job.pass !in sidecar
    {
      hide Ties, ReportNext, Verdict, SaysComplete, SetAsideIn, ClearedIn, Holds;
      assert s.jobs[s.worker.id].job == e.job.job;
      ReportStep(s, outcome, calls, queue, inFlight, Now());
      hide ShownOf;
      VerdictMeans(outcome, e.job.job.lifecycle.value);
      var p, life := e.job.job.pass, e.job.job.lifecycle.value;
      hold := !Verdict(outcome, life).complete;
      if hold {
        KeepEntry(p, life);
      } else {
        DropEntry(p);
      }
    }

    /** `done.set()`. */
    method SetEvent(e: Entry, ghost s: State, ghost calls: map<nat, Entry>)
      requires Represents(s, calls) && s.worker.Ending? && s.worker.id in calls && calls[s.worker.id] == e
      modifies e.done
      ensures s.worker.id in s.jobs && Represents(EndNext(s), calls)
    {
      hide Ties, EndNext, ShownOf;
      EndStep(s, calls, queue, inFlight, Now());
      e.done.isSet := true;
    }

    /** The `finally` of the re-apply. */
    method ReleaseReapply(e: Entry, ghost id: nat, ghost s: State, ghost calls: map<nat, Entry>)
      requires Represents(s, calls) && id in calls && calls[id] == e && s.jobs[id].waiter.Releasing?
      modifies `reapplying
      ensures id in s.jobs && Represents(ReleaseNext(s, id), calls)
    {
      hide Ties, ReleaseNext, ShownOf;
      ReleaseStep(s, id, calls, queue, inFlight, Now());
      reapplying := reapplying - {e.job.job.pass};
    }

    /** The first critical section of `submit_drafts`; the answer so far is what the call goes on with. */
    method SubmitDrafts(job: Job, readable: bool, ghost id: nat, ghost s: State, ghost calls: map<nat, Entry>)
      returns (e: Entry, answer: Waiter)
      requires Represents(s, calls) && id !in s.jobs
      modifies this
      ensures fresh(e.job) && fresh(e.done) && fresh(e.out)
      ensures var t := SubmitNext(s, id, job, readable);
              id in t.jobs && Represents(t, calls[id := e]) && answer == t.jobs[id].waiter
    {
      assert readable ==> SubmitNext(s, id, job, readable) == AdmitNext(WriterProtocol.Hydrate(s), id, job);
      hide Ties, SubmitNext, AdmitNext, ShownOf;
      var dict := new JobDict(job, id);
      var done := new DoneEvent(id);
      var out := new OutDict(id);
      e := Entry(dict, done, out);
      if !readable {
        RefuseStep(s, id, job, calls, queue, inFlight, Now(), e);
        return e, Refused;
      }
      HydratePending(s, calls);
      answer := Admit(e, id, WriterProtocol.Hydrate(s), calls);
    }

    /** The decision after hydration: refuse, claim a re-apply, reject as full, or queue. */
    method Admit(e: Entry, ghost id: nat, ghost s: State, ghost calls: map<nat, Entry>) returns (answer: Waiter)
      requires Represents(s, calls) && s.hydrated && id !in s.jobs && Owned(e, id) && Show(e) == Blank(e.job.job)
      modifies `reapplying, `dropped, `queue, `inFlight
      ensures var t := AdmitNext(s, id, e.job.job);
              id in t.jobs && Represents(t, calls[id := e]) && answer == t.jobs[id].waiter
    {
      hide Ties, AdmitNext, ShownOf, InFlight;
      var job := e.job.job;
      var p := job.pass;
      AdmitStep(s, id, job, calls, queue, inFlight, Now(), e);
      Holder(s, calls, queue, inFlight, Now(), p);
      if p in pending {
        if p in reapplying || !(job.hasHandler || p in handlers) {
          return Refused;
        }
        reapplying := reapplying + {p};
        return Reapplying(pending[p]);
      }
      if p in inFlight && !inFlight[p].isSet {
        return Refused;
      }
      if |queue| >= WRITER_QUEUE_MAX {
        dropped := dropped + 1;
        return Dropped;
      }
      queue := queue + [e];
      inFlight := inFlight[p := e.done];
      return Waiting;
    }

    /**
      The section of `submit_drafts` after a sticky handler that raised or reported
      an incomplete apply: the entry stays, on disk as well.
    */
    method ReapplyFailed(e: Entry, life: Lifecycle, outcome: HandlerOutcome, ghost id: nat, ghost s: State,
                         ghost calls: map<nat, Entry>)
      requires Represents(s, calls) && id in calls && calls[id] == e && s.jobs[id].waiter == Reapplying(life)
      requires !SaysComplete(outcome, life)
      modifies `pending, `handlers, `sidecar
      ensures var t := FinishReapplyNext(s, id, outcome);
              id in t.jobs && Represents(t, calls) && t.jobs[id].waiter == Releasing(Refused)
      ensures Holds(e.job.job.pass, life)
    {
      VerdictMeans(outcome, life);
      hide Ties, FinishReapplyNext, Verdict, SaysComplete;
      assert e.job.job == s.jobs[id].job;
      hide ShownOf;
      var p := e.job.job.pass;
      HeldEntry(s, id, calls, queue, inFlight, Now());
      FailedStep(s, id, outcome, calls, queue, inFlight, Now());
      if outcome.Returns? {
        KeepEntry(p, life);
      } else if p in pending {
        sidecar := sidecar[p := pending[p]];
      }
    }

    /**
      The section after a complete re-apply: the event that holds the pass is set,
      whoever waits for it, the entry goes, and after a no-op the batch is queued.
    */
    method Recover(e: Entry, life: Lifecycle, outcome: HandlerOutcome, ghost id: nat, ghost s: State,
                   ghost calls: map<nat, Entry>)
      returns (answer: Waiter)
      requires Represents(s, calls) && id in calls && calls[id] == e && s.jobs[id].waiter == Reapplying(life)
      requires SaysComplete(outcome, life)
      modifies this, set p | p in inFlight :: inFlight[p]
      ensures var t := FinishReapplyNext(s, id, outcome);
              id in t.jobs && Represents(t, calls) && t.jobs[id].waiter == Releasing(answer)
      ensures e.job.job.pass !in pending && e.job.job.pass !in sidecar
      ensures answer == if !SaysNoWork(outcome) then Recovered
                        else if old(|queue|) >= WRITER_QUEUE_MAX then Dropped
                        else Waiting
    {
      VerdictMeans(outcome, life);
      hide Ties, FinishReapplyNext, Verdict, SaysComplete, SaysNoWork, RecoverNext, InFlight, Owned;
      assert e.job.job == s.jobs[id].job;
      hide ShownOf;
      var p := e.job.job.pass;
      var didWork := Verdict(outcome, life).didWork;
      RecoverStep(s, id, outcome, calls, queue, inFlight, Now());
      Holder(s, calls, queue, inFlight, Now(), p);
      FreeHolder(p, if p in s.inFlight then s.inFlight[p] else id, calls);
      answer := Answer(e, didWork);
    }

    /**
      What follows the sticky handler, over the fields of its answer: unless it says
      that the lifecycle is done with, that very lifecycle stays and the submit is
      refused; otherwise the entry goes, and the submit's batch is queued, or finds
      the queue full, exactly when the answer counts no work.
    */
    method FinishReapply(e: Entry, life: Lifecycle, outcome: HandlerOutcome, ghost id: nat, ghost s: State,
                         ghost calls: map<nat, Entry>)
      returns (answer: Waiter)
      requires Represents(s, calls) && id in calls && calls[id] == e && s.jobs[id].waiter == Reapplying(life)
      modifies this, set p | p in inFlight :: inFlight[p]
      ensures var t := FinishReapplyNext(s, id, outcome);
              id in t.jobs && Represents(t, calls) && t.jobs[id].waiter == Releasing(answer)
      ensures if SaysComplete(outcome, life) then e.job.job.pass !in pending && e.job.job.pass !in sidecar
              else Holds(e.job.job.pass, life)
      ensures answer == if !SaysComplete(outcome, life) then Refused
                        else if !SaysNoWork(outcome) then Recovered
                        else if old(|queue|) >= WRITER_QUEUE_MAX then Dropped
                        else Waiting
    {
      VerdictMeans(outcome, life);
      hide Ties, ShownOf, FinishReapplyNext, Verdict, SaysComplete, SaysNoWork;
      if outcome.Returns? && Verdict(outcome, life).complete {
        answer := Recover(e, life, outcome, id, s, calls);
      } else {
        ReapplyFailed(e, life, outcome, id, s, calls);
        answer := Refused;
      }
    }

    /** The event that holds the pass is set, in the table and wherever else it is referred to. */
    method FreeHolder(p: string, ghost holder: nat, ghost calls: map<nat, Entry>)
      requires forall i | i in calls :: Owned(calls[i], i)
      requires p in inFlight ==> holder in calls && inFlight[p] == calls[holder].done
      modifies set q | q in inFlight :: inFlight[q]
      ensures forall i | i in calls ::
                Show(calls[i]) == if p in inFlight && i == holder then old(Show(calls[i])).(done := true)
                                  else old(Show(calls[i]))
    {
      if p in inFlight && !inFlight[p].isSet {
        inFlight[p].isSet := true;
      }
    }

    /** The entry of the pass goes, from memory and disk; drafts are counted as dropped or the batch is queued. */
    method Answer(e: Entry, didWork: bool) returns (answer: Waiter)
      modifies this
      ensures answer == AnswerTo(didWork, old(|queue|) >= WRITER_QUEUE_MAX)
      ensures Now() == RecoveredIn(old(Now()), e.job.job, didWork, old(|queue|) >= WRITER_QUEUE_MAX)
      ensures queue == (if answer.Waiting? then old(queue) + [e] else old(queue))
      ensures inFlight == (if answer.Waiting? then old(inFlight)[e.job.job.pass := e.done] else old(inFlight))
      ensures e.job.job.pass !in pending && e.job.job.pass !in sidecar
    {
      DropEntry(e.job.job.pass);
      if didWork {
        recoveredDrafts := recoveredDrafts + e.job.job.drafts;
        return Recovered;
      }
      if |queue| >= WRITER_QUEUE_MAX {
        dropped := dropped + 1;
        return Dropped;
      }
      queue := queue + [e];
      inFlight := inFlight[e.job.job.pass := e.done];
      return Waiting;
    }
  }
}
