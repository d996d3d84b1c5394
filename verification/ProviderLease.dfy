/**
 The provider lease of a refresh: it is given back only once the worker processes and helpers of
 the attempt are cleaned up, and a new attempt starts only once the previous one has neither
 resources nor a lease outstanding.
 */
module ProviderLease {
  import opened Wrappers

  datatype SupervisorView = SupervisorView(finished: bool, empty: bool)

  datatype Helper = Helper(pending: bool, active: bool, retrying: bool, last: Option<SupervisorView>)

  /** A held guard, numbered as it was acquired; `releaseNoted` and `closeNoted` remember the finished
      halves of giving it back. */
  datatype Lease = Lease(id: nat, owned: bool, closed: bool, releaseNoted: bool, closeNoted: bool)

  /** A native call on a lease; `settled` says whether everything was cleaned up at that moment. */
  datatype LeaseCall = ReleaseCall(id: nat, settled: bool) | CloseCall(id: nat)

  /** The native lease was released and afterwards closed. */
  ghost predicate Returned(calls: seq<LeaseCall>, id: nat) {
    exists j, k | 0 <= j < k < |calls| :: calls[j] == ReleaseCall(id, true) && calls[k] == CloseCall(id)
  }

  /** A half of a lease counts as finished only after its native call. */
  ghost predicate LeaseKnown(l: Lease, calls: seq<LeaseCall>) {
    && (l.releaseNoted || !l.owned ==> ReleaseCall(l.id, true) in calls)
    && (l.closeNoted || l.closed ==> Returned(calls, l.id))
  }

  /** The native calls of one attempt: no release that is already finished is repeated. */
  function LeaseCalls(l: Lease, closes: bool): seq<LeaseCall> {
    (if l.releaseNoted || !l.owned then [] else [ReleaseCall(l.id, true)]) + (if closes then [CloseCall(l.id)] else [])
  }

  lemma MoreCalls(l: Lease, before: seq<LeaseCall>, after: seq<LeaseCall>)
    requires before <= after
    ensures Returned(before, l.id) ==> Returned(after, l.id)
    ensures LeaseKnown(l, before) ==> LeaseKnown(l, after)
  {
    if Returned(before, l.id) {
      var j, k :| 0 <= j < k < |before| && before[j] == ReleaseCall(l.id, true) && before[k] == CloseCall(l.id);
      assert after[j] == before[j] && after[k] == before[k];
    }
    assert forall c | c in before :: c in after;
  }

  lemma ClosedIsReturned(calls: seq<LeaseCall>, id: nat)
    requires ReleaseCall(id, true) in calls
    ensures Returned(calls + [CloseCall(id)], id)
  {
    var j :| 0 <= j < |calls| && calls[j] == ReleaseCall(id, true);
    assert (calls + [CloseCall(id)])[j] == calls[j] && (calls + [CloseCall(id)])[|calls|] == CloseCall(id);
  }

  datatype RunResult = CleanupFailed | NothingEnabled | Ran(cleanupError: bool)

  predicate HelperQuiescent(h: Helper) {
    !h.pending && !h.active && !h.retrying && (h.last.None? || (h.last.value.finished && h.last.value.empty))
  }

  predicate HelpersQuiescent(helpers: seq<Helper>) {
    forall i | 0 <= i < |helpers| :: HelperQuiescent(helpers[i])
  }

  ghost predicate KnownAll(ls: seq<Lease>, calls: seq<LeaseCall>) {
    forall i | 0 <= i < |ls| :: LeaseKnown(ls[i], calls)
  }

  /** Each of the first `n` leases was returned or is among the remaining ones. */
  ghost predicate Reduced(ls: seq<Lease>, n: nat, remaining: seq<Lease>, calls: seq<LeaseCall>) {
    && n <= |ls|
    && forall k | 0 <= k < n :: Returned(calls, ls[k].id) || exists m :: 0 <= m < |remaining| && remaining[m].id == ls[k].id
  }

  lemma KnownStays(ls: seq<Lease>, before: seq<LeaseCall>, after: seq<LeaseCall>)
    requires KnownAll(ls, before) && before <= after
    ensures KnownAll(ls, after)
  {
    forall i | 0 <= i < |ls| ensures LeaseKnown(ls[i], after) {
      MoreCalls(ls[i], before, after);
    }
  }

  lemma ReducedStep(ls: seq<Lease>, n: nat, kept: seq<Lease>, remaining: seq<Lease>, before: seq<LeaseCall>, after: seq<LeaseCall>)
    requires Reduced(ls, n, kept, before) && n < |ls| && before <= after && kept <= remaining
    requires Returned(after, ls[n].id) || (remaining != [] && remaining[|remaining| - 1].id == ls[n].id)
    ensures Reduced(ls, n + 1, remaining, after)
  {
    forall k | 0 <= k < n + 1
      ensures Returned(after, ls[k].id) || exists m :: 0 <= m < |remaining| && remaining[m].id == ls[k].id
    {
      if k < n {
        MoreCalls(ls[k], before, after);
        if !Returned(before, ls[k].id) {
          var m :| 0 <= m < |kept| && kept[m].id == ls[k].id;
          assert remaining[m] == kept[m];
        }
      } else if !Returned(after, ls[n].id) {
        assert remaining[|remaining| - 1].id == ls[n].id;
      }
    }
  }

  lemma StillAccounted(id: nat, before: seq<LeaseCall>, after: seq<LeaseCall>, waiting: seq<Lease>, remaining: seq<Lease>)
    requires Returned(before, id) || exists i :: 0 <= i < |waiting| && waiting[i].id == id
    requires before <= after && Reduced(waiting, |waiting|, remaining, after)
    ensures Returned(after, id) || exists m :: 0 <= m < |remaining| && remaining[m].id == id
  {
    MoreCalls(Lease(id, true, false, false, false), before, after);
  }

  /** A helper that one successful retry brings to rest. */
  predicate Retryable(h: Helper) {
    !h.active && !h.retrying && (h.pending || HelperQuiescent(h))
  }

  predicate AllRetryable(helpers: seq<Helper>) {
    forall i | 0 <= i < |helpers| :: Retryable(helpers[i])
  }

  /** An arbitrary answer; `smooth` says that all goes well. */
  method Works(smooth: bool) returns (b: bool)
    ensures smooth ==> b
  {
    b := *;
    b := b || smooth;
  }

  method Maybe() returns (b: bool)
  {
    b := *;
  }

  // ---------- one worker ----------

  /** The record of a worker together with what is really there: the process, its object, the Job,
      the queue and the event. */
  class Worker {
    var started: bool
    var exitCode: Option<int>
    var reaped: bool
    var processClosed: bool
    var hasJob: bool
    var jobActiveZero: bool
    var jobClosed: bool
    var queueClosed: bool
    var authorizedClosed: bool

    var alive: bool
    var processOpen: bool
    var jobOpen: bool
    var queueOpen: bool
    var eventOpen: bool

    predicate Complete()
      reads this
    {
      && reaped && (exitCode.Some? || !started)
      && (!hasJob || (jobActiveZero && jobClosed))
      && processClosed && queueClosed && authorizedClosed
    }

    /** Nothing of the worker is left. */
    predicate Settled()
      reads this
    {
      !alive && !processOpen && !jobOpen && !queueOpen && !eventOpen
    }

    /** The record never claims more than is true. */
    predicate Honest()
      reads this
    {
      && (reaped && started ==> !alive && exitCode.Some?)
      && (processClosed ==> !alive && !processOpen)
      && (!hasJob || jobClosed ==> !jobOpen)
      && (jobClosed ==> jobActiveZero)
      && (queueClosed ==> !queueOpen)
      && (authorizedClosed ==> !eventOpen)
    }

    /** Only the queue exists. */
    predicate Untouched()
      reads this
    {
      && !reaped && !processClosed && !queueClosed && !authorizedClosed && !started && !hasJob && !jobClosed
      && !alive && !processOpen && !jobOpen && queueOpen && !eventOpen
    }

    constructor ()
      ensures Untouched()
    {
      started, exitCode, reaped, processClosed := false, None, false, false;
      hasJob, jobActiveZero, jobClosed, queueClosed, authorizedClosed := false, false, false, false, false;
      alive, processOpen, jobOpen, queueOpen, eventOpen := false, false, false, true, false;
    }

    /** A process may end at any time and never comes back. */
    method TimePasses()
      modifies this`alive
      ensures alive ==> old(alive)
    {
      var ended := Maybe();
      alive := alive && !ended;
    }

    /** Closing a Job may raise whether or not it took effect; otherwise the record follows its
        state.  The boundary has no counter of its own, so its zero flag is then always set. */
    method CloseJob(smooth: bool) returns (ok: bool)
      requires Honest()
      modifies this`alive, this`jobOpen, this`jobActiveZero, this`jobClosed
      ensures Honest() && (alive ==> old(alive))
      ensures smooth ==> ok && jobClosed
    {
      var closes := Works(smooth);
      TimePasses();
      jobOpen := jobOpen && !closes;
      ok := Works(smooth);
      if ok {
        jobActiveZero, jobClosed := true, !jobOpen;
      }
    }

    /** Terminates, waits, kills and waits again, each of which may fail; then closes the process
        object, which is refused while the process runs. */
    method ReapProcess(smooth: bool) returns (ok: bool)
      requires Honest()
      modifies this`alive, this`exitCode, this`reaped, this`processOpen, this`processClosed
      ensures Honest() && (alive ==> old(alive))
      ensures smooth ==> ok && reaped && processClosed
    {
      TimePasses();
      ok := Works(smooth);
      if !ok {
        return;
      }
      if smooth {
        alive := false;
      }
      if started {
        var code: int := *;
        exitCode, reaped := if alive then None else Some(code), !alive;
      } else {
        reaped := true;
      }
      if !reaped {
        return;
      }
      var closes := Works(smooth);
      closes := closes && !alive;
      processOpen := processOpen && !closes;
      processClosed := closes;
    }

    method CloseQueue(smooth: bool) returns (ok: bool)
      requires Honest()
      modifies this`queueOpen, this`queueClosed
      ensures Honest() && queueClosed == ok && (smooth ==> ok)
    {
      ok := Works(smooth);
      queueOpen := queueOpen && !ok;
      queueClosed := ok;
    }

    method CloseEvent(smooth: bool) returns (ok: bool)
      requires Honest()
      modifies this`eventOpen, this`authorizedClosed
      ensures Honest() && authorizedClosed == ok && (smooth ==> ok)
    {
      ok := Works(smooth);
      eventOpen := eventOpen && !ok;
      authorizedClosed := ok;
    }

    /** The steps of a run up to the assignment of the process to its Job; any of them may raise.
        `created` and `event` say which objects exist by then. */
    method Start(smooth: bool) returns (created: bool, event: bool, ok: bool)
      requires Untouched()
      modifies this`eventOpen, this`processOpen, this`alive, this`started, this`jobOpen, this`hasJob
      ensures Honest() && (!created ==> !alive && !processOpen && !started) && (!event ==> !eventOpen)
      ensures started ==> created && processOpen
      ensures ok ==> created && event && started && hasJob && processOpen && jobOpen && eventOpen
      ensures smooth ==> ok
    {
      created, event, ok := false, false, false;
      var goesOn := Works(smooth);
      if !goesOn {
        return;
      }
      eventOpen, event := true, true;
      goesOn := Works(smooth);
      if !goesOn {
        return;
      }
      processOpen, created := true, true;
      alive := *;
      goesOn := Works(smooth);
      if !goesOn {
        return;
      }
      started := true;
      goesOn := Works(smooth);
      if !goesOn {
        return;
      }
      jobOpen, hasJob := true, true;
      ok := Works(smooth);
    }

    /** After the start: the worker's result, or a timeout, closes the Job and reaps the process. */
    method Finish(smooth: bool) returns (ok: bool)
      requires Honest()
      modifies this
      ensures Honest() && (alive ==> old(alive)) && started == old(started) && hasJob == old(hasJob)
      ensures queueOpen == old(queueOpen) && queueClosed == old(queueClosed)
      ensures smooth ==> ok && reaped && processClosed && jobClosed
      ensures eventOpen == old(eventOpen) && authorizedClosed == old(authorizedClosed)
    {
      TimePasses();
      var late := Maybe();
      if !alive && !late {
        var code: int := *;
        exitCode, reaped := Some(code), true;
      }
      ok := CloseJob(smooth);
      if ok {
        ok := ReapProcess(smooth);
      }
    }

    /** A whole worker run: result or timeout, recovery after an exception, and the final closing of
        whatever there is.  However it goes, the record stays honest; if all goes well the process ran
        and nothing of the worker is left. */
    method Run(smooth: bool)
      requires Untouched()
      modifies this
      ensures Honest()
      ensures smooth ==> started && Complete() && Settled()
    {
      var created, event, ok := Start(smooth);
      if ok && created {
        ok := Finish(smooth);
      }
      if !ok {
        Recover(created);
      }
      if created && !reaped {
        var _ := ReapProcess(false);
      }
      FinallyClose(created, event, smooth);
    }

    method Recover(created: bool)
      requires Honest()
      modifies this`alive, this`jobOpen, this`jobActiveZero, this`jobClosed, this`exitCode, this`reaped, this`processOpen, this`processClosed
      ensures Honest() && (alive ==> old(alive)) && (!created ==> processOpen == old(processOpen))
    {
      if hasJob {
        var _ := CloseJob(false);
      }
      if created {
        var _ := ReapProcess(false);
      }
    }

    method FinallyClose(created: bool, event: bool, smooth: bool)
      requires Honest() && (!created ==> !alive && !processOpen && !started) && (!event ==> !eventOpen)
      modifies this
      ensures Honest() && started == old(started) && hasJob == old(hasJob) && jobClosed == old(jobClosed) && exitCode == old(exitCode)
      ensures (old(reaped) ==> reaped) && (old(processClosed) ==> processClosed)
      ensures (!created ==> reaped && processClosed) && (!event ==> authorizedClosed)
      ensures smooth ==> queueClosed && authorizedClosed
    {
      if !created {
        reaped, processClosed := true, true;
      }
      if !event {
        authorizedClosed := true;
      }
      var _ := CloseQueue(smooth);
      if event {
        var _ := CloseEvent(smooth);
      }
    }

    /** One cleanup pass; anything that is not finished is an error. */
    method Clean(smooth: bool) returns (error: bool)
      requires Honest()
      modifies this
      ensures Honest()
      ensures !error ==> reaped && processClosed && queueClosed && authorizedClosed
      ensures smooth ==> !error && Complete()
    {
      error := false;
      if !jobClosed && hasJob {
        var ok := CloseJob(smooth);
        error := error || !ok;
      }
      if !queueClosed {
        var ok := CloseQueue(smooth);
        error := error || !ok;
      }
      if !authorizedClosed {
        var ok := CloseEvent(smooth);
        error := error || !ok;
      }
      if !reaped || !processClosed {
        var ok := ReapProcess(smooth);
        error := error || !ok;
      }
      error := error || !reaped || !processClosed || !queueClosed || !authorizedClosed;
    }
  }

  // ---------- one attempt ----------

  class RefreshAttempt {
    /** Every worker the attempt ever made. */
    var workers: seq<Worker>
    /** Those whose cleanup is still to be confirmed. */
    var records: seq<Worker>
    var helpers: seq<Helper>
    /** Leases that could not be given back yet. */
    var unfinalized: seq<Lease>
    /** Every native call on a lease. */
    ghost var calls: seq<LeaseCall>
    /** For every start of the providers, whether nothing was outstanding at that moment. */
    ghost var starts: seq<bool>
    /** How many leases were acquired, and how many completely given back. */
    var acquired: nat
    ghost var finalized: nat

    predicate AllSettled()
      reads this, workers
    {
      (forall i | 0 <= i < |workers| :: workers[i].Settled()) && HelpersQuiescent(helpers)
    }

    ghost predicate Valid()
      reads this, workers
    {
      && (forall i | 0 <= i < |workers| :: workers[i].Honest())
      && (forall i | 0 <= i < |workers| :: workers[i] in records || workers[i].Settled())
      && (forall i | 0 <= i < |records| :: records[i] in workers)
      && (forall i | 0 <= i < |calls| && calls[i].ReleaseCall? :: calls[i].settled)
      && KnownAll(unfinalized, calls)
      && (forall i | 0 <= i < |starts| :: starts[i])
    }

    /** Every acquired lease was natively returned, or is `held`, or waits to be given back. */
    ghost predicate Accounted(held: Option<Lease>)
      reads this
    {
      forall id: nat | id < acquired ::
        Returned(calls, id) || (held.Some? && held.value.id == id) || exists i :: 0 <= i < |unfinalized| && unfinalized[i].id == id
    }

    /** No lease is lost, and none is counted twice. */
    ghost predicate Balanced()
      reads this
    {
      acquired == finalized + |unfinalized| && Accounted(None)
    }

    /** Nothing is outstanding: no resource and no lease. */
    predicate Quiet()
      reads this, workers
    {
      AllSettled() && unfinalized == []
    }

    constructor ()
      ensures Valid() && Quiet() && Balanced() && workers == [] && helpers == [] && calls == [] && acquired == 0
    {
      workers, records, helpers, unfinalized, calls, starts := [], [], [], [], [], [];
      acquired, finalized := 0, 0;
    }

    /** Lists every worker again, tries each once, retries the helpers, and confirms completeness. */
    method CleanupResources(smooth: bool) returns (ok: bool)
      requires Valid()
      modifies this`records, this`helpers, workers
      ensures Valid() && |helpers| == |old(helpers)|
      ensures ok ==> AllSettled()
      ensures smooth && AllRetryable(old(helpers)) ==> ok
    {
      records := workers;
      var workersOk := CleanWorkers(smooth);
      var helpersOk := RetryHelpers(smooth);
      ok := workersOk && helpersOk;
      if ok {
        var complete := AllComplete();
        ok := complete;
      }
    }

    method CleanWorkers(smooth: bool) returns (ok: bool)
      requires Valid() && records == workers
      modifies workers
      ensures Valid()
      ensures smooth ==> ok && forall k | 0 <= k < |workers| :: workers[k].Complete()
    {
      ok := true;
      var i := 0;
      while i < |workers|
        invariant i <= |workers|
        invariant forall k | 0 <= k < |workers| :: workers[k].Honest()
        invariant smooth ==> ok && forall k | 0 <= k < i :: workers[k].Complete()
      {
        var error := workers[i].Clean(smooth);
        ok := ok && !error;
        i := i + 1;
      }
    }

    method RetryHelpers(smooth: bool) returns (ok: bool)
      requires Valid()
      modifies this`helpers
      ensures Valid() && |helpers| == |old(helpers)|
      ensures ok <==> forall k | 0 <= k < |helpers| :: old(helpers)[k].pending ==> !helpers[k].pending
      ensures forall k | 0 <= k < |helpers| && !old(helpers)[k].pending :: helpers[k] == old(helpers)[k]
      ensures smooth && AllRetryable(old(helpers)) ==> ok && HelpersQuiescent(helpers)
    {
      ok := true;
      var i := 0;
      while i < |helpers|
        invariant i <= |helpers| && |helpers| == |old(helpers)|
        invariant forall k | i <= k < |helpers| :: helpers[k] == old(helpers)[k]
        invariant ok <==> forall k | 0 <= k < i :: old(helpers)[k].pending ==> !helpers[k].pending
        invariant forall k | 0 <= k < i && !old(helpers)[k].pending :: helpers[k] == old(helpers)[k]
        invariant smooth && AllRetryable(old(helpers)) ==> ok && forall k | 0 <= k < i :: HelperQuiescent(helpers[k])
      {
        if helpers[i].pending {
          var released := Works(smooth);
          var view: Option<SupervisorView> := *;
          view := if smooth then Some(SupervisorView(true, true)) else view;
          helpers := helpers[i := Helper(!released, helpers[i].active, helpers[i].retrying, view)];
          ok := ok && released;
        }
        i := i + 1;
      }
    }

    /** `cleanup_complete` over all records and helpers. */
    method AllComplete() returns (ok: bool)
      requires Valid() && records == workers
      ensures ok ==> AllSettled()
      ensures ok <==> HelpersQuiescent(helpers) && forall k | 0 <= k < |workers| :: workers[k].Complete()
    {
      ok := HelpersQuiescent(helpers);
      var i := 0;
      while i < |workers| && ok
        invariant i <= |workers|
        invariant ok ==> HelpersQuiescent(helpers) && forall k | 0 <= k < i :: workers[k].Complete() && workers[k].Settled()
        invariant !ok ==> !HelpersQuiescent(helpers) || exists k | 0 <= k < |workers| :: !workers[k].Complete()
      {
        ok := workers[i].Complete();
        i := i + 1;
      }
    }

    /** Gives a lease back in order, release before close; finished halves are remembered for the
        retry.  A call may raise or refuse whether or not it took effect. */
    method ReleaseProviderLease(lease: Lease, smooth: bool) returns (after: Lease, done: bool)
      requires Valid() && AllSettled() && LeaseKnown(lease, calls)
      modifies this`calls, this`finalized
      ensures Valid() && finalized == old(finalized) + if done then 1 else 0
      ensures after.id == lease.id && LeaseKnown(after, calls)
      ensures done ==> Returned(calls, lease.id)
      ensures exists closes ::
        && calls == old(calls) + LeaseCalls(lease, closes)
        && (closes ==> (after.releaseNoted || !lease.owned) && !lease.closeNoted && !lease.closed)
        && (done && !lease.closeNoted && !lease.closed ==> closes)
      ensures done ==> after.releaseNoted || !after.owned
      ensures done ==> after.closeNoted || after.closed
      ensures smooth ==> done
    {
      after := lease;
      ghost var before := calls;
      var released := after.releaseNoted || !after.owned;
      var closedAlready := after.closeNoted || after.closed;
      if !released {
        calls := calls + [ReleaseCall(lease.id, AllSettled())];
        KnownStays(unfinalized, before, calls);
        var took := Maybe();
        var answered := Works(smooth);
        after := after.(owned := after.owned && !took, releaseNoted := answered);
        released := answered;
        MoreCalls(lease, before, calls);
        assert calls[|calls| - 1] == ReleaseCall(lease.id, true);
      }
      ghost var between := calls;
      var closes := released && !closedAlready;
      if closes {
        calls := calls + [CloseCall(lease.id)];
        KnownStays(unfinalized, between, calls);
        MoreCalls(after, between, calls);
        ClosedIsReturned(between, lease.id);
        var took := Maybe();
        var answered := Works(smooth);
        after := after.(closed := after.closed || took, closeNoted := answered);
        closedAlready := answered;
      }
      assert calls == before + LeaseCalls(lease, closes);
      done := released && closedAlready;
      if done {
        finalized := finalized + 1;
      }
    }

    method RetryUnfinalizedLeases(smooth: bool) returns (ok: bool)
      requires Valid() && AllSettled() && Balanced()
      modifies this`calls, this`unfinalized, this`finalized
      ensures Valid() && AllSettled() && Balanced() && old(calls) <= calls
      ensures ok <==> unfinalized == []
      ensures smooth ==> ok
    {
      var remaining: seq<Lease> := [];
      var i := 0;
      while i < |unfinalized|
        invariant unfinalized == old(unfinalized) && i <= |unfinalized| && Valid() && AllSettled() && old(calls) <= calls
        invariant finalized + |remaining| == old(finalized) + i
        invariant KnownAll(remaining, calls) && Reduced(unfinalized, i, remaining, calls)
        invariant smooth ==> remaining == []
      {
        ghost var before, kept := calls, remaining;
        var lease, done := ReleaseProviderLease(unfinalized[i], smooth);
        if !done {
          remaining := remaining + [lease];
        }
        KnownStays(kept, before, calls);
        ReducedStep(unfinalized, i, kept, remaining, before, calls);
        i := i + 1;
      }
      ghost var waiting := unfinalized;
      unfinalized := remaining;
      forall id: nat | id < acquired
        ensures Returned(calls, id) || exists m :: 0 <= m < |unfinalized| && unfinalized[m].id == id
      {
        StillAccounted(id, old(calls), calls, waiting, remaining);
      }
      ok := remaining == [];
    }

    /** Finishes what an earlier run left; afterwards nothing is outstanding. */
    method FinishEarlier(smooth: bool) returns (ok: bool)
      requires Valid() && Balanced()
      modifies this`records, this`helpers, this`calls, this`unfinalized, this`finalized, workers
      ensures Valid() && Balanced()
      ensures ok ==> Quiet() && records == [] && helpers == []
      ensures smooth && AllRetryable(old(helpers)) ==> ok
    {
      if records != [] || helpers != [] {
        ok := CleanupResources(smooth);
        if !ok {
          return;
        }
      }
      ok := RetryUnfinalizedLeases(smooth);
      if ok {
        records, helpers := [], [];
      }
    }

    /** The providers: a guard, a helper and a worker, each of which may be missing; an exception may
        end it anywhere. */
    method Execute(guarded: bool, smooth: bool) returns (lease: Option<Lease>)
      requires Valid() && Quiet()
      modifies this`helpers, this`workers, this`records, this`acquired, this`starts
      ensures Valid() && (forall i | 0 <= i < |workers| :: workers[i] in old(workers) || fresh(workers[i]))
      ensures acquired == old(acquired) + if lease.Some? then 1 else 0
      ensures lease.Some? ==> lease.value == Lease(old(acquired), true, false, false, false)
      ensures lease.Some? ==> guarded
      ensures starts == old(starts) + [true]
      ensures smooth && guarded ==> lease.Some?
      ensures smooth && old(helpers) == [] ==> AllRetryable(helpers)
    {
      starts := starts + [Quiet()];
      lease := None;
      if guarded {
        var granted := Works(smooth);
        if !granted {
          return;
        }
        lease, acquired := Some(Lease(acquired, true, false, false, false)), acquired + 1;
      }
      var codex, openCode: bool := *, *;
      if codex {
        var helper: Helper := *;
        helper := if smooth then helper.(pending := true, active := false, retrying := false) else helper;
        helpers := helpers + [helper];
      }
      if openCode {
        RunNewWorker(smooth);
      }
    }

    method RunNewWorker(smooth: bool)
      requires Valid()
      modifies this`workers, this`records
      ensures Valid() && (forall i | 0 <= i < |workers| :: workers[i] in old(workers) || fresh(workers[i]))
    {
      var worker := new Worker();
      worker.Run(smooth);
      workers := workers + [worker];
      records := records + [worker];
    }

    /** The held lease is given back if the cleanup was safe, and otherwise kept for a later run. */
    method GiveBack(lease: Lease, safe: bool, smooth: bool) returns (released: bool)
      requires Valid() && Accounted(Some(lease)) && LeaseKnown(lease, calls) && acquired == finalized + |unfinalized| + 1
      requires safe ==> AllSettled()
      modifies this`calls, this`finalized, this`unfinalized
      ensures Valid() && Balanced() && old(calls) <= calls
      ensures released ==> safe && Returned(calls, lease.id) && unfinalized == old(unfinalized)
      ensures !released ==> |unfinalized| == |old(unfinalized)| + 1 && unfinalized[|unfinalized| - 1].id == lease.id
      ensures !safe ==> calls == old(calls)
      ensures safe && smooth ==> released
    {
      var after := lease;
      released := false;
      ghost var before := calls;
      if safe {
        after, released := ReleaseProviderLease(lease, smooth);
      }
      if !released {
        unfinalized := unfinalized + [after];
      }
      forall id: nat | id < acquired
        ensures Returned(calls, id) || exists i :: 0 <= i < |unfinalized| && unfinalized[i].id == id
      {
        MoreCalls(Lease(id, true, false, false, false), before, calls);
        if !Returned(calls, id) {
          if lease.id == id {
            assert unfinalized[|unfinalized| - 1].id == id;
          } else {
            var i :| 0 <= i < |old(unfinalized)| && old(unfinalized)[i].id == id;
            assert unfinalized[i] == old(unfinalized)[i];
          }
        }
      }
    }

    /** One refresh: earlier remains first, then the providers, then cleanup, and the lease only if
        the cleanup is safe. */
    method Run(enabled: bool, guarded: bool, smooth: bool) returns (result: RunResult)
      requires Valid() && Balanced()
      modifies this, workers
      ensures Valid() && Balanced() && (forall i | 0 <= i < |workers| :: workers[i] in old(workers) || fresh(workers[i]))
      ensures result.NothingEnabled? || result == Ran(false) ==> Quiet()
      ensures result.Ran? <==> |starts| == |old(starts)| + 1
      ensures !result.Ran? ==> starts == old(starts) && acquired == old(acquired)
      ensures (result.NothingEnabled? ==> !enabled) && (result.Ran? ==> enabled)
      ensures smooth && AllRetryable(old(helpers)) ==> result == if enabled then Ran(false) else NothingEnabled
    {
      var ready := FinishEarlier(smooth);
      if !ready {
        return CleanupFailed;
      }
      if !enabled {
        return NothingEnabled;
      }
      var lease := Execute(guarded, smooth);
      var safe := CleanupResources(smooth);
      var released := lease.None?;
      if lease.Some? {
        released := GiveBack(lease.value, safe, smooth);
      }
      if safe && released {
        records, helpers := [], [];
      }
      result := Ran(!safe || !released);
    }
  }

  // ---------- a run after the other ----------

  class ExecutionOrchestrator {
    var attempt: RefreshAttempt?
    /** For every new attempt, whether the previous one had nothing outstanding. */
    ghost var cleanStarts: seq<bool>

    function Workers(): seq<Worker>
      reads this, attempt
    {
      if attempt == null then [] else attempt.workers
    }

    ghost predicate Valid()
      reads this, attempt, Workers()
    {
      && (attempt != null ==> attempt.Valid() && attempt.Balanced())
      && forall i | 0 <= i < |cleanStarts| :: cleanStarts[i]
    }

    constructor ()
      ensures Valid() && attempt == null
    {
      attempt, cleanStarts := null, [];
    }

    /** A new attempt replaces the previous one only when that is completely finished; otherwise the
        previous one stays, to be cleaned up by a later run. */
    method Run(enabled: bool, guarded: bool, smooth: bool) returns (result: RunResult)
      requires Valid()
      modifies this, attempt, Workers()
      ensures Valid()
      ensures attempt != old(attempt) ==> fresh(attempt) && cleanStarts == old(cleanStarts) + [true]
      ensures attempt == old(attempt) ==> result.CleanupFailed? && cleanStarts == old(cleanStarts)
      ensures smooth && (old(attempt) == null || AllRetryable(old(attempt.helpers))) ==> attempt != old(attempt) && !result.CleanupFailed?
    {
      if attempt != null {
        var cleaned := attempt.CleanupResources(smooth);
        if cleaned {
          cleaned := attempt.RetryUnfinalizedLeases(smooth);
        }
        if !cleaned {
          return CleanupFailed;
        }
        attempt.records, attempt.helpers := [], [];
      }
      cleanStarts := cleanStarts + [attempt == null || attempt.Quiet()];
      attempt := new RefreshAttempt();
      result := attempt.Run(enabled, guarded, smooth);
    }
  }
}
