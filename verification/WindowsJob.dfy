/**
 The boundary object around one Job handle and at most one process handle.  Every native call
 may fail or answer anything; a log keeps the calls that matter, so that what a close relied
 on can be read off it, across retries.
 */
module WindowsJob {
  import opened Wrappers

  /** `inJob`, `borrowed` and `spared` record what held when the close was attempted; a spared
      process is one the boundary never terminates because assigning it failed. */
  datatype Call =
    | CloseProcess(borrowed: bool, inJob: bool, spared: bool, ok: bool)
    | CloseJob(inJob: bool, ok: bool)
    | Waited(signalled: bool)
    | JobTerminated(ok: bool)
    | ProcessTerminated(ok: bool)
    | NestedChecked(nested: bool)
    | AssignAnswered(yes: bool)
    | MemberChecked(member: bool)
    | Counted(active: int)
    | Failure

  // ---------- what a log says ----------

  /** The answer of the last wait, if any. */
  function LastWait(log: seq<Call>): Option<bool> {
    if log == [] then None
    else if log[|log| - 1].Waited? then Some(log[|log| - 1].signalled)
    else LastWait(log[..|log| - 1])
  }

  function LastProcessTermination(log: seq<Call>): Option<bool> {
    if log == [] then None
    else if log[|log| - 1].ProcessTerminated? then Some(log[|log| - 1].ok)
    else LastProcessTermination(log[..|log| - 1])
  }

  function LastJobTermination(log: seq<Call>): Option<bool> {
    if log == [] then None
    else if log[|log| - 1].JobTerminated? then Some(log[|log| - 1].ok)
    else LastJobTermination(log[..|log| - 1])
  }

  /** Zero active processes were observed after the last attempt to terminate the job. */
  predicate EmptySinceTermination(log: seq<Call>) {
    log != [] && !log[|log| - 1].JobTerminated? && (log[|log| - 1] == Counted(0) || EmptySinceTermination(log[..|log| - 1]))
  }

  /** How often the process handle was closed successfully. */
  function ProcessCloses(log: seq<Call>): nat {
    if log == [] then 0
    else ProcessCloses(log[..|log| - 1]) + if log[|log| - 1].CloseProcess? && log[|log| - 1].ok then 1 else 0
  }

  function JobCloses(log: seq<Call>): nat {
    if log == [] then 0
    else JobCloses(log[..|log| - 1]) + if log[|log| - 1].CloseJob? && log[|log| - 1].ok then 1 else 0
  }

  /** A call that did not do what it was made for; `Failure` is a wait or a count that raised, or a count
      below zero. */
  predicate Trouble(c: Call) {
    match c
    case CloseProcess(_, _, _, ok) => !ok
    case CloseJob(_, ok) => !ok
    case JobTerminated(ok) => !ok
    case ProcessTerminated(ok) => !ok
    case Failure => true
    case _ => false
  }

  function Troubles(log: seq<Call>): nat {
    if log == [] then 0 else Troubles(log[..|log| - 1]) + if Trouble(log[|log| - 1]) then 1 else 0
  }

  /** Whether closing at the end of `log` is allowed; no handle is closed again after a success. */
  predicate Justified(log: seq<Call>, c: Call) {
    match c
    case CloseProcess(borrowed, inJob, spared, _) =>
      && !borrowed && ProcessCloses(log) == 0
      && (inJob || !spared ==> LastWait(log) == Some(true))
      && (!inJob && !spared ==> LastProcessTermination(log) == Some(true))
    case CloseJob(inJob, _) =>
      && LastJobTermination(log) == Some(true) && JobCloses(log) == 0
      && (inJob ==> EmptySinceTermination(log))
    case _ => true
  }

  predicate AllJustified(log: seq<Call>) {
    log == [] || (AllJustified(log[..|log| - 1]) && Justified(log[..|log| - 1], log[|log| - 1]))
  }

  lemma {:induction false} JustifiedAt(log: seq<Call>, i: nat)
    requires AllJustified(log) && i < |log|
    ensures Justified(log[..i], log[i])
  {
    if i < |log| - 1 {
      JustifiedAt(log[..|log| - 1], i);
      assert log[..|log| - 1][..i] == log[..i];
    }
  }

  /** The log ends with a confirmed assignment: the process was in no Job before, unless that is allowed,
      the assignment was answered yes, and membership and the count of active processes bear it out. */
  predicate Confirmed(log: seq<Call>, allowNested: bool) {
    var n := |log|;
    && n >= 3 && CountConfirms(log)
    && log[n - 2] == MemberChecked(true) && log[n - 3] == AssignAnswered(true)
    && (!allowNested ==> n >= 4 && log[n - 4] == NestedChecked(false))
  }

  predicate CountConfirms(log: seq<Call>) {
    log != [] && log[|log| - 1].Counted? && log[|log| - 1].active >= MIN_ACTIVE_PROCESSES
  }

  lemma ConfirmedBy(before: seq<Call>, asked: seq<Call>, log: seq<Call>, allowNested: bool)
    requires asked == before + [AssignAnswered(true)] && CountConfirms(log) && log[..|log| - 1] == asked + [MemberChecked(true)]
    requires !allowNested ==> before != [] && before[|before| - 1] == NestedChecked(false)
    ensures Confirmed(log, allowNested)
  {
    var n := |log|;
    assert log[n - 2] == log[..n - 1][n - 2] && log[n - 3] == log[..n - 1][n - 3];
    assert !allowNested ==> log[n - 4] == log[..n - 1][n - 4];
  }

  lemma AppendFacts(log: seq<Call>, c: Call)
    ensures AllJustified(log + [c]) == (AllJustified(log) && Justified(log, c))
    ensures LastWait(log + [c]) == if c.Waited? then Some(c.signalled) else LastWait(log)
    ensures LastProcessTermination(log + [c]) == if c.ProcessTerminated? then Some(c.ok) else LastProcessTermination(log)
    ensures LastJobTermination(log + [c]) == if c.JobTerminated? then Some(c.ok) else LastJobTermination(log)
    ensures EmptySinceTermination(log + [c]) == (!c.JobTerminated? && (c == Counted(0) || EmptySinceTermination(log)))
    ensures ProcessCloses(log + [c]) == ProcessCloses(log) + if c.CloseProcess? && c.ok then 1 else 0
    ensures JobCloses(log + [c]) == JobCloses(log) + if c.CloseJob? && c.ok then 1 else 0
    ensures Troubles(log + [c]) == Troubles(log) + if Trouble(c) then 1 else 0
  {
    assert (log + [c])[..|log|] == log;
  }

  // ---------- reading a justified log ----------

  lemma {:induction false} TerminationBehind(log: seq<Call>)
    requires LastJobTermination(log) == Some(true) && EmptySinceTermination(log)
    ensures exists j, k :: 0 <= j < k < |log| && log[j] == JobTerminated(true) && log[k] == Counted(0)
              && forall m | j < m < |log| :: !log[m].JobTerminated?
  {
    var n := |log| - 1;
    var init := log[..n];
    if log[n] == Counted(0) {
      var j := TerminationIndex(init);
      assert log[j] == JobTerminated(true);
    } else {
      TerminationBehind(init);
      var j, k :| 0 <= j < k < |init| && init[j] == JobTerminated(true) && init[k] == Counted(0)
                  && forall m | j < m < |init| :: !init[m].JobTerminated?;
      assert log[j] == JobTerminated(true) && log[k] == Counted(0);
      forall m | j < m < |log| ensures !log[m].JobTerminated? {
        assert m < n ==> log[m] == init[m];
      }
    }
  }

  lemma {:induction false} TerminationIndex(log: seq<Call>) returns (j: nat)
    requires LastJobTermination(log) == Some(true)
    ensures j < |log| && log[j] == JobTerminated(true) && forall m | j < m < |log| :: !log[m].JobTerminated?
  {
    var n := |log| - 1;
    if log[n].JobTerminated? {
      j := n;
    } else {
      j := TerminationIndex(log[..n]);
      forall m | j < m < |log| ensures !log[m].JobTerminated? {
        assert m < n ==> log[m] == log[..n][m];
      }
    }
  }

  lemma {:induction false} WaitBehind(log: seq<Call>)
    requires LastWait(log) == Some(true)
    ensures exists j :: 0 <= j < |log| && log[j] == Waited(true) && forall m | j < m < |log| :: !log[m].Waited?
  {
    var n := |log| - 1;
    if !log[n].Waited? {
      WaitBehind(log[..n]);
      var j :| 0 <= j < n && log[..n][j] == Waited(true) && forall m | j < m < n :: !log[..n][m].Waited?;
      assert log[j] == Waited(true);
      forall m | j < m < |log| ensures !log[m].Waited? {
        assert m < n ==> log[m] == log[..n][m];
      }
    }
  }

  /** In a justified log the handle of an assigned job is closed only after a successful
      termination followed by a count of zero active processes. */
  lemma JobClosedOnlyWhenEmpty(log: seq<Call>, i: nat)
    requires AllJustified(log) && i < |log| && log[i].CloseJob? && log[i].inJob
    ensures exists j, k :: 0 <= j < k < i && log[j] == JobTerminated(true) && log[k] == Counted(0)
              && forall m | j < m < i :: !log[m].JobTerminated?
  {
    JustifiedAt(log, i);
    TerminationBehind(log[..i]);
    var j, k :| 0 <= j < k < i && log[..i][j] == JobTerminated(true) && log[..i][k] == Counted(0)
                && forall m | j < m < i :: !log[..i][m].JobTerminated?;
    assert log[j] == JobTerminated(true) && log[k] == Counted(0);
    forall m | j < m < i ensures !log[m].JobTerminated? {
      assert log[m] == log[..i][m];
    }
  }

  /** The handle of an owned, assigned process is closed only after its last wait signalled. */
  lemma ProcessClosedOnlyWhenSignalled(log: seq<Call>, i: nat)
    requires AllJustified(log) && i < |log| && log[i].CloseProcess? && log[i].inJob
    ensures !log[i].borrowed
    ensures exists j :: 0 <= j < i && log[j] == Waited(true) && forall m | j < m < i :: !log[m].Waited?
  {
    JustifiedAt(log, i);
    WaitBehind(log[..i]);
    var j :| 0 <= j < i && log[..i][j] == Waited(true) && forall m | j < m < i :: !log[..i][m].Waited?;
    assert log[j] == Waited(true);
    forall m | j < m < i ensures !log[m].Waited? {
      assert log[m] == log[..i][m];
    }
  }

  // ---------- the boundary ----------

  datatype JobState = Created | Assigned | Authorized | Broken | Closed

  datatype JobError = Timeout | CleanupFailed | InvalidState | HandleFailed | NestedJob | AssignmentFailed | InternalError

  /** The answer of a native call that reports success as a truth value. */
  datatype Reply = Yes | No | Fault(error: JobError)

  datatype WaitReply = Signalled | StillRunning | WaitFault

  datatype Handle = NoHandle | Handle(value: int)

  /** A handle the interpreter treats as false. */
  predicate Falsy(h: Handle) { h.NoHandle? || h.value == 0 }

  const INVALID_HANDLE := -1
  const MIN_ACTIVE_PROCESSES := 1

  class WindowsJobBoundary {
    var job: Handle
    var process: Handle
    var inJob: bool
    var borrowed: bool
    var state: JobState
    ghost var log: seq<Call>
    /** Whether this boundary ever opened a process handle of its own. */
    ghost var ownsHandle: bool

    /** What holds between native calls, whatever the state: every close so far was justified, the job
        handle is gone exactly if it was closed, and so is a process handle of the boundary's own. */
    ghost predicate Sound()
      reads this
    {
      && AllJustified(log)
      && JobCloses(log) == (if job.Handle? then 0 else 1)
      && ProcessCloses(log) == (if ownsHandle && process.NoHandle? then 1 else 0)
      && (borrowed ==> process.Handle?) && (process.Handle? ==> ownsHandle == !borrowed)
    }

    /** What holds between the calls of the owner. */
    ghost predicate Valid()
      reads this
    {
      && Sound()
      && (state.Created? ==> process.NoHandle? && !inJob && !borrowed && !ownsHandle)
      && (state.Closed? ==> job.NoHandle? && process.NoHandle?)
    }

    /** Takes over a job handle that is already configured. */
    constructor FromOwnedJob(handle: int)
      ensures Valid() && state.Created? && job == Handle(handle) && log == []
    {
      job, process := Handle(handle), NoHandle;
      inJob, borrowed, state := false, false, Created;
      log, ownsHandle := [], false;
    }

    /** `expected` is given when all goes smoothly. */
    method Ask(expected: Option<Reply>) returns (r: Reply)
      ensures expected.Some? ==> r == expected.value
    {
      var answer: nat := *;
      var error: JobError := *;
      r := if expected.Some? then expected.value else if answer == 0 then Yes else if answer == 1 then No else Fault(error);
    }

    /** Any call used only for its truth value; a fault counts as no.  When all goes smoothly every
        call succeeds. */
    method Safe(smooth: bool) returns (ok: bool)
      ensures smooth ==> ok
    {
      var r := Ask(if smooth then Some(Yes) else None);
      ok := r.Yes?;
    }

    ghost method Record(c: Call)
      requires AllJustified(log) && Justified(log, c)
      modifies this`log
      ensures log == old(log) + [c] && AllJustified(log)
      ensures ProcessCloses(log) == ProcessCloses(old(log)) + if c.CloseProcess? && c.ok then 1 else 0
      ensures JobCloses(log) == JobCloses(old(log)) + if c.CloseJob? && c.ok then 1 else 0
      ensures Troubles(log) == Troubles(old(log)) + if Trouble(c) then 1 else 0
      ensures LastWait(log) == if c.Waited? then Some(c.signalled) else LastWait(old(log))
      ensures LastProcessTermination(log) == if c.ProcessTerminated? then Some(c.ok) else LastProcessTermination(old(log))
      ensures LastJobTermination(log) == if c.JobTerminated? then Some(c.ok) else LastJobTermination(old(log))
      ensures EmptySinceTermination(log) == (!c.JobTerminated? && (c == Counted(0) || EmptySinceTermination(old(log))))
    {
      AppendFacts(log, c);
      log := log + [c];
    }

    method TryCloseProcess(ghost spared: bool, smooth: bool) returns (closed: bool)
      requires Sound() && process.Handle? && !borrowed && Justified(log, CloseProcess(false, inJob, spared, true))
      modifies this`log, this`process
      ensures Sound() && old(log) <= log && process == if closed then NoHandle else old(process)
      ensures LastJobTermination(log) == LastJobTermination(old(log)) && (EmptySinceTermination(old(log)) ==> EmptySinceTermination(log))
      ensures Troubles(log) == Troubles(old(log)) + if closed then 0 else 1
      ensures smooth ==> closed
    {
      closed := Safe(smooth);
      Record(CloseProcess(false, inJob, spared, closed));
      if closed {
        process := NoHandle;
      }
    }

    method TryCloseJob(smooth: bool) returns (closed: bool)
      requires Sound() && job.Handle? && Justified(log, CloseJob(inJob, true))
      modifies this`log, this`job
      ensures Sound() && NewCalls(old(log), log) && job == if closed then NoHandle else old(job)
      ensures Troubles(log) == Troubles(old(log)) + if closed then 0 else 1
      ensures smooth ==> closed
    {
      closed := Safe(smooth);
      Record(CloseJob(inJob, closed));
      if closed {
        job := NoHandle;
      }
    }

    /** Closes what is ready; the borrowed handle is let go only together with the job. */
    method CloseHandles(processReady: bool, jobReady: bool, ghost spared: bool, smooth: bool) returns (ok: bool)
      requires Sound()
      requires processReady && process.Handle? && !borrowed ==> Justified(log, CloseProcess(false, inJob, spared, true))
      requires jobReady && job.Handle? ==> Justified(log, CloseJob(inJob, true))
      modifies this`log, this`job, this`process, this`borrowed
      ensures Sound() && old(log) <= log
      ensures job == old(job) || job.NoHandle?
      ensures process == old(process) || process.NoHandle?
      ensures ok ==> job.NoHandle? && process.NoHandle?
      ensures old(borrowed) ==> NewCalls(old(log), log)
      ensures Troubles(log) >= Troubles(old(log))
      ensures ok <==> processReady && jobReady && Troubles(log) == Troubles(old(log))
      ensures smooth && processReady && jobReady ==> ok
    {
      ok := processReady && jobReady;
      if process.Handle? && processReady && !borrowed {
        var closed := TryCloseProcess(spared, smooth);
        ok := ok && closed;
      }
      if job.Handle? && jobReady {
        var closed := TryCloseJob(smooth);
        ok := ok && closed;
      }
      if borrowed && processReady && jobReady && job.NoHandle? {
        process, borrowed := NoHandle, false;
      }
    }

    /** The termination calls that open every cleanup pass. */
    method Terminate(attached: bool, terminateUnassigned: bool, smooth: bool) returns (processTerminated: bool, jobTerminated: bool)
      requires Sound()
      modifies this`log
      ensures Sound() && NewCalls(old(log), log)
      ensures processTerminated && process.Handle? && !attached && !borrowed && terminateUnassigned ==> LastProcessTermination(log) == Some(true)
      ensures jobTerminated && job.Handle? ==> LastJobTermination(log) == Some(true)
      ensures process.NoHandle? || attached || borrowed || !terminateUnassigned ==> processTerminated
      ensures job.NoHandle? ==> jobTerminated
      ensures Troubles(log) >= Troubles(old(log))
      ensures processTerminated && jobTerminated <==> Troubles(log) == Troubles(old(log))
      ensures smooth ==> processTerminated && jobTerminated
    {
      processTerminated, jobTerminated := true, true;
      if !attached && process.Handle? && !borrowed && terminateUnassigned {
        processTerminated := Safe(smooth);
        Record(ProcessTerminated(processTerminated));
      }
      if job.Handle? {
        jobTerminated := Safe(smooth);
        Record(JobTerminated(jobTerminated));
      }
    }

    method WaitOnce(smooth: bool) returns (reply: WaitReply)
      requires Sound()
      modifies this`log
      ensures Sound() && NewCalls(old(log), log) && LastWait(log) == Some(reply.Signalled?)
      ensures LastJobTermination(log) == LastJobTermination(old(log)) && LastProcessTermination(log) == LastProcessTermination(old(log))
      ensures Troubles(log) == Troubles(old(log)) + if reply.WaitFault? then 1 else 0
      ensures smooth ==> reply.Signalled?
    {
      reply := *;
      reply := if smooth then Signalled else reply;
      if reply.WaitFault? {
        Record(Failure);
      }
      Record(Waited(reply.Signalled?));
    }

    /** `None` when the query fails; a count below zero makes no sense. */
    method CountOnce(expected: Option<nat>) returns (active: Option<int>)
      requires Sound()
      modifies this`log
      ensures Sound() && NewCalls(old(log), log) && LastWait(log) == LastWait(old(log))
      ensures LastJobTermination(log) == LastJobTermination(old(log)) && LastProcessTermination(log) == LastProcessTermination(old(log))
      ensures log == old(log) + if active.None? then [Failure] else if active.value < 0 then [Counted(active.value), Failure] else [Counted(active.value)]
      ensures Troubles(log) == Troubles(old(log)) + if active.None? || active.value < 0 then 1 else 0
      ensures active == Some(0) ==> EmptySinceTermination(log)
      ensures expected.Some? ==> active.Some? && active.value == expected.value
    {
      var answered: bool, n: int := *, *;
      answered, n := answered || expected.Some?, if expected.Some? then expected.value else n;
      if !answered {
        Record(Failure);
        return None;
      }
      Record(Counted(n));
      if n < 0 {
        Record(Failure);
      }
      active := Some(n);
    }

    /** One wait, if there is a process to wait for. */
    method WaitTurn(waits: bool, smooth: bool) returns (waited: bool, fault: bool)
      requires Sound()
      modifies this`log
      ensures Sound() && NewCalls(old(log), log)
      ensures LastJobTermination(log) == LastJobTermination(old(log)) && LastProcessTermination(log) == LastProcessTermination(old(log))
      ensures waited && waits && process.Handle? ==> LastWait(log) == Some(true)
      ensures process.NoHandle? || !waits ==> waited && log == old(log)
      ensures Troubles(log) == Troubles(old(log)) + if fault then 1 else 0
      ensures smooth ==> waited && !fault
    {
      waited, fault := true, false;
      if process.Handle? && waits {
        var reply := WaitOnce(smooth);
        waited, fault := reply.Signalled?, reply.WaitFault?;
      }
    }

    /** One look at the Job: `empty` if no process is active, `stop` if looking again is pointless. */
    method CountTurn(waited: bool, givesUp: bool, smooth: bool) returns (empty: bool, fault: bool, stop: bool)
      requires Sound()
      modifies this`log
      ensures Sound() && NewCalls(old(log), log) && LastWait(log) == LastWait(old(log))
      ensures LastJobTermination(log) == LastJobTermination(old(log)) && LastProcessTermination(log) == LastProcessTermination(old(log))
      ensures empty ==> waited && stop && EmptySinceTermination(log)
      ensures Troubles(log) == Troubles(old(log)) + if fault then 1 else 0
      ensures stop ==> empty || fault || givesUp
      ensures smooth && waited ==> empty && !fault
    {
      empty, fault, stop := false, false, true;
      var active := CountOnce(if smooth then Some(0) else None);
      if active.None? {
        fault := true;
      } else if active.value == 0 && waited {
        empty := true;
      } else if active.value < 0 {
        fault := true;
      } else {
        stop := givesUp;
      }
    }

    /** Polls until the process is gone and the job is empty, a call fails, or the deadline passes
        after an arbitrary number of polls.  `stopOnFault` is where the two closing paths differ:
        only one of them gives up at the first failed wait. */
    method Await(attached: bool, waits: bool, waitedBefore: bool, stopOnFault: bool, smooth: bool)
      returns (ok: bool, processWaited: bool, activeZero: bool, timedOut: bool)
      requires Sound()
      requires (waitedBefore && waits ==> process.NoHandle?) && (waits || waitedBefore) && (process.NoHandle? ==> waitedBefore)
      modifies this`log
      ensures Sound() && NewCalls(old(log), log)
      ensures LastJobTermination(log) == LastJobTermination(old(log)) && LastProcessTermination(log) == LastProcessTermination(old(log))
      ensures processWaited && waits && process.Handle? ==> LastWait(log) == Some(true)
      ensures activeZero && job.Handle? && attached ==> EmptySinceTermination(log)
      ensures Troubles(log) >= Troubles(old(log)) && (ok <==> Troubles(log) == Troubles(old(log)))
      ensures ok && !timedOut ==> processWaited && activeZero
      ensures smooth ==> ok && !timedOut
    {
      ok, timedOut := true, false;
      processWaited, activeZero := waitedBefore, job.NoHandle? || !attached;
      var waitFailed, stop, polls: nat := false, false, *;
      polls := if smooth then polls + 1 else polls;
      while !stop && (process.Handle? || job.Handle?)
        invariant Sound() && NewCalls(old(log), log)
        invariant LastJobTermination(log) == LastJobTermination(old(log)) && LastProcessTermination(log) == LastProcessTermination(old(log))
        invariant processWaited && waits && process.Handle? ==> LastWait(log) == Some(true)
        invariant activeZero && job.Handle? && attached ==> stop && EmptySinceTermination(log)
        invariant job.NoHandle? || !attached ==> activeZero
        invariant process.NoHandle? || !waits ==> processWaited
        invariant Troubles(log) >= Troubles(old(log)) && (ok <==> Troubles(log) == Troubles(old(log))) && (waitFailed ==> !ok)
        invariant stop && ok && !timedOut ==> processWaited && activeZero
        invariant timedOut ==> stop
        invariant smooth ==> ok && !timedOut && (stop || 0 < polls)
        decreases !stop, polls
      {
        timedOut := DeadlinePassed(polls, smooth);
        if timedOut {
          stop := true;
          continue;
        }
        polls := polls - 1;
        var fault;
        processWaited, fault := WaitTurn(waits, smooth);
        ok, waitFailed := ok && !fault, waitFailed || fault;
        if job.NoHandle? || !attached {
          stop := processWaited || (waitFailed && stopOnFault);
          continue;
        }
        timedOut := DeadlinePassed(polls + 1, smooth);
        if timedOut {
          stop := true;
          continue;
        }
        activeZero, fault, stop := CountTurn(processWaited, waitFailed && stopOnFault, smooth);
        ok := ok && !fault;
      }
    }

    method Cleanup(attached: bool, alreadyLate: bool, terminateUnassigned: bool, smooth: bool) returns (ok: bool, timedOut: bool)
      requires Sound() && attached == inJob
      modifies this`log, this`job, this`process, this`borrowed
      ensures Sound() && old(log) <= log
      ensures (job == old(job) || job.NoHandle?) && (process == old(process) || process.NoHandle?)
      ensures ok ==> job.NoHandle? && process.NoHandle?
      ensures old(borrowed) ==> NewCalls(old(log), log)
      ensures alreadyLate ==> timedOut
      ensures Troubles(log) >= Troubles(old(log))
      ensures (ok ==> Troubles(log) == Troubles(old(log))) && (!ok ==> Troubles(log) > Troubles(old(log)) || timedOut)
      ensures smooth ==> ok && timedOut == alreadyLate
    {
      var waits := (!borrowed || attached) && (attached || terminateUnassigned);
      var waitedBefore := process.NoHandle? || (borrowed && !attached) || (!attached && !terminateUnassigned);
      var processTerminated, jobTerminated := Terminate(attached, terminateUnassigned, smooth);
      var awaited, processWaited, activeZero, late := Await(attached, waits, waitedBefore, true, smooth);
      var closed := CloseHandles(processTerminated && processWaited, jobTerminated && activeZero, !terminateUnassigned, smooth);
      ok := processTerminated && jobTerminated && awaited && closed;
      timedOut := alreadyLate || late;
    }

    /** The clock may pass the deadline at any reading and has passed it once no poll is left. */
    method DeadlinePassed(polls: nat, smooth: bool) returns (late: bool)
      ensures polls == 0 ==> late
      ensures smooth && 0 < polls ==> !late
    {
      late := *;
      late := (late && !smooth) || polls == 0;
    }

    /** Leaves the state after a failed assignment. */
    method FailAssignment(terminateUnassigned: bool, error: JobError, smooth: bool) returns (failure: JobError)
      requires Sound()
      modifies this
      ensures Valid() && old(log) <= log && inJob == old(inJob)
      ensures old(borrowed) ==> NewCalls(old(log), log)
      ensures (state.Closed? && failure == error) || (state.Broken? && failure == CleanupFailed)
      ensures smooth ==> state.Closed?
    {
      var ok, _ := Cleanup(inJob, true, terminateUnassigned, smooth);
      state := if ok then Closed else Broken;
      failure := if ok then error else CleanupFailed;
    }

    /** A process that is already in some Job is refused. */
    method RefuseNested(smooth: bool) returns (error: Option<JobError>)
      requires Sound()
      modifies this`log
      ensures Sound() && NewCalls(old(log), log)
      ensures error.None? ==> log == old(log) + [NestedChecked(false)]
      ensures error.Some? ==> log == old(log) || (log == old(log) + [NestedChecked(true)] && error == Some(NestedJob))
      ensures log == old(log) || (log != [] && !CountConfirms(log))
      ensures smooth ==> error.None?
    {
      var nested := Ask(if smooth then Some(No) else None);
      if nested.Fault? {
        return Some(nested.error);
      }
      Record(NestedChecked(nested.Yes?));
      error := if nested.Yes? then Some(NestedJob) else None;
    }

    method AskToAssign(smooth: bool) returns (error: Option<JobError>)
      requires Sound() && !inJob
      modifies this`inJob, this`log
      ensures Sound() && NewCalls(old(log), log)
      ensures error.None? ==> inJob && log == old(log) + [AssignAnswered(true)]
      ensures error.Some? ==> !inJob && (log == old(log) || (log == old(log) + [AssignAnswered(false)] && error == Some(AssignmentFailed)))
      ensures log == old(log) || !CountConfirms(log)
      ensures smooth ==> error.None?
    {
      var reply := Ask(if smooth then Some(Yes) else None);
      if reply.Fault? {
        return Some(reply.error);
      }
      Record(AssignAnswered(reply.Yes?));
      inJob := reply.Yes?;
      error := if inJob then None else Some(AssignmentFailed);
    }

    /** The process must be in the Job and the Job must not be empty. */
    method CheckMembership(smooth: bool) returns (error: Option<JobError>)
      requires Sound()
      modifies this`log
      ensures Sound() && NewCalls(old(log), log) && log != []
      ensures error.None? ==> CountConfirms(log) && log[..|log| - 1] == old(log) + [MemberChecked(true)]
      ensures error.Some? ==> !CountConfirms(log)
      ensures smooth ==> error.None?
    {
      var member := Ask(if smooth then Some(Yes) else None);
      Record(MemberChecked(member.Yes?));
      if !member.Yes? {
        return Some(if member.Fault? then member.error else AssignmentFailed);
      }
      var active := CountOnce(if smooth then Some(MIN_ACTIVE_PROCESSES) else None);
      if active.None? {
        return Some(InternalError);
      }
      error := if active.value < MIN_ACTIVE_PROCESSES then Some(AssignmentFailed) else None;
    }

    /** The checks around the assign call; membership and the count must confirm it. */
    method ConfirmAssignment(allowNested: bool, smooth: bool) returns (error: Option<JobError>)
      requires Sound() && !inJob
      modifies this`inJob, this`log
      ensures Sound() && NewCalls(old(log), log)
      ensures error.None? ==> inJob
      ensures error.None? ==> Confirmed(log, allowNested)
      ensures error.Some? ==> log == old(log) || !CountConfirms(log)
      ensures smooth ==> error.None?
    {
      if !allowNested {
        error := RefuseNested(smooth);
        if error.Some? {
          return;
        }
      }
      ghost var before := log;
      error := AskToAssign(smooth);
      if error.Some? {
        return;
      }
      ghost var asked := log;
      error := CheckMembership(smooth);
      if error.None? {
        ConfirmedBy(before, asked, log, allowNested);
      }
    }

    method AssignProcess(allowNested: bool, smooth: bool) returns (error: Option<JobError>)
      requires Valid()
      modifies this
      ensures Valid() && old(log) <= log
      ensures !old(state).Created? || old(job).NoHandle? ==> error == Some(InvalidState) && state == old(state) && log == old(log)
      ensures error.None? ==> old(state).Created? && state.Assigned? && inJob && process.Handle? && !borrowed && job == old(job)
      ensures error.None? ==> Confirmed(log, allowNested)
      ensures error.Some? && error != Some(InvalidState) ==> state.Closed? || state.Broken?
      ensures smooth && old(state).Created? && old(job).Handle? ==> error.None?
    {
      if !state.Created? || process.Handle? || job.NoHandle? {
        return Some(InvalidState);
      }
      var reply: Handle := *;
      reply := if smooth then Handle.Handle(1) else reply;
      var fault: bool := *;
      if fault && !smooth {
        var failure := FailAssignment(false, InternalError, smooth);
        return Some(failure);
      }
      process, ownsHandle := reply, reply.Handle?;
      if Falsy(process) {
        var failure := FailAssignment(false, HandleFailed, smooth);
        return Some(failure);
      }
      error := ConfirmAssignment(allowNested, smooth);
      if error.Some? {
        var failure := FailAssignment(false, error.value, smooth);
        return Some(failure);
      }
      state := Assigned;
    }

    /** A borrowed handle is used but never closed here, whatever happens. */
    method AssignBorrowedHandle(handle: Handle, allowNested: bool, smooth: bool) returns (error: Option<JobError>)
      requires Valid()
      modifies this
      ensures Valid() && NewCalls(old(log), log)
      ensures !old(state).Created? || old(job).NoHandle? ==> error == Some(InvalidState) && state == old(state) && log == old(log)
      ensures error.None? ==> old(state).Created? && state.Assigned? && inJob && process == handle && borrowed && job == old(job)
      ensures error.None? ==> Confirmed(log, allowNested)
      ensures error.Some? && error != Some(InvalidState) ==> state.Closed? || state.Broken? || (error == Some(HandleFailed) && state == old(state))
      ensures smooth && old(state).Created? && old(job).Handle? && !Falsy(handle) && handle != Handle.Handle(INVALID_HANDLE) ==> error.None?
    {
      if !state.Created? || process.Handle? || job.NoHandle? {
        return Some(InvalidState);
      }
      if Falsy(handle) || handle == Handle.Handle(INVALID_HANDLE) {
        return Some(HandleFailed);
      }
      process, borrowed := handle, true;
      error := ConfirmAssignment(allowNested, smooth);
      if error.Some? {
        var failure := FailAssignment(true, error.value, smooth);
        return Some(failure);
      }
      state := Assigned;
    }

    method Authorize() returns (error: Option<JobError>)
      requires Valid()
      modifies this`state
      ensures Valid() && state == (if old(state).Assigned? then Authorized else old(state))
      ensures error == if old(state).Assigned? then None else Some(InvalidState)
    {
      if !state.Assigned? {
        return Some(InvalidState);
      }
      state := Authorized;
      error := None;
    }

    /** A close either releases everything or stays retryable; an invalid timeout still cleans up. */
    method Close(validTimeout: bool, smooth: bool) returns (error: Option<JobError>)
      requires Valid()
      modifies this
      ensures Valid() && old(log) <= log
      ensures old(state).Closed? ==> error.None? && state.Closed? && log == old(log)
      ensures state.Closed? || state.Broken?
      ensures error.None? ==> state.Closed?
      ensures state.Broken? ==> error.Some?
      ensures error == Some(CleanupFailed) ==> Troubles(log) > Troubles(old(log))
      ensures Troubles(log) > Troubles(old(log)) ==> state.Broken?
      ensures smooth ==> state.Closed? && (validTimeout ==> error.None?)
      ensures !validTimeout && !old(state).Closed? ==> error == Some(Timeout)
      ensures old(borrowed) ==> NewCalls(old(log), log)
    {
      if state.Closed? {
        return None;
      }
      var ok, timedOut := Cleanup(inJob, !validTimeout, true, smooth);
      state := if ok then Closed else Broken;
      error := if timedOut then Some(Timeout) else if !ok then Some(CleanupFailed) else None;
    }

    /** Closing against the caller's own deadline: a late close is never reported as closed. */
    method CloseWithDeadline(late: bool, smooth: bool) returns (error: Option<JobError>)
      requires Valid()
      modifies this
      ensures Valid() && old(log) <= log
      ensures old(state).Closed? ==> error.None? && state.Closed? && log == old(log)
      ensures !old(state).Closed? && late ==> error == Some(Timeout) && state == old(state) && log == old(log)
      ensures error.None? <==> state.Closed?
      ensures error == Some(CleanupFailed) ==> Troubles(log) > Troubles(old(log))
      ensures Troubles(log) > Troubles(old(log)) ==> state.Broken?
      ensures smooth && !late ==> state.Closed?
      ensures !late && state != Closed ==> state.Broken?
      ensures old(borrowed) ==> NewCalls(old(log), log)
    {
      if state.Closed? {
        return None;
      }
      if late {
        return Some(Timeout);
      }
      var waitedBefore := process.NoHandle? || (borrowed && !inJob);
      var processTerminated, jobTerminated := Terminate(inJob, true, smooth);
      var awaited, processWaited, activeZero, timedOut := Await(inJob, !borrowed || inJob, waitedBefore, false, smooth);
      var closed := CloseHandles(processTerminated && processWaited, jobTerminated && activeZero, false, smooth);
      var ok := processTerminated && jobTerminated && awaited;
      if timedOut || !(ok && closed) {
        state := Broken;
        return Some(if timedOut then Timeout else CleanupFailed);
      }
      state := Closed;
      error := None;
    }
  }

  /** `after` extends `before` without any attempt to close a process handle. */
  predicate NewCalls(before: seq<Call>, after: seq<Call>) {
    before <= after && forall i | |before| <= i < |after| :: !after[i].CloseProcess?
  }
}
