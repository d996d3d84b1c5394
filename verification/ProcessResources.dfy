/**
 The owner of a helper process and the aggregate of that owner with a Job, which closes the Job
 first.  Every call on the process may raise, and the process may end at any time.
 */
module ProcessResources {
  import opened Wrappers
  import W = WindowsJob

  datatype PopenState = Registered | Adapted | PopenClosing | PopenBroken | PopenClosed

  datatype HelperState = HelperOpen | Attached | HelperClosing | HelperBroken | HelperClosed

  datatype ResourceError = OwnershipError | CleanupError | TimeoutError | AssignmentError | AdaptationError

  class PopenProcessOwner {
    var state: PopenState
    /** Whether the native handle is known to this owner. */
    var adapted: bool
    /** What holds of the process: whether it still runs, and whether its handle was released. */
    var running: bool
    var released: bool

    /** A closed owner's process has ended; its handle, once known, is released only after that. */
    predicate Valid()
      reads this
    {
      && !state.PopenClosing?
      && (state.Registered? ==> !adapted) && (state.Adapted? ==> adapted)
      && (released ==> adapted && !running)
      && (state.PopenClosed? ==> !running && (adapted ==> released))
    }

    constructor ()
      ensures Valid() && state.Registered? && running
    {
      state, adapted, running, released := Registered, false, true, false;
    }

    /** The handle may be missing or invalid. */
    method AdaptNativeHandle(handle: W.Handle) returns (r: Result<W.Handle, ResourceError>)
      requires Valid() && handle != W.NoHandle
      modifies this`state, this`adapted
      ensures Valid()
      ensures r.Ok? <==> old(state).Adapted? || (old(state).Registered? && handle != W.Handle.Handle(W.INVALID_HANDLE))
      ensures r.Ok? ==> state.Adapted? && r.value == handle
      ensures r.Err? ==> state == old(state) && adapted == old(adapted)
    {
      if state.Adapted? {
        return Ok(handle);
      }
      if !state.Registered? {
        return Err(OwnershipError);
      }
      if handle == W.Handle.Handle(W.INVALID_HANDLE) {
        return Err(AdaptationError);
      }
      state, adapted := Adapted, true;
      r := Ok(handle);
    }

    /** The process may have ended by now. */
    method Elapse()
      modifies this`running
      ensures running ==> old(running)
    {
      var ended: bool := *;
      running := running && !ended;
    }

    /** A poll that reports the process as ended is right. */
    method Poll(smooth: bool) returns (ended: bool, ok: bool)
      modifies this`running
      ensures (running ==> old(running)) && (ended ==> !running) && (smooth ==> ok)
    {
      Elapse();
      ok := *;
      ok, ended := ok || smooth, !running;
    }

    /** Terminate and wait; only a wait that returns says that the process has ended. */
    method Finish(smooth: bool) returns (ok: bool)
      modifies this`running
      ensures (running ==> old(running)) && (ok ==> !running) && (smooth ==> ok)
    {
      var terminated: bool := *;
      if !terminated && !smooth {
        return false;
      }
      Elapse();
      var waited: bool := *;
      if smooth || waited {
        running := false;
        return true;
      }
      ok := false;
    }

    method ReleaseHandle(smooth: bool) returns (ok: bool)
      requires !running
      modifies this`released
      ensures ok ==> adapted ==> released
      ensures released ==> old(released) || adapted
      ensures old(released) ==> released
      ensures smooth ==> ok
    {
      if !adapted {
        return true;
      }
      ok := *;
      ok := ok || smooth;
      released := released || ok;
    }

    /** A close ends closed, with the process ended and its handle released, or stays retryable; an
        invalid timeout still closes. */
    method Close(validTimeout: bool, smooth: bool) returns (error: Option<ResourceError>)
      requires Valid()
      modifies this
      ensures Valid() && adapted == old(adapted)
      ensures old(state).PopenClosed? ==> error.None? && state.PopenClosed?
      ensures state.PopenClosed? || state.PopenBroken?
      ensures state.PopenBroken? ==> error == Some(CleanupError)
      ensures state.PopenClosed? && !old(state).PopenClosed? ==> error == if validTimeout then None else Some(TimeoutError)
      ensures (running ==> old(running)) && (old(released) ==> released)
      ensures smooth ==> state.PopenClosed?
    {
      if state.PopenClosed? {
        return None;
      }
      state := PopenClosing;
      var ended, ok := Poll(smooth);
      if ok && !ended {
        ok := Finish(smooth);
      }
      if ok {
        ok := ReleaseHandle(smooth);
      }
      if !ok {
        state := PopenBroken;
        return Some(CleanupError);
      }
      state := PopenClosed;
      error := if validTimeout then None else Some(TimeoutError);
    }
  }

  /** Closes its Job first and keeps both owners while that is pending. */
  class HelperProcessResources {
    const popen: PopenProcessOwner
    var job: W.WindowsJobBoundary?
    var state: HelperState
    var jobClosed: bool

    ghost predicate Valid()
      reads this, popen, job
    {
      && popen.Valid() && !state.HelperClosing?
      && (job != null ==> job.Valid())
      && (jobClosed ==> job != null && job.state.Closed?)
      && (state.HelperOpen? ==> job == null) && (state.Attached? ==> job != null)
      && (state.HelperClosed? ==> popen.state.PopenClosed? && (job != null ==> job.state.Closed?))
    }

    constructor (popen: PopenProcessOwner)
      requires popen.Valid() && !popen.state.PopenClosed?
      ensures Valid() && this.popen == popen && state.HelperOpen? && job == null && !jobClosed
    {
      this.popen := popen;
      job, state, jobClosed := null, HelperOpen, false;
    }

    /** The Job belongs to the helper from here on, whether assigning the process to it works or not. */
    method AttachJob(boundary: W.WindowsJobBoundary, handle: W.Handle, allowNested: bool, smooth: bool) returns (error: Option<ResourceError>)
      requires Valid() && boundary.Valid()
      modifies this, boundary
      ensures Valid()
      ensures error == Some(OwnershipError) <==> !(old(state).HelperOpen? && popen.state.Adapted?)
      ensures error == Some(OwnershipError) ==> state == old(state) && job == old(job)
      ensures error != Some(OwnershipError) ==> job == boundary
      ensures error.None? ==> state.Attached? && boundary.state.Assigned? && boundary.borrowed
      ensures error.Some? && error != Some(OwnershipError) ==> error == Some(AssignmentError) && state.HelperBroken?
    {
      if !state.HelperOpen? || job != null || !popen.state.Adapted? {
        return Some(OwnershipError);
      }
      job := boundary;
      var failure := boundary.AssignBorrowedHandle(handle, allowNested, smooth);
      if failure.Some? {
        state := HelperBroken;
        return Some(AssignmentError);
      }
      state := Attached;
      error := None;
    }

    /** The process is left alone until the Job is closed.  No error means that the
        Job is closed and the process has ended; one attempt suffices once calls stop failing. */
    method Close(validTimeout: bool, smooth: bool) returns (error: Option<ResourceError>)
      requires Valid()
      modifies this, popen, job
      ensures Valid() && job == old(job)
      ensures state.HelperClosed? || state.HelperBroken?
      ensures error.None? ==> state.HelperClosed?
      ensures old(state).HelperClosed? ==> error.None? && popen.state == old(popen.state)
      ensures job != null && !job.state.Closed? ==> error.Some? && popen.state == old(popen.state) && popen.released == old(popen.released)
      ensures old(job) != null && old(job.state).Closed? ==> job.state.Closed?
      ensures old(popen.state).PopenClosed? ==> popen.state.PopenClosed?
      ensures !validTimeout && old(job) != null && !old(job.state).Closed? && !old(state).HelperClosed? && !old(jobClosed) ==> error == Some(TimeoutError)
      ensures old(state).HelperClosed? || jobClosed || job == null || (error.Some? && state.HelperBroken?)
      ensures smooth && validTimeout ==> error.None?
    {
      if state.HelperClosed? {
        return None;
      }
      state := HelperClosing;
      if job != null && !jobClosed {
        var failure := job.Close(validTimeout, smooth);
        if failure.Some? {
          state := HelperBroken;
          return Some(if failure.value.Timeout? then TimeoutError else CleanupError);
        }
        jobClosed := true;
      }
      error := popen.Close(validTimeout, smooth);
      if error.Some? {
        state := if popen.state.PopenClosed? then HelperClosed else HelperBroken;
      } else {
        state := HelperClosed;
      }
    }
  }
}
