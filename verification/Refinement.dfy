/**
 Pairs of descriptors, Job boundaries, process owners and Job-first helpers do what the supervisor's books expect of an owner: a
 close attempt settles some of what the owner holds, touches nothing else, and reports success only
 when all of it is settled.
 */
module Refinement {
  import opened Wrappers
  import P = ProcessResources
  import R = ResourceCore
  import S = Supervisor
  import W = WindowsJob

  // ---------- a pair of descriptors ----------

  /** A terminal end is settled, but indeterminate. */
  function EndStatus(e: R.EndpointView): S.Status {
    match e.state
    case EndpointClosed => S.Closed
    case EndpointTerminal => S.Indeterminate
    case _ => S.Open
  }

  /** The books show the ends of a pair as resources `w` and `r`. */
  predicate Shows(status: S.Statuses, p: R.PairView, w: nat, r: nat) {
    w != r && w in status && r in status && status[w] == EndStatus(p.write) && status[r] == EndStatus(p.read)
  }

  function Recorded(status: S.Statuses, p: R.PairView, w: nat, r: nat): S.Statuses {
    status[w := EndStatus(p.write)][r := EndStatus(p.read)]
  }

  function PairOwner(w: nat, r: nat): S.Owner { S.Owner(S.PairOwner, [w, r]) }

  lemma SettledEndStays(e: R.EndpointView, l: R.Ledger, answer: R.CloserAnswer)
    requires R.EndpointOk(e) && R.LedgerOk(l)
    ensures !EndStatus(e).Open? ==> R.CloseUnlessTerminal(e, l, answer).0 == e
  {
    if !e.state.EndpointTerminal? {
      R.CloseEndpointMeaning(e, l, answer);
    }
  }

  /** A close attempt on a pair is an attempt of its owner, and an end that is still open afterwards
      still has its current descriptor. */
  lemma PairAttempt(p: R.PairView, l: R.Ledger, owner: nat, wa: R.CloserAnswer, ra: R.CloserAnswer, status: S.Statuses, w: nat, r: nat)
    requires R.PairOk(p) && R.LedgerOk(l) && R.DistinctEnds(p) && p.owner == Some(owner) && Shows(status, p, w, r)
    ensures var (p', l', failure) := R.ClosePair(p, l, owner, wa, ra);
      var after := Recorded(status, p', w, r);
      && S.Attempt(PairOwner(w, r), status, after, failure.None?) && Shows(after, p', w, r)
      && (after[w].Open? ==> p'.write.identity.Some? && R.IsCurrent(l', p'.write.identity.value))
      && (after[r].Open? ==> p'.read.identity.Some? && R.IsCurrent(l', p'.read.identity.value))
  {
    R.ClosePairMeaning(p, l, owner, wa, ra);
    R.EndMeaning(p.write, l, wa);
    SettledEndStays(p.write, l, wa);
    SettledEndStays(p.read, R.CloseUnlessTerminal(p.write, l, wa).1, ra);
    assert w in multiset([w, r]) && r in multiset([w, r]);
  }

  /** Whatever the closers of a pair answer, the books still add up: with the pair's owner, or, once
      the pair reports success, without it. */
  lemma PairKeepsBooks(p: R.PairView, l: R.Ledger, owner: nat, wa: R.CloserAnswer, ra: R.CloserAnswer,
    a: seq<S.Owner>, b: seq<S.Owner>, status: S.Statuses, w: nat, r: nat)
    requires R.PairOk(p) && R.LedgerOk(l) && R.DistinctEnds(p) && p.owner == Some(owner) && Shows(status, p, w, r)
    requires S.OwnersOk(a + [PairOwner(w, r)] + b, status)
    ensures var (p', l', failure) := R.ClosePair(p, l, owner, wa, ra);
      var after := Recorded(status, p', w, r);
      && S.OwnersOk(a + [PairOwner(w, r)] + b, after)
      && (failure.None? ==> S.OwnersOk(a + b, after))
  {
    PairAttempt(p, l, owner, wa, ra, status, w, r);
    S.ClosingKeeps(a, PairOwner(w, r), b, status, Recorded(status, R.ClosePair(p, l, owner, wa, ra).0, w, r));
  }

  // ---------- a Job ----------

  /** A broken boundary still has something to release. */
  function JobStatus(state: W.JobState): S.Status { if state.Closed? then S.Closed else S.Open }

  /** A close attempt on a Job boundary is an attempt of its owner, and the books still add up. */
  method CloseJob(boundary: W.WindowsJobBoundary, validTimeout: bool, smooth: bool,
      ghost a: seq<S.Owner>, ghost b: seq<S.Owner>, ghost status: S.Statuses, ghost job: nat)
    returns (error: Option<W.JobError>, ghost after: S.Statuses)
    requires boundary.Valid() && job in status && status[job] == JobStatus(boundary.state)
    requires S.OwnersOk(a + [S.Owner(S.JobOwner, [job])] + b, status)
    modifies boundary
    ensures boundary.Valid() && after == status[job := JobStatus(boundary.state)]
    ensures S.Attempt(S.Owner(S.JobOwner, [job]), status, after, error.None?)
    ensures S.OwnersOk(a + [S.Owner(S.JobOwner, [job])] + b, after)
    ensures error.None? ==> S.OwnersOk(a + b, after)
  {
    error := boundary.Close(validTimeout, smooth);
    after := status[job := JobStatus(boundary.state)];
    assert job in multiset([job]);
    S.ClosingKeeps(a, S.Owner(S.JobOwner, [job]), b, status, after);
  }

  // ---------- a process, alone and behind its Job ----------

  function ProcessStatus(state: P.PopenState): S.Status { if state.PopenClosed? then S.Closed else S.Open }

  /** The same for the owner of a process. */
  method CloseProcess(popen: P.PopenProcessOwner, validTimeout: bool, smooth: bool,
      ghost a: seq<S.Owner>, ghost b: seq<S.Owner>, ghost status: S.Statuses, ghost process: nat)
    returns (error: Option<P.ResourceError>, ghost after: S.Statuses)
    requires popen.Valid() && process in status && status[process] == ProcessStatus(popen.state)
    requires S.OwnersOk(a + [S.Owner(S.ProcessOwner, [process])] + b, status)
    modifies popen
    ensures popen.Valid() && after == status[process := ProcessStatus(popen.state)]
    ensures S.Attempt(S.Owner(S.ProcessOwner, [process]), status, after, error.None?)
    ensures S.OwnersOk(a + [S.Owner(S.ProcessOwner, [process])] + b, after)
    ensures error.None? ==> S.OwnersOk(a + b, after)
  {
    error := popen.Close(validTimeout, smooth);
    after := status[process := ProcessStatus(popen.state)];
    assert process in multiset([process]);
    S.ClosingKeeps(a, S.Owner(S.ProcessOwner, [process]), b, status, after);
  }

  function HelperOwner(job: nat, process: nat): S.Owner { S.Owner(S.HelperOwner, [job, process]) }

  /** The same for a helper with its Job: the books see the process close only once the Job is closed. */
  method CloseHelper(helper: P.HelperProcessResources, validTimeout: bool, smooth: bool,
      ghost a: seq<S.Owner>, ghost b: seq<S.Owner>, ghost status: S.Statuses, ghost job: nat, ghost process: nat)
    returns (error: Option<P.ResourceError>, ghost after: S.Statuses)
    requires helper.Valid() && helper.job != null && job != process && job in status && process in status
    requires status[job] == JobStatus(helper.job.state) && status[process] == ProcessStatus(helper.popen.state)
    requires S.OwnersOk(a + [HelperOwner(job, process)] + b, status)
    modifies helper, helper.popen, helper.job
    ensures helper.Valid() && helper.job == old(helper.job)
    ensures after == status[job := JobStatus(helper.job.state)][process := ProcessStatus(helper.popen.state)]
    ensures S.Attempt(HelperOwner(job, process), status, after, error.None?)
    ensures S.OwnersOk(a + [HelperOwner(job, process)] + b, after)
    ensures error.None? ==> S.OwnersOk(a + b, after)
  {
    ghost var o := HelperOwner(job, process);
    assert S.JobFirst((a + [o] + b)[|a|], status);
    error := helper.Close(validTimeout, smooth);
    after := status[job := JobStatus(helper.job.state)][process := ProcessStatus(helper.popen.state)];
    assert job in multiset([job, process]) && process in multiset([job, process]);
    S.ClosingKeeps(a, o, b, status, after);
  }
}
