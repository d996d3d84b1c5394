/**
 Acquisition and closing of a helper process: two pipes, a child process and a Job, created
 one after the other, any step of which may fail, and each cleanup of which may fail as well.
 Resources are numbered as they are created; an owner is whatever object the source keeps
 with a `close` that is responsible for some of them.
 */
module Supervisor {
  import opened Wrappers

  /** `Indeterminate` is a descriptor whose closer raised: it is never closed again. */
  datatype Status = Open | Closed | Indeterminate

  datatype Kind = PairOwner | ProcessOwner | JobOwner | HelperOwner | FdCleanupOwner | HandleResetOwner

  /** Members are listed in closing order: write end before read end, Job before process. */
  datatype Owner = Owner(kind: Kind, members: seq<nat>)

  datatype Phase = Idle | Prepared | Acquired | Broken | Finished

  datatype AcquireResult = AcquireOk | AcquireRefused | AcquireFailed | AcquireInterrupted

  type Statuses = map<nat, Status>

  // ---------- who holds what ----------

  /** How many of the owners hold each resource. */
  function Held(owners: seq<Owner>): multiset<nat> {
    if owners == [] then multiset{} else multiset(owners[0].members) + Held(owners[1..])
  }

  lemma {:induction false} HeldConcat(a: seq<Owner>, b: seq<Owner>)
    ensures Held(a + b) == Held(a) + Held(b)
  {
    if a == [] {
      assert a + b == b;
    } else {
      assert (a + b)[1..] == a[1..] + b;
      HeldConcat(a[1..], b);
    }
  }

  lemma HeldOne(o: Owner)
    ensures Held([o]) == multiset(o.members)
  {
    assert [o][1..] == [];
  }

  /** A Job-first owner touches its process only once its Job is closed. */
  predicate JobFirst(o: Owner, status: Statuses) {
    o.kind.HelperOwner? ==> (
      && |o.members| == 2 && o.members[0] in status && o.members[1] in status
      && !status[o.members[0]].Indeterminate?
      && (status[o.members[1]].Open? || status[o.members[0]].Closed?))
  }

  /** Every resource is held at most once, and every open one exactly once. */
  ghost predicate Conserved(held: multiset<nat>, status: Statuses) {
    && (forall id | id in held :: id in status && held[id] == 1)
    && (forall id | id in status && status[id].Open? :: id in held)
  }

  ghost predicate OwnersOk(owners: seq<Owner>, status: Statuses) {
    && Conserved(Held(owners), status)
    && forall i | 0 <= i < |owners| :: JobFirst(owners[i], status)
  }

  /** Only `touched` resources change, and only from open to settled. */
  ghost predicate OnlySettles(before: Statuses, after: Statuses, touched: multiset<nat>) {
    && before.Keys == after.Keys
    && forall id | id in before :: after[id] == before[id] || (before[id].Open? && id in touched)
  }

  predicate SettledOwner(o: Owner, status: Statuses) {
    forall i | 0 <= i < |o.members| :: o.members[i] in status && !status[o.members[i]].Open?
  }

  /** What any attempt to close an owner may do. */
  ghost predicate Attempt(o: Owner, before: Statuses, after: Statuses, ok: bool) {
    && OnlySettles(before, after, multiset(o.members)) && JobFirst(o, after)
    && (ok ==> SettledOwner(o, after))
  }

  predicate LivePair(o: Owner, status: Statuses) {
    o.kind.PairOwner? && |o.members| == 2 && forall i | 0 <= i < |o.members| :: o.members[i] in status && status[o.members[i]].Open?
  }

  predicate LiveChild(o: Owner, status: Statuses) {
    o.kind.ProcessOwner? && |o.members| == 1 && o.members[0] in status && status[o.members[0]].Open?
  }

  predicate LiveHelper(o: Owner, status: Statuses) {
    o.kind.HelperOwner? && |o.members| == 2 && forall i | 0 <= i < |o.members| :: o.members[i] in status && status[o.members[i]].Open?
  }

  /** What the parent holds of its two pipes: the write end of the gate and the read end of the data
      pipe.  Its copies of the ends the child uses are closed. */
  predicate ParentEnds(gate: Owner, data: Owner, status: Statuses) {
    && gate.kind.PairOwner? && data.kind.PairOwner? && |gate.members| == 2 && |data.members| == 2
    && gate.members[0] in status && gate.members[1] in status && data.members[0] in status && data.members[1] in status
    && status[gate.members[0]].Open? && status[gate.members[1]].Closed?
    && status[data.members[0]].Closed? && status[data.members[1]].Open?
  }

  /** The first `n` owners were each tried once; `ok` says all went well, `now` that a terminal end
      was seen, then or before. */
  ghost predicate Tried(owners: seq<Owner>, n: nat, ok: bool, was: bool, now: bool, status: Statuses) {
    && n <= |owners|
    && (ok ==> forall i | 0 <= i < n :: SettledOwner(owners[i], status))
    && (now <==> was || exists i | 0 <= i < n :: HasTerminalEnd(owners[i], status))
  }

  lemma TriedStep(owners: seq<Owner>, n: nat, ok: bool, was: bool, now: bool, before: Statuses, after: Statuses, fine: bool)
    requires Tried(owners, n, ok, was, now, before) && n < |owners|
    requires forall i | 0 <= i < |owners| && i != n :: SameOwner(owners[i], before, after)
    requires fine ==> SettledOwner(owners[n], after)
    ensures Tried(owners, n + 1, ok && fine, was, now || HasTerminalEnd(owners[n], after), after)
  {
    forall i | 0 <= i < n
      ensures HasTerminalEnd(owners[i], after) <==> HasTerminalEnd(owners[i], before)
      ensures SettledOwner(owners[i], after) <==> SettledOwner(owners[i], before)
    {
      assert SameOwner(owners[i], before, after);
    }
  }

  predicate NothingOpen(status: Statuses) {
    forall id | id in status :: !status[id].Open?
  }

  predicate SameOwner(o: Owner, before: Statuses, after: Statuses) {
    forall i | 0 <= i < |o.members| :: o.members[i] in before && o.members[i] in after && after[o.members[i]] == before[o.members[i]]
  }

  predicate HasTerminalEnd(o: Owner, status: Statuses) {
    o.kind.PairOwner? && exists i :: 0 <= i < |o.members| && o.members[i] in status && status[o.members[i]].Indeterminate?
  }

  /** No resource disappears, and none that was settled changes again. */
  ghost predicate NeverRevived(before: Statuses, after: Statuses) {
    forall id | id in before :: id in after && (after[id] == before[id] || before[id].Open?)
  }

  /** The owners whose closing failed, in their original order. */
  function Failed(entries: seq<Owner>, failures: seq<bool>): seq<Owner>
    requires |entries| == |failures|
  {
    if entries == [] then []
    else (if failures[0] then [entries[0]] else []) + Failed(entries[1..], failures[1..])
  }

  /** The entries from `i` on were each tried once: `left` are the failures, the rest is settled. */
  ghost predicate Undone(entries: seq<Owner>, i: nat, failures: seq<bool>, left: seq<Owner>, status: Statuses) {
    && i + |failures| == |entries|
    && left == Failed(entries[i..], failures)
    && forall k | 0 <= k < |failures| && !failures[k] :: SettledOwner(entries[i + k], status)
  }

  lemma UndoneStep(entries: seq<Owner>, i: nat, failures: seq<bool>, left: seq<Owner>, before: Statuses, after: Statuses, ok: bool)
    requires Undone(entries, i + 1, failures, left, before) && NeverRevived(before, after)
    requires ok ==> SettledOwner(entries[i], after)
    ensures Undone(entries, i, [!ok] + failures, if ok then left else [entries[i]] + left, after)
  {
    assert entries[i..][1..] == entries[i + 1..];
    var all := [!ok] + failures;
    assert all[1..] == failures;
    forall k | 0 <= k < |all| && !all[k]
      ensures SettledOwner(entries[i + k], after)
    {
      if k > 0 {
        assert SettledOwner(entries[i + 1 + (k - 1)], before);
      }
    }
  }

  // ---------- keeping the books ----------

  lemma HeldMiddle(a: seq<Owner>, o: Owner, b: seq<Owner>)
    ensures Held(a + [o] + b) == Held(a) + multiset(o.members) + Held(b)
  {
    HeldConcat(a + [o], b);
    HeldConcat(a, [o]);
    HeldOne(o);
  }

  lemma {:induction false} HeldAt(owners: seq<Owner>, i: nat)
    requires i < |owners|
    ensures multiset(owners[i].members) <= Held(owners)
  {
    assert owners == owners[..i] + [owners[i]] + owners[i + 1..];
    HeldMiddle(owners[..i], owners[i], owners[i + 1..]);
  }

  /** An owner of a conserved collection has distinct, known members. */
  lemma MembersDistinct(owners: seq<Owner>, status: Statuses, i: nat)
    requires Conserved(Held(owners), status) && i < |owners|
    ensures forall k | 0 <= k < |owners[i].members| :: owners[i].members[k] in status
    ensures forall j, k | 0 <= j < k < |owners[i].members| :: owners[i].members[j] != owners[i].members[k]
  {
    HeldAt(owners, i);
    var m := owners[i].members;
    forall k | 0 <= k < |m|
      ensures m[k] in status
    {
      assert m[k] in multiset(m);
    }
    forall j, k | 0 <= j < k < |m|
      ensures m[j] != m[k]
    {
      TwiceCountsTwo(m, j, k);
      assert m[j] in multiset(m);
    }
  }

  lemma TwiceCountsTwo(m: seq<nat>, j: nat, k: nat)
    requires j < k < |m|
    ensures m[j] == m[k] ==> multiset(m)[m[j]] >= 2
  {
    assert m == m[..k] + m[k..];
    assert m[j] in m[..k] && m[k] in m[k..];
  }

  /** Two owners of a conserved collection share no member. */
  lemma MembersDisjoint(a: seq<Owner>, o: Owner, b: seq<Owner>, status: Statuses, other: Owner)
    requires Conserved(Held(a + [o] + b), status) && (other in a || other in b)
    ensures forall k | 0 <= k < |other.members| :: other.members[k] !in multiset(o.members)
  {
    HeldMiddle(a, o, b);
    var rest := if other in a then a else b;
    var i :| 0 <= i < |rest| && rest[i] == other;
    HeldAt(rest, i);
    forall k | 0 <= k < |other.members|
      ensures other.members[k] !in multiset(o.members)
    {
      assert other.members[k] in multiset(other.members);
      assert other.members[k] in Held(a + [o] + b);
    }
  }

  /** Settling some resources keeps the books as long as every Job-first owner stays in order. */
  lemma SettlingKeeps(owners: seq<Owner>, before: Statuses, after: Statuses, touched: multiset<nat>)
    requires OwnersOk(owners, before) && OnlySettles(before, after, touched)
    requires forall i | 0 <= i < |owners| :: JobFirst(owners[i], after)
    ensures OwnersOk(owners, after)
  {
  }

  /** After one owner was closed the collection still adds up, with it or, once it is settled,
      without it. */
  lemma ClosingKeeps(a: seq<Owner>, o: Owner, b: seq<Owner>, before: Statuses, after: Statuses)
    requires OwnersOk(a + [o] + b, before)
    requires OnlySettles(before, after, multiset(o.members)) && JobFirst(o, after)
    ensures OwnersOk(a + [o] + b, after)
    ensures SettledOwner(o, after) ==> OwnersOk(a + b, after)
  {
    var all := a + [o] + b;
    forall i | 0 <= i < |all|
      ensures JobFirst(all[i], after)
    {
      assert JobFirst(all[i], before);
      if i != |a| {
        MembersDisjoint(a, o, b, before, all[i]);
      }
    }
    SettlingKeeps(all, before, after, multiset(o.members));
    if SettledOwner(o, after) {
      Dropping(a, o, b, after);
    }
  }

  lemma Dropping(a: seq<Owner>, o: Owner, b: seq<Owner>, status: Statuses)
    requires OwnersOk(a + [o] + b, status) && SettledOwner(o, status)
    ensures OwnersOk(a + b, status)
  {
    HeldMiddle(a, o, b);
    HeldConcat(a, b);
    var all := a + [o] + b;
    forall i | 0 <= i < |a + b|
      ensures JobFirst((a + b)[i], status)
    {
      assert (a + b)[i] == all[if i < |a| then i else i + 1];
    }
    forall id | id in status && status[id].Open?
      ensures id in Held(a + b)
    {
      assert id in Held(all);
    }
  }

  /** `after` has `added` as its new, open resources and is otherwise as `before`. */
  ghost predicate Grown(before: Statuses, after: Statuses, added: seq<nat>) {
    && (forall id | id in before :: id in after && after[id] == before[id])
    && (forall i | 0 <= i < |added| :: added[i] !in before && added[i] in after && after[added[i]].Open?)
    && (forall id | id in after :: id in before || id in added)
    && (forall i, j | 0 <= i < j < |added| :: added[i] != added[j])
  }

  /** Fresh resources handed to a new owner at the end of the list. */
  lemma AddingKeeps(owners: seq<Owner>, o: Owner, before: Statuses, after: Statuses)
    requires OwnersOk(owners, before) && !o.kind.HelperOwner? && Grown(before, after, o.members)
    ensures OwnersOk(owners + [o], after)
  {
    HeldConcat(owners, [o]);
    HeldOne(o);
    DistinctCounts(o.members);
    forall i | 0 <= i < |owners + [o]|
      ensures JobFirst((owners + [o])[i], after)
    {
      if i < |owners| {
        assert JobFirst(owners[i], before);
      }
    }
  }

  /** One owner may take over what two held. */
  lemma MergingKeeps(a: Owner, b: Owner, status: Statuses)
    requires OwnersOk([a, b], status)
    ensures OwnersOk([Owner(FdCleanupOwner, b.members + a.members)], status)
  {
    var merged := Owner(FdCleanupOwner, b.members + a.members);
    assert Held([a, b]) == Held([merged]) by {
      HeldOfTwo(a, b);
      HeldOne(merged);
    }
  }

  lemma HeldOfTwo(a: Owner, b: Owner)
    ensures Held([a, b]) == multiset(b.members + a.members)
  {
    assert [a, b] == [a] + [b];
    HeldConcat([a], [b]);
    HeldOne(a);
    HeldOne(b);
  }

  /** The last two owners, of a process and of an open Job, become one Job-first owner. */
  lemma JoiningKeeps(others: seq<Owner>, child: Owner, job: Owner, status: Statuses)
    requires OwnersOk(others + [child, job], status) && |child.members| == 1 && |job.members| == 1
    requires job.members[0] in status && status[job.members[0]].Open?
    requires child.members[0] in status && (status[child.members[0]].Open?)
    ensures OwnersOk(others + [Owner(HelperOwner, job.members + child.members)], status)
  {
    var joined := Owner(HelperOwner, job.members + child.members);
    assert [child, job] == [child] + [job];
    HeldConcat(others, [child, job]);
    HeldConcat([child], [job]);
    HeldConcat(others, [joined]);
    HeldOne(child);
    HeldOne(job);
    HeldOne(joined);
    forall i | 0 <= i < |others + [joined]|
      ensures JobFirst((others + [joined])[i], status)
    {
      if i < |others| {
        assert JobFirst((others + [child, job])[i], status);
      }
    }
  }

  lemma HeldThree(a: Owner, b: Owner, c: Owner)
    ensures Held([a, b, c]) == multiset(a.members) + multiset(b.members) + multiset(c.members)
  {
    assert [a, b, c] == [a] + [b] + [c];
    HeldMiddle([a], b, [c]);
    HeldOne(a);
    HeldOne(c);
  }

  lemma Reversing(a: Owner, b: Owner, c: Owner, status: Statuses)
    requires OwnersOk([a, b, c], status)
    ensures OwnersOk([c, b, a], status)
  {
    HeldThree(a, b, c);
    HeldThree(c, b, a);
    var owners := [a, b, c];
    assert JobFirst(owners[0], status) && JobFirst(owners[1], status) && JobFirst(owners[2], status);
  }

  lemma EmptyMeansNothingOpen(status: Statuses)
    requires OwnersOk([], status)
    ensures NothingOpen(status)
  {
    forall id | id in status
      ensures !status[id].Open?
    {
      assert id !in Held([]);
    }
  }

  lemma {:induction false} AllSettledMeansNothingOpen(owners: seq<Owner>, status: Statuses)
    requires OwnersOk(owners, status)
    requires forall i | 0 <= i < |owners| :: SettledOwner(owners[i], status)
    ensures NothingOpen(status)
  {
    if owners == [] {
      EmptyMeansNothingOpen(status);
    } else {
      assert owners == [] + [owners[0]] + owners[1..];
      Dropping([], owners[0], owners[1..], status);
      assert [] + owners[1..] == owners[1..];
      AllSettledMeansNothingOpen(owners[1..], status);
    }
  }

  lemma NothingOpenMeansEmpty(status: Statuses)
    requires NothingOpen(status)
    ensures OwnersOk([], status)
  {
  }

  lemma {:induction false} DistinctCounts(m: seq<nat>)
    requires forall i, j | 0 <= i < j < |m| :: m[i] != m[j]
    ensures forall id | id in m :: multiset(m)[id] == 1
  {
    if m != [] {
      var rest := m[..|m| - 1];
      assert m == rest + [m[|m| - 1]];
      DistinctCounts(rest);
      assert m[|m| - 1] !in rest;
    }
  }

  // ---------- the supervisor ----------

  class CodexSupervisor {
    /** Every resource this supervisor ever created. */
    var status: map<nat, Status>
    var next: nat
    var phase: Phase
    var pending: Option<seq<Owner>>
    var prepared: Option<seq<Owner>>
    var helper: Option<Owner>
    var data: Option<Owner>
    var gate: Option<Owner>
    var terminal: bool

    /** The owners reachable from the supervisor. */
    function Reachable(): seq<Owner>
      reads this
    {
      if pending.Some? then pending.value
      else if prepared.Some? then prepared.value
      else Fields()
    }

    function Fields(): seq<Owner>
      reads this
    {
      if helper.Some? && data.Some? && gate.Some? then [helper.value, data.value, gate.value] else []
    }

    ghost predicate Numbered()
      reads this
    {
      forall id | id in status :: id < next
    }

    predicate NoFields()
      reads this
    {
      helper.None? && data.None? && gate.None?
    }

    /** Conservation: the owners in `Reachable` hold every open resource exactly once.  An owner
        sits in one place only: the pending rollback, the prepared acquisition or the fields. */
    ghost predicate Valid()
      reads this
    {
      && Numbered()
      && OwnersOk(Reachable(), status)
      && (phase.Idle? || phase.Finished? ==> pending.None? && NoFields())
      && (phase.Prepared? <==> prepared.Some?)
      && (pending.Some? ==> phase.Broken? && NoFields())
      && (prepared.Some? ==> NoFields() && |prepared.value| == 3)
      && (NoFields() || (helper.Some? && data.Some? && gate.Some?))
      && (phase.Acquired? ==> helper.Some?)
      && (phase.Finished? || phase.Idle? || phase.Prepared? ==> !terminal)
    }

    constructor ()
      ensures Valid() && phase.Idle? && status == map[]
    {
      status, next, phase := map[], 0, Idle;
      pending, prepared, helper, data, gate := None, None, None, None, None;
      terminal := false;
    }

    /** A new resource, not yet held by anyone. */
    method Create() returns (id: nat)
      requires Numbered()
      modifies this`status, this`next
      ensures Numbered() && id !in old(status) && status == old(status)[id := Open]
    {
      id := next;
      status := status[id := Open];
      next := next + 1;
    }

    /** A step of the system that may fail, unless all goes smoothly. */
    method Fails(smooth: bool) returns (b: bool)
      ensures smooth ==> !b
    {
      b := *;
      b := b && !smooth;
    }

    /** One closing attempt on one resource; with `smooth` it succeeds.  Only the closer of a
        descriptor can leave it indeterminate. */
    method CloseResource(id: nat, kind: Kind, smooth: bool) returns (ok: bool, ghost s: Status)
      requires id in status && status[id].Open?
      modifies this`status
      ensures status == old(status)[id := s] && (ok <==> s.Closed?)
      ensures s.Indeterminate? ==> kind.PairOwner? || kind.FdCleanupOwner?
      ensures smooth ==> ok
    {
      var outcome: Status := *;
      if smooth {
        outcome := Closed;
      } else if outcome.Indeterminate? && !kind.PairOwner? && !kind.FdCleanupOwner? {
        outcome := Open;
      }
      status := status[id := outcome];
      ok, s := outcome.Closed?, outcome;
    }

    /** One attempt of an owner: its settled members are passed over.  The owner of a process or of
        a Job may complain although all of it is closed, and a Job-first owner stops at its Job
        when closing that fails or complains. */
    method CloseOwner(o: Owner, smooth: bool) returns (ok: bool)
      requires forall i | 0 <= i < |o.members| :: o.members[i] in status
      requires forall i, j | 0 <= i < j < |o.members| :: o.members[i] != o.members[j]
      requires JobFirst(o, status)
      modifies this`status
      ensures Attempt(o, old(status), status, ok)
      ensures smooth ==> ok
    {
      ok := true;
      var i := 0;
      while i < |o.members|
        invariant i <= |o.members|
        invariant OnlySettles(old(status), status, multiset(o.members)) && JobFirst(o, status)
        invariant ok ==> forall k | 0 <= k < i :: !status[o.members[k]].Open?
        invariant o.kind.HelperOwner? && i == 1 ==> status[o.members[0]].Closed?
        invariant smooth ==> ok
      {
        if status[o.members[i]].Open? {
          assert o.members[i] in multiset(o.members);
          var closed, _ := CloseResource(o.members[i], o.kind, smooth);
          var complains := Fails(smooth);
          var fine := closed && (!complains || o.kind.PairOwner? || o.kind.FdCleanupOwner?);
          ok := ok && fine;
          if !fine && o.kind.HelperOwner? && i == 0 {
            return;
          }
        }
        i := i + 1;
      }
      var complains := Fails(smooth);
      if complains && o.kind.HandleResetOwner? {
        ok := false;
      }
    }

    /** Closes the owner between `a` and `left`; it joins `left` if that failed. */
    method CloseEntry(ghost a: seq<Owner>, o: Owner, left: seq<Owner>, smooth: bool) returns (left': seq<Owner>, ok: bool)
      requires OwnersOk(a + [o] + left, status)
      modifies this`status
      ensures OwnersOk(a + left', status) && status.Keys == old(status).Keys && NeverRevived(old(status), status)
      ensures ok ==> SettledOwner(o, status)
      ensures left' == if ok then left else [o] + left
      ensures smooth ==> ok
    {
      ghost var all := a + [o] + left;
      MembersDistinct(all, status, |a|);
      assert all[|a|] == o;
      ghost var before := status;
      ok := CloseOwner(o, smooth);
      ClosingKeeps(a, o, left, before, status);
      assert a + [o] + left == a + ([o] + left);
      left' := if ok then left else [o] + left;
    }

    /** Undoes the entries in reverse; those whose closing fails stay, in their original order. */
    method Rollback(entries: seq<Owner>, smooth: bool) returns (left: seq<Owner>, ghost failures: seq<bool>)
      requires OwnersOk(entries, status)
      modifies this`status
      ensures OwnersOk(left, status) && status.Keys == old(status).Keys && NeverRevived(old(status), status)
      ensures Undone(entries, 0, failures, left, status)
      ensures smooth ==> left == []
      ensures left == [] ==> NothingOpen(status)
    {
      left, failures := [], [];
      var i := |entries|;
      assert entries[..i] + left == entries;
      while i > 0
        invariant 0 <= i <= |entries|
        invariant OwnersOk(entries[..i] + left, status)
        invariant status.Keys == old(status).Keys && NeverRevived(old(status), status)
        invariant Undone(entries, i, failures, left, status)
        invariant smooth ==> left == []
      {
        i := i - 1;
        assert entries[..i + 1] + left == entries[..i] + [entries[i]] + left;
        ghost var before, rest := status, left;
        var ok;
        left, ok := CloseEntry(entries[..i], entries[i], left, smooth);
        UndoneStep(entries, i, failures, rest, before, status, ok);
        failures := [!ok] + failures;
      }
      assert entries[..0] + left == left;
      if left == [] {
        EmptyMeansNothingOpen(status);
      }
    }

    /** What a step of the acquisition may leave behind. */
    ghost predicate Acquiring(entries: seq<Owner>)
      reads this
    {
      Numbered() && OwnersOk(entries, status)
    }

    /** Closes a half-made set of pipes at once and hands over the owner of what would not close. */
    method GiveUp(pipes: seq<Owner>, fds: seq<nat>) returns (left: seq<Owner>)
      requires |pipes| <= 1 && Acquiring(pipes + [Owner(FdCleanupOwner, fds)])
      modifies this`status
      ensures Acquiring(left) && NeverRevived(old(status), status)
    {
      var o := Owner(FdCleanupOwner, fds);
      if |pipes| == 1 {
        assert pipes + [o] == [pipes[0], o];
        MergingKeeps(pipes[0], o, status);
        o := Owner(FdCleanupOwner, fds + pipes[0].members);
      } else {
        assert pipes + [o] == [o];
      }
      assert [] + [o] + [] == [o];
      assert [] + [] + [o] == [o];
      var ok;
      left, ok := CloseEntry([], o, [], false);
      assert [] + left == left;
    }

    /** The factory failed, or handed out one number for both ends, which makes the pair
        unacceptable: what there is so far is given up. */
    method RefusePipe(entries: seq<Owner>, sameNumber: bool) returns (left: seq<Owner>)
      requires Acquiring(entries) && |entries| <= 1
      modifies this`status, this`next
      ensures Acquiring(left) && NeverRevived(old(status), status)
    {
      ghost var s0 := status;
      var fds := [];
      if sameNumber {
        var fd := Create();
        fds := [fd];
      }
      AddingKeeps(entries, Owner(FdCleanupOwner, fds), s0, status);
      left := GiveUp(entries, fds);
    }

    /** A pair of a write end and a read end, in closing order. */
    method OpenPipe(entries: seq<Owner>) returns (pair: Owner)
      requires Acquiring(entries)
      modifies this`status, this`next
      ensures Acquiring(entries + [pair]) && NeverRevived(old(status), status)
      ensures LivePair(pair, status) && forall o | LivePair(o, old(status)) :: LivePair(o, status)
    {
      ghost var s0 := status;
      var write := Create();
      var read := Create();
      pair := Owner(PairOwner, [write, read]);
      AddingKeeps(entries, pair, s0, status);
    }

    /** The gate pipe and the data pipe. */
    method Pipes(smooth: bool) returns (entries: seq<Owner>, ok: bool)
      requires Acquiring([])
      modifies this`status, this`next
      ensures Acquiring(entries) && NeverRevived(old(status), status)
      ensures ok ==> |entries| == 2 && LivePair(entries[0], status) && LivePair(entries[1], status)
      ensures smooth ==> ok
    {
      var fails, sameNumber: bool := *, *;
      fails := fails && !smooth;
      if fails {
        entries := RefusePipe([], sameNumber);
        return entries, false;
      }
      var gatePair := OpenPipe([]);
      assert [] + [gatePair] == [gatePair];
      fails, sameNumber := *, *;
      fails := fails && !smooth;
      if fails {
        entries := RefusePipe([gatePair], sameNumber);
        return entries, false;
      }
      var dataPair := OpenPipe([gatePair]);
      assert [gatePair] + [dataPair] == [gatePair, dataPair];
      return [gatePair, dataPair], true;
    }

    /** Adds an owner of one new resource. */
    method Adopt(entries: seq<Owner>, kind: Kind) returns (o: Owner)
      requires Acquiring(entries) && !kind.HelperOwner?
      modifies this`status, this`next
      ensures Acquiring(entries + [o]) && NeverRevived(old(status), status)
      ensures o.kind == kind && |o.members| == 1 && Grown(old(status), status, o.members)
      ensures forall other | LivePair(other, old(status)) :: LivePair(other, status)
      ensures forall other | LiveChild(other, old(status)) :: LiveChild(other, status)
    {
      ghost var s0 := status;
      var id := Create();
      o := Owner(kind, [id]);
      AddingKeeps(entries, o, s0, status);
    }

    /** Makes two handles inheritable, starts the child and resets the handles again. */
    method StartChild(gatePair: Owner, dataPair: Owner, smooth: bool) returns (entries: seq<Owner>, ok: bool)
      requires Acquiring([gatePair, dataPair]) && LivePair(gatePair, status) && LivePair(dataPair, status)
      modifies this`status, this`next
      ensures Acquiring(entries) && NeverRevived(old(status), status)
      ensures ok ==> |entries| == 3 && entries[0] == gatePair && entries[1] == dataPair
      ensures ok ==> LiveChild(entries[2], status) && LivePair(gatePair, status) && LivePair(dataPair, status)
      ensures smooth ==> ok
    {
      entries := [gatePair, dataPair];
      var fails := Fails(smooth);
      if fails {
        return entries, false;
      }
      var reset := Owner(HandleResetOwner, []);
      AddingKeeps(entries, reset, status, status);
      entries := entries + [reset];
      fails := Fails(smooth);
      if fails {
        return entries, false;
      }
      var child := Adopt(entries, ProcessOwner);
      entries := entries + [child];
      fails := Fails(smooth);
      if fails {
        return entries, false;
      }
      assert entries == [gatePair, dataPair] + [reset] + [child];
      Dropping([gatePair, dataPair], reset, [child], status);
      assert [gatePair, dataPair] + [child] == [gatePair, dataPair, child];
      return [gatePair, dataPair, child], true;
    }

    /** Closes one end directly, leaving it with its pair. */
    method CloseEnd(ghost entries: seq<Owner>, pair: Owner, end: nat, smooth: bool) returns (ok: bool)
      requires Acquiring(entries) && pair in entries && (forall i | 0 <= i < |entries| :: !entries[i].kind.HelperOwner?)
      requires LivePair(pair, status) && end < 2
      modifies this`status
      ensures Acquiring(entries) && NeverRevived(old(status), status)
      ensures pair.members[end] in status && status == old(status)[pair.members[end] := status[pair.members[end]]]
      ensures ok <==> status[pair.members[end]].Closed?
      ensures smooth ==> ok
    {
      ghost var s0 := status;
      ghost var s;
      ok, s := CloseResource(pair.members[end], PairOwner, smooth);
      SettlingKeeps(entries, s0, status, multiset{pair.members[end]});
    }

    /** The parent keeps the write end of the gate and the read end of the data pipe. */
    method CloseChildEnds(gatePair: Owner, dataPair: Owner, child: Owner, smooth: bool) returns (ok: bool)
      requires Acquiring([gatePair, dataPair, child])
      requires LivePair(gatePair, status) && LivePair(dataPair, status) && LiveChild(child, status)
      modifies this`status
      ensures Acquiring([gatePair, dataPair, child]) && NeverRevived(old(status), status) && LiveChild(child, status)
      ensures ok ==> ParentEnds(gatePair, dataPair, status)
      ensures smooth ==> ok
    {
      ghost var entries := [gatePair, dataPair, child];
      assert entries == [] + [gatePair] + [dataPair, child];
      MembersDisjoint([], gatePair, [dataPair, child], status, dataPair);
      MembersDisjoint([], gatePair, [dataPair, child], status, child);
      assert entries == [gatePair] + [dataPair] + [child];
      MembersDisjoint([gatePair], dataPair, [child], status, child);
      assert dataPair.members[0] in multiset(dataPair.members);
      MembersDistinct(entries, status, 0);
      MembersDistinct(entries, status, 1);
      ok := CloseEnd(entries, gatePair, 1, smooth);
      if ok {
        assert gatePair.members[1] in multiset(gatePair.members);
        ok := CloseEnd(entries, dataPair, 0, smooth);
      }
    }

    /** Creates the Job, attaches the child to it and joins both in one Job-first owner.  A Job that
        could not be set up may be left with its own owner; a failed attachment may have closed it. */
    method AttachJob(gatePair: Owner, dataPair: Owner, child: Owner, smooth: bool) returns (entries: seq<Owner>, ok: bool)
      requires Acquiring([gatePair, dataPair, child]) && gatePair.kind.PairOwner? && dataPair.kind.PairOwner?
      requires LiveChild(child, status) && ParentEnds(gatePair, dataPair, status)
      modifies this`status, this`next
      ensures Acquiring(entries) && NeverRevived(old(status), status)
      ensures ok ==> |entries| == 3 && entries[0] == gatePair && entries[1] == dataPair && entries[2].kind.HelperOwner?
      ensures ok ==> ParentEnds(gatePair, dataPair, status) && LiveHelper(entries[2], status) && entries[2].members[1] == child.members[0]
      ensures smooth ==> ok
    {
      entries := [gatePair, dataPair, child];
      var noJob := Fails(smooth);
      if noJob {
        return entries, false;
      }
      var job := Adopt(entries, JobOwner);
      entries := [gatePair, dataPair, child, job];
      assert entries == [gatePair, dataPair, child] + [job];
      var fails, closedAgain: bool := *, *;
      fails := fails && !smooth;
      if fails {
        if closedAgain {
          ghost var s0 := status;
          var _, _ := CloseResource(job.members[0], JobOwner, true);
          SettlingKeeps(entries, s0, status, multiset{job.members[0]});
        }
        return entries, false;
      }
      assert entries == [gatePair, dataPair] + [child, job];
      JoiningKeeps([gatePair, dataPair], child, job, status);
      var joined := Owner(HelperOwner, job.members + child.members);
      assert [gatePair, dataPair] + [joined] == [gatePair, dataPair, joined];
      return [gatePair, dataPair, joined], true;
    }

    /** After a rollback: done, or the owners that would not close wait for the next close. */
    method Park(left: seq<Owner>, done: Phase)
      requires Acquiring(left) && NoFields() && (done.Idle? || done.Finished?) && (left == [] ==> !terminal)
      modifies this`phase, this`prepared, this`pending
      ensures Valid() && prepared.None?
      ensures if left == [] then phase == done && pending.None? else phase.Broken? && pending == Some(left)
    {
      prepared := None;
      phase := if left == [] then done else Broken;
      pending := if left == [] then None else Some(left);
      assert Reachable() == left;
    }

    /** Undoes a failed acquisition. */
    method Abort(entries: seq<Owner>)
      requires Acquiring(entries) && !terminal && NoFields()
      modifies this`status, this`phase, this`prepared, this`pending
      ensures Valid() && NeverRevived(old(status), status)
      ensures phase.Idle? || (phase.Broken? && pending.Some?)
    {
      var left, _ := Rollback(entries, false);
      Park(left, Idle);
    }

    /** All the steps up to a prepared helper; the entries cover whatever was made before a failure. */
    method Build(smooth: bool) returns (entries: seq<Owner>, ok: bool)
      requires Acquiring([])
      modifies this`status, this`next
      ensures Acquiring(entries) && NeverRevived(old(status), status)
      ensures ok ==> |entries| == 3 && ParentEnds(entries[0], entries[1], status) && LiveHelper(entries[2], status)
      ensures smooth ==> ok
    {
      entries, ok := Pipes(smooth);
      if !ok {
        return;
      }
      var gatePair, dataPair := entries[0], entries[1];
      assert entries == [gatePair, dataPair];
      entries, ok := StartChild(gatePair, dataPair, smooth);
      if !ok {
        return;
      }
      var child := entries[2];
      assert entries == [gatePair, dataPair, child];
      ok := CloseChildEnds(gatePair, dataPair, child, smooth);
      var unadapted := Fails(smooth);
      if !ok || unadapted {
        return entries, false;
      }
      entries, ok := AttachJob(gatePair, dataPair, child, smooth);
    }

    /** Either everything is prepared, or the acquisition was rolled back as far as possible. */
    method AcquireLocked(smooth: bool) returns (ok: bool)
      requires Valid() && phase.Idle?
      modifies this`status, this`next, this`phase, this`pending, this`prepared
      ensures Valid() && NeverRevived(old(status), status)
      ensures if ok then phase.Prepared? && pending.None? && !terminal else phase.Idle? || (phase.Broken? && pending.Some?)
      ensures ok ==> ParentEnds(prepared.value[0], prepared.value[1], status) && LiveHelper(prepared.value[2], status)
      ensures smooth ==> ok
    {
      assert Reachable() == [];
      var entries;
      entries, ok := Build(smooth);
      if ok {
        prepared, phase := Some(entries), Prepared;
        assert Reachable() == entries;
      } else {
        Abort(entries);
      }
    }

    /** One helper with its pipes and its Job, or nothing but what the supervisor still answers for. */
    method Acquire(smooth: bool) returns (result: AcquireResult)
      requires Valid()
      modifies this
      ensures Valid() && NeverRevived(old(status), status)
      ensures result.AcquireRefused? <==> !old(phase).Idle?
      ensures result.AcquireRefused? ==> Reachable() == old(Reachable()) && status == old(status) && phase == old(phase)
      ensures result.AcquireOk? <==> phase.Acquired? && !result.AcquireRefused?
      ensures result.AcquireOk? ==>
        && gate.Some? && data.Some? && helper.Some?
        && ParentEnds(gate.value, data.value, status) && LiveHelper(helper.value, status)
      ensures result.AcquireInterrupted? ==> phase.Prepared?
      ensures smooth && old(phase).Idle? ==> result.AcquireOk?
      ensures result.AcquireFailed? ==> (phase.Idle? && NothingOpen(status)) || (phase.Broken? && pending.Some?)
    {
      if !phase.Idle? || pending.Some? {
        return AcquireRefused;
      }
      var ok := AcquireLocked(smooth);
      if !ok {
        IdleMeansNothingOpen();
        return AcquireFailed;
      }
      result := Converse(smooth);
    }

    /** Talks to the helper through the two pipes; only a ready answer commits.  The talk may also be
        interrupted, which leaves the prepared acquisition in place for a later close. */
    method Converse(smooth: bool) returns (result: AcquireResult)
      requires Valid() && phase.Prepared? && ParentEnds(prepared.value[0], prepared.value[1], status) && LiveHelper(prepared.value[2], status)
      modifies this
      ensures Valid() && NeverRevived(old(status), status) && !result.AcquireRefused?
      ensures result.AcquireOk? <==> phase.Acquired?
      ensures result.AcquireOk? ==>
        && gate.Some? && data.Some? && helper.Some?
        && ParentEnds(gate.value, data.value, status) && LiveHelper(helper.value, status)
      ensures result.AcquireInterrupted? ==> phase.Prepared?
      ensures smooth ==> result.AcquireOk?
      ensures result.AcquireFailed? ==> (phase.Idle? && NothingOpen(status)) || (phase.Broken? && pending.Some?)
    {
      var interrupted, ready: bool := *, *;
      if interrupted && !smooth {
        return AcquireInterrupted;
      }
      if ready || smooth {
        Commit();
        return AcquireOk;
      }
      AbortPrepared();
      IdleMeansNothingOpen();
      result := AcquireFailed;
    }

    lemma IdleMeansNothingOpen()
      requires Valid()
      ensures phase.Idle? || phase.Finished? ==> NothingOpen(status)
    {
      if phase.Idle? || phase.Finished? {
        assert Reachable() == [];
        EmptyMeansNothingOpen(status);
      }
    }

    /** The owners move from the transaction to the fields, all at once. */
    method Commit()
      requires Valid() && phase.Prepared?
      modifies this`phase, this`prepared, this`helper, this`data, this`gate
      ensures Valid() && phase.Acquired?
      ensures gate == Some(old(prepared).value[0]) && data == Some(old(prepared).value[1]) && helper == Some(old(prepared).value[2])
    {
      var entries := prepared.value;
      assert Reachable() == [entries[0], entries[1], entries[2]];
      Reversing(entries[0], entries[1], entries[2], status);
      gate, data, helper := Some(entries[0]), Some(entries[1]), Some(entries[2]);
      prepared, phase := None, Acquired;
      assert Reachable() == [entries[2], entries[1], entries[0]];
    }

    method AbortPrepared()
      requires Valid() && phase.Prepared?
      modifies this`status, this`phase, this`prepared, this`pending, this`terminal
      ensures Valid() && NeverRevived(old(status), status)
      ensures phase.Idle? || (phase.Broken? && pending.Some?)
    {
      var entries := prepared.value;
      assert Reachable() == entries;
      var left, _ := Rollback(entries, false);
      terminal := left != [] && (HasTerminalEnd(entries[0], status) || HasTerminalEnd(entries[1], status));
      Park(left, Idle);
    }

    /** Retries the rollback that was left over. */
    method RetryPending(smooth: bool) returns (ok: bool)
      requires Valid() && pending.Some?
      modifies this`status, this`pending
      ensures Valid() && NeverRevived(old(status), status)
      ensures ok <==> pending.None?
      ensures smooth ==> ok
    {
      assert Reachable() == pending.value;
      var left, _ := Rollback(pending.value, smooth);
      pending := if left == [] then None else Some(left);
      ok := left == [];
      assert Reachable() == left;
    }

    /** A close finds an acquisition that was interrupted. */
    method ClosePrepared(smooth: bool) returns (ok: bool)
      requires Valid() && phase.Prepared?
      modifies this`status, this`phase, this`prepared, this`pending
      ensures Valid() && NeverRevived(old(status), status)
      ensures if ok then phase.Finished? else phase.Broken? && pending.Some?
      ensures smooth ==> ok
    {
      assert Reachable() == prepared.value;
      var left, _ := Rollback(prepared.value, smooth);
      ok := left == [];
      Park(left, Finished);
    }

    /** Attempts every owner in turn, whatever happens to the ones before. */
    method CloseEach(owners: seq<Owner>, smooth: bool) returns (ok: bool)
      requires OwnersOk(owners, status)
      modifies this`status, this`terminal
      ensures OwnersOk(owners, status) && status.Keys == old(status).Keys && NeverRevived(old(status), status)
      ensures ok ==> forall i | 0 <= i < |owners| :: SettledOwner(owners[i], status)
      ensures terminal <==> old(terminal) || exists i | 0 <= i < |owners| :: HasTerminalEnd(owners[i], status)
      ensures smooth ==> ok
    {
      ok := true;
      var i := 0;
      while i < |owners|
        invariant i <= |owners| && OwnersOk(owners, status)
        invariant status.Keys == old(status).Keys && NeverRevived(old(status), status)
        invariant Tried(owners, i, ok, old(terminal), terminal, status)
        invariant smooth ==> ok
      {
        ghost var before, okBefore, terminalBefore := status, ok, terminal;
        var fine := CloseHeld(owners, i, smooth);
        ok := ok && fine;
        terminal := terminal || HasTerminalEnd(owners[i], status);
        TriedStep(owners, i, okBefore, old(terminal), terminalBefore, before, status, fine);
        i := i + 1;
      }
    }

    method CloseHeld(owners: seq<Owner>, i: nat, smooth: bool) returns (ok: bool)
      requires i < |owners| && OwnersOk(owners, status)
      modifies this`status
      ensures OwnersOk(owners, status) && OnlySettles(old(status), status, multiset(owners[i].members))
      ensures forall k | 0 <= k < |owners| && k != i :: SameOwner(owners[k], old(status), status)
      ensures ok ==> SettledOwner(owners[i], status)
      ensures smooth ==> ok
    {
      ghost var a, b, s0 := owners[..i], owners[i + 1..], status;
      assert owners == a + [owners[i]] + b;
      MembersDistinct(owners, status, i);
      forall k | 0 <= k < |owners| && k != i
        ensures forall j | 0 <= j < |owners[k].members| :: owners[k].members[j] !in multiset(owners[i].members)
      {
        assert k < i ==> owners[k] == a[k];
        assert k > i ==> owners[k] == b[k - i - 1];
        MembersDisjoint(a, owners[i], b, status, owners[k]);
      }
      forall k | 0 <= k < |owners|
        ensures forall j | 0 <= j < |owners[k].members| :: owners[k].members[j] in status
      {
        MembersDistinct(owners, status, k);
      }
      ok := CloseOwner(owners[i], smooth);
      ClosingKeeps(a, owners[i], b, s0, status);
    }

    /** Closing can always be tried again; it reports success only when nothing is left open.  Once
        the closers stop failing one call is enough, and only a terminal descriptor then keeps the
        supervisor from being finished. */
    method Close(smooth: bool) returns (ok: bool)
      requires Valid()
      modifies this
      ensures Valid() && NeverRevived(old(status), status)
      ensures ok <==> phase.Finished?
      ensures ok ==> NothingOpen(status) && Reachable() == []
      ensures old(phase).Finished? ==> ok && status == old(status)
      ensures !ok ==> phase.Broken?
      ensures smooth ==> NothingOpen(status) && (ok || terminal)
    {
      if pending.Some? {
        ok := RetryPending(smooth);
        if !ok {
          return;
        }
        if !terminal {
          phase := Finished;
          IdleMeansNothingOpen();
          return;
        }
      }
      ok := CloseRest(smooth);
    }

    /** The same against a deadline of the caller's, without the early exit after a pending rollback. */
    method CloseWithDeadline(late: bool, smooth: bool) returns (ok: bool)
      requires Valid()
      modifies this
      ensures Valid() && NeverRevived(old(status), status)
      ensures late ==> !ok && status == old(status) && phase == old(phase) && Reachable() == old(Reachable())
      ensures ok ==> phase.Finished? && NothingOpen(status) && Reachable() == []
      ensures !late && old(phase).Finished? ==> ok && status == old(status)
      ensures !late && !ok ==> phase.Broken?
      ensures !late && smooth ==> NothingOpen(status) && (ok || terminal)
    {
      if late {
        return false;
      }
      if pending.Some? {
        ok := RetryPending(smooth);
        if !ok {
          return;
        }
      }
      ok := CloseRest(smooth);
    }

    /** What both ways of closing do once no rollback is pending. */
    method CloseRest(smooth: bool) returns (ok: bool)
      requires Valid() && pending.None?
      modifies this
      ensures Valid() && NeverRevived(old(status), status)
      ensures ok <==> phase.Finished?
      ensures ok ==> NothingOpen(status) && Reachable() == []
      ensures old(phase).Finished? ==> ok && status == old(status)
      ensures !ok ==> phase.Broken?
      ensures smooth ==> NothingOpen(status) && (ok || terminal)
    {
      if phase.Finished? {
        IdleMeansNothingOpen();
        return true;
      }
      if phase.Prepared? {
        ok := ClosePrepared(smooth);
        IdleMeansNothingOpen();
        return;
      }
      ok := CloseFields(smooth);
    }

    method CloseFields(smooth: bool) returns (ok: bool)
      requires Valid() && pending.None? && prepared.None? && !phase.Finished?
      modifies this
      ensures Valid() && NeverRevived(old(status), status)
      ensures if ok then phase.Finished? && NothingOpen(status) && Reachable() == [] else phase.Broken?
      ensures smooth ==> NothingOpen(status) && (ok || terminal)
    {
      var owners := Fields();
      assert Reachable() == owners;
      ok := CloseEach(owners, smooth);
      if !ok {
        KeepFields();
        return;
      }
      AllSettledMeansNothingOpen(owners, status);
      if terminal {
        KeepFields();
        return false;
      }
      Finish();
    }

    method KeepFields()
      requires Acquiring(Fields()) && pending.None? && prepared.None?
      requires NoFields() || (helper.Some? && data.Some? && gate.Some?)
      modifies this`phase
      ensures Valid() && phase.Broken?
    {
      phase := Broken;
      assert Reachable() == Fields();
    }

    method Finish()
      requires Numbered() && pending.None? && prepared.None? && !terminal && NothingOpen(status)
      modifies this`helper, this`data, this`gate, this`phase
      ensures Valid() && phase.Finished? && Reachable() == []
    {
      helper, data, gate := None, None, None;
      phase := Finished;
      NothingOpenMeansEmpty(status);
    }
  }
}
