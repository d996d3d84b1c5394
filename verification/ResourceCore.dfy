/**
 Descriptor ownership: a registry that knows which identity is current for each descriptor
 number, endpoints whose closers may close, ask for a retry, raise or return garbage, and
 pairs of endpoints with one owner.
 */
module ResourceCore {
  import opened Wrappers

  /** A descriptor number together with the generation it was opened in. */
  datatype FdIdentity = FdIdentity(number: int, generation: nat)

  datatype CloserAnswer = Closes | AsksRetry | Raises | Garbage

  /** One run of a closer. */
  datatype CloserRun = CloserRun(identity: FdIdentity, answer: CloserAnswer)

  datatype Failure = Cleanup | Indeterminate | Ownership | Stale

  // ---------- the registry as a value ----------

  datatype Ledger = Ledger(current: map<int, FdIdentity>, retired: set<FdIdentity>, runs: seq<CloserRun>)

  const EMPTY := Ledger(map[], {}, [])

  predicate IsCurrent(l: Ledger, id: FdIdentity) {
    id.number in l.current && l.current[id.number] == id
  }

  predicate CanRegister(l: Ledger, id: FdIdentity) {
    id !in l.retired && !IsCurrent(l, id)
  }

  function Registered(l: Ledger, id: FdIdentity): Ledger {
    l.(current := l.current[id.number := id],
       retired := if id.number in l.current then l.retired + {l.current[id.number]} else l.retired)
  }

  function Retired(l: Ledger, id: FdIdentity): Ledger {
    l.(current := if IsCurrent(l, id) then l.current - {id.number} else l.current, retired := l.retired + {id})
  }

  /** Closing runs the closer only for a current identity; every answer but a retry retires it. */
  function CloseIdentity(l: Ledger, id: FdIdentity, answer: CloserAnswer): (Ledger, Option<Failure>) {
    if !IsCurrent(l, id) then (l, Some(Stale))
    else
      var ran := l.(runs := l.runs + [CloserRun(id, answer)]);
      match answer
      case Closes => (Retired(ran, id), None)
      case AsksRetry => (ran, Some(Cleanup))
      case Raises => (Retired(ran, id), Some(Indeterminate))
      case Garbage => (Retired(ran, id), Some(Indeterminate))
  }

  predicate PairFits(l: Ledger, read: FdIdentity, write: FdIdentity) {
    read.number != write.number && CanRegister(l, read) && CanRegister(l, write)
  }

  // ---------- no stale close, over any sequence of operations ----------

  datatype Op = NewPair(read: FdIdentity, write: FdIdentity) | Close(identity: FdIdentity, answer: CloserAnswer)

  function Apply(l: Ledger, op: Op): Ledger {
    match op
    case NewPair(read, write) => if PairFits(l, read, write) then Registered(Registered(l, read), write) else l
    case Close(id, answer) => CloseIdentity(l, id, answer).0
  }

  function ApplyAll(l: Ledger, ops: seq<Op>): Ledger
    decreases |ops|
  {
    if ops == [] then l else ApplyAll(Apply(l, ops[0]), ops[1..])
  }

  /** A closer runs again only if every earlier run of it asked for a retry. */
  predicate NoRunAfterEnd(runs: seq<CloserRun>) {
    forall i, j | 0 <= i < j < |runs| && runs[i].identity == runs[j].identity :: runs[i].answer == AsksRetry
  }

  ghost predicate LedgerOk(l: Ledger) {
    && (forall n | n in l.current :: l.current[n].number == n && l.current[n] !in l.retired)
    && (forall i | 0 <= i < |l.runs| && l.runs[i].answer != AsksRetry :: l.runs[i].identity in l.retired)
    && NoRunAfterEnd(l.runs)
  }

  lemma ApplyKeepsLedger(l: Ledger, op: Op)
    requires LedgerOk(l)
    ensures LedgerOk(Apply(l, op)) && l.retired <= Apply(l, op).retired
    ensures l.runs <= Apply(l, op).runs
    ensures forall k | |l.runs| <= k < |Apply(l, op).runs| :: IsCurrent(l, Apply(l, op).runs[k].identity)
  {
    match op
    case NewPair(read, write) =>
      if PairFits(l, read, write) {
        assert LedgerOk(Registered(l, read));
      }
    case Close(id, answer) =>
      if IsCurrent(l, id) {
        var ran := l.(runs := l.runs + [CloserRun(id, answer)]);
        assert forall i | 0 <= i < |l.runs| && l.runs[i].identity == id :: l.runs[i].answer == AsksRetry;
        assert NoRunAfterEnd(ran.runs);
      }
  }

  lemma {:induction false} SequencesKeepLedger(l: Ledger, ops: seq<Op>)
    requires LedgerOk(l)
    ensures LedgerOk(ApplyAll(l, ops)) && l.retired <= ApplyAll(l, ops).retired
    ensures l.runs <= ApplyAll(l, ops).runs
    decreases |ops|
  {
    if ops != [] {
      ApplyKeepsLedger(l, ops[0]);
      SequencesKeepLedger(Apply(l, ops[0]), ops[1..]);
    }
  }

  /** No stale close: after any operations on one registry, the next operation runs a closer only
      while its identity is current, no closer runs again after it closed, raised or answered
      garbage, and a retired identity is never current again. */
  lemma NoStaleClose(before: seq<Op>, after: seq<Op>, op: Op)
    ensures var l := ApplyAll(EMPTY, before);
      && (forall k | |l.runs| <= k < |Apply(l, op).runs| :: IsCurrent(l, Apply(l, op).runs[k].identity))
      && NoRunAfterEnd(ApplyAll(l, after).runs)
      && forall id | id in l.retired :: !IsCurrent(ApplyAll(l, after), id)
  {
    SequencesKeepLedger(EMPTY, before);
    var l := ApplyAll(EMPTY, before);
    ApplyKeepsLedger(l, op);
    SequencesKeepLedger(l, after);
  }

  // ---------- endpoints and pairs as values ----------

  datatype EndpointState = EndpointOpen | EndpointClosing | EndpointBroken | EndpointTerminal | EndpointClosed

  /** `identity` is given up when the endpoint closes; `error` is what made it terminal. */
  datatype EndpointView = EndpointView(identity: Option<FdIdentity>, state: EndpointState, error: Option<Failure>)

  predicate EndpointOk(e: EndpointView) {
    && (e.identity.None? <==> e.state.EndpointClosed?)
    && (e.error.Some? <==> e.state.EndpointTerminal?)
    && !e.state.EndpointClosing?
  }

  function CloseEndpoint(e: EndpointView, l: Ledger, answer: CloserAnswer): (EndpointView, Ledger, Option<Failure>) {
    match e.state
    case EndpointClosed => (e, l, None)
    case EndpointTerminal => (e, l, e.error)
    case EndpointClosing => (e, l, Some(Ownership))
    case _ =>
      if e.identity.None? then (e, l, Some(Ownership))
      else
        var (l', failure) := CloseIdentity(l, e.identity.value, answer);
        if failure.None? then (EndpointView(None, EndpointClosed, None), l', None)
        else if failure == Some(Cleanup) then (e.(state := EndpointBroken), l', failure)
        else (EndpointView(e.identity, EndpointTerminal, failure), l', failure)
  }

  datatype PairState = PairOpen | PairClosing | PairBroken | PairClosed

  datatype PairView = PairView(read: EndpointView, write: EndpointView, owner: Option<nat>, state: PairState)

  predicate PairOk(p: PairView) {
    EndpointOk(p.read) && EndpointOk(p.write) && !p.state.PairClosing? && (p.owner.None? <==> p.state.PairClosed?)
  }

  /** Indeterminate outranks a retry, and a retry outranks everything else. */
  function Worst(a: Option<Failure>, b: Option<Failure>): Option<Failure> {
    if a == Some(Indeterminate) || b == Some(Indeterminate) then Some(Indeterminate)
    else if a == Some(Cleanup) || b == Some(Cleanup) then Some(Cleanup)
    else if a.Some? then a else b
  }

  function CloseUnlessTerminal(e: EndpointView, l: Ledger, answer: CloserAnswer): (EndpointView, Ledger, Option<Failure>) {
    if e.state.EndpointTerminal? then (e, l, None) else CloseEndpoint(e, l, answer)
  }

  /** The write end is closed first; a terminal end is passed over. */
  function ClosePair(p: PairView, l: Ledger, owner: nat, writeAnswer: CloserAnswer, readAnswer: CloserAnswer): (PairView, Ledger, Option<Failure>) {
    if p.state.PairClosed? then (p, l, None)
    else if p.state.PairClosing? || p.owner != Some(owner) then (p, l, Some(Ownership))
    else
      var (w, l1, fw) := CloseUnlessTerminal(p.write, l, writeAnswer);
      var (r, l2, fr) := CloseUnlessTerminal(p.read, l1, readAnswer);
      var failure := Worst(fw, fr);
      if failure.Some? then (PairView(r, w, p.owner, PairBroken), l2, failure)
      else (PairView(r, w, None, PairClosed), l2, None)
  }

  predicate Settled(e: EndpointView) {
    e.state.EndpointClosed? || e.state.EndpointTerminal?
  }

  lemma CloseIdentityMeaning(l: Ledger, id: FdIdentity, answer: CloserAnswer)
    requires LedgerOk(l)
    ensures var (l', failure) := CloseIdentity(l, id, answer);
      && l' == Apply(l, Close(id, answer)) && LedgerOk(l') && l.runs <= l'.runs
      && (failure == Some(Cleanup) <==> IsCurrent(l, id) && IsCurrent(l', id))
      && (forall other | other != id :: IsCurrent(l', other) <==> IsCurrent(l, other))
  {
    ApplyKeepsLedger(l, Close(id, answer));
  }

  /** One attempt on an end: it closes, becomes terminal for good, or stays with its current
      descriptor waiting for another attempt. */
  lemma CloseEndpointMeaning(e: EndpointView, l: Ledger, answer: CloserAnswer)
    requires EndpointOk(e) && LedgerOk(l)
    ensures var (e', l', failure) := CloseEndpoint(e, l, answer);
      && EndpointOk(e') && LedgerOk(l') && l.runs <= l'.runs
      && (e'.state.EndpointClosed? <==> failure.None?)
      && (e'.state.EndpointTerminal? <==> failure == Some(Indeterminate) || failure == Some(Stale) || (e.state.EndpointTerminal? && failure == e.error))
      && (e'.state.EndpointBroken? <==> failure == Some(Cleanup) && !e.state.EndpointTerminal?)
      && (e'.state.EndpointBroken? ==> e'.identity == e.identity && IsCurrent(l', e.identity.value))
      && (Settled(e) ==> e' == e && l' == l)
      && (forall other | e.identity != Some(other) :: IsCurrent(l', other) <==> IsCurrent(l, other))
  {
    if !Settled(e) {
      CloseIdentityMeaning(l, e.identity.value, answer);
    }
  }

  /** The two ends of a pair never share an identity. */
  predicate DistinctEnds(p: PairView) {
    p.read.identity.None? || p.read.identity != p.write.identity
  }

  /** The run of a closer that one attempt on an end makes, if any. */
  function RunOf(e: EndpointView, l: Ledger, answer: CloserAnswer): seq<CloserRun> {
    if Settled(e) || e.identity.None? || !IsCurrent(l, e.identity.value) then [] else [CloserRun(e.identity.value, answer)]
  }

  /** The attempt made the end terminal for this reason. */
  predicate Ended(e: EndpointView, e': EndpointView, why: Failure) {
    !e.state.EndpointTerminal? && e'.state.EndpointTerminal? && e'.error == Some(why)
  }

  /** The write end's closer runs before that of the read end, and the worst that happened is reported:
      an indeterminate end before a retry, and a retry before a stale descriptor. */
  lemma ClosePairReport(p: PairView, l: Ledger, owner: nat, wa: CloserAnswer, ra: CloserAnswer)
    requires PairOk(p) && LedgerOk(l) && DistinctEnds(p) && p.owner == Some(owner)
    ensures var (p', l', failure) := ClosePair(p, l, owner, wa, ra);
      var indeterminate := Ended(p.write, p'.write, Indeterminate) || Ended(p.read, p'.read, Indeterminate);
      var retry := p'.write.state.EndpointBroken? || p'.read.state.EndpointBroken?;
      && l'.runs == l.runs + RunOf(p.write, l, wa) + RunOf(p.read, l, ra)
      && (failure == Some(Indeterminate) <==> indeterminate)
      && (failure == Some(Cleanup) <==> !indeterminate && retry)
      && (failure == Some(Stale) <==> !indeterminate && !retry && (Ended(p.write, p'.write, Stale) || Ended(p.read, p'.read, Stale)))
  {
    var (w, l1, fw) := CloseUnlessTerminal(p.write, l, wa);
    var (r, l2, fr) := CloseUnlessTerminal(p.read, l1, ra);
    EndMeaning(p.write, l, wa);
    EndMeaning(p.read, l1, ra);
    EndReport(p.write, l, wa);
    EndReport(p.read, l1, ra);
    assert RunOf(p.read, l1, ra) == RunOf(p.read, l, ra);
  }

  lemma EndReport(e: EndpointView, l: Ledger, answer: CloserAnswer)
    requires EndpointOk(e) && LedgerOk(l)
    ensures var (e', l', failure) := CloseUnlessTerminal(e, l, answer);
      && l'.runs == l.runs + RunOf(e, l, answer)
      && (failure == Some(Indeterminate) <==> Ended(e, e', Indeterminate)) && (failure == Some(Stale) <==> Ended(e, e', Stale))
      && (failure == Some(Cleanup) <==> e'.state.EndpointBroken?) && failure != Some(Ownership)
  {
  }

  /** A pair that reports closed is settled.  A failed attempt keeps the owner, and every end that
      is not settled keeps its current descriptor, so no descriptor is lost; the ledger stays in
      order whatever the closers answer. */
  lemma ClosePairMeaning(p: PairView, l: Ledger, owner: nat, wa: CloserAnswer, ra: CloserAnswer)
    requires PairOk(p) && LedgerOk(l) && DistinctEnds(p)
    ensures var (p', l', failure) := ClosePair(p, l, owner, wa, ra);
      && PairOk(p') && LedgerOk(l') && DistinctEnds(p') && l.runs <= l'.runs
      && (failure.None? <==> p'.state.PairClosed?)
      && (p.state.PairClosed? || p.owner != Some(owner) ==> p' == p && l' == l)
      && (p.owner == Some(owner) ==>
            && (failure.None? ==> Settled(p'.read) && Settled(p'.write))
            && (failure.Some? ==> p'.owner == p.owner && p'.state.PairBroken?)
            && (Settled(p'.read) || (failure.Some? && IsCurrent(l', p'.read.identity.value)))
            && (Settled(p'.write) || (failure.Some? && IsCurrent(l', p'.write.identity.value))))
  {
    if p.owner == Some(owner) {
      var (w, l1, fw) := CloseUnlessTerminal(p.write, l, wa);
      EndMeaning(p.write, l, wa);
      EndMeaning(p.read, l1, ra);
    }
  }

  /** The attempt a pair makes on one of its ends. */
  lemma EndMeaning(e: EndpointView, l: Ledger, answer: CloserAnswer)
    requires EndpointOk(e) && LedgerOk(l)
    ensures var (e', l', failure) := CloseUnlessTerminal(e, l, answer);
      && EndpointOk(e') && LedgerOk(l') && l.runs <= l'.runs
      && (failure.None? ==> Settled(e'))
      && (Settled(e') || (failure.Some? && e' == e.(state := EndpointBroken) && IsCurrent(l', e.identity.value)))
      && (e'.identity.None? || e'.identity == e.identity)
      && (forall other | e.identity != Some(other) :: IsCurrent(l', other) <==> IsCurrent(l, other))
  {
    CloseEndpointMeaning(e, l, answer);
  }

  /** Once both ends are settled a further close succeeds without running any closer. */
  lemma SettledPairCloses(p: PairView, l: Ledger, owner: nat, wa: CloserAnswer, ra: CloserAnswer)
    requires PairOk(p) && Settled(p.read) && Settled(p.write) && p.owner == Some(owner)
    ensures var (p', l', failure) := ClosePair(p, l, owner, wa, ra); failure.None? && l' == l && p'.state.PairClosed?
  {
  }

  // ---------- the objects ----------

  class GenerationRegistry {
    var current: map<int, FdIdentity>
    var retired: set<FdIdentity>
    var runs: seq<CloserRun>

    constructor ()
      ensures View() == EMPTY
    {
      current, retired, runs := map[], {}, [];
    }

    function View(): Ledger
      reads this
    {
      Ledger(current, retired, runs)
    }

    method Register(id: FdIdentity)
      modifies this
      ensures View() == Registered(old(View()), id)
    {
      if id.number in current {
        retired := retired + {current[id.number]};
      }
      current := current[id.number := id];
    }

    method Retire(id: FdIdentity)
      modifies this
      ensures View() == Retired(old(View()), id)
    {
      if id.number in current && current[id.number] == id {
        current := current - {id.number};
      }
      retired := retired + {id};
    }

    /** The closer may give any answer; `answer` records which. */
    method Close(id: FdIdentity) returns (failure: Option<Failure>, ghost answer: CloserAnswer)
      modifies this
      ensures (View(), failure) == CloseIdentity(old(View()), id, answer)
    {
      answer := Closes;
      if !(id.number in current && current[id.number] == id) {
        return Some(Stale), answer;
      }
      var given: CloserAnswer := *;
      answer := given;
      runs := runs + [CloserRun(id, given)];
      match given
      case Closes =>
        Retire(id);
        failure := None;
      case AsksRetry =>
        failure := Some(Cleanup);
      case _ =>
        Retire(id);
        failure := Some(Indeterminate);
    }
  }

  class OwnedEndpoint {
    const registry: GenerationRegistry
    var identity: Option<FdIdentity>
    var state: EndpointState
    var error: Option<Failure>

    constructor (id: FdIdentity, registry: GenerationRegistry)
      ensures this.registry == registry && View() == EndpointView(Some(id), EndpointOpen, None)
    {
      this.registry := registry;
      identity, state, error := Some(id), EndpointOpen, None;
    }

    function View(): EndpointView
      reads this
    {
      EndpointView(identity, state, error)
    }

    /** Whether a transfer of the pair may carry this end along. */
    function MayTransfer(): bool
      reads this, registry
    {
      state.EndpointOpen? && identity.Some? && IsCurrent(registry.View(), identity.value)
    }

    method Close() returns (failure: Option<Failure>, ghost answer: CloserAnswer)
      requires EndpointOk(View())
      modifies this, registry
      ensures (View(), registry.View(), failure) == CloseEndpoint(old(View()), old(registry.View()), answer)
    {
      answer := Closes;
      if state.EndpointClosed? {
        return None, answer;
      }
      if state.EndpointTerminal? {
        return error, answer;
      }
      state := EndpointClosing;
      failure, answer := registry.Close(identity.value);
      if failure == Some(Stale) || failure == Some(Indeterminate) {
        state, error := EndpointTerminal, failure;
      } else if failure == Some(Cleanup) {
        state := EndpointBroken;
      } else {
        identity, state := None, EndpointClosed;
      }
    }
  }

  class IpcPair {
    const read: OwnedEndpoint
    const write: OwnedEndpoint
    const registry: GenerationRegistry
    var owner: Option<nat>
    var state: PairState

    constructor (r: FdIdentity, w: FdIdentity, owner: nat, registry: GenerationRegistry)
      ensures Valid() && fresh(read) && fresh(write) && this.registry == registry
      ensures View() == PairView(EndpointView(Some(r), EndpointOpen, None), EndpointView(Some(w), EndpointOpen, None), Some(owner), PairOpen)
    {
      this.read := new OwnedEndpoint(r, registry);
      this.write := new OwnedEndpoint(w, registry);
      this.registry := registry;
      this.owner, this.state := Some(owner), PairOpen;
    }

    ghost predicate Valid()
      reads this, read, write
    {
      && read != write && read.registry == registry && write.registry == registry
      && PairOk(View())
    }

    function View(): PairView
      reads this, read, write
    {
      PairView(read.View(), write.View(), owner, state)
    }

    /** Ownership moves only between live ends of an open pair, and nothing else changes. */
    method Transfer(previous: nat, next: nat) returns (failure: Option<Failure>)
      requires Valid()
      modifies this
      ensures Valid()
      ensures failure.None? <==> old(state).PairOpen? && old(owner) == Some(previous) && read.MayTransfer() && write.MayTransfer()
      ensures View() == if failure.None? then old(View()).(owner := Some(next)) else old(View())
    {
      if !state.PairOpen? || owner != Some(previous) || !read.MayTransfer() || !write.MayTransfer() {
        return Some(Ownership);
      }
      owner := Some(next);
      failure := None;
    }

    method CloseEnd(end: OwnedEndpoint) returns (failure: Option<Failure>, ghost answer: CloserAnswer)
      requires EndpointOk(end.View())
      modifies end, end.registry
      ensures (end.View(), end.registry.View(), failure) == CloseUnlessTerminal(old(end.View()), old(end.registry.View()), answer)
    {
      failure, answer := None, Closes;
      if !end.state.EndpointTerminal? {
        failure, answer := end.Close();
      }
    }

    method Close(closer: nat) returns (failure: Option<Failure>, ghost writeAnswer: CloserAnswer, ghost readAnswer: CloserAnswer)
      requires Valid()
      modifies this, read, write, registry
      ensures Valid()
      ensures (View(), registry.View(), failure) == ClosePair(old(View()), old(registry.View()), closer, writeAnswer, readAnswer)
    {
      writeAnswer, readAnswer := Closes, Closes;
      if state.PairClosed? {
        return None, writeAnswer, readAnswer;
      }
      if owner != Some(closer) {
        return Some(Ownership), writeAnswer, readAnswer;
      }
      state := PairClosing;
      var fw, fr;
      fw, writeAnswer := CloseEnd(write);
      fr, readAnswer := CloseEnd(read);
      failure := Worst(fw, fr);
      if failure.Some? {
        state := PairBroken;
      } else {
        owner, state := None, PairClosed;
      }
    }
  }

  /** A pair is built only from two fresh identities of different numbers. */
  method NewIpcPair(read: FdIdentity, write: FdIdentity, owner: nat, registry: GenerationRegistry) returns (pair: Option<IpcPair>)
    modifies registry
    ensures registry.View() == Apply(old(registry.View()), NewPair(read, write))
    ensures pair.Some? <==> PairFits(old(registry.View()), read, write)
    ensures pair.Some? ==>
      && fresh(pair.value) && fresh(pair.value.read) && fresh(pair.value.write) && pair.value.Valid()
      && pair.value.registry == registry && DistinctEnds(pair.value.View())
      && pair.value.View() == PairView(EndpointView(Some(read), EndpointOpen, None), EndpointView(Some(write), EndpointOpen, None), Some(owner), PairOpen)
  {
    if !PairFits(registry.View(), read, write) {
      return None;
    }
    registry.Register(read);
    registry.Register(write);
    var p := new IpcPair(read, write, owner, registry);
    pair := Some(p);
  }
}
