/**
 The cross-process refresh protocol of one cache key: a named mutex, a marker file that
 names the current claim, and a cache file.  Every shared access of a coordinator is one
 step, so any number of processes may interleave and any of them may crash between two
 steps.  Answers of the operating system are parts of the event.
 */
module RefreshProtocol {
  import opened Wrappers

  /** A process is named by its pid together with its creation token. */
  datatype Identity = Identity(pid: nat, token: string)

  datatype Claim = Claim(generation: nat, owner: Identity)

  /** The marker document; an inactive marker has pid 0 and an empty token. */
  datatype Marker = Marker(generation: nat, owner: Identity)

  const NOBODY := Identity(0, "")
  const MAX_TOKEN_LENGTH := 128

  /** What the marker document check accepts. */
  predicate ValidMarker(m: Marker) {
    && 0 < m.generation
    && |m.owner.token| <= MAX_TOKEN_LENGTH
    && (m.owner.pid == 0 <==> m.owner.token == "")
  }

  function Active(c: Claim): Marker {
    Marker(c.generation, c.owner)
  }

  function Inactive(generation: nat): Marker {
    Marker(generation, NOBODY)
  }

  predicate SameClaim(file: Option<Marker>, c: Claim) {
    file.Some? && file.value.generation == c.generation && file.value.owner == c.owner
  }

  function FileGeneration(file: Option<Marker>): nat {
    if file.None? then 0 else file.value.generation
  }

  // ---------- liveness oracle ----------

  datatype TokenAnswer = Unavailable | Missing | Token(token: string)

  datatype OwnerState = OwnerAlive | OwnerDead | OwnerUnknown

  function JudgeOwner(m: Marker, answer: TokenAnswer): OwnerState {
    if m.owner.pid == 0 || m.owner.token == "" then OwnerUnknown
    else match answer
      case Unavailable => OwnerUnknown
      case Missing => OwnerDead
      case Token(t) =>
        if t == "" then OwnerUnknown
        else if t == m.owner.token then OwnerAlive
        else OwnerDead
  }

  // ---------- one coordinator ----------

  /** A guard lease object: mutex ownership and the native handle are given up separately. */
  datatype Lease = Lease(owned: bool, closed: bool)

  /** What the holder of the key lease decided before giving the lease up. */
  datatype Decision = Hit | Failed | Wait | Granted(claim: Claim)

  /** Where a coordinator stands inside `get_or_refresh`. */
  datatype Phase =
    | Idle
    | Entering
    | Loop
    | Inspecting
    | Recovering
    | RecoverWriting(stale: Claim)
    | RecoverClosing(recovered: bool)
    | LoadingLocked
    | ReadingState
    | Asking(seen: Marker)
    | Claiming(base: nat)
    | WritingClaim(claim: Claim)
    | Releasing(decision: Decision)
    | Producing(claim: Claim)
    | Finishing(claim: Claim, document: bool)
    | FinishReading(claim: Claim, document: bool)
    | Publishing(claim: Claim)
    | Deactivating(claim: Claim, published: bool)
    | FinishClosing(claim: Claim, published: bool)

  datatype Agent = Agent(
    self: Identity,
    alive: bool,
    phase: Phase,
    attemptsLeft: nat,
    lease: Option<Lease>,
    pendingClaim: Option<Claim>,
    producerRuns: nat)

  /** `granted`, `published` and `confirmed` record, in order, the claims a coordinator was
      granted, the claims under which the cache file was replaced, and the claims whose call
      returned its bytes as published. */
  datatype State = State(
    agents: map<nat, Agent>,
    mutex: Option<nat>,
    marker: Option<Marker>,
    granted: seq<Claim>,
    published: seq<Claim>,
    confirmed: seq<Claim>)

  const INIT := State(map[], None, None, [], [], [])

  datatype Action =
    | Enter(attempts: nat)
    | GiveUp
    | Proceed
    | Load(hit: bool)
    | TakeGuard(acquired: bool)
    | CloseLease(releaseOk: bool, closeOk: bool)
    | ReadMarker(readable: bool)
    | Probe(answer: TokenAnswer)
    | OwnToken(own: Option<string>)
    | WriteMarker(applied: bool, reported: bool)
    | ReplaceCache(replaced: bool, acknowledged: bool)
    | ProducerReturns(bytes: bool)

  datatype Event =
    | Spawn(who: nat, self: Identity)
    | Crash(who: nat)
    | Step(who: nat, action: Action)

  /** The lease after one pass of the retryable release-then-close. */
  function CloseOnce(l: Lease, releaseOk: bool, closeOk: bool): Lease {
    var owned := l.owned && !releaseOk;
    Lease(owned, l.closed || (!owned && closeOk))
  }

  predicate Finalized(l: Lease) {
    !l.owned && l.closed
  }

  predicate Enabled(s: State, e: Event) {
    match e
    case Spawn(p, id) => p !in s.agents
    case Crash(p) => p in s.agents && s.agents[p].alive
    case Step(p, a) => p in s.agents && s.agents[p].alive && CanAct(s, p, a)
  }

  predicate CanAct(s: State, p: nat, a: Action)
    requires p in s.agents
  {
    var g := s.agents[p];
    match g.phase
    case Idle => a.Enter? && 0 < a.attempts
    case Entering =>
      if g.pendingClaim.Some? then a.Proceed?
      else if g.lease.Some? then a.CloseLease?
      else a.Load?
    case Loop => a.GiveUp? || (a.Proceed? && 0 < g.attemptsLeft)
    case Inspecting =>
      if g.lease.Some? then a.CloseLease?
      else a.TakeGuard? && (a.acquired ==> s.mutex.None?)
    case Recovering => a.ReadMarker?
    case RecoverWriting(c) => a.WriteMarker? && HonestWrite(a, Inactive(c.generation))
    case RecoverClosing(_) => a.CloseLease?
    case LoadingLocked => a.Load?
    case ReadingState => a.ReadMarker?
    case Asking(_) => a.Probe?
    case Claiming(_) => a.OwnToken?
    case WritingClaim(c) => a.WriteMarker? && HonestWrite(a, Active(c))
    case Releasing(_) => a.CloseLease?
    case Producing(_) => a.ProducerReturns?
    case Finishing(_, _) => a.TakeGuard? && (a.acquired ==> s.mutex.None?)
    case FinishReading(_, _) => a.ReadMarker?
    case Publishing(_) => a.ReplaceCache? && (a.acknowledged ==> a.replaced)
    case Deactivating(c, _) => a.WriteMarker? && HonestWrite(a, Inactive(c.generation))
    case FinishClosing(_, _) => a.CloseLease?
  }

  /** A write that reports success took effect; one that reports failure may have taken effect
      as well.  An invalid document never reaches the disk. */
  predicate HonestWrite(a: Action, m: Marker)
    requires a.WriteMarker?
  {
    (a.reported ==> a.applied) && (a.applied ==> ValidMarker(m))
  }

  function Next(s: State, e: Event): State
    requires Enabled(s, e)
  {
    match e
    case Spawn(p, id) =>
      s.(agents := s.agents[p := Agent(id, true, Idle, 0, None, None, 0)])
    case Crash(p) =>
      s.(agents := s.agents[p := s.agents[p].(alive := false)],
         mutex := if s.mutex == Some(p) then None else s.mutex)
    case Step(p, a) => Act(s, p, a)
  }

  function Put(s: State, p: nat, g: Agent): State {
    s.(agents := s.agents[p := g])
  }

  function Act(s: State, p: nat, a: Action): State
    requires p in s.agents && CanAct(s, p, a)
  {
    var g := s.agents[p];
    match g.phase
    case Idle =>
      Put(s, p, g.(phase := Entering, attemptsLeft := a.attempts, producerRuns := 0))
    case Entering =>
      if a.Proceed? then Put(s, p, g.(phase := Loop))
      else if a.CloseLease? then CloseThen(s, p, a, Entering, Idle)
      else Put(s, p, g.(phase := if a.hit then Idle else Loop))
    case Loop =>
      if a.GiveUp? then Put(s, p, g.(phase := Idle))
      else Put(s, p, g.(phase := Inspecting, attemptsLeft := g.attemptsLeft - 1))
    case Inspecting =>
      if a.CloseLease? then CloseThen(s, p, a, Inspecting, Idle)
      else if !a.acquired then Put(s, p, g.(phase := Idle))
      else Take(s, p, if g.pendingClaim.Some? then Recovering else LoadingLocked)
    case Recovering =>
      var matches := a.readable && g.pendingClaim.Some? && SameClaim(s.marker, g.pendingClaim.value);
      Put(s, p, g.(phase := if matches then RecoverWriting(g.pendingClaim.value) else RecoverClosing(a.readable)))
    case RecoverWriting(c) =>
      Write(s, p, a, Inactive(c.generation), g.(phase := RecoverClosing(a.reported)))
    case RecoverClosing(recovered) =>
      var s' := CloseThen(s, p, a, if recovered then Inspecting else Idle, Idle);
      if recovered && Closes(g, a) then
        Put(s', p, s'.agents[p].(pendingClaim := None))
      else s'
    case LoadingLocked =>
      Put(s, p, g.(phase := if a.hit then Releasing(Hit) else ReadingState))
    case ReadingState =>
      Put(s, p, g.(phase :=
        if !a.readable then Releasing(Failed)
        else if s.marker.Some? && 0 < s.marker.value.owner.pid then Asking(s.marker.value)
        else Claiming(FileGeneration(s.marker))))
    case Asking(m) =>
      Put(s, p, g.(phase := match JudgeOwner(m, a.answer)
        case OwnerAlive => Releasing(Wait)
        case OwnerUnknown => Releasing(Failed)
        case OwnerDead => Claiming(m.generation)))
    case Claiming(base) =>
      Put(s, p, g.(phase :=
        if a.own.None? || a.own.value == "" then Releasing(Failed)
        else WritingClaim(Claim(base + 1, Identity(g.self.pid, a.own.value)))))
    case WritingClaim(c) =>
      Write(s, p, a, Active(c), g.(phase := Releasing(if a.reported then Granted(c) else Failed)))
    case Releasing(d) =>
      var s' := CloseThen(s, p, a, if d.Wait? then Loop else Idle, Idle);
      if !d.Granted? then s'
      else if Closes(g, a) then
        Put(s', p, s'.agents[p].(phase := Producing(d.claim), producerRuns := g.producerRuns + 1))
        .(granted := s.granted + [d.claim])
      else Put(s', p, s'.agents[p].(pendingClaim := Some(d.claim)))
    case Producing(c) =>
      Put(s, p, g.(phase := Finishing(c, a.bytes)))
    case Finishing(c, document) =>
      if a.acquired then Take(s, p, FinishReading(c, document))
      else Put(s, p, g.(phase := Idle, pendingClaim := Some(c)))
    case FinishReading(c, document) =>
      Put(s, p, g.(phase :=
        if !(a.readable && SameClaim(s.marker, c)) then FinishClosing(c, false)
        else if document then Publishing(c)
        else Deactivating(c, false)))
    case Publishing(c) =>
      Put(s, p, g.(phase := Deactivating(c, a.acknowledged)))
      .(published := if a.replaced then s.published + [c] else s.published)
    case Deactivating(c, published) =>
      Write(s, p, a, Inactive(c.generation),
            if a.reported then g.(phase := FinishClosing(c, published))
            else g.(phase := FinishClosing(c, false), pendingClaim := Some(c)))
    case FinishClosing(c, published) =>
      CloseThen(s, p, a, Idle, Idle)
      .(confirmed := if published && Closes(g, a) then s.confirmed + [c] else s.confirmed)
  }

  /** The key mutex is taken; an abandoned one counts as free. */
  function Take(s: State, p: nat, phase: Phase): State
    requires p in s.agents
  {
    s.(agents := s.agents[p := s.agents[p].(phase := phase, lease := Some(Lease(true, false)))],
       mutex := Some(p))
  }

  predicate Closes(g: Agent, a: Action)
    requires a.CloseLease?
  {
    g.lease.Some? ==> Finalized(CloseOnce(g.lease.value, a.releaseOk, a.closeOk))
  }

  /** One attempt to close the lease; a lease that is not finalized is retained. */
  function CloseThen(s: State, p: nat, a: Action, done: Phase, stuck: Phase): State
    requires p in s.agents && a.CloseLease?
  {
    var g := s.agents[p];
    if g.lease.None? then Put(s, p, g.(phase := done))
    else
      var l := CloseOnce(g.lease.value, a.releaseOk, a.closeOk);
      s.(agents := s.agents[p := if Finalized(l) then g.(lease := None, phase := done)
                                 else g.(lease := Some(l), phase := stuck)],
         mutex := if g.lease.value.owned && !l.owned then None else s.mutex)
  }

  function Write(s: State, p: nat, a: Action, m: Marker, g: Agent): State
    requires a.WriteMarker?
  {
    s.(agents := s.agents[p := g], marker := if a.applied then Some(m) else s.marker)
  }

  // ---------- runs ----------

  /** What a truthful system may answer about a process that runs: nothing, or its own token. */
  predicate TruthfulAbout(id: Identity, answer: TokenAnswer) {
    answer.Unavailable? || (answer.Token? && (answer.token == "" || answer.token == id.token))
  }

  /** Answers about live processes are truthful, a process learns its own token, and a reused pid comes
      with a fresh creation token. */
  ghost predicate Honest(s: State, e: Event) {
    match e
    case Spawn(_, id) => forall q | q in s.agents :: s.agents[q].self != id
    case Crash(_) => true
    case Step(p, a) =>
      p in s.agents ==>
        && (a.Probe? && s.agents[p].phase.Asking? ==>
              forall q: nat | q in s.agents && s.agents[q].alive && s.agents[q].self == s.agents[p].phase.seen.owner ::
                TruthfulAbout(s.agents[q].self, a.answer))
        && (a.OwnToken? && a.own.Some? ==> a.own.value == s.agents[p].self.token)
  }

  ghost predicate Run(from: State, events: seq<Event>, to: State)
    decreases |events|
  {
    if events == [] then to == from
    else Enabled(from, events[0]) && Run(Next(from, events[0]), events[1..], to)
  }

  ghost predicate HonestRun(from: State, events: seq<Event>, to: State)
    decreases |events|
  {
    if events == [] then to == from
    else Enabled(from, events[0]) && Honest(from, events[0]) && HonestRun(Next(from, events[0]), events[1..], to)
  }

  // ---------- mutual exclusion of the critical sections ----------

  predicate Critical(f: Phase) {
    || f.Recovering? || f.RecoverWriting? || f.RecoverClosing? || f.LoadingLocked? || f.ReadingState?
    || f.Asking? || f.Claiming? || f.WritingClaim? || f.Releasing? || f.FinishReading?
    || f.Publishing? || f.Deactivating? || f.FinishClosing?
  }

  predicate Owns(g: Agent) {
    g.alive && g.lease.Some? && g.lease.value.owned
  }

  /** A live coordinator owns the mutex exactly when the mutex says so, and is inside a critical
      section only while it owns it. */
  predicate MutexOk(p: nat, g: Agent, mutex: Option<nat>) {
    && (Owns(g) <==> mutex == Some(p))
    && (g.alive && Critical(g.phase) ==> Owns(g))
  }

  ghost predicate MutexInv(s: State) {
    && (forall p: nat | p in s.agents :: MutexOk(p, s.agents[p], s.mutex))
    && (s.mutex.Some? ==> s.mutex.value in s.agents)
  }

  lemma MutexLocal(s: State, p: nat, a: Action)
    requires p in s.agents && s.agents[p].alive && CanAct(s, p, a) && MutexOk(p, s.agents[p], s.mutex)
    ensures var s' := Act(s, p, a);
      && p in s'.agents && s'.agents == s.agents[p := s'.agents[p]]
      && s'.agents[p].self == s.agents[p].self && s'.agents[p].alive
      && MutexOk(p, s'.agents[p], s'.mutex)
      && (s'.mutex == s.mutex || (s.mutex == None && s'.mutex == Some(p)) || (s.mutex == Some(p) && s'.mutex == None))
  {
    match s.agents[p].phase
    case Entering =>
    case Inspecting =>
    case RecoverClosing(_) =>
    case Releasing(_) =>
    case _ =>
  }

  lemma MutexStep(s: State, e: Event)
    requires MutexInv(s) && Enabled(s, e)
    ensures MutexInv(Next(s, e))
  {
    if e.Step? {
      MutexLocal(s, e.who, e.action);
    }
  }

  // ---------- authority ----------

  /** The claim a coordinator was or is about to be granted and has not yet finished with. */
  function HeldClaim(f: Phase): Option<Claim> {
    match f
    case Releasing(d) => if d.Granted? then Some(d.claim) else None
    case Producing(c) => Some(c)
    case Finishing(c, _) => Some(c)
    case FinishReading(c, _) => Some(c)
    case Publishing(c) => Some(c)
    case Deactivating(c, _) => Some(c)
    case _ => None
  }

  /** Holders that have not reached their one cache replacement. */
  predicate BeforePublication(f: Phase) {
    HeldClaim(f).Some? && !f.Deactivating?
  }

  predicate StrictlyIncreasing(cs: seq<Claim>) {
    forall i, j | 0 <= i < j < |cs| :: cs[i].generation < cs[j].generation
  }

  predicate Bounded(cs: seq<Claim>, top: nat) {
    forall i | 0 <= i < |cs| :: cs[i].generation <= top
  }

  /** What a step relies on having read stays true until it writes. */
  predicate ReadStillTrue(f: Phase, marker: Option<Marker>) {
    match f
    case Asking(m) => marker == Some(m)
    case Claiming(base) => FileGeneration(marker) == base
    case WritingClaim(c) => c.generation == FileGeneration(marker) + 1
    case Releasing(d) => d.Granted? ==> marker == Some(Active(d.claim))
    case RecoverWriting(c) => marker == Some(Active(c))
    case Publishing(c) => marker == Some(Active(c))
    case Deactivating(c, _) => marker == Some(Active(c))
    case _ => true
  }

  /** How one step of `p` may change the marker, its own claim and the logs. */
  ghost predicate AuthorityMove(s: State, p: nat, s': State)
    requires p in s.agents && p in s'.agents
  {
    var f, f' := s.agents[p].phase, s'.agents[p].phase;
    && FileGeneration(s.marker) <= FileGeneration(s'.marker)
    && (s'.marker != s.marker ==> Owns(s.agents[p]))
    && ReadStillTrue(f', s'.marker)
    && (HeldClaim(f').Some? ==>
          if f.WritingClaim? then HeldClaim(f').value.generation == FileGeneration(s'.marker) == FileGeneration(s.marker) + 1
          else HeldClaim(f) == HeldClaim(f') && (BeforePublication(f') ==> BeforePublication(f)))
    && (if f.Releasing? && f.decision.Granted? && f'.Producing? then s'.granted == s.granted + [f.decision.claim]
        else s'.granted == s.granted)
    && (f'.Releasing? && f'.decision.Granted? ==> f.WritingClaim?)
    && (s'.published == s.published
        || (f.Publishing? && f'.Deactivating? && s'.published == s.published + [f.claim]))
  }

  lemma AuthorityLocal(s: State, p: nat, a: Action)
    requires p in s.agents && s.agents[p].alive && CanAct(s, p, a) && MutexOk(p, s.agents[p], s.mutex)
    requires ReadStillTrue(s.agents[p].phase, s.marker)
    ensures p in Act(s, p, a).agents && AuthorityMove(s, p, Act(s, p, a))
  {
    MutexLocal(s, p, a);
    match s.agents[p].phase
    case Releasing(_) =>
    case WritingClaim(_) =>
    case Publishing(_) =>
    case Deactivating(_, _) =>
    case RecoverWriting(_) =>
    case _ =>
  }

  ghost predicate ClaimsOk(s: State) {
    && (forall p: nat | p in s.agents && HeldClaim(s.agents[p].phase).Some? ::
          HeldClaim(s.agents[p].phase).value.generation <= FileGeneration(s.marker))
    && (forall p: nat, q: nat | p in s.agents && q in s.agents && p != q
          && HeldClaim(s.agents[p].phase).Some? && HeldClaim(s.agents[q].phase).Some? ::
          HeldClaim(s.agents[p].phase).value.generation != HeldClaim(s.agents[q].phase).value.generation)
  }

  /** Claims not yet granted, or not yet published, do not occur in the respective log. */
  ghost predicate LogsOk(s: State) {
    && (forall p: nat, i | p in s.agents && BeforePublication(s.agents[p].phase) && 0 <= i < |s.published| ::
          s.published[i].generation != HeldClaim(s.agents[p].phase).value.generation)
    && (forall p: nat, i | p in s.agents && s.agents[p].phase.Releasing? && s.agents[p].phase.decision.Granted? && 0 <= i < |s.granted| ::
          s.granted[i].generation != s.agents[p].phase.decision.claim.generation)
  }

  ghost predicate AuthorityInv(s: State) {
    && (forall p: nat | p in s.agents && s.agents[p].alive :: ReadStillTrue(s.agents[p].phase, s.marker))
    && ClaimsOk(s) && LogsOk(s)
    && StrictlyIncreasing(s.granted) && Bounded(s.granted, FileGeneration(s.marker))
    && StrictlyIncreasing(s.published) && Bounded(s.published, FileGeneration(s.marker))
  }

  ghost predicate Moved(s: State, p: nat, s': State) {
    && p in s.agents && p in s'.agents && s.agents[p].alive
    && s'.agents == s.agents[p := s'.agents[p]]
    && AuthorityMove(s, p, s')
  }

  lemma ReadsStep(s: State, p: nat, s': State)
    requires Moved(s, p, s') && MutexInv(s) && AuthorityInv(s)
    ensures forall q: nat | q in s'.agents && s'.agents[q].alive :: ReadStillTrue(s'.agents[q].phase, s'.marker)
  {
  }

  lemma ClaimsStep(s: State, p: nat, s': State)
    requires Moved(s, p, s') && ClaimsOk(s)
    ensures ClaimsOk(s')
  {
    forall q: nat | q in s'.agents && HeldClaim(s'.agents[q].phase).Some?
      ensures HeldClaim(s'.agents[q].phase).value.generation <= FileGeneration(s'.marker)
      ensures q != p ==> HeldClaim(s'.agents[q].phase).value.generation <= FileGeneration(s.marker)
    {
    }
  }

  lemma LogsStep(s: State, p: nat, s': State)
    requires Moved(s, p, s') && AuthorityInv(s)
    ensures LogsOk(s')
  {
    forall q: nat, i | q in s'.agents && BeforePublication(s'.agents[q].phase) && 0 <= i < |s'.published|
      ensures s'.published[i].generation != HeldClaim(s'.agents[q].phase).value.generation
    {
      if i < |s.published| {
        assert s'.published[i] == s.published[i];
      } else {
        assert q in s.agents && s'.agents[q].phase == s.agents[q].phase;
        assert HeldClaim(s.agents[p].phase).Some?;
      }
    }
    forall q: nat, i | q in s'.agents && s'.agents[q].phase.Releasing? && s'.agents[q].phase.decision.Granted? && 0 <= i < |s'.granted|
      ensures s'.granted[i].generation != s'.agents[q].phase.decision.claim.generation
    {
      if i < |s.granted| {
        assert s'.granted[i] == s.granted[i];
      } else {
        assert q in s.agents && s'.agents[q].phase == s.agents[q].phase;
        assert HeldClaim(s.agents[q].phase).Some? && HeldClaim(s.agents[p].phase).Some?;
      }
    }
  }

  lemma OrderStep(s: State, p: nat, s': State)
    requires Moved(s, p, s') && AuthorityInv(s)
    ensures StrictlyIncreasing(s'.granted) && Bounded(s'.granted, FileGeneration(s'.marker))
    ensures StrictlyIncreasing(s'.published) && Bounded(s'.published, FileGeneration(s'.marker))
  {
    var f := s.agents[p].phase;
    if f.Publishing? {
      assert forall i | 0 <= i < |s.published| :: s.published[i].generation < f.claim.generation;
    }
    if f.Releasing? && f.decision.Granted? {
      assert forall i | 0 <= i < |s.granted| :: s.granted[i].generation < f.decision.claim.generation;
    }
  }

  lemma AuthorityStep(s: State, e: Event)
    requires MutexInv(s) && AuthorityInv(s) && Enabled(s, e)
    ensures AuthorityInv(Next(s, e))
    ensures FileGeneration(s.marker) <= FileGeneration(Next(s, e).marker)
  {
    if e.Step? {
      var p, s' := e.who, Next(s, e);
      MutexLocal(s, p, e.action);
      AuthorityLocal(s, p, e.action);
      ReadsStep(s, p, s');
      ClaimsStep(s, p, s');
      LogsStep(s, p, s');
      OrderStep(s, p, s');
    }
  }

  // ---------- provenance of the logs and one producer run per call ----------

  /** Phases of a call before its producer could have started. */
  predicate BeforeProducer(f: Phase) {
    !f.Idle? && !f.Producing? && !f.Finishing? && !f.FinishReading? && !f.Publishing? && !f.Deactivating? && !f.FinishClosing?
  }

  predicate CallOk(g: Agent, granted: seq<Claim>, published: seq<Claim>) {
    && g.producerRuns <= 1
    && (BeforeProducer(g.phase) ==> g.producerRuns == 0)
    && (match g.phase
        case Producing(c) => c in granted
        case Finishing(c, _) => c in granted
        case FinishReading(c, _) => c in granted
        case Publishing(c) => c in granted
        case Deactivating(c, done) => done ==> c in published
        case FinishClosing(c, done) => done ==> c in published
        case _ => true)
  }

  ghost predicate ProvenanceInv(s: State) {
    && (forall p: nat | p in s.agents :: CallOk(s.agents[p], s.granted, s.published))
    && (forall c | c in s.published :: c in s.granted)
    && (forall c | c in s.confirmed :: c in s.published)
  }

  lemma ProvenanceLocal(s: State, p: nat, a: Action)
    requires p in s.agents && CanAct(s, p, a) && CallOk(s.agents[p], s.granted, s.published)
    ensures var s' := Act(s, p, a);
      && p in s'.agents && s'.agents == s.agents[p := s'.agents[p]]
      && s.granted <= s'.granted && s.published <= s'.published && s.confirmed <= s'.confirmed
      && (s'.published != s.published ==> exists c :: s'.published == s.published + [c] && c in s.granted)
      && (s'.confirmed != s.confirmed ==> exists c :: s'.confirmed == s.confirmed + [c] && c in s.published)
  {
    match s.agents[p].phase
    case Publishing(c) => assert s.published + [c] != s.published ==> c in s.granted;
    case _ =>
  }

  lemma CallLocal(s: State, p: nat, a: Action)
    requires p in s.agents && CanAct(s, p, a) && CallOk(s.agents[p], s.granted, s.published)
    ensures var s' := Act(s, p, a); p in s'.agents && CallOk(s'.agents[p], s'.granted, s'.published)
  {
    match s.agents[p].phase
    case Releasing(_) =>
    case FinishClosing(c, _) =>
    case _ =>
  }

  lemma ProvenanceStep(s: State, e: Event)
    requires ProvenanceInv(s) && Enabled(s, e)
    ensures ProvenanceInv(Next(s, e))
  {
    if e.Step? {
      ProvenanceLocal(s, e.who, e.action);
      CallLocal(s, e.who, e.action);
      var s' := Next(s, e);
      forall q: nat | q in s'.agents ensures CallOk(s'.agents[q], s'.granted, s'.published) {
      }
    }
  }

  // ---------- single flight ----------

  predicate FlightOk(g: Agent, marker: Option<Marker>) {
    g.alive ==>
      && (HeldClaim(g.phase).Some? ==> marker == Some(Active(HeldClaim(g.phase).value)) && HeldClaim(g.phase).value.owner == g.self && 0 < g.self.pid)
      && (g.pendingClaim.Some? ==> g.pendingClaim.value.owner == g.self)
      && (g.phase.WritingClaim? ==> g.phase.claim.owner == g.self && g.self.token != "")
      && (g.phase.RecoverWriting? ==> g.phase.stale.owner == g.self)
  }

  ghost predicate NoLiveHolder(s: State) {
    forall p: nat | p in s.agents && s.agents[p].alive :: HeldClaim(s.agents[p].phase).None?
  }

  ghost predicate FlightInv(s: State) {
    && (forall p: nat, q: nat | p in s.agents && q in s.agents && p != q :: s.agents[p].self != s.agents[q].self)
    && (forall p: nat | p in s.agents :: FlightOk(s.agents[p], s.marker))
    && (forall p: nat | p in s.agents && s.agents[p].alive && (s.agents[p].phase.Claiming? || s.agents[p].phase.WritingClaim?) :: NoLiveHolder(s))
  }

  /** How an honest step of `p` may change the marker and its own claims. */
  ghost predicate FlightMove(s: State, p: nat, s': State)
    requires p in s.agents && p in s'.agents
  {
    var f, f' := s.agents[p].phase, s'.agents[p].phase;
    && s'.agents[p].self == s.agents[p].self
    && FlightOk(s'.agents[p], s'.marker)
    && (s'.marker != s.marker ==> Owns(s.agents[p]) && (f.WritingClaim? || (s.marker.Some? && s.marker.value.owner == s.agents[p].self)))
    && (HeldClaim(f').Some? ==> HeldClaim(f).Some? || f.WritingClaim?)
    && (f'.Claiming? || f'.WritingClaim? ==>
          && HeldClaim(f).None?
          && (f.Claiming? || (s.marker.Some? && 0 < s.marker.value.owner.pid ==>
                forall q: nat | q in s.agents && s.agents[q].alive :: s.agents[q].self != s.marker.value.owner)))
    && (f'.WritingClaim? ==> f.Claiming?)
  }

  lemma FlightLocal(s: State, p: nat, a: Action)
    requires p in s.agents && s.agents[p].alive && CanAct(s, p, a) && Honest(s, Step(p, a))
    requires MutexOk(p, s.agents[p], s.mutex) && ReadStillTrue(s.agents[p].phase, s.marker)
    requires FlightOk(s.agents[p], s.marker)
    ensures p in Act(s, p, a).agents && FlightMove(s, p, Act(s, p, a))
  {
    MutexLocal(s, p, a);
    match s.agents[p].phase
    case Releasing(_) =>
    case WritingClaim(_) =>
    case Asking(_) =>
    case Claiming(_) =>
    case Deactivating(_, _) =>
    case RecoverClosing(_) =>
    case _ =>
  }

  lemma FlightAgents(s: State, p: nat, s': State)
    requires Moved(s, p, s') && MutexInv(s) && AuthorityInv(s) && FlightInv(s) && FlightMove(s, p, s')
    requires MutexInv(s')
    ensures FlightInv(s')
  {
    var f, f' := s.agents[p].phase, s'.agents[p].phase;
    forall q: nat | q in s'.agents ensures FlightOk(s'.agents[q], s'.marker) {
      if q != p && s.agents[q].alive && HeldClaim(s.agents[q].phase).Some? && s'.marker != s.marker {
      }
    }
    forall q: nat | q in s'.agents && s'.agents[q].alive && (s'.agents[q].phase.Claiming? || s'.agents[q].phase.WritingClaim?)
      ensures NoLiveHolder(s')
    {
      forall r: nat | r in s'.agents && s'.agents[r].alive ensures HeldClaim(s'.agents[r].phase).None? {
        if q == p {
        } else {
          assert NoLiveHolder(s);
          assert !Owns(s.agents[p]);
        }
      }
    }
  }

  lemma FlightStep(s: State, e: Event)
    requires MutexInv(s) && AuthorityInv(s) && FlightInv(s) && Enabled(s, e) && Honest(s, e)
    ensures FlightInv(Next(s, e))
  {
    match e
    case Spawn(_, _) =>
    case Crash(_) =>
    case Step(p, a) =>
      MutexLocal(s, p, a);
      MutexStep(s, e);
      AuthorityLocal(s, p, a);
      FlightLocal(s, p, a);
      FlightAgents(s, p, Next(s, e));
  }

  // ---------- single flight when only live producers are never called dead ----------

  /** Only answers about live producers have to be truthful. */
  ghost predicate Fair(s: State, e: Event) {
    match e
    case Spawn(_, id) => forall q: nat | q in s.agents :: s.agents[q].self != id
    case Crash(_) => true
    case Step(p, a) =>
      p in s.agents ==>
        && (a.Probe? && s.agents[p].phase.Asking? ==>
              NoneProducesAs(s, s.agents[p].phase.seen.owner) || TruthfulAbout(s.agents[p].phase.seen.owner, a.answer))
        && (a.OwnToken? && a.own.Some? ==> a.own.value == s.agents[p].self.token)
  }

  ghost predicate NoneProducesAs(s: State, id: Identity) {
    forall q: nat | q in s.agents && s.agents[q].alive && s.agents[q].phase.Producing? :: s.agents[q].self != id
  }

  ghost predicate FairRun(from: State, events: seq<Event>, to: State)
    decreases |events|
  {
    if events == [] then to == from
    else Enabled(from, events[0]) && Fair(from, events[0]) && FairRun(Next(from, events[0]), events[1..], to)
  }

  /** Answers truthful about every live process are truthful about every live producer. */
  lemma {:induction false} HonestRunIsFair(from: State, events: seq<Event>, to: State)
    requires HonestRun(from, events, to)
    ensures FairRun(from, events, to)
    decreases |events|
  {
    if events != [] {
      HonestRunIsFair(Next(from, events[0]), events[1..], to);
    }
  }

  /** The claim under which a process produces, or will as soon as its lease is closed. */
  function ProducerClaim(f: Phase): Option<Claim> {
    match f
    case Releasing(d) => if d.Granted? then Some(d.claim) else None
    case Producing(c) => Some(c)
    case _ => None
  }

  predicate FairOk(g: Agent, marker: Option<Marker>) {
    g.alive ==>
      && (ProducerClaim(g.phase).Some? ==> marker == Some(Active(ProducerClaim(g.phase).value)))
      && (HeldClaim(g.phase).Some? ==> HeldClaim(g.phase).value.owner == g.self && 0 < g.self.pid && g.self.token != "")
      && (g.pendingClaim.Some? ==> g.pendingClaim.value.owner == g.self)
      && (g.phase.WritingClaim? ==> g.phase.claim.owner == g.self && g.self.token != "")
      && (g.phase.RecoverWriting? ==> g.phase.stale.owner == g.self)
  }

  ghost predicate NoLiveProducer(s: State) {
    forall p: nat | p in s.agents && s.agents[p].alive :: ProducerClaim(s.agents[p].phase).None?
  }

  ghost predicate FairInv(s: State) {
    && (forall p: nat, q: nat | p in s.agents && q in s.agents && p != q :: s.agents[p].self != s.agents[q].self)
    && (forall p: nat | p in s.agents :: FairOk(s.agents[p], s.marker))
    && (forall p: nat | p in s.agents && s.agents[p].alive && (s.agents[p].phase.Claiming? || s.agents[p].phase.WritingClaim?) :: NoLiveProducer(s))
  }

  ghost predicate FairMove(s: State, p: nat, s': State)
    requires p in s.agents && p in s'.agents
  {
    var f, f' := s.agents[p].phase, s'.agents[p].phase;
    && s'.agents[p].self == s.agents[p].self
    && FairOk(s'.agents[p], s'.marker)
    && (s'.marker != s.marker ==> Owns(s.agents[p]) && (f.WritingClaim? || (s.marker.Some? && s.marker.value.owner == s.agents[p].self)))
    && (ProducerClaim(f').Some? ==> ProducerClaim(f).Some? || f.WritingClaim?)
    && (f'.Claiming? || f'.WritingClaim? ==>
          && Owns(s.agents[p]) && ProducerClaim(f).None?
          && (f.Claiming? || (s.marker.Some? && 0 < s.marker.value.owner.pid ==> NoneProducesAs(s, s.marker.value.owner))))
    && (f'.WritingClaim? ==> f.Claiming?)
  }

  lemma FairLocal(s: State, p: nat, a: Action)
    requires p in s.agents && s.agents[p].alive && CanAct(s, p, a) && Fair(s, Step(p, a))
    requires MutexOk(p, s.agents[p], s.mutex) && ReadStillTrue(s.agents[p].phase, s.marker)
    requires FairOk(s.agents[p], s.marker)
    ensures p in Act(s, p, a).agents && FairMove(s, p, Act(s, p, a))
  {
    MutexLocal(s, p, a);
    match s.agents[p].phase
    case Releasing(_) =>
    case WritingClaim(_) =>
    case Asking(_) =>
    case Claiming(_) =>
    case Deactivating(_, _) =>
    case RecoverClosing(_) =>
    case _ =>
  }

  lemma FairAgents(s: State, p: nat, s': State)
    requires Moved(s, p, s') && MutexInv(s) && FairInv(s) && FairMove(s, p, s') && MutexInv(s')
    ensures FairInv(s')
  {
    forall q: nat | q in s'.agents ensures FairOk(s'.agents[q], s'.marker) {
      if q != p && s.agents[q].alive && s'.marker != s.marker {
        assert FairOk(s.agents[q], s.marker);
      }
    }
    forall q: nat | q in s'.agents && s'.agents[q].alive && (s'.agents[q].phase.Claiming? || s'.agents[q].phase.WritingClaim?)
      ensures NoLiveProducer(s')
    {
      forall r: nat | r in s'.agents && s'.agents[r].alive ensures ProducerClaim(s'.agents[r].phase).None? {
        if q != p {
          assert NoLiveProducer(s) && !Owns(s.agents[p]);
        } else if r != p {
          assert FairOk(s.agents[r], s.marker) && MutexOk(r, s.agents[r], s.mutex);
        }
      }
    }
  }

  lemma FairStep(s: State, e: Event)
    requires MutexInv(s) && AuthorityInv(s) && FairInv(s) && Enabled(s, e) && Fair(s, e)
    ensures FairInv(Next(s, e))
  {
    if e.Step? {
      var Step(p, a) := e;
      MutexLocal(s, p, a);
      MutexStep(s, e);
      AuthorityLocal(s, p, a);
      FairLocal(s, p, a);
      FairAgents(s, p, Next(s, e));
    }
  }

  lemma {:induction false} FairRunKeeps(from: State, events: seq<Event>, to: State)
    requires MutexInv(from) && AuthorityInv(from) && ProvenanceInv(from) && FairInv(from)
    requires FairRun(from, events, to)
    ensures MutexInv(to) && AuthorityInv(to) && ProvenanceInv(to) && FairInv(to)
    decreases |events|
  {
    if events != [] {
      MutexStep(from, events[0]);
      AuthorityStep(from, events[0]);
      ProvenanceStep(from, events[0]);
      FairStep(from, events[0]);
      FairRunKeeps(Next(from, events[0]), events[1..], to);
    }
  }

  // ---------- main results, over every run ----------

  lemma {:induction false} RunKeepsAuthority(from: State, events: seq<Event>, to: State)
    requires MutexInv(from) && AuthorityInv(from) && ProvenanceInv(from) && Run(from, events, to)
    ensures MutexInv(to) && AuthorityInv(to) && ProvenanceInv(to)
    ensures FileGeneration(from.marker) <= FileGeneration(to.marker)
    decreases |events|
  {
    if events != [] {
      MutexStep(from, events[0]);
      AuthorityStep(from, events[0]);
      ProvenanceStep(from, events[0]);
      RunKeepsAuthority(Next(from, events[0]), events[1..], to);
    }
  }

  lemma {:induction false} HonestRunKeepsFlight(from: State, events: seq<Event>, to: State)
    requires MutexInv(from) && AuthorityInv(from) && ProvenanceInv(from) && FlightInv(from)
    requires HonestRun(from, events, to)
    ensures MutexInv(to) && AuthorityInv(to) && ProvenanceInv(to) && FlightInv(to)
    decreases |events|
  {
    if events != [] {
      MutexStep(from, events[0]);
      AuthorityStep(from, events[0]);
      ProvenanceStep(from, events[0]);
      FlightStep(from, events[0]);
      HonestRunKeepsFlight(Next(from, events[0]), events[1..], to);
    }
  }

  /** Single flight: as long as answers about live producers are truthful, the marker names exactly the
      claim of every live producer, so at most one producer runs; a call runs its producer at most once
      and only under a granted claim. */
  lemma SingleFlight(events: seq<Event>, s: State)
    requires FairRun(INIT, events, s)
    ensures forall p: nat | p in s.agents && s.agents[p].alive && s.agents[p].phase.Producing? ::
              && s.marker == Some(Active(s.agents[p].phase.claim))
              && s.agents[p].phase.claim.owner == s.agents[p].self
              && s.agents[p].phase.claim in s.granted
    ensures !TwoProducers(s)
    ensures forall p: nat | p in s.agents :: s.agents[p].producerRuns <= 1
  {
    FairRunKeeps(INIT, events, s);
    ProducersAreNamed(s);
    AtMostOneProducer(s);
  }

  /** Two live processes produce at once. */
  ghost predicate TwoProducers(s: State) {
    exists p: nat, q: nat | p in s.agents && q in s.agents ::
      p != q && s.agents[p].alive && s.agents[q].alive && s.agents[p].phase.Producing? && s.agents[q].phase.Producing?
  }

  lemma ProducersAreNamed(s: State)
    requires FairInv(s) && ProvenanceInv(s)
    ensures forall p: nat | p in s.agents && s.agents[p].alive && s.agents[p].phase.Producing? ::
              && s.marker == Some(Active(s.agents[p].phase.claim))
              && s.agents[p].phase.claim.owner == s.agents[p].self
              && s.agents[p].phase.claim in s.granted
  {
    forall p: nat | p in s.agents && s.agents[p].alive && s.agents[p].phase.Producing?
      ensures s.marker == Some(Active(s.agents[p].phase.claim)) && s.agents[p].phase.claim.owner == s.agents[p].self
      ensures s.agents[p].phase.claim in s.granted
    {
      assert FairOk(s.agents[p], s.marker) && CallOk(s.agents[p], s.granted, s.published);
    }
  }

  lemma AtMostOneProducer(s: State)
    requires FairInv(s)
    ensures !TwoProducers(s)
  {
    forall p: nat, q: nat | p in s.agents && q in s.agents && s.agents[p].alive && s.agents[q].alive
      && s.agents[p].phase.Producing? && s.agents[q].phase.Producing?
      ensures p == q
    {
      assert FairOk(s.agents[p], s.marker) && FairOk(s.agents[q], s.marker);
    }
  }

  /** While answers about all live processes are truthful, the marker names a claim from its writing until its
      holder is done with it, so a holder that finishes still finds its own claim. */
  lemma ClaimsStayNamed(events: seq<Event>, s: State, p: nat)
    requires HonestRun(INIT, events, s)
    requires p in s.agents && s.agents[p].alive && HeldClaim(s.agents[p].phase).Some?
    ensures s.marker == Some(Active(HeldClaim(s.agents[p].phase).value)) && s.marker.value.owner == s.agents[p].self
  {
    HonestRunKeepsFlight(INIT, events, s);
    assert FlightOk(s.agents[p], s.marker);
  }

  /** Publication authority, with an arbitrary oracle: granted claims have distinct, growing
      generations, publications carry strictly growing generations of granted claims, and a call
      reports its bytes as published only if the cache was replaced under its claim. */
  lemma PublicationAuthority(events: seq<Event>, s: State)
    requires Run(INIT, events, s)
    ensures StrictlyIncreasing(s.granted) && StrictlyIncreasing(s.published)
    ensures forall c | c in s.published :: c in s.granted
    ensures forall c | c in s.confirmed :: c in s.published
  {
    RunKeepsAuthority(INIT, events, s);
  }

  /** The marker generation never decreases between two states of a run. */
  lemma GenerationsNeverDecrease(before: seq<Event>, s: State, after: seq<Event>, t: State)
    requires Run(INIT, before, s) && Run(s, after, t)
    ensures FileGeneration(s.marker) <= FileGeneration(t.marker)
  {
    RunKeepsAuthority(INIT, before, s);
    RunKeepsAuthority(s, after, t);
  }

  /** Every cache replacement happens while the marker names the publisher's claim and the
      publisher owns the key mutex. */
  lemma ReplacedOnlyUnderClaim(events: seq<Event>, s: State, e: Event)
    requires Run(INIT, events, s) && Enabled(s, e) && Next(s, e).published != s.published
    ensures e.Step? && s.mutex == Some(e.who) && s.agents[e.who].phase.Publishing?
    ensures s.marker == Some(Active(s.agents[e.who].phase.claim))
    ensures Next(s, e).published == s.published + [s.agents[e.who].phase.claim]
    ensures Next(s, e).marker == s.marker
  {
    RunKeepsAuthority(INIT, events, s);
    if e.Step? {
      AuthorityLocal(s, e.who, e.action);
      assert MutexOk(e.who, s.agents[e.who], s.mutex);
    }
  }

  // ---------- honesty of the oracle is needed ----------

  lemma {:induction false} RunExtends(from: State, events: seq<Event>, to: State, e: Event)
    requires Run(from, events, to) && Enabled(to, e)
    ensures Run(from, events + [e], Next(to, e))
    decreases |events|
  {
    if events == [] {
      assert [e][1..] == [];
    } else {
      assert (events + [e])[1..] == events[1..] + [e];
      RunExtends(Next(from, events[0]), events[1..], to, e);
    }
  }

  lemma OneMore(from: State, events: seq<Event>, s: State, e: Event) returns (events': seq<Event>, s': State)
    requires Run(from, events, s) && Enabled(s, e)
    ensures Run(from, events', s') && s' == Next(s, e)
  {
    RunExtends(from, events, s, e);
    events', s' := events + [e], Next(s, e);
  }

  function Fresh(id: Identity, phase: Phase): Agent {
    Agent(id, true, phase, 0, None, None, 0)
  }

  function Inside(id: Identity, phase: Phase): Agent {
    Agent(id, true, phase, 0, Some(Lease(true, false)), None, 0)
  }

  lemma Advance(from: State, events: seq<Event>, s: State, p: nat, a: Action, g: Agent) returns (events': seq<Event>, s': State)
    requires Run(from, events, s) && p in s.agents && s.agents[p].alive && CanAct(s, p, a)
    requires Act(s, p, a) == Put(s, p, g)
    ensures Run(from, events', s') && s' == Put(s, p, g)
  {
    events', s' := OneMore(from, events, s, Step(p, a));
  }

  /** A call with an empty cache reaches the top of its inspection. */
  lemma ReachInspection(from: State, events: seq<Event>, s: State, p: nat, id: Identity) returns (events': seq<Event>, s': State)
    requires Run(from, events, s) && p !in s.agents
    ensures Run(from, events', s') && s' == Put(s, p, Fresh(id, Inspecting))
  {
    events', s' := OneMore(from, events, s, Spawn(p, id));
    events', s' := Advance(from, events', s', p, Enter(1), Fresh(id, Entering).(attemptsLeft := 1));
    events', s' := Advance(from, events', s', p, Load(false), Fresh(id, Loop).(attemptsLeft := 1));
    events', s' := Advance(from, events', s', p, Proceed, Fresh(id, Inspecting));
  }

  /** It then takes the mutex, misses the cache again and is about to read the marker. */
  lemma ReachMarker(from: State, events: seq<Event>, s: State, p: nat, id: Identity) returns (events': seq<Event>, s': State)
    requires Run(from, events, s) && p !in s.agents && s.mutex == None
    ensures Run(from, events', s')
    ensures s' == s.(agents := s.agents[p := Inside(id, ReadingState)], mutex := Some(p))
  {
    events', s' := ReachInspection(from, events, s, p, id);
    events', s' := OneMore(from, events', s', Step(p, TakeGuard(true)));
    assert s' == s.(agents := s.agents[p := Inside(id, LoadingLocked)], mutex := Some(p));
    events', s' := Advance(from, events', s', p, Load(false), Inside(id, ReadingState));
  }

  /** From a judged marker to the producer. */
  lemma ClaimAndProduce(from: State, events: seq<Event>, s: State, p: nat, id: Identity, base: nat) returns (events': seq<Event>, s': State)
    requires Run(from, events, s) && p in s.agents && s.agents[p] == Inside(id, Claiming(base)) && s.mutex == Some(p)
    requires 0 < id.pid && 0 < |id.token| <= MAX_TOKEN_LENGTH
    ensures Run(from, events', s')
    ensures var c := Claim(base + 1, id);
      s' == s.(agents := s.agents[p := Fresh(id, Producing(c)).(producerRuns := 1)], mutex := None,
               marker := Some(Active(c)), granted := s.granted + [c])
  {
    var c := Claim(base + 1, id);
    events', s' := OneMore(from, events, s, Step(p, OwnToken(Some(id.token))));
    assert s'.agents[p] == Inside(id, WritingClaim(c));
    events', s' := OneMore(from, events', s', Step(p, WriteMarker(true, true)));
    assert s'.agents[p] == Inside(id, Releasing(Granted(c)));
    events', s' := OneMore(from, events', s', Step(p, CloseLease(true, true)));
  }

  /** A process whose token the marker file can hold. */
  predicate Presentable(id: Identity) {
    0 < id.pid && 0 < |id.token| <= MAX_TOKEN_LENGTH
  }

  lemma FairRunFrom(s: State, e: Event, rest: seq<Event>, t: State)
    requires Enabled(s, e) && Fair(s, e) && FairRun(Next(s, e), rest, t)
    ensures FairRun(s, [e] + rest, t)
  {
    assert ([e] + rest)[1..] == rest;
  }

  /** Whoever has judged the marker reclaimable can go on to produce, and nobody else moves. */
  lemma ClaimantProduces(s: State, p: nat) returns (rest: seq<Event>, t: State)
    requires p in s.agents && s.agents[p].phase.Claiming? && Owns(s.agents[p]) && Presentable(s.agents[p].self)
    ensures FairRun(s, rest, t) && t.agents.Keys == s.agents.Keys && t.agents[p].alive && t.agents[p].phase.Producing?
    ensures forall q: nat | q in s.agents && q != p :: t.agents[q] == s.agents[q]
  {
    var own, write, close := Step(p, OwnToken(Some(s.agents[p].self.token))), Step(p, WriteMarker(true, true)), Step(p, CloseLease(true, true));
    var s1 := Next(s, own);
    var s2 := Next(s1, write);
    t := Next(s2, close);
    assert FairRun(t, [], t);
    FairRunFrom(s2, close, [], t);
    FairRunFrom(s1, write, [close] + [], t);
    FairRunFrom(s, own, [write] + ([close] + []), t);
    rest := [own] + ([write] + ([close] + []));
  }

  /** Whether two producers can run at once after an owner is called dead. */
  ghost predicate LeadsToTwo(s: State) {
    exists rest: seq<Event>, t: State :: FairRun(s, rest, t) && TwoProducers(t)
  }

  lemma HarmlessAnswer(s: State, e: Event)
    requires MutexInv(s) && AuthorityInv(s) && ProvenanceInv(s) && FairInv(s) && Enabled(s, e) && Fair(s, e)
    ensures !LeadsToTwo(Next(s, e))
  {
    MutexStep(s, e);
    AuthorityStep(s, e);
    ProvenanceStep(s, e);
    FairStep(s, e);
    forall rest, t | FairRun(Next(s, e), rest, t) ensures !TwoProducers(t) {
      FairRunKeeps(Next(s, e), rest, t);
      AtMostOneProducer(t);
    }
  }

  lemma HarmfulAnswer(s: State, p: nat, answer: TokenAnswer, q: nat)
    requires p in s.agents && s.agents[p].alive && s.agents[p].phase.Asking? && Owns(s.agents[p]) && Presentable(s.agents[p].self)
    requires q in s.agents && s.agents[q].alive && s.agents[q].phase.Producing? && s.agents[q].self == s.agents[p].phase.seen.owner
    requires 0 < s.agents[q].self.pid && s.agents[q].self.token != "" && !TruthfulAbout(s.agents[q].self, answer)
    ensures LeadsToTwo(Next(s, Step(p, Probe(answer))))
  {
    var judged := Next(s, Step(p, Probe(answer)));
    var rest, t := ClaimantProduces(judged, p);
    assert t.agents[q] == s.agents[q];
  }

  lemma UnfairAnswer(s: State, p: nat, answer: TokenAnswer)
    requires MutexInv(s) && FairInv(s) && p in s.agents && s.agents[p].alive && s.agents[p].phase.Asking? && Presentable(s.agents[p].self)
    requires !NoneProducesAs(s, s.agents[p].phase.seen.owner) && !TruthfulAbout(s.agents[p].phase.seen.owner, answer)
    ensures LeadsToTwo(Next(s, Step(p, Probe(answer))))
  {
    var q: nat :| q in s.agents && s.agents[q].alive && s.agents[q].phase.Producing? && s.agents[q].self == s.agents[p].phase.seen.owner;
    assert MutexOk(p, s.agents[p], s.mutex) && FairOk(s.agents[q], s.marker);
    HarmfulAnswer(s, p, answer, q);
  }

  /** Where answers about live producers have been truthful so far, the next answer can lead to two
      producers at once, all later ones being truthful, if and only if it is untruthful about a live
      producer. */
  lemma UntruthfulAnswerBreaksFlightExactly(events: seq<Event>, s: State, p: nat, answer: TokenAnswer)
    requires FairRun(INIT, events, s)
    requires p in s.agents && s.agents[p].alive && s.agents[p].phase.Asking? && Presentable(s.agents[p].self)
    ensures var owner := s.agents[p].phase.seen.owner;
      LeadsToTwo(Next(s, Step(p, Probe(answer)))) <==> !NoneProducesAs(s, owner) && !TruthfulAbout(owner, answer)
  {
    FairRunKeeps(INIT, events, s);
    if Fair(s, Step(p, Probe(answer))) {
      HarmlessAnswer(s, Step(p, Probe(answer)));
    } else {
      UnfairAnswer(s, p, answer);
    }
  }

  /** What becomes of an inspection: the owner's own token means waiting, a missing process or another
      token means a claim of the next generation, and anything else gives up. */
  lemma AnswerDecides(s: State, p: nat, answer: TokenAnswer)
    requires p in s.agents && s.agents[p].alive && s.agents[p].phase.Asking?
    requires 0 < s.agents[p].phase.seen.owner.pid && s.agents[p].phase.seen.owner.token != ""
    ensures var (seen, after) := (s.agents[p].phase.seen, Next(s, Step(p, Probe(answer))).agents[p].phase);
      && (after == Releasing(Wait) <==> answer == Token(seen.owner.token))
      && (after == Claiming(seen.generation) <==> answer == Missing || (answer.Token? && answer.token !in {"", seen.owner.token}))
      && (after == Releasing(Failed) <==> answer == Unavailable || answer == Token(""))
  {
  }

  /** From the start a first process reaches its producer. */
  lemma FirstProduces(p: nat, id: Identity) returns (events: seq<Event>, s: State)
    requires Presentable(id)
    ensures var c := Claim(1, id);
      Run(INIT, events, s) && s == State(map[p := Fresh(id, Producing(c)).(producerRuns := 1)], None, Some(Active(c)), [c], [], [])
  {
    events, s := QuietCallProduces(INIT, [], INIT, p, id);
  }

  /** With an oracle that calls a live owner dead, a second producer starts beside the first. */
  lemma WrongOracleAllowsTwoProducers() returns (events: seq<Event>, s: State)
    ensures Run(INIT, events, s) && TwoProducers(s)
  {
    var a, b := Identity(7, "a"), Identity(8, "b");
    events, s := FirstProduces(0, a);
    var marker := Active(Claim(1, a));
    events, s := ReachMarker(INIT, events, s, 1, b);
    events, s := Advance(INIT, events, s, 1, ReadMarker(true), Inside(b, Asking(marker)));
    events, s := Advance(INIT, events, s, 1, Probe(Missing), Inside(b, Claiming(1)));
    events, s := ClaimAndProduce(INIT, events, s, 1, b, 1);
    assert s.agents[0].phase.Producing? && s.agents[1].phase.Producing?;
  }

  // ---------- what an undisturbed call achieves ----------

  lemma GivesClaimBack(from: State, events: seq<Event>, s: State, p: nat, c: Claim, published: bool)
    returns (events': seq<Event>, s': State)
    requires Run(from, events, s) && p in s.agents && s.mutex == Some(p) && 0 < c.generation
    requires s.agents[p].alive && s.agents[p].phase == Deactivating(c, published) && s.agents[p].lease == Some(Lease(true, false))
    ensures Run(from, events', s')
    ensures s' == s.(agents := s.agents[p := s.agents[p].(phase := Idle, lease := None)], mutex := None,
                     marker := Some(Inactive(c.generation)), confirmed := s.confirmed + if published then [c] else [])
  {
    events', s' := OneMore(from, events, s, Step(p, WriteMarker(true, true)));
    assert s'.agents[p] == s.agents[p].(phase := FinishClosing(c, published));
    events', s' := OneMore(from, events', s', Step(p, CloseLease(true, true)));
  }

  lemma FindsItsClaim(from: State, events: seq<Event>, s: State, p: nat, c: Claim, document: bool)
    returns (events': seq<Event>, s': State)
    requires Run(from, events, s) && p in s.agents && s.mutex == None && s.marker == Some(Active(c))
    requires s.agents[p].alive && s.agents[p].phase == Finishing(c, document) && s.agents[p].lease.None?
    ensures Run(from, events', s')
    ensures s' == s.(agents := s.agents[p := s.agents[p].(lease := Some(Lease(true, false)),
                       phase := if document then Publishing(c) else Deactivating(c, false))], mutex := Some(p))
  {
    events', s' := OneMore(from, events, s, Step(p, TakeGuard(true)));
    events', s' := OneMore(from, events', s', Step(p, ReadMarker(true)));
  }

  /** Whoever produced under the marker's claim and is left alone publishes its document, gives the
      marker back and reports success. */
  lemma UndisturbedFinishPublishes(from: State, events: seq<Event>, s: State, p: nat, c: Claim, document: bool)
    returns (events': seq<Event>, s': State)
    requires Run(from, events, s) && p in s.agents && s.mutex == None && s.marker == Some(Active(c)) && 0 < c.generation
    requires s.agents[p].alive && s.agents[p].phase == Finishing(c, document) && s.agents[p].lease.None?
    ensures Run(from, events', s')
    ensures s' == s.(agents := s.agents[p := s.agents[p].(phase := Idle)], marker := Some(Inactive(c.generation)),
                     published := s.published + if document then [c] else [], confirmed := s.confirmed + if document then [c] else [])
  {
    events', s' := FindsItsClaim(from, events, s, p, c, document);
    if document {
      events', s' := OneMore(from, events', s', Step(p, ReplaceCache(true, true)));
    }
    events', s' := GivesClaimBack(from, events', s', p, c, document);
    assert s'.agents[p] == s.agents[p].(phase := Idle);
  }

  lemma QuietCallProduces(from: State, events: seq<Event>, s: State, p: nat, id: Identity) returns (events': seq<Event>, s': State)
    requires Run(from, events, s) && p !in s.agents && s.mutex == None && Presentable(id)
    requires s.marker.Some? ==> s.marker.value.owner.pid == 0
    ensures Run(from, events', s')
    ensures var c := Claim(FileGeneration(s.marker) + 1, id);
      s' == s.(agents := s.agents[p := Fresh(id, Producing(c)).(producerRuns := 1)], mutex := None,
               marker := Some(Active(c)), granted := s.granted + [c])
  {
    var base := FileGeneration(s.marker);
    events', s' := ReachMarker(from, events, s, p, id);
    events', s' := Advance(from, events', s', p, ReadMarker(true), Inside(id, Claiming(base)));
    events', s' := ClaimAndProduce(from, events', s', p, id, base);
  }

  /** A first call that finds neither a document nor an owner claims the next generation, produces,
      publishes and reports success. */
  lemma QuietCallPublishes(from: State, events: seq<Event>, s: State, p: nat, id: Identity) returns (events': seq<Event>, s': State)
    requires Run(from, events, s) && p !in s.agents && s.mutex == None && Presentable(id)
    requires s.marker.Some? ==> s.marker.value.owner.pid == 0
    ensures Run(from, events', s')
    ensures var c := Claim(FileGeneration(s.marker) + 1, id);
      && s'.agents.Keys == s.agents.Keys + {p} && s'.agents[p] == Fresh(id, Idle).(producerRuns := 1)
      && s'.marker == Some(Inactive(c.generation)) && s'.mutex == None
      && s'.granted == s.granted + [c] && s'.published == s.published + [c] && s'.confirmed == s.confirmed + [c]
  {
    var c := Claim(FileGeneration(s.marker) + 1, id);
    events', s' := QuietCallProduces(from, events, s, p, id);
    events', s' := Advance(from, events', s', p, ProducerReturns(true), Fresh(id, Finishing(c, true)).(producerRuns := 1));
    events', s' := UndisturbedFinishPublishes(from, events', s', p, c, true);
  }

  lemma ReturnsToInspect(from: State, events: seq<Event>, s: State, p: nat, attempts: nat) returns (events': seq<Event>, s': State)
    requires Run(from, events, s) && p in s.agents && 0 < attempts
    requires s.agents[p].alive && s.agents[p].phase.Idle? && s.agents[p].pendingClaim.Some?
    ensures Run(from, events', s')
    ensures s' == Put(s, p, s.agents[p].(phase := Inspecting, attemptsLeft := attempts - 1, producerRuns := 0))
  {
    var g := s.agents[p].(attemptsLeft := attempts, producerRuns := 0);
    events', s' := Advance(from, events, s, p, Enter(attempts), g.(phase := Entering));
    events', s' := Advance(from, events', s', p, Proceed, g.(phase := Loop));
    events', s' := Advance(from, events', s', p, Proceed, g.(phase := Inspecting, attemptsLeft := attempts - 1));
  }

  /** A claim that was kept because it could not be given back is given back by the next call. */
  lemma KeptClaimIsGivenBack(from: State, events: seq<Event>, s: State, p: nat, c: Claim, attempts: nat)
    returns (events': seq<Event>, s': State)
    requires Run(from, events, s) && p in s.agents && s.mutex == None && s.marker == Some(Active(c)) && 0 < c.generation
    requires s.agents[p].alive && s.agents[p].phase.Idle? && s.agents[p].lease.None? && s.agents[p].pendingClaim == Some(c)
    requires 0 < attempts
    ensures Run(from, events', s')
    ensures s'.marker == Some(Inactive(c.generation)) && s'.mutex == None && p in s'.agents
    ensures s'.agents[p].pendingClaim == None && s'.agents[p].phase == Inspecting
  {
    events', s' := ReturnsToInspect(from, events, s, p, attempts);
    var g := s'.agents[p].(lease := Some(Lease(true, false)));
    events', s' := OneMore(from, events', s', Step(p, TakeGuard(true)));
    events', s' := Advance(from, events', s', p, ReadMarker(true), g.(phase := RecoverWriting(c)));
    events', s' := OneMore(from, events', s', Step(p, WriteMarker(true, true)));
    assert s'.agents[p] == g.(phase := RecoverClosing(true));
    events', s' := OneMore(from, events', s', Step(p, CloseLease(true, true)));
  }
}
