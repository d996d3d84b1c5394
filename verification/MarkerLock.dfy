/**
 The marker-file fallback lock: exclusive creation, durable writes that may stop half-way,
 reclaim of a marker whose owner is dead, an identity witness and deletion by handle.
 Inodes stand for the volume and file index a handle reports; an open handle keeps its inode
 from being reused.  Any number of processes interleave, any of them may crash between two
 file operations, and pids are reused.
 */
module MarkerLock {
  import opened Wrappers
  import opened Utf8
  import opened MarkerCodec

  /** A file: who created it, what has reached it, and whether its deletion was requested. */
  datatype Inode = Inode(creator: nat, content: Bytes, pending: bool)

  datatype TokenAnswer = Missing | Unprovable | Token(token: string)

  /** Where a process stands in acquiring, holding and closing the lease. */
  datatype Phase =
    | Outside
    | Trying
    | Opening
    | Reading(inode: nat)
    | Judging(inode: nat, named: Owner)
    | Reclaiming(inode: nat)
    | Disposing(inode: nat)
    | ClosingReclaimed
    | Created(inode: nat)
    | Writing(inode: nat, me: Owner, offset: nat)
    | Flushing(inode: nat)
    | Held(inode: nat)
    | Releasing(inode: nat)
    | ReleaseDisposing(inode: nat)
    | ClosingHandles(deleted: bool)

  datatype Process = Process(self: Owner, alive: bool, phase: Phase)

  datatype State = State(processes: map<nat, Process>, inodes: map<nat, Inode>, name: Option<nat>)

  const INIT := State(map[], map[], None)

  /** `Orphaned` creates the file but fails before a handle is handed out. */
  datatype Creation = Fresh(inode: nat) | Refused | Orphaned(orphan: nat)

  datatype Action =
    | Begin
    | GiveUp
    | Create(creation: Creation)
    | Open(found: bool)
    | Read(length: nat)
    | Probe(answer: TokenAnswer)
    | Reopen(same: bool)
    | Dispose(disposed: bool)
    | Close(closed: bool)
    | OwnToken(own: Option<string>)
    | Write(bytes: nat, accepted: bool)
    | Flush(flushed: bool)
    | Release

  datatype Event =
    | Spawn(who: nat, self: Owner)
    | Crash(who: nat)
    | Unlink
    | Step(who: nat, action: Action)

  predicate Enabled(s: State, e: Event) {
    match e
    case Spawn(p, _) => p !in s.processes
    case Crash(p) => p in s.processes && s.processes[p].alive
    // The system drops the name of a file whose deletion was requested, at some later time.
    case Unlink => s.name.Some? && s.name.value in s.inodes && s.inodes[s.name.value].pending
    case Step(p, a) => p in s.processes && s.processes[p].alive && CanAct(s, s.processes[p], a)
  }

  predicate CanCreate(s: State, c: Creation) {
    match c
    case Fresh(i) => s.name.None? && i !in s.inodes
    case Orphaned(i) => s.name.None? && i !in s.inodes
    case Refused => true
  }

  predicate CanAct(s: State, g: Process, a: Action) {
    match g.phase
    case Outside => a.Begin?
    case Trying => a.GiveUp? || (a.Create? && CanCreate(s, a.creation))
    case Opening => a.Open? && (a.found ==> s.name.Some? && s.name.value in s.inodes)
    case Reading(i) => a.Read? && i in s.inodes && a.length <= |s.inodes[i].content|
    case Judging(_, _) => a.Probe?
    case Reclaiming(i) => a.Reopen? && (a.same ==> s.name == Some(i))
    case Disposing(i) => a.Dispose? && i in s.inodes
    case ClosingReclaimed => a.Close?
    case Created(_) => a.OwnToken?
    // A refused write may still have stored some bytes; an accepted one stored what it reports.
    case Writing(i, me, offset) =>
      a.Write? && i in s.inodes && LegalOwner(me) && offset + a.bytes <= |Encoded(me)| && (a.accepted ==> 0 < a.bytes)
    case Flushing(_) => a.Flush?
    case Held(_) => a.Release?
    case Releasing(i) => a.Reopen? && (a.same ==> s.name == Some(i))
    case ReleaseDisposing(i) => a.Dispose? && i in s.inodes
    case ClosingHandles(_) => a.Close?
  }

  function Encoded(o: Owner): Bytes
    requires LegalOwner(o)
  {
    EncodeMarker(o).value
  }

  /** Whether the holder named in a marker may be treated as gone. */
  predicate Reclaimable(named: Owner, answer: TokenAnswer) {
    answer.Missing? || (answer.Token? && answer.token != named.token)
  }

  function Next(s: State, e: Event): State
    requires Enabled(s, e)
  {
    match e
    case Spawn(p, id) => s.(processes := s.processes[p := Process(id, true, Outside)])
    case Crash(p) => s.(processes := s.processes[p := s.processes[p].(alive := false)])
    case Unlink => s.(name := None)
    case Step(p, a) => Act(s, p, a)
  }

  function Go(s: State, p: nat, phase: Phase): State
    requires p in s.processes
  {
    s.(processes := s.processes[p := s.processes[p].(phase := phase)])
  }

  function Act(s: State, p: nat, a: Action): State
    requires p in s.processes && CanAct(s, s.processes[p], a)
  {
    var g := s.processes[p];
    match g.phase
    case Outside => Go(s, p, Trying)
    case Trying =>
      if a.GiveUp? then Go(s, p, Outside)
      else (match a.creation
        case Refused => Go(s, p, Opening)
        case Orphaned(i) => Go(s, p, Opening).(inodes := s.inodes[i := Inode(p, [], false)], name := Some(i))
        case Fresh(i) => Go(s, p, Created(i)).(inodes := s.inodes[i := Inode(p, [], false)], name := Some(i)))
    case Opening => Go(s, p, if a.found then Reading(s.name.value) else Outside)
    case Reading(i) =>
      var named := DecodeMarker(s.inodes[i].content[..a.length]);
      Go(s, p, if named.None? || named.value.pid == g.self.pid then Outside else Judging(i, named.value))
    case Judging(i, named) => Go(s, p, if Reclaimable(named, a.answer) then Reclaiming(i) else Outside)
    case Reclaiming(i) => Go(s, p, if a.same then Disposing(i) else Outside)
    case Disposing(i) =>
      if a.disposed then Go(s, p, ClosingReclaimed).(inodes := s.inodes[i := s.inodes[i].(pending := true)])
      else Go(s, p, Outside)
    case ClosingReclaimed => Go(s, p, if a.closed then Trying else Outside)
    case Created(i) =>
      if a.own.Some? && LegalOwner(Owner(g.self.pid, a.own.value))
      then Go(s, p, Writing(i, Owner(g.self.pid, a.own.value), 0)) else Go(s, p, Outside)
    case Writing(i, me, offset) =>
      var end := offset + a.bytes;
      Go(s, p, if !a.accepted then Outside else if end == |Encoded(me)| then Flushing(i) else Writing(i, me, end))
      .(inodes := s.inodes[i := s.inodes[i].(content := s.inodes[i].content + Encoded(me)[offset..end])])
    case Flushing(i) => Go(s, p, if a.flushed then Held(i) else Outside)
    case Held(i) => Go(s, p, Releasing(i))
    case Releasing(i) => Go(s, p, if a.same then ReleaseDisposing(i) else ClosingHandles(false))
    case ReleaseDisposing(i) =>
      if a.disposed then Go(s, p, ClosingHandles(true)).(inodes := s.inodes[i := s.inodes[i].(pending := true)])
      else Go(s, p, ClosingHandles(false))
    case ClosingHandles(_) => Go(s, p, Outside)
  }

  // ---------- honest runs ----------

  /** What a truthful system may answer about a process that runs: nothing provable, or its own token. */
  predicate TruthfulAbout(id: Owner, answer: TokenAnswer) {
    answer.Unprovable? || answer == Token(id.token)
  }

  /** A process learns its own token, a reused pid comes with a fresh token, and answers about a live
      process carrying the named pid and token are truthful. */
  ghost predicate Honest(s: State, e: Event) {
    match e
    case Spawn(_, id) => forall q: nat | q in s.processes :: s.processes[q].self != id
    case Crash(_) => true
    case Unlink => true
    case Step(p, a) =>
      p in s.processes ==>
        && (a.Probe? && s.processes[p].phase.Judging? ==>
              forall q: nat | q in s.processes && s.processes[q].alive && s.processes[q].self == s.processes[p].phase.named ::
                TruthfulAbout(s.processes[q].self, a.answer))
        && (a.OwnToken? && a.own.Some? ==> a.own.value == s.processes[p].self.token)
  }

  ghost predicate HonestRun(from: State, events: seq<Event>, to: State)
    decreases |events|
  {
    if events == [] then to == from
    else Enabled(from, events[0]) && Honest(from, events[0]) && HonestRun(Next(from, events[0]), events[1..], to)
  }

  // ---------- invariant ----------

  /** The inode a process created and still works with as its own. */
  function OwnInode(f: Phase): Option<nat> {
    match f
    case Created(i) => Some(i)
    case Writing(i, _, _) => Some(i)
    case Flushing(i) => Some(i)
    case Held(i) => Some(i)
    case Releasing(i) => Some(i)
    case ReleaseDisposing(i) => Some(i)
    case _ => None
  }

  predicate IsComplete(n: Inode, o: Owner) {
    LegalOwner(o) && n.content == Encoded(o)
  }

  /** What has reached a file is a prefix of its creator's marker. */
  predicate InodeOk(n: Inode, processes: map<nat, Process>) {
    && n.creator in processes
    && (n.content == [] || (LegalOwner(processes[n.creator].self) && n.content <= Encoded(processes[n.creator].self)))
  }

  /** What each phase knows of the file it works with. */
  predicate PhaseOk(p: nat, g: Process, s: State) {
    && (OwnInode(g.phase).Some? ==>
          && OwnInode(g.phase).value in s.inodes
          && s.name == Some(OwnInode(g.phase).value)
          && s.inodes[OwnInode(g.phase).value].creator == p
          && !s.inodes[OwnInode(g.phase).value].pending)
    && (g.phase.Writing? ==> WrittenSoFar(s.inodes[g.phase.inode], g.phase.me, g.phase.offset) && g.phase.me == g.self)
    && (g.phase.Created? ==> s.inodes[g.phase.inode].content == [])
    && (g.phase.Flushing? || g.phase.Held? || g.phase.Releasing? || g.phase.ReleaseDisposing? ==>
          IsComplete(s.inodes[OwnInode(g.phase).value], g.self))
    && (g.phase.Judging? ==> g.phase.inode in s.inodes && NamesCreator(s, g.phase.inode, g.phase.named))
    && (g.phase.Reclaiming? || g.phase.Disposing? ==> g.phase.inode in s.inodes && CreatorGone(s, g.phase.inode))
  }

  predicate WrittenSoFar(n: Inode, me: Owner, offset: nat) {
    LegalOwner(me) && offset <= |Encoded(me)| && n.content == Encoded(me)[..offset]
  }

  predicate NamesCreator(s: State, i: nat, named: Owner)
    requires i in s.inodes
  {
    s.inodes[i].creator in s.processes && s.processes[s.inodes[i].creator].self == named && IsComplete(s.inodes[i], named)
  }

  predicate CreatorGone(s: State, i: nat)
    requires i in s.inodes
  {
    && s.inodes[i].creator in s.processes && !s.processes[s.inodes[i].creator].alive
    && IsComplete(s.inodes[i], s.processes[s.inodes[i].creator].self)
  }

  ghost predicate Inv(s: State) {
    && (forall p: nat, q: nat | p in s.processes && q in s.processes && p != q :: s.processes[p].self != s.processes[q].self)
    && (s.name.Some? ==> s.name.value in s.inodes)
    && (forall i: nat | i in s.inodes :: InodeOk(s.inodes[i], s.processes))
    && (forall p: nat | p in s.processes && s.processes[p].alive :: PhaseOk(p, s.processes[p], s))
  }

  /** A partial read of a marker never decodes, so a decoded owner is the creator. */
  lemma ReadNamesCreator(s: State, i: nat, length: nat)
    requires Inv(s) && i in s.inodes && length <= |s.inodes[i].content|
    requires DecodeMarker(s.inodes[i].content[..length]).Some?
    ensures NamesCreator(s, i, DecodeMarker(s.inodes[i].content[..length]).value)
  {
    var n := s.inodes[i];
    var self := s.processes[n.creator].self;
    assert InodeOk(n, s.processes);
    assert n.content != [];
    var whole := Encoded(self);
    assert n.content[..length] == whole[..length];
    if length < |whole| {
      ProperPrefixRejected(self, length);
    } else {
      assert n.content == whole && n.content[..length] == whole;
      DecodeOfEncodeMarker(self);
    }
  }

  /** One step touches one process, one file and the name. */
  ghost predicate Local(s: State, p: nat, s': State)
    requires p in s.processes
  {
    && p in s'.processes && s'.processes == s.processes[p := s'.processes[p]]
    && s'.processes[p].self == s.processes[p].self && s'.processes[p].alive == s.processes[p].alive
    && (forall i: nat | i in s.inodes :: i in s'.inodes && s'.inodes[i].creator == s.inodes[i].creator && s.inodes[i].content <= s'.inodes[i].content)
    && (forall i: nat | i in s.inodes && s'.inodes[i] != s.inodes[i] ::
          OwnInode(s.processes[p].phase) == Some(i) || s.processes[p].phase == Disposing(i))
    && (forall i: nat | i in s'.inodes && i !in s.inodes :: s'.inodes[i] == Inode(p, [], false))
    && (s'.name == s.name || (s.name == None && s'.name.Some? && s'.name.value !in s.inodes && s'.name.value in s'.inodes))
  }

  lemma AddingIsLocal(s: State, p: nat, a: Action)
    requires p in s.processes && CanAct(s, s.processes[p], a) && (s.processes[p].phase.Trying? || s.processes[p].phase.Writing?)
    ensures Local(s, p, Act(s, p, a))
  {
    match s.processes[p].phase
    case Trying =>
    case Writing(_, _, _) =>
  }

  lemma DisposingIsLocal(s: State, p: nat, a: Action)
    requires p in s.processes && CanAct(s, s.processes[p], a) && (s.processes[p].phase.Disposing? || s.processes[p].phase.ReleaseDisposing?)
    ensures Local(s, p, Act(s, p, a))
  {
    match s.processes[p].phase
    case Disposing(_) =>
    case ReleaseDisposing(_) =>
  }

  lemma StepIsLocal(s: State, p: nat, a: Action)
    requires p in s.processes && CanAct(s, s.processes[p], a)
    ensures Local(s, p, Act(s, p, a))
  {
    match s.processes[p].phase
    case Trying => AddingIsLocal(s, p, a);
    case Writing(_, _, _) => AddingIsLocal(s, p, a);
    case Disposing(_) => DisposingIsLocal(s, p, a);
    case ReleaseDisposing(_) => DisposingIsLocal(s, p, a);
    case _ =>
  }

  lemma InodesKept(s: State, p: nat, a: Action)
    requires Inv(s) && p in s.processes && s.processes[p].alive && CanAct(s, s.processes[p], a)
    ensures var s' := Act(s, p, a); forall i: nat | i in s'.inodes :: InodeOk(s'.inodes[i], s'.processes)
  {
    StepIsLocal(s, p, a);
    var s' := Act(s, p, a);
    forall i: nat | i in s'.inodes ensures InodeOk(s'.inodes[i], s'.processes) {
      if i in s.inodes {
        assert InodeOk(s.inodes[i], s.processes);
        if s'.inodes[i].content != s.inodes[i].content {
          OnlyWritersAdd(s, p, a, i);
          PieceWritten(s, p, a, i);
        }
      }
    }
  }

  lemma OnlyWritersAdd(s: State, p: nat, a: Action, i: nat)
    requires p in s.processes && CanAct(s, s.processes[p], a)
    requires i in s.inodes && i in Act(s, p, a).inodes && Act(s, p, a).inodes[i].content != s.inodes[i].content
    ensures s.processes[p].phase.Writing? && s.processes[p].phase.inode == i
  {
  }

  /** What a writer adds is the next piece of its marker. */
  lemma PieceWritten(s: State, p: nat, a: Action, i: nat)
    requires Inv(s) && p in s.processes && s.processes[p].alive && CanAct(s, s.processes[p], a)
    requires s.processes[p].phase.Writing? && s.processes[p].phase.inode == i
    ensures i in s.inodes && s.inodes[i].creator == p && LegalOwner(s.processes[p].self)
    ensures Act(s, p, a).inodes[i].content <= Encoded(s.processes[p].self)
  {
    var g := s.processes[p];
    assert PhaseOk(p, g, s);
    var whole, end := Encoded(g.self), g.phase.offset + a.bytes;
    assert whole[..g.phase.offset] + whole[g.phase.offset..end] == whole[..end];
  }

  lemma CompleteStays(n: Inode, n': Inode, o: Owner, processes: map<nat, Process>)
    requires IsComplete(n, o) && n.content <= n'.content && InodeOk(n', processes) && processes[n'.creator].self == o
    ensures IsComplete(n', o)
  {
    MarkerBytes(o);
  }

  lemma OthersKept(s: State, p: nat, s': State, q: nat)
    requires Inv(s) && p in s.processes && s.processes[p].alive && Local(s, p, s') && p != q
    requires forall i: nat | i in s'.inodes :: InodeOk(s'.inodes[i], s'.processes)
    requires q in s.processes && s.processes[q].alive
    ensures PhaseOk(q, s'.processes[q], s')
  {
    var g := s.processes[q];
    assert PhaseOk(q, g, s) && PhaseOk(p, s.processes[p], s);
    assert s'.processes[q] == g;
    if OwnInode(g.phase).Some? {
      var j := OwnInode(g.phase).value;
      assert s'.inodes[j] == s.inodes[j];
    } else if g.phase.Judging? {
      var i := g.phase.inode;
      CompleteStays(s.inodes[i], s'.inodes[i], g.phase.named, s'.processes);
    } else if g.phase.Reclaiming? || g.phase.Disposing? {
      var i := g.phase.inode;
      assert s.inodes[i].creator != p;
      CompleteStays(s.inodes[i], s'.inodes[i], s.processes[s.inodes[i].creator].self, s'.processes);
    }
  }

  lemma OwnKeptReading(s: State, p: nat, a: Action)
    requires Inv(s) && p in s.processes && s.processes[p].alive && CanAct(s, s.processes[p], a)
    requires s.processes[p].phase.Reading?
    ensures var s' := Act(s, p, a); PhaseOk(p, s'.processes[p], s')
  {
    var i := s.processes[p].phase.inode;
    if DecodeMarker(s.inodes[i].content[..a.length]).Some? {
      ReadNamesCreator(s, i, a.length);
    }
  }

  lemma OwnKeptWriting(s: State, p: nat, a: Action)
    requires Inv(s) && p in s.processes && s.processes[p].alive && CanAct(s, s.processes[p], a)
    requires s.processes[p].phase.Writing?
    ensures var s' := Act(s, p, a); PhaseOk(p, s'.processes[p], s')
  {
    var g := s.processes[p];
    assert PhaseOk(p, g, s);
    var me, offset := g.phase.me, g.phase.offset;
    var end := offset + a.bytes;
    assert Encoded(me)[..offset] + Encoded(me)[offset..end] == Encoded(me)[..end];
    assert Encoded(me)[..|Encoded(me)|] == Encoded(me);
  }

  lemma OwnKeptReclaiming(s: State, p: nat, a: Action)
    requires Inv(s) && p in s.processes && s.processes[p].alive && CanAct(s, s.processes[p], a) && Honest(s, Step(p, a))
    requires s.processes[p].phase.Judging? || s.processes[p].phase.Reclaiming? || s.processes[p].phase.Disposing?
    ensures var s' := Act(s, p, a); PhaseOk(p, s'.processes[p], s')
  {
    assert PhaseOk(p, s.processes[p], s);
  }

  lemma OwnKeptCreated(s: State, p: nat, a: Action)
    requires Inv(s) && p in s.processes && s.processes[p].alive && CanAct(s, s.processes[p], a) && Honest(s, Step(p, a))
    requires s.processes[p].phase.Created?
    ensures var s' := Act(s, p, a); PhaseOk(p, s'.processes[p], s')
  {
    assert PhaseOk(p, s.processes[p], s);
    assert forall o | LegalOwner(o) :: Encoded(o)[..0] == [];
  }

  lemma OwnKeptHolding(s: State, p: nat, a: Action)
    requires Inv(s) && p in s.processes && s.processes[p].alive && CanAct(s, s.processes[p], a)
    requires s.processes[p].phase.Flushing? || s.processes[p].phase.Held? || s.processes[p].phase.Releasing?
    ensures var s' := Act(s, p, a); PhaseOk(p, s'.processes[p], s')
  {
    assert PhaseOk(p, s.processes[p], s);
  }

  lemma OwnKeptReleasing(s: State, p: nat, a: Action)
    requires Inv(s) && p in s.processes && s.processes[p].alive && CanAct(s, s.processes[p], a)
    requires s.processes[p].phase.ReleaseDisposing? || s.processes[p].phase.ClosingHandles?
    ensures var s' := Act(s, p, a); PhaseOk(p, s'.processes[p], s')
  {
  }

  lemma OwnKeptEntering(s: State, p: nat, a: Action)
    requires Inv(s) && p in s.processes && s.processes[p].alive && CanAct(s, s.processes[p], a)
    requires var f := s.processes[p].phase; f.Outside? || f.Trying? || f.Opening? || f.ClosingReclaimed?
    ensures var s' := Act(s, p, a); PhaseOk(p, s'.processes[p], s')
  {
  }

  lemma OwnKept(s: State, p: nat, a: Action)
    requires Inv(s) && p in s.processes && s.processes[p].alive && CanAct(s, s.processes[p], a) && Honest(s, Step(p, a))
    ensures var s' := Act(s, p, a); PhaseOk(p, s'.processes[p], s')
  {
    var f := s.processes[p].phase;
    if f.Reading? {
      OwnKeptReading(s, p, a);
    } else if f.Writing? {
      OwnKeptWriting(s, p, a);
    } else if f.Judging? || f.Reclaiming? || f.Disposing? {
      OwnKeptReclaiming(s, p, a);
    } else if f.Outside? || f.Trying? || f.Opening? || f.ClosingReclaimed? {
      OwnKeptEntering(s, p, a);
    } else if f.Created? {
      OwnKeptCreated(s, p, a);
    } else if f.ReleaseDisposing? || f.ClosingHandles? {
      OwnKeptReleasing(s, p, a);
    } else {
      OwnKeptHolding(s, p, a);
    }
  }

  lemma ActionKeepsInv(s: State, p: nat, a: Action)
    requires Inv(s) && Enabled(s, Step(p, a)) && Honest(s, Step(p, a))
    ensures Inv(Next(s, Step(p, a)))
  {
    var s' := Next(s, Step(p, a));
    StepIsLocal(s, p, a);
    InodesKept(s, p, a);
    OwnKept(s, p, a);
    forall q: nat | q in s'.processes && s'.processes[q].alive ensures PhaseOk(q, s'.processes[q], s') {
      if q != p {
        OthersKept(s, p, s', q);
      }
    }
  }

  lemma OutsideKeepsInv(s: State, e: Event)
    requires Inv(s) && Enabled(s, e) && Honest(s, e) && !e.Step?
    ensures Inv(Next(s, e))
  {
    var s' := Next(s, e);
    forall q: nat | q in s'.processes && s'.processes[q].alive ensures PhaseOk(q, s'.processes[q], s') {
      assert q in s.processes && s.processes[q].alive ==> PhaseOk(q, s.processes[q], s);
    }
  }

  lemma InvStep(s: State, e: Event)
    requires Inv(s) && Enabled(s, e) && Honest(s, e)
    ensures Inv(Next(s, e))
  {
    if e.Step? {
      var Step(p, a) := e;
      ActionKeepsInv(s, p, a);
    } else {
      OutsideKeepsInv(s, e);
    }
  }

  lemma {:induction false} RunKeepsInv(from: State, events: seq<Event>, to: State)
    requires Inv(from) && HonestRun(from, events, to)
    ensures Inv(to)
    decreases |events|
  {
    if events != [] {
      InvStep(from, events[0]);
      RunKeepsInv(Next(from, events[0]), events[1..], to);
    }
  }

  // ---------- main results ----------

  /** Two live processes never both hold the marker lease. */
  lemma MutualExclusion(events: seq<Event>, s: State, p: nat, q: nat)
    requires HonestRun(INIT, events, s)
    requires p in s.processes && s.processes[p].alive && s.processes[p].phase.Held?
    requires q in s.processes && s.processes[q].alive && s.processes[q].phase.Held?
    ensures p == q
  {
    RunKeepsInv(INIT, events, s);
    assert PhaseOk(p, s.processes[p], s) && PhaseOk(q, s.processes[q], s);
  }

  /** While a live process holds the lease, the marker on disk is its complete marker. */
  lemma HolderIsNamed(events: seq<Event>, s: State, p: nat)
    requires HonestRun(INIT, events, s)
    requires p in s.processes && s.processes[p].alive && s.processes[p].phase.Held?
    ensures s.name == Some(s.processes[p].phase.inode) && s.name.value in s.inodes
    ensures !s.inodes[s.name.value].pending && DecodeMarker(s.inodes[s.name.value].content) == Some(s.processes[p].self)
  {
    RunKeepsInv(INIT, events, s);
    assert PhaseOk(p, s.processes[p], s);
    DecodeOfEncodeMarker(s.processes[p].self);
  }

  /** What becomes of a marker that was read: a missing process or another token lets it be reclaimed,
      the named token or no provable answer means the lock is busy. */
  lemma AnswerDecides(s: State, p: nat, answer: TokenAnswer)
    requires p in s.processes && s.processes[p].alive && s.processes[p].phase.Judging?
    ensures var (before, after) := (s.processes[p].phase, Next(s, Step(p, Probe(answer))).processes[p].phase);
      && (after == Reclaiming(before.inode) <==> answer == Missing || (answer.Token? && answer.token != before.named.token))
      && (after == Outside <==> answer == Unprovable || answer == Token(before.named.token))
  {
  }

  lemma OnlyReclaimersTouchForeignFiles(s: State, p: nat, s': State, i: nat)
    requires Inv(s) && p in s.processes && s.processes[p].alive && Local(s, p, s')
    requires i in s.inodes && s.inodes[i].creator != p && s'.inodes[i] != s.inodes[i]
    ensures CreatorGone(s, i)
  {
    assert PhaseOk(p, s.processes[p], s);
  }

  /** A process other than its creator changes a file, that is, requests its deletion, only when
      the complete content of the file names a process that is no longer alive. */
  lemma ReclaimsOnlyTheDead(events: seq<Event>, s: State, p: nat, a: Action, i: nat)
    requires HonestRun(INIT, events, s) && Enabled(s, Step(p, a)) && i in s.inodes && s.inodes[i].creator != p
    requires i in Act(s, p, a).inodes && Act(s, p, a).inodes[i] != s.inodes[i]
    ensures CreatorGone(s, i)
  {
    RunKeepsInv(INIT, events, s);
    StepIsLocal(s, p, a);
    OnlyReclaimersTouchForeignFiles(s, p, Act(s, p, a), i);
  }

  // ---------- which markers can go away ----------

  /** An incomplete marker that nobody is writing any more, or only a process that cannot write one. */
  ghost predicate Abandoned(s: State, i: nat) {
    && s.name == Some(i) && i in s.inodes && !s.inodes[i].pending
    && s.inodes[i].creator in s.processes
    && !IsComplete(s.inodes[i], s.processes[s.inodes[i].creator].self)
    && (forall p: nat | p in s.processes && s.processes[p].alive && OwnInode(s.processes[p].phase) == Some(i) ::
          !LegalOwner(s.processes[p].self))
  }

  /** A crash before the last byte is written abandons the marker. */
  lemma CrashAbandons(s: State, p: nat)
    requires Inv(s) && p in s.processes && s.processes[p].alive
    requires OwnInode(s.processes[p].phase).Some? && !IsComplete(s.inodes[OwnInode(s.processes[p].phase).value], s.processes[p].self)
    ensures Abandoned(Next(s, Crash(p)), OwnInode(s.processes[p].phase).value)
  {
    var i := OwnInode(s.processes[p].phase).value;
    forall q: nat | q in s.processes && s.processes[q].alive && OwnInode(s.processes[q].phase) == Some(i) ensures q == p {
      assert PhaseOk(q, s.processes[q], s) && PhaseOk(p, s.processes[p], s);
    }
    assert PhaseOk(p, s.processes[p], s);
  }

  /** Any process can come to leave such a marker: it creates the file and crashes. */
  lemma AbandonedIsReachable(p: nat, self: Owner, i: nat) returns (events: seq<Event>, s: State)
    ensures HonestRun(INIT, events, s) && Abandoned(s, i)
  {
    var create := Step(p, Create(Fresh(i)));
    var s1 := Next(INIT, Spawn(p, self));
    var s2 := Next(s1, Step(p, Begin));
    var s3 := Next(s2, create);
    s := Next(s3, Crash(p));
    events := [Crash(p)];
    RunFrom(s3, Crash(p), [], s);
    RunFrom(s2, create, [Crash(p)], s);
    RunFrom(s1, Step(p, Begin), [create] + [Crash(p)], s);
    RunFrom(INIT, Spawn(p, self), [Step(p, Begin)] + ([create] + [Crash(p)]), s);
    events := [Spawn(p, self)] + ([Step(p, Begin)] + ([create] + [Crash(p)]));
  }

  lemma RunFrom(s: State, e: Event, rest: seq<Event>, t: State)
    requires Enabled(s, e) && Honest(s, e) && HonestRun(Next(s, e), rest, t)
    ensures HonestRun(s, [e] + rest, t)
  {
    assert ([e] + rest)[1..] == rest;
  }

  lemma AbandonedStep(s: State, e: Event, i: nat)
    requires Inv(s) && Abandoned(s, i) && Enabled(s, e) && Honest(s, e)
    ensures Abandoned(Next(s, e), i) && Next(s, e).inodes[i] == s.inodes[i]
  {
    if e.Step? {
      StepIsLocal(s, e.who, e.action);
      assert PhaseOk(e.who, s.processes[e.who], s);
    }
  }

  /** A half-written marker left behind is never reclaimed: it keeps its name and content. */
  lemma {:induction false} HalfWrittenStaysBusy(s: State, events: seq<Event>, t: State, i: nat)
    requires Inv(s) && Abandoned(s, i) && HonestRun(s, events, t)
    ensures Abandoned(t, i) && t.inodes[i] == s.inodes[i]
    decreases |events|
  {
    if events != [] {
      AbandonedStep(s, events[0], i);
      InvStep(s, events[0]);
      HalfWrittenStaysBusy(Next(s, events[0]), events[1..], t, i);
    }
  }

  /** Some honest run frees the name. */
  ghost predicate Freeable(s: State) {
    exists events: seq<Event>, t: State :: HonestRun(s, events, t) && t.name.None?
  }

  lemma FreeableBefore(s: State, e: Event)
    requires Enabled(s, e) && Honest(s, e) && Freeable(Next(s, e))
    ensures Freeable(s)
  {
    var rest, t :| HonestRun(Next(s, e), rest, t) && t.name.None?;
    RunFrom(s, e, rest, t);
  }

  lemma PendingIsFreeable(s: State)
    requires s.name.Some? && s.name.value in s.inodes && s.inodes[s.name.value].pending
    ensures Freeable(s)
  {
    assert HonestRun(Next(s, Unlink), [], Next(s, Unlink));
    FreeableBefore(s, Unlink);
  }

  /** The name leads to a complete marker of a dead creator, and `w`, another process, is about to
      do what its phase says. */
  ghost predicate Reclaims(s: State, w: nat, i: nat, phase: Phase) {
    && s.name == Some(i) && i in s.inodes && CreatorGone(s, i)
    && w in s.processes && s.processes[w].alive && s.processes[w].phase == phase
    && s.processes[w].self.pid != s.processes[s.inodes[i].creator].self.pid
    && (forall q: nat | q in s.processes && s.processes[q].alive :: s.processes[q].self != s.processes[s.inodes[i].creator].self)
  }

  lemma DisposerFrees(s: State, w: nat, i: nat)
    requires Reclaims(s, w, i, Disposing(i))
    ensures Freeable(s)
  {
    PendingIsFreeable(Next(s, Step(w, Dispose(true))));
    FreeableBefore(s, Step(w, Dispose(true)));
  }

  /** Any answer but the named token and an unprovable one leads on to a free name. */
  lemma JudgeFrees(s: State, w: nat, i: nat, named: Owner, answer: TokenAnswer)
    requires Reclaims(s, w, i, Judging(i, named)) && named == s.processes[s.inodes[i].creator].self
    requires !TruthfulAbout(named, answer)
    ensures Freeable(s)
  {
    var reclaiming := Next(s, Step(w, Probe(answer)));
    DisposerFrees(Next(reclaiming, Step(w, Reopen(true))), w, i);
    FreeableBefore(reclaiming, Step(w, Reopen(true)));
    FreeableBefore(s, Step(w, Probe(answer)));
  }

  lemma ReaderFrees(s: State, w: nat, i: nat)
    requires Reclaims(s, w, i, Reading(i))
    ensures Freeable(s)
  {
    var content := s.inodes[i].content;
    assert content[..|content|] == content;
    var named := s.processes[s.inodes[i].creator].self;
    DecodeOfEncodeMarker(named);
    JudgeFrees(Next(s, Step(w, Read(|content|))), w, i, named, Missing);
    FreeableBefore(s, Step(w, Read(|content|)));
  }

  lemma NewcomerFrees(s: State, w: nat, i: nat)
    requires Reclaims(s, w, i, Outside)
    ensures Freeable(s)
  {
    var trying := Next(s, Step(w, Begin));
    var opening := Next(trying, Step(w, Create(Refused)));
    ReaderFrees(Next(opening, Step(w, Open(true))), w, i);
    FreeableBefore(opening, Step(w, Open(true)));
    FreeableBefore(trying, Step(w, Create(Refused)));
    FreeableBefore(s, Step(w, Begin));
  }

  /** A process that may still start, under an identity of its own and a pid the marker does not name. */
  ghost predicate Newcomer(s: State, i: nat, w: nat, self: Owner) {
    && w !in s.processes && i in s.inodes && s.inodes[i].creator in s.processes
    && self.pid != s.processes[s.inodes[i].creator].self.pid
    && (forall q: nat | q in s.processes :: s.processes[q].self != self)
  }

  lemma DeadCompleteIsFreeable(s: State, i: nat, w: nat, self: Owner)
    requires Inv(s) && s.name == Some(i) && Newcomer(s, i, w, self) && CreatorGone(s, i)
    ensures Freeable(s)
  {
    NewcomerFrees(Next(s, Spawn(w, self)), w, i);
    FreeableBefore(s, Spawn(w, self));
  }

  lemma CompleteIsFreeable(s: State, i: nat, w: nat, self: Owner)
    requires Inv(s) && s.name == Some(i) && Newcomer(s, i, w, self)
    requires IsComplete(s.inodes[i], s.processes[s.inodes[i].creator].self)
    ensures Freeable(s)
  {
    var c := s.inodes[i].creator;
    if s.processes[c].alive {
      InvStep(s, Crash(c));
      DeadCompleteIsFreeable(Next(s, Crash(c)), i, w, self);
      FreeableBefore(s, Crash(c));
    } else {
      DeadCompleteIsFreeable(s, i, w, self);
    }
  }

  lemma WritingIsFreeable(s: State, i: nat, w: nat, self: Owner, c: nat, me: Owner, offset: nat)
    requires Inv(s) && s.name == Some(i) && Newcomer(s, i, w, self)
    requires c in s.processes && s.processes[c].alive && s.processes[c].phase == Writing(i, me, offset)
    ensures Freeable(s)
  {
    assert PhaseOk(c, s.processes[c], s);
    var whole := Encoded(me);
    if offset == |whole| {
      assert whole[..offset] == whole;
      CompleteIsFreeable(s, i, w, self);
    } else {
      var e := Step(c, Write(|whole| - offset, true));
      InvStep(s, e);
      assert whole[..offset] + whole[offset..|whole|] == whole;
      CompleteIsFreeable(Next(s, e), i, w, self);
      FreeableBefore(s, e);
    }
  }

  lemma OwnedIsFreeable(s: State, i: nat, w: nat, self: Owner, c: nat)
    requires Inv(s) && s.name == Some(i) && Newcomer(s, i, w, self)
    requires c in s.processes && s.processes[c].alive && OwnInode(s.processes[c].phase) == Some(i) && LegalOwner(s.processes[c].self)
    ensures Freeable(s)
  {
    var g := s.processes[c];
    assert PhaseOk(c, g, s);
    if g.phase.Created? {
      var e := Step(c, OwnToken(Some(g.self.token)));
      InvStep(s, e);
      WritingIsFreeable(Next(s, e), i, w, self, c, g.self, 0);
      FreeableBefore(s, e);
    } else if g.phase.Writing? {
      WritingIsFreeable(s, i, w, self, c, g.phase.me, g.phase.offset);
    } else {
      CompleteIsFreeable(s, i, w, self);
    }
  }

  /** The name can be freed again if and only if the marker it leads to is not abandoned. */
  lemma FreeableExactlyUnlessAbandoned(events: seq<Event>, s: State, i: nat, w: nat, self: Owner)
    requires HonestRun(INIT, events, s) && s.name == Some(i) && Newcomer(s, i, w, self)
    ensures Freeable(s) <==> !Abandoned(s, i)
  {
    RunKeepsInv(INIT, events, s);
    if Abandoned(s, i) {
      forall run, t | HonestRun(s, run, t) ensures t.name.Some? {
        HalfWrittenStaysBusy(s, run, t, i);
      }
    } else if s.inodes[i].pending {
      PendingIsFreeable(s);
    } else if IsComplete(s.inodes[i], s.processes[s.inodes[i].creator].self) {
      CompleteIsFreeable(s, i, w, self);
    } else {
      var c: nat :| c in s.processes && s.processes[c].alive && OwnInode(s.processes[c].phase) == Some(i) && LegalOwner(s.processes[c].self);
      OwnedIsFreeable(s, i, w, self, c);
    }
  }

  // ---------- what an undisturbed process achieves ----------

  /** While the name is free a process with a legal identity acquires the lease. */
  lemma UndisturbedAcquires(s: State, p: nat, i: nat) returns (events: seq<Event>, t: State)
    requires p in s.processes && s.processes[p].alive && s.processes[p].phase.Outside? && LegalOwner(s.processes[p].self)
    requires s.name.None? && i !in s.inodes
    ensures HonestRun(s, events, t) && t.name == Some(i) && i in t.inodes && IsComplete(t.inodes[i], s.processes[p].self)
    ensures t.processes == s.processes[p := s.processes[p].(phase := Held(i))]
  {
    var begin, create := Step(p, Begin), Step(p, Create(Fresh(i)));
    var s1 := Next(s, begin);
    var s2 := Next(s1, create);
    var written;
    written, t := UndisturbedWrites(s2, p, i);
    RunFrom(s1, create, written, t);
    RunFrom(s, begin, [create] + written, t);
    events := [begin] + ([create] + written);
  }

  lemma UndisturbedWrites(s: State, p: nat, i: nat) returns (events: seq<Event>, t: State)
    requires p in s.processes && s.processes[p].alive && s.processes[p].phase == Created(i) && LegalOwner(s.processes[p].self)
    requires i in s.inodes && s.inodes[i].content == []
    ensures HonestRun(s, events, t) && t.name == s.name && i in t.inodes && IsComplete(t.inodes[i], s.processes[p].self)
    ensures t.processes == s.processes[p := s.processes[p].(phase := Held(i))]
  {
    var self := s.processes[p].self;
    var whole := Encoded(self);
    MarkerShape(self);
    MarkerBytes(self);
    var own, write, flush := Step(p, OwnToken(Some(self.token))), Step(p, Write(|whole|, true)), Step(p, Flush(true));
    var s1 := Next(s, own);
    var s2 := Next(s1, write);
    assert [] + whole[0..|whole|] == whole;
    t := Next(s2, flush);
    RunFrom(s2, flush, [], t);
    RunFrom(s1, write, [flush] + [], t);
    RunFrom(s, own, [write] + ([flush] + []), t);
    events := [own] + ([write] + ([flush] + []));
  }

  /** A holder that closes undisturbed leaves the name free. */
  lemma UndisturbedReleases(s: State, p: nat, i: nat) returns (events: seq<Event>, t: State)
    requires p in s.processes && s.processes[p].alive && s.processes[p].phase == Held(i) && s.name == Some(i) && i in s.inodes
    ensures HonestRun(s, events, t) && t.name == None && t.processes == s.processes[p := s.processes[p].(phase := Outside)]
  {
    var reopen, dispose, close := Step(p, Reopen(true)), Step(p, Dispose(true)), Step(p, Close(true));
    var s1 := Next(s, Step(p, Release));
    var s2 := Next(s1, reopen);
    var s3 := Next(s2, dispose);
    var s4 := Next(s3, close);
    t := Next(s4, Unlink);
    RunFrom(s4, Unlink, [], t);
    RunFrom(s3, close, [Unlink] + [], t);
    RunFrom(s2, dispose, [close] + ([Unlink] + []), t);
    RunFrom(s1, reopen, [dispose] + ([close] + ([Unlink] + [])), t);
    RunFrom(s, Step(p, Release), [reopen] + ([dispose] + ([close] + ([Unlink] + []))), t);
    events := [Step(p, Release)] + ([reopen] + ([dispose] + ([close] + ([Unlink] + []))));
  }

  // ---------- the durable write loop behind the writing phase ----------

  /** An open marker file; a write may store fewer bytes than offered and misreport failure, unless
      all goes smoothly. */
  class MarkerFile {
    const smooth: bool
    var content: Bytes
    var durable: Bytes

    constructor (smooth: bool)
      ensures content == [] && durable == [] && this.smooth == smooth
    {
      this.smooth := smooth;
      content, durable := [], [];
    }

    method WriteFile(data: Bytes) returns (reported: int)
      modifies this`content
      ensures exists k: nat | k <= |data| :: content == old(content) + data[..k] && (0 < reported <= |data| ==> reported == k)
      ensures smooth && data != [] ==> 0 < reported <= |data|
    {
      var k: nat :| k <= |data| && (smooth && data != [] ==> 0 < k);
      content := content + data[..k];
      reported := *;
      if 0 < reported <= |data| || smooth {
        reported := k;
      }
    }

    method FlushFile() returns (flushed: bool)
      modifies this`durable
      ensures flushed ==> durable == content
      ensures !flushed ==> durable == old(durable)
      ensures smooth ==> flushed
    {
      flushed := *;
      flushed := flushed || smooth;
      if flushed {
        durable := content;
      }
    }
  }

  /** Success leaves exactly the marker, flushed; failure leaves some prefix of it. */
  method WriteMarker(file: MarkerFile, data: Bytes) returns (ok: bool)
    modifies file
    ensures ok ==> 0 < |data| <= MAX_BYTES && file.content == file.durable == old(file.content) + data
    ensures !ok ==> exists k: nat | k <= |data| :: file.content == old(file.content) + data[..k]
    ensures file.smooth && 0 < |data| <= MAX_BYTES ==> ok
  {
    assert file.content == old(file.content) + data[..0];
    if data == [] || |data| > MAX_BYTES {
      return false;
    }
    var remaining, offset := |data|, 0;
    while remaining > 0
      invariant 0 <= offset <= |data| && remaining + offset == |data|
      invariant file.content == old(file.content) + data[..offset]
    {
      var n := file.WriteFile(data[offset..]);
      ghost var k: nat :| k <= |data[offset..]| && file.content == old(file.content) + data[..offset] + data[offset..][..k]
                        && (0 < n <= |data[offset..]| ==> n == k);
      assert data[..offset] + data[offset..][..k] == data[..offset + k];
      assert file.content == old(file.content) + data[..offset + k];
      if n <= 0 || n > remaining {
        return false;
      }
      offset := offset + n;
      remaining := remaining - n;
    }
    assert data[..offset] == data;
    ok := file.FlushFile();
  }
}
