/**
 The user's PATH: one element is appended, corrected or removed under a record that names exactly
 what was written, with a compare-and-write against foreign edits and a rollback when the record
 cannot be kept.
 */
module PathCleanup {
  import opened Json
  import opened Wrappers

  const REG_SZ := 1
  const REG_EXPAND_SZ := 2

  datatype PathValue = PathValue(text: string, kind: int)

  datatype Owned = Owned(element: string, path: string, kind: int)

  datatype Reason = PathValueUnsafe | PathRecordInvalid | PathOwnershipChanged | PathCorrectionConsentRequired
    | PathBookkeepingRollbackFailed | PathBookkeepingFailed | PathConcurrencyUnsafe
    | PathTransactionAborted | PathRemoveFailed | PathRestoreFailed
    | StatePathUnsafe | StateRecordMissing | StateDeleteFailed | StateBookkeepingFailed | Uncaught

  /** `Uncaught` stands for an error the transaction lets through. */
  datatype Outcome = Outcome(changed: bool, reason: Option<Reason>)

  const UNCHANGED := Outcome(false, None)
  const CHANGED := Outcome(true, None)

  function Refused(r: Reason): Outcome { Outcome(false, Some(r)) }

  // ---------- elements ----------

  function SplitPath(t: string): (parts: seq<string>)
    ensures parts != []
  {
    if t == "" then [""]
    else if t[0] == ';' then [""] + SplitPath(t[1..])
    else
      var rest := SplitPath(t[1..]);
      [[t[0]] + rest[0]] + rest[1..]
  }

  function JoinPath(parts: seq<string>): string {
    if parts == [] then "" else if |parts| == 1 then parts[0] else parts[0] + ";" + JoinPath(parts[1..])
  }

  function WithoutLast(parts: seq<string>): seq<string>
    requires parts != []
  {
    parts[..|parts| - 1]
  }

  function Last(parts: seq<string>): string
    requires parts != []
  {
    parts[|parts| - 1]
  }

  lemma {:induction false} JoinOfSplit(t: string)
    ensures JoinPath(SplitPath(t)) == t
  {
    if t != "" {
      JoinOfSplit(t[1..]);
      var rest := SplitPath(t[1..]);
      assert t == [t[0]] + t[1..];
      if t[0] == ';' {
        assert ([""] + rest)[1..] == rest;
      } else if |rest| > 1 {
        var parts := SplitPath(t);
        assert parts[1..] == rest[1..];
        assert ([t[0]] + rest[0]) + ";" + JoinPath(rest[1..]) == [t[0]] + (rest[0] + ";" + JoinPath(rest[1..]));
      }
    }
  }

  predicate Clean(element: string) { forall i | 0 <= i < |element| :: element[i] != ';' }

  lemma {:induction false} SplitClean(element: string)
    requires Clean(element)
    ensures SplitPath(element) == [element]
  {
    if element != "" {
      SplitClean(element[1..]);
      assert [element[0]] + element[1..] == element;
    }
  }

  /** Appending a clean element appends one part. */
  lemma {:induction false} SplitAppend(t: string, element: string)
    requires Clean(element)
    ensures SplitPath(t + ";" + element) == SplitPath(t) + [element]
  {
    var u := t + ";" + element;
    if t == "" {
      assert u == ";" + element && u[1..] == element;
      SplitClean(element);
    } else {
      assert u[1..] == t[1..] + ";" + element;
      SplitAppend(t[1..], element);
      var rest := SplitPath(t[1..]);
      if t[0] == ';' {
        assert [""] + (rest + [element]) == ([""] + rest) + [element];
      } else {
        assert (rest + [element])[0] == rest[0] && (rest + [element])[1..] == rest[1..] + [element];
      }
    }
  }

  /** Taking the appended element off again gives the text back. */
  lemma RemovingAppended(t: string, element: string)
    requires Clean(element)
    ensures var parts := SplitPath(t + ";" + element); Last(parts) == element && JoinPath(WithoutLast(parts)) == t
  {
    SplitAppend(t, element);
    assert WithoutLast(SplitPath(t) + [element]) == SplitPath(t);
    JoinOfSplit(t);
  }

  // ---------- the record ----------

  function RecordJson(o: Owned): Json {
    Obj([Member("element", Str(o.element)), Member("path", Str(o.path)), Member("type", Int(o.kind))])
  }

  function RecordText(o: Owned): string { Print(RecordJson(o), true) }

  /** The last value under a key, as a dictionary keeps it. */
  function Lookup(members: seq<Member>, key: string): Option<Json> {
    if members == [] then None
    else if members[|members| - 1].key == key then Some(members[|members| - 1].value)
    else Lookup(members[..|members| - 1], key)
  }

  predicate OnlyKeys(members: seq<Member>) {
    forall i | 0 <= i < |members| :: members[i].key == "element" || members[i].key == "path" || members[i].key == "type"
  }

  function ReadRecord(text: string): Option<Owned> {
    var r := Parse(text, false);
    if r.Err? || !r.value.Obj? || !OnlyKeys(r.value.members) then None
    else
      var element, path, kind := Lookup(r.value.members, "element"), Lookup(r.value.members, "path"), Lookup(r.value.members, "type");
      if element.None? || path.None? || kind.None? then None
      else if !element.value.Str? || element.value.s == "" || !path.value.Str? || !kind.value.Int? then None
      else if kind.value.n != REG_SZ && kind.value.n != REG_EXPAND_SZ then None
      else Some(Owned(element.value.s, path.value.s, kind.value.n))
  }

  predicate SafeKind(kind: int) { kind == REG_SZ || kind == REG_EXPAND_SZ }

  /** A written record reads back as what was written. */
  lemma ReadOfRecord(o: Owned)
    requires o.element != "" && SafeKind(o.kind)
    ensures ReadRecord(RecordText(o)) == Some(o)
  {
    ParseOfPrint(RecordJson(o), true, false);
    var a, b, c := Member("element", Str(o.element)), Member("path", Str(o.path)), Member("type", Int(o.kind));
    assert "path"[0] != "type"[0];
    LookupThree(a, b, c, "element");
    LookupThree(a, b, c, "path");
    LookupThree(a, b, c, "type");
  }

  lemma LookupThree(a: Member, b: Member, c: Member, key: string)
    ensures Lookup([a, b, c], key) ==
      if c.key == key then Some(c.value) else if b.key == key then Some(b.value) else if a.key == key then Some(a.value) else None
  {
    assert [a, b, c] == [a, b] + [c] && [a, b] == [a] + [b] && [a] == [] + [a];
    LookupStep([a, b], c, key);
    LookupStep([a], b, key);
    LookupStep([], a, key);
  }

  lemma LookupStep(members: seq<Member>, m: Member, key: string)
    ensures Lookup(members + [m], key) == if m.key == key then Some(m.value) else Lookup(members, key)
  {
    assert (members + [m])[..|members|] == members;
  }

  // ---------- one transaction at a time, without foreign edits ----------

  /** Which accesses to the registry work and which raise: the first write of PATH, the second look of
      an uninstall, the write or clearing of the record, and the write that puts PATH back. */
  datatype System = System(writes: bool, rereads: bool, keeps: bool, restores: bool)

  /** The record cannot be kept and PATH cannot be put back either. */
  predicate Loses(y: System) { y.writes && !y.keeps && !y.restores }

  /** The value and the record in the registry. */
  datatype State = State(path: Option<PathValue>, record: Option<string>)

  function OwnedBy(record: Option<string>): Option<Owned> {
    ReadRecord(if record.Some? then record.value else "")
  }

  function TextOf(path: Option<PathValue>): string { if path.Some? then path.value.text else "" }

  function KindOf(path: Option<PathValue>): int { if path.Some? then path.value.kind else REG_EXPAND_SZ }

  /** What an append does. */
  function AppendStep(s: State, element: string, consent: bool, y: System): (State, Outcome) {
    if s.path.Some? && !SafeKind(s.path.value.kind) then (s, Refused(PathValueUnsafe))
    else if element in SplitPath(TextOf(s.path)) then (s, UNCHANGED)
    else
      var owned := OwnedBy(s.record);
      if s.record.Some? && owned.None? then (s, Refused(PathRecordInvalid))
      else if owned.Some? && (s.path != Some(PathValue(owned.value.path, owned.value.kind))
                              || Last(SplitPath(TextOf(s.path))) != owned.value.element) then
        (s, Refused(PathOwnershipChanged))
      else if owned.Some? && !consent then (s, Refused(PathCorrectionConsentRequired))
      else if !y.writes then (s, Refused(Uncaught))
      else
        var text := if owned.Some? then JoinPath(WithoutLast(SplitPath(TextOf(s.path)))) else TextOf(s.path);
        var changed := PathValue(text + ";" + element, KindOf(s.path));
        if y.keeps then (State(Some(changed), Some(RecordText(Owned(element, changed.text, changed.kind)))), CHANGED)
        else if y.restores then (s.(path := Some(PathValue(TextOf(s.path), changed.kind))), Refused(PathBookkeepingFailed))
        else (s.(path := Some(changed)), Refused(Uncaught))
  }

  /** What a removal does. */
  function RemoveStep(s: State, y: System): (State, Outcome) {
    var owned := OwnedBy(s.record);
    if owned.None? || s.path.None? then (s, UNCHANGED)
    else if s.path != Some(PathValue(owned.value.path, owned.value.kind)) then
      (s, if owned.value.element in SplitPath(s.path.value.text) then Refused(PathOwnershipChanged) else UNCHANGED)
    else if Last(SplitPath(owned.value.path)) != owned.value.element then (s, Refused(PathOwnershipChanged))
    else if !y.writes then (s, Refused(Uncaught))
    else
      var changed := PathValue(JoinPath(WithoutLast(SplitPath(owned.value.path))), owned.value.kind);
      if y.keeps then (State(Some(changed), None), CHANGED)
      else if y.restores then (s, Refused(PathBookkeepingFailed))
      else (s.(path := Some(changed)), Refused(Uncaught))
  }

  /** What deleting the state directory does on its own, under a record that must name PATH as it is;
      PATH stays. */
  function CleanStep(s: State, expected: Option<string>, deletes: bool, keeps: bool): (State, Outcome) {
    var owned := OwnedBy(s.record);
    if expected.Some? && s.record != expected then (s, Refused(PathOwnershipChanged))
    else if owned.None? then (s, Refused(StateRecordMissing))
    else if Last(SplitPath(owned.value.path)) != owned.value.element then (s, Refused(PathOwnershipChanged))
    else if s.path != Some(PathValue(owned.value.path, owned.value.kind)) then (s, Refused(PathOwnershipChanged))
    else if !deletes then (s, Refused(StateDeleteFailed))
    else if !keeps then (s, Refused(StateBookkeepingFailed))
    else (s.(record := None), CHANGED)
  }

  /** What the uninstall batch does with an absolute directory; `deletes` says whether that could be
      deleted. */
  function BatchStep(s: State, deletes: bool, y: System): (State, Outcome, Outcome) {
    var owned := OwnedBy(s.record);
    if owned.None? then (s, UNCHANGED, Refused(StateRecordMissing))
    else if Last(SplitPath(owned.value.path)) != owned.value.element then (s, Refused(PathOwnershipChanged), Refused(PathRemoveFailed))
    else if s.path != Some(PathValue(owned.value.path, owned.value.kind)) then
      if s.path.Some? && owned.value.element in SplitPath(s.path.value.text)
      then (s, Refused(PathOwnershipChanged), Refused(PathRemoveFailed))
      else (CleanStep(s, s.record, deletes, y.keeps).0, UNCHANGED, CleanStep(s, s.record, deletes, y.keeps).1)
    else if !y.writes then (s, Refused(Uncaught), Refused(Uncaught))
    else
      var changed := s.(path := Some(PathValue(JoinPath(WithoutLast(SplitPath(owned.value.path))), owned.value.kind)));
      if !y.rereads then (changed, Refused(Uncaught), Refused(Uncaught))
      else if !deletes then
        if y.restores then (s, Refused(StateDeleteFailed), Refused(StateDeleteFailed)) else (changed, CHANGED, Refused(PathRestoreFailed))
      else if y.keeps then (changed.(record := None), CHANGED, CHANGED)
      else (changed, CHANGED, Refused(StateBookkeepingFailed))
  }

  // ---------- what every run keeps ----------

  /** PATH is at its base; an absent value may have become the empty string. */
  predicate AtBase(path: Option<PathValue>, base: Option<PathValue>) {
    path == base || path == Some(PathValue(TextOf(base), KindOf(base)))
  }

  function Appended(base: Option<PathValue>, element: string): PathValue {
    PathValue(TextOf(base) + ";" + element, KindOf(base))
  }

  predicate Element(element: string) { element != "" && Clean(element) }

  /** Either no record and PATH at its base, or a record that names exactly base;element, and PATH is that. */
  ghost predicate InStep(s: State, base: Option<PathValue>) {
    || (s.record.None? && AtBase(s.path, base))
    || (SafeKind(KindOf(base)) && exists element ::
          Element(element) && s.path == Some(Appended(base, element))
          && s.record == Some(RecordText(Owned(element, Appended(base, element).text, KindOf(base)))))
  }

  lemma EmptyIsNoRecord()
    ensures OwnedBy(None) == None
  {
    assert Parse("", false).Err?;
  }

  /** PATH no longer is what the record names. */
  predicate Stale(s: State) {
    && OwnedBy(s.record).Some? && s.path.Some? && SafeKind(s.path.value.kind)
    && s.path.value != PathValue(OwnedBy(s.record).value.path, OwnedBy(s.record).value.kind)
  }

  /** What a kept record is, and what taking its element off gives. */
  lemma KeptRecord(s: State, base: Option<PathValue>) returns (named: string)
    requires InStep(s, base) && s.record.Some?
    ensures Element(named) && SafeKind(KindOf(base)) && s.path == Some(Appended(base, named))
    ensures OwnedBy(s.record) == Some(Owned(named, Appended(base, named).text, KindOf(base)))
    ensures var parts := SplitPath(Appended(base, named).text); Last(parts) == named && JoinPath(WithoutLast(parts)) == TextOf(base)
    ensures SplitPath(Appended(base, named).text) == SplitPath(TextOf(base)) + [named]
  {
    named :| Element(named) && s.path == Some(Appended(base, named))
      && s.record == Some(RecordText(Owned(named, Appended(base, named).text, KindOf(base))));
    ReadOfRecord(Owned(named, Appended(base, named).text, KindOf(base)));
    RemovingAppended(TextOf(base), named);
    SplitAppend(TextOf(base), named);
  }

  /** An append that goes wrong all the way leaves its element on PATH: without a record before it that
      is a new base, and under a record it makes the record stale. */
  lemma AppendKeepsBase(s: State, base: Option<PathValue>, element: string, consent: bool, y: System)
    requires InStep(s, base) && Element(element)
    ensures var (end, outcome) := AppendStep(s, element, consent, y);
      && (outcome.changed ==> end.path == Some(Appended(base, element)))
      && (if !Loses(y) || outcome != Refused(Uncaught) then InStep(end, base)
          else if s.record.None? then end == State(Some(Appended(base, element)), None)
          else end == State(Some(Appended(base, element)), s.record) && Stale(end))
  {
    EmptyIsNoRecord();
    if s.record.Some? {
      var named := KeptRecord(s, base);
      if element !in SplitPath(TextOf(s.path)) {
        assert (SplitPath(TextOf(base)) + [named])[|SplitPath(TextOf(base))|] == named;
        SplitAppend(TextOf(base), element);
        assert Last(SplitPath(TextOf(base)) + [element]) == element;
      }
    }
  }

  predicate SafeToWrite(path: Option<PathValue>) { path.None? || SafeKind(path.value.kind) }

  /** Which answer an append gives in step with a base, and what it then leaves: it succeeds exactly when
      PATH is safe and does not hold the element, a correction is consented to, and both writes work;
      every other answer has its own condition. */
  lemma AppendExactly(s: State, base: Option<PathValue>, element: string, consent: bool, y: System)
    requires InStep(s, base) && Element(element)
    ensures var (end, outcome) := AppendStep(s, element, consent, y);
      var safe, held, agreed := SafeToWrite(s.path), element in SplitPath(TextOf(s.path)), s.record.None? || consent;
      && (outcome == Refused(PathValueUnsafe) <==> !safe)
      && (outcome == UNCHANGED <==> safe && held)
      && (outcome == Refused(PathCorrectionConsentRequired) <==> safe && !held && !agreed)
      && (outcome == Refused(PathBookkeepingFailed) <==> safe && !held && agreed && y.writes && !y.keeps && y.restores)
      && (outcome == Refused(Uncaught) <==> safe && !held && agreed && (!y.writes || Loses(y)))
      && (outcome == CHANGED <==> safe && !held && agreed && y.writes && y.keeps)
      && outcome in {CHANGED, UNCHANGED, Refused(PathValueUnsafe), Refused(PathCorrectionConsentRequired),
                     Refused(PathBookkeepingFailed), Refused(Uncaught)}
      && (outcome == CHANGED ==>
            && end.path == Some(Appended(base, element))
            && OwnedBy(end.record) == Some(Owned(element, Appended(base, element).text, KindOf(base))))
      && (outcome != CHANGED && !(outcome == Refused(Uncaught) && y.writes) ==>
            end.record == s.record && TextOf(end.path) == TextOf(s.path) && KindOf(end.path) == KindOf(s.path))
  {
    EmptyIsNoRecord();
    if s.record.Some? {
      var named := KeptRecord(s, base);
    }
    if SafeKind(KindOf(base)) {
      ReadOfRecord(Owned(element, Appended(base, element).text, KindOf(base)));
    }
  }

  /** Which answer an append gives when the record is not in step: a record that says nothing is invalid,
      and one that no longer names PATH, or PATH's last element, has lost its ownership. */
  lemma AppendMistrusts(s: State, element: string, consent: bool, y: System)
    requires SafeToWrite(s.path) && element !in SplitPath(TextOf(s.path)) && s.record.Some?
    ensures var (end, outcome) := AppendStep(s, element, consent, y);
      && (outcome == Refused(PathRecordInvalid) <==> OwnedBy(s.record).None?)
      && (outcome == Refused(PathOwnershipChanged) <==>
            && OwnedBy(s.record).Some?
            && var o := OwnedBy(s.record).value;
               s.path != Some(PathValue(o.path, o.kind)) || Last(SplitPath(TextOf(s.path))) != o.element)
      && (outcome.reason in {Some(PathRecordInvalid), Some(PathOwnershipChanged)} ==> end == s)
  {
  }

  lemma RemoveKeepsBase(s: State, base: Option<PathValue>, y: System)
    requires InStep(s, base)
    ensures var (end, outcome) := RemoveStep(s, y);
      if s.record.None? || !y.writes || (!y.keeps && y.restores) then
        && end == s
        && outcome == if s.record.None? then UNCHANGED else if !y.writes then Refused(Uncaught) else Refused(PathBookkeepingFailed)
      else
        && end.path == Some(PathValue(TextOf(base), KindOf(base)))
        && if y.keeps then end.record == None && outcome == CHANGED
           else end.record == s.record && outcome == Refused(Uncaught) && Stale(end)
  {
    EmptyIsNoRecord();
    if s.record.Some? {
      var named := KeptRecord(s, base);
      assert |Appended(base, named).text| > |TextOf(base)|;
    }
  }

  /** The uninstall batch leaves a stale record exactly when the second look raises, when the directory
      was deleted but the record cannot be cleared, or when it was not deleted and PATH cannot be put
      back.  Otherwise it succeeds or changes nothing. */
  lemma BatchKeepsBase(s: State, base: Option<PathValue>, deletes: bool, y: System)
    requires InStep(s, base)
    ensures var (end, removed, cleaned) := BatchStep(s, deletes, y);
      if s.record.None? then end == s && removed == UNCHANGED && cleaned == Refused(StateRecordMissing)
      else if !y.writes then end == s && removed == cleaned == Refused(Uncaught)
      else if y.rereads && !deletes && y.restores then end == s && removed == cleaned == Refused(StateDeleteFailed)
      else
        && end.path == Some(PathValue(TextOf(base), KindOf(base)))
        && if y.rereads && deletes && y.keeps then end.record == None && removed == CHANGED && cleaned == CHANGED
           else
             && end.record == s.record && Stale(end)
             && removed == (if y.rereads then CHANGED else Refused(Uncaught))
             && cleaned == Refused(if !y.rereads then Uncaught else if deletes then StateBookkeepingFailed else PathRestoreFailed)
  {
    EmptyIsNoRecord();
    if s.record.Some? {
      var named := KeptRecord(s, base);
      assert |Appended(base, named).text| > |TextOf(base)|;
    }
  }

  datatype Op =
    | Append(element: string, consent: bool, system: System)
    | Remove(system: System)
    | Uninstall(deletes: bool, system: System)
    | Cleanup(deletes: bool, keeps: bool)

  function Step(s: State, op: Op): State {
    match op
    case Append(element, consent, y) => AppendStep(s, element, consent, y).0
    case Remove(y) => RemoveStep(s, y).0
    case Uninstall(deletes, y) => BatchStep(s, deletes, y).0
    case Cleanup(deletes, keeps) => CleanStep(s, None, deletes, keeps).0
  }

  /** A cleanup on its own, or a first append that goes wrong all the way, leaves PATH extended and
      without a record, so what PATH holds then is the new base. */
  predicate MovesBase(s: State, op: Op) {
    match op
    case Append(element, consent, y) => s.record.None? && Loses(y) && AppendStep(s, element, consent, y).1 == Refused(Uncaught)
    case Cleanup(deletes, keeps) => CleanStep(s, None, deletes, keeps).1.changed
    case _ => false
  }

  function BaseAfter(s: State, op: Op, base: Option<PathValue>): Option<PathValue> {
    if MovesBase(s, op) then Step(s, op).path else base
  }

  /** Which answers make an operation leave its record stale. */
  predicate GoesStale(s: State, op: Op) {
    && s.record.Some?
    && match op
       case Append(element, consent, y) => Loses(y) && consent && element !in SplitPath(TextOf(s.path))
       case Remove(y) => Loses(y)
       case Uninstall(deletes, y) => y.writes && (!y.rereads || (if deletes then !y.keeps else !y.restores))
       case Cleanup(_, _) => false
  }

  function Run(s: State, ops: seq<Op>): State
    decreases |ops|
  {
    if ops == [] then s else Run(Step(s, ops[0]), ops[1..])
  }

  function RunBase(s: State, ops: seq<Op>, base: Option<PathValue>): Option<PathValue>
    decreases |ops|
  {
    if ops == [] then base else RunBase(Step(s, ops[0]), ops[1..], BaseAfter(s, ops[0], base))
  }

  /** Some operation of a run leaves its record stale. */
  predicate EverGoesStale(s: State, ops: seq<Op>)
    decreases |ops|
  {
    ops != [] && (GoesStale(s, ops[0]) || EverGoesStale(Step(s, ops[0]), ops[1..]))
  }

  lemma {:induction false} BaseStays(s: State, ops: seq<Op>, base: Option<PathValue>)
    requires forall i | 0 <= i < |ops| :: !ops[i].Cleanup? && !(ops[i].Append? && Loses(ops[i].system))
    ensures RunBase(s, ops, base) == base
    decreases |ops|
  {
    if ops != [] {
      BaseStays(Step(s, ops[0]), ops[1..], base);
    }
  }

  /** Behind a stale record an append is refused unless PATH holds the element; a removal and an
      uninstall do nothing, and say so exactly if PATH holds the recorded element; a cleanup is refused. */
  lemma StaleStays(s: State, op: Op)
    requires Stale(s)
    ensures Step(s, op) == s && !MovesBase(s, op)
    ensures op.Append? ==>
      AppendStep(s, op.element, op.consent, op.system).1
        == if op.element in SplitPath(TextOf(s.path)) then UNCHANGED else Refused(PathOwnershipChanged)
    ensures var held := Last(SplitPath(OwnedBy(s.record).value.path)) == OwnedBy(s.record).value.element;
      var present := OwnedBy(s.record).value.element in SplitPath(s.path.value.text);
      && (op.Remove? ==> RemoveStep(s, op.system).1 == if present then Refused(PathOwnershipChanged) else UNCHANGED)
      && (op.Uninstall? ==>
            var (_, removed, cleaned) := BatchStep(s, op.deletes, op.system);
            && removed == (if !held || present then Refused(PathOwnershipChanged) else UNCHANGED)
            && cleaned == Refused(if !held || present then PathRemoveFailed else PathOwnershipChanged))
      && (op.Cleanup? ==> CleanStep(s, None, op.deletes, op.keeps).1 == Refused(PathOwnershipChanged))
  {
    EmptyIsNoRecord();
  }

  /** A cleanup on its own succeeds exactly when there is a record and both the deletion and the clearing
      work, and it never touches PATH. */
  lemma CleanupExactly(s: State, base: Option<PathValue>, deletes: bool, keeps: bool)
    requires InStep(s, base)
    ensures var (end, outcome) := CleanStep(s, None, deletes, keeps);
      && end.path == s.path && end.record == (if outcome.changed then None else s.record)
      && outcome == if s.record.None? then Refused(StateRecordMissing) else if !deletes then Refused(StateDeleteFailed)
                    else if !keeps then Refused(StateBookkeepingFailed) else CHANGED
  {
    EmptyIsNoRecord();
    if s.record.Some? {
      var named := KeptRecord(s, base);
    }
  }

  /** No operation ever gets past a stale record. */
  lemma {:induction false} StaleForGood(s: State, ops: seq<Op>)
    requires Stale(s)
    ensures Run(s, ops) == s
    decreases |ops|
  {
    if ops != [] {
      StaleStays(s, ops[0]);
      StaleForGood(s, ops[1..]);
    }
  }

  lemma StepKeepsBase(s: State, op: Op, base: Option<PathValue>)
    requires InStep(s, base) && (op.Append? ==> Element(op.element))
    ensures if GoesStale(s, op) then Stale(Step(s, op)) else InStep(Step(s, op), BaseAfter(s, op, base))
  {
    EmptyIsNoRecord();
    if s.record.Some? {
      var named := KeptRecord(s, base);
    }
    match op
    case Append(element, consent, y) => AppendKeepsBase(s, base, element, consent, y);
    case Remove(y) => RemoveKeepsBase(s, base, y);
    case Uninstall(deletes, y) => BatchKeepsBase(s, base, deletes, y);
    case Cleanup(_, _) =>
  }

  lemma InStepIsNotStale(s: State, base: Option<PathValue>)
    requires InStep(s, base)
    ensures !Stale(s)
  {
    EmptyIsNoRecord();
    if s.record.Some? {
      var named := KeptRecord(s, base);
    }
  }

  /** After any sequence of appends, corrections, removals, uninstalls and cleanups, whichever of their
      accesses raise, the record is stale if and only if some operation left it so; otherwise the
      registry is in step with its base, which is what PATH held when there was no record. */
  lemma {:induction false} RunKeepsBase(s: State, ops: seq<Op>, base: Option<PathValue>)
    requires InStep(s, base)
    requires forall i | 0 <= i < |ops| && ops[i].Append? :: Element(ops[i].element)
    ensures Stale(Run(s, ops)) <==> EverGoesStale(s, ops)
    ensures Stale(Run(s, ops)) || InStep(Run(s, ops), RunBase(s, ops, base))
    decreases |ops|
  {
    if ops == [] {
      InStepIsNotStale(s, base);
    } else {
      StepKeepsBase(s, ops[0], base);
      if GoesStale(s, ops[0]) {
        StaleForGood(Step(s, ops[0]), ops[1..]);
      } else {
        RunKeepsBase(Step(s, ops[0]), ops[1..], BaseAfter(s, ops[0], base));
      }
    }
  }

  /** A removal that succeeds after any run puts back the text and type PATH had before anything was
      appended under the record; only an absent value comes back as the empty string. */
  lemma RemoveRestoresBase(path: Option<PathValue>, ops: seq<Op>, y: System)
    requires forall i | 0 <= i < |ops| && ops[i].Append? :: Element(ops[i].element)
    ensures var (end, outcome) := RemoveStep(Run(State(path, None), ops), y);
      var base := RunBase(State(path, None), ops, path);
      && (outcome.changed ==> end == State(Some(PathValue(TextOf(base), KindOf(base))), None))
      && ((forall i | 0 <= i < |ops| :: !ops[i].Cleanup? && !(ops[i].Append? && Loses(ops[i].system))) ==> base == path)
  {
    var start := State(path, None);
    var end, base := Run(start, ops), RunBase(start, ops, path);
    RunKeepsBase(start, ops, path);
    if Stale(end) {
      StaleStays(end, Remove(y));
    } else {
      RemoveKeepsBase(end, base, y);
    }
    if forall i | 0 <= i < |ops| :: !ops[i].Cleanup? && !(ops[i].Append? && Loses(ops[i].system)) {
      BaseStays(start, ops, path);
    }
  }

  // ---------- the transactions over a live registry ----------

  /** One successful compare-and-write. */
  datatype Edit = Edit(before: Option<PathValue>, after: PathValue)

  /** An append or a correction of the value it replaces; the type is kept. */
  predicate AppendEdit(e: Edit, element: string) {
    && e.after.kind == KindOf(e.before)
    && (e.after.text == TextOf(e.before) + ";" + element
        || e.after.text == JoinPath(WithoutLast(SplitPath(TextOf(e.before)))) + ";" + element)
  }

  /** The last element taken off. */
  predicate RemoveEdit(e: Edit) {
    e.before.Some? && e.after == PathValue(JoinPath(WithoutLast(SplitPath(e.before.value.text))), e.before.value.kind)
  }

  /** Replaces what `e` wrote by what `e` had replaced. */
  predicate Undoes(undo: Edit, e: Edit) {
    undo.before == Some(e.after) && undo.after == PathValue(TextOf(e.before), e.after.kind)
  }

  /** No edit, one edit, or one edit and its undoing. */
  predicate OneEdit(before: seq<Edit>, after: seq<Edit>, first: Edit -> bool) {
    || after == before
    || (|after| == |before| + 1 && before <= after && first(after[|before|]))
    || (|after| == |before| + 2 && before <= after && first(after[|before|]) && Undoes(after[|before| + 1], after[|before|]))
  }

  /** What a transaction reports whose record could not be kept. */
  function AfterUndoing(reply: WriteReply): Reason {
    match reply
    case Written => PathBookkeepingFailed
    case Lost => PathBookkeepingRollbackFailed
    case Raised => Uncaught
  }

  datatype WriteReply = Written | Lost | Raised

  class UserPathRegistry {
    var path: Option<PathValue>
    var record: Option<string>
    ghost var edits: seq<Edit>
    /** How many writes found another value than they expected. */
    ghost var losses: nat

    constructor (path: Option<PathValue>)
      ensures View() == State(path, None) && edits == []
    {
      this.path, record, edits, losses := path, None, [], 0;
    }

    function View(): State
      reads this
    {
      State(path, record)
    }

    /** Anyone else may change the registry between two steps, unless all is quiet. */
    method Interfere(quiet: bool)
      modifies this`path, this`record
      ensures quiet ==> View() == old(View())
    {
      if !quiet {
        path, record := *, *;
      }
    }

    /** Writes over the expected value only; a call that raises has not taken effect. */
    method CompareAndWrite(expected: Option<PathValue>, value: PathValue, works: bool, quiet: bool) returns (reply: WriteReply)
      modifies this
      ensures quiet ==> reply == if !works then Raised else if old(path) == expected then Written else Lost
      ensures quiet ==> record == old(record) && path == if reply.Written? then Some(value) else old(path)
      ensures edits == if reply.Written? then old(edits) + [Edit(expected, value)] else old(edits)
      ensures losses == old(losses) + if reply.Lost? then 1 else 0
    {
      Interfere(quiet);
      var fails: bool := *;
      if !works || (fails && !quiet) {
        return Raised;
      }
      if path != expected {
        losses := losses + 1;
        return Lost;
      }
      path := Some(value);
      edits := edits + [Edit(expected, value)];
      reply := Written;
    }

    /** A write that raises has not taken effect. */
    method WriteRecord(text: Option<string>, works: bool, quiet: bool) returns (ok: bool)
      modifies this`path, this`record
      ensures quiet ==> path == old(path) && record == if ok then text else old(record)
      ensures ok == works
    {
      Interfere(quiet);
      ok := works;
      if ok {
        record := text;
      }
    }

    /** Two attempts; each reads, decides, writes only over what it read, and undoes its own write
        when the record cannot be kept. */
    method AppendUserPath(element: string, consent: bool, y: System, quiet: bool) returns (outcome: Outcome)
      modifies this
      ensures quiet ==> (View(), outcome) == AppendStep(old(View()), element, consent, y)
      ensures OneEdit(old(edits), edits, e => AppendEdit(e, element))
      ensures outcome == Refused(PathConcurrencyUnsafe) ==> losses == old(losses) + 2 && edits == old(edits)
      ensures edits == old(edits) && outcome != Refused(PathConcurrencyUnsafe) ==> losses <= old(losses) + 1
      ensures outcome.changed ==> |edits| == |old(edits)| + 1
    {
      var attempt := 0;
      EmptyIsNoRecord();
      while attempt < 2
        invariant edits == old(edits) && attempt <= 2 && losses == old(losses) + attempt
        invariant quiet ==> View() == old(View()) && attempt == 0
      {
        attempt := attempt + 1;
        Interfere(quiet);
        var current := path;
        if current.Some? && !SafeKind(current.value.kind) {
          return Refused(PathValueUnsafe);
        }
        if element in SplitPath(TextOf(current)) {
          return UNCHANGED;
        }
        Interfere(quiet);
        var recorded := record;
        var owned := OwnedBy(recorded);
        if recorded.Some? && owned.None? {
          return Refused(PathRecordInvalid);
        }
        var text := TextOf(current);
        if owned.Some? {
          var parts := SplitPath(text);
          if current != Some(PathValue(owned.value.path, owned.value.kind)) || Last(parts) != owned.value.element {
            return Refused(PathOwnershipChanged);
          }
          if !consent {
            return Refused(PathCorrectionConsentRequired);
          }
          text := JoinPath(WithoutLast(parts));
        }
        var changed := PathValue(text + ";" + element, KindOf(current));
        var written := CompareAndWrite(current, changed, y.writes, quiet);
        if written.Lost? {
          continue;
        }
        if written.Raised? {
          return Refused(Uncaught);
        }
        var kept := WriteRecord(Some(RecordText(Owned(element, changed.text, changed.kind))), y.keeps, quiet);
        if !kept {
          var undone := CompareAndWrite(Some(changed), PathValue(TextOf(current), changed.kind), y.restores, quiet);
          return Refused(AfterUndoing(undone));
        }
        return CHANGED;
      }
      outcome := Refused(PathConcurrencyUnsafe);
    }

    method RemoveRecordedUserPath(y: System, quiet: bool) returns (outcome: Outcome)
      modifies this
      ensures quiet ==> (View(), outcome) == RemoveStep(old(View()), y)
      ensures OneEdit(old(edits), edits, RemoveEdit)
      ensures outcome.changed ==> |edits| == |old(edits)| + 1
    {
      Interfere(quiet);
      var owned := OwnedBy(record);
      if owned.None? {
        return UNCHANGED;
      }
      Interfere(quiet);
      var current := path;
      if current.None? {
        return UNCHANGED;
      }
      var recorded := PathValue(owned.value.path, owned.value.kind);
      if current.value != recorded {
        return if owned.value.element in SplitPath(current.value.text) then Refused(PathOwnershipChanged) else UNCHANGED;
      }
      var parts := SplitPath(owned.value.path);
      if Last(parts) != owned.value.element {
        return Refused(PathOwnershipChanged);
      }
      var changed := PathValue(JoinPath(WithoutLast(parts)), owned.value.kind);
      var written := CompareAndWrite(current, changed, y.writes, quiet);
      if !written.Written? {
        return Refused(if written.Lost? then PathConcurrencyUnsafe else Uncaught);
      }
      var cleared := WriteRecord(None, y.keeps, quiet);
      if !cleared {
        var undone := CompareAndWrite(Some(changed), recorded, y.restores, quiet);
        return Refused(AfterUndoing(undone));
      }
      outcome := CHANGED;
    }

    /** The state directory on its own: deleted only under a record and a PATH that were still right
        when last read.  PATH is not written. */
    method CleanupLiteralState(absolute: bool, expected: Option<string>, deletes: bool, keeps: bool, quiet: bool) returns (outcome: Outcome)
      modifies this`path, this`record
      ensures quiet && absolute ==> (View(), outcome) == CleanStep(old(View()), expected, deletes, keeps)
      ensures !absolute ==> View() == old(View()) && outcome == Refused(StatePathUnsafe)
      ensures outcome.changed ==> deletes && keeps
    {
      if !absolute {
        return Refused(StatePathUnsafe);
      }
      Interfere(quiet);
      var recorded := record;
      if expected.Some? && recorded != expected {
        return Refused(PathOwnershipChanged);
      }
      var owned := OwnedBy(recorded);
      EmptyIsNoRecord();
      if owned.None? {
        return Refused(StateRecordMissing);
      }
      if Last(SplitPath(owned.value.path)) != owned.value.element {
        return Refused(PathOwnershipChanged);
      }
      var named := Some(PathValue(owned.value.path, owned.value.kind));
      Interfere(quiet);
      if path != named {
        return Refused(PathOwnershipChanged);
      }
      Interfere(quiet);
      if record != recorded || path != named {
        return Refused(PathOwnershipChanged);
      }
      if !deletes {
        return Refused(StateDeleteFailed);
      }
      var cleared := WriteRecord(None, keeps, quiet);
      outcome := if cleared then CHANGED else Refused(StateBookkeepingFailed);
    }

    /** The uninstall batch: PATH first, then the state directory, with PATH restored if that cannot
        be deleted.  Only a record that could not be cleared after the deletion is left stale. */
    method RemovePathAndCleanupState(absolute: bool, deletes: bool, y: System, quiet: bool) returns (removed: Outcome, cleaned: Outcome)
      modifies this
      ensures OneEdit(old(edits), edits, RemoveEdit)
      ensures cleaned.changed ==> if removed.changed then |edits| == |old(edits)| + 1 else edits == old(edits)
      ensures quiet && absolute ==> (View(), removed, cleaned) == BatchStep(old(View()), deletes, y)
      ensures !absolute ==>
        View() == old(View()) && edits == old(edits) && removed == Refused(PathTransactionAborted) && cleaned == Refused(StatePathUnsafe)
    {
      if !absolute {
        return Refused(PathTransactionAborted), Refused(StatePathUnsafe);
      }
      Interfere(quiet);
      var recorded := record;
      var owned := OwnedBy(recorded);
      EmptyIsNoRecord();
      if owned.None? {
        return UNCHANGED, Refused(StateRecordMissing);
      }
      var parts := SplitPath(owned.value.path);
      if Last(parts) != owned.value.element {
        return Refused(PathOwnershipChanged), Refused(PathRemoveFailed);
      }
      Interfere(quiet);
      var current := path;
      var named := PathValue(owned.value.path, owned.value.kind);
      if current != Some(named) {
        if current.Some? && owned.value.element in SplitPath(current.value.text) {
          return Refused(PathOwnershipChanged), Refused(PathRemoveFailed);
        }
        cleaned := CleanupLiteralState(absolute, recorded, deletes, y.keeps, quiet);
        return UNCHANGED, cleaned;
      }
      var changed := PathValue(JoinPath(WithoutLast(parts)), owned.value.kind);
      var written := CompareAndWrite(current, changed, y.writes, quiet);
      if written.Lost? {
        return Refused(PathConcurrencyUnsafe), Refused(PathRemoveFailed);
      }
      if written.Raised? {
        return Refused(Uncaught), Refused(Uncaught);
      }
      removed, cleaned := DeleteState(recorded, named, changed, deletes, y, quiet);
    }

    /** The part after PATH was written. */
    method DeleteState(recorded: Option<string>, named: PathValue, changed: PathValue, deletes: bool, y: System, quiet: bool)
      returns (removed: Outcome, cleaned: Outcome)
      requires edits != [] && edits[|edits| - 1] == Edit(Some(named), changed) && changed.kind == named.kind
      modifies this
      ensures edits == old(edits) || edits == old(edits) + [Edit(Some(changed), named)]
      ensures cleaned.changed ==> removed.changed && edits == old(edits)
      ensures quiet && old(View()) == State(Some(changed), recorded) ==>
        if !y.rereads then View() == old(View()) && removed == Refused(Uncaught) && cleaned == Refused(Uncaught)
        else if deletes then
          && View() == State(Some(changed), if y.keeps then None else recorded)
          && removed == CHANGED && cleaned == if y.keeps then CHANGED else Refused(StateBookkeepingFailed)
        else if y.restores then View() == State(Some(named), recorded) && removed == cleaned == Refused(StateDeleteFailed)
        else View() == old(View()) && removed == CHANGED && cleaned == Refused(PathRestoreFailed)
    {
      Interfere(quiet);
      if !y.rereads {
        return Refused(Uncaught), Refused(Uncaught);
      }
      if record != recorded || path != Some(changed) {
        return CHANGED, Refused(PathOwnershipChanged);
      }
      if !deletes {
        var restored := CompareAndWrite(Some(changed), named, y.restores, quiet);
        if restored.Written? {
          return Refused(StateDeleteFailed), Refused(StateDeleteFailed);
        }
        return CHANGED, Refused(PathRestoreFailed);
      }
      var cleared := WriteRecord(None, y.keeps, quiet);
      return CHANGED, if cleared then CHANGED else Refused(StateBookkeepingFailed);
    }
  }
}
