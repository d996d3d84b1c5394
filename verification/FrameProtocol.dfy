/**
 Nonce-bound frames: a 4-byte big-endian length followed by the canonical JSON encoding of a
 validated message (objects and strings as in sections 4 and 7 of RFC 8259).
 */
module FrameProtocol {
  import opened Wrappers
  import opened Json
  import opened TextOrder
  import opened Utf8

  const CONTROL_MAX_BYTES := 16 * 1024
  const RESPONSE_MAX_BYTES := 64 * 1024
  const MAX_NONCE := 128

  datatype Code =
    | Eof | TrailingBytes | Oversize | InvalidUtf8 | InvalidJson | DuplicateKey | UnknownField | InvalidMessage
    | TransportTimeout | TransportFailure | TransportEof

  const PROVIDERS := {"codex", "opencode_go"}
  const STATES := {"loading", "success", "unavailable", "safe_error"}
  const ERROR_CODES := {
    "timeout", "provider_error", "internal_error", "configuration_invalid", "invocation_invalid",
    "invalid_provider_data", "unknown_provider_state", "guard_acquisition_failed", "guard_wait_timeout",
    "deadline_exhausted", "cleanup_failed"}

  // ---------- dictionaries ----------

  function Lookup(members: seq<Member>, key: string): (r: Option<Json>)
    ensures r.Some? <==> exists i :: 0 <= i < |members| && members[i].key == key
    ensures r.Some? ==> exists i :: 0 <= i < |members| && members[i] == Member(key, r.value)
  {
    if members == [] then None
    else if members[0].key == key then Some(members[0].value)
    else
      var r := Lookup(members[1..], key);
      assert members == [members[0]] + members[1..];
      assert r.Some? ==> exists i :: 0 <= i < |members[1..]| && members[1..][i] == Member(key, r.value) && members[i + 1] == members[1..][i];
      assert forall i | 1 <= i < |members| :: members[i] == members[1..][i - 1];
      r
  }

  function Keys(members: seq<Member>): set<string> {
    set i | 0 <= i < |members| :: members[i].key
  }

  predicate IsText(v: Option<Json>) { v.Some? && v.value.Str? }

  predicate IsTextIn(v: Option<Json>, names: set<string>) { IsText(v) && v.value.s in names }

  // ---------- validation ----------

  predicate LabelOk(v: Option<Json>) {
    v == None || v == Some(Null)
    || (IsText(v) && 0 < |v.value.s| <= 64 && forall i | 0 <= i < |v.value.s| :: v.value.s[i] as int >= 32)
  }

  predicate ErrorObjectOk(v: Json) {
    v.Obj? && Keys(v.members) == {"code"} && IsTextIn(Lookup(v.members, "code"), ERROR_CODES)
  }

  predicate ResultFieldsOk(ms: seq<Member>) {
    var error := Lookup(ms, "error");
    var absent := error == None || error == Some(Null);
    && IsTextIn(Lookup(ms, "provider"), PROVIDERS)
    && IsTextIn(Lookup(ms, "state"), STATES)
    && LabelOk(Lookup(ms, "display_label"))
    && (Lookup(ms, "state").value.s == "safe_error" <==> !absent)
    && (!absent ==> ErrorObjectOk(error.value))
  }

  function Allowed(kind: string): Option<set<string>> {
    if kind in {"contained", "ready", "go"} then Some({"type", "nonce"})
    else if kind == "result" then Some({"type", "nonce", "provider", "state", "display_label", "error"})
    else if kind == "error" then Some({"type", "nonce", "code"})
    else None
  }

  function Required(kind: string): set<string> {
    {"type", "nonce"} + (if kind == "result" then {"provider", "state"} else if kind == "error" then {"code"} else {})
  }

  /** `None` when the message is valid. */
  function Complaint(message: Json): Option<Code> {
    if !message.Obj? then Some(InvalidMessage)
    else
      var ms := message.members;
      var kind, nonce := Lookup(ms, "type"), Lookup(ms, "nonce");
      if !IsText(kind) || !IsText(nonce) || !(0 < |nonce.value.s| <= MAX_NONCE) then Some(InvalidMessage)
      else
        var allowed := Allowed(kind.value.s);
        if allowed.None? then Some(InvalidMessage)
        else KindComplaint(kind.value.s, allowed.value, Keys(ms), ResultFieldsOk(ms), IsTextIn(Lookup(ms, "code"), ERROR_CODES))
  }

  /** The checks that depend on the message type. */
  function KindComplaint(kind: string, allowed: set<string>, keys: set<string>, resultOk: bool, codeOk: bool): Option<Code> {
    if !(keys <= allowed) then Some(UnknownField)
    else if !(Required(kind) <= keys) then Some(InvalidMessage)
    else if kind == "result" && !resultOk then Some(InvalidMessage)
    else if kind == "error" && !codeOk then Some(InvalidMessage)
    else None
  }

  function LimitFor(message: Json): nat
    requires Complaint(message).None?
  {
    if Lookup(message.members, "type").value.s in {"result", "error"} then RESPONSE_MAX_BYTES else CONTROL_MAX_BYTES
  }

  /** The checks, told by kind of message: control messages carry nothing but their type and nonce, an
      error its code, and a result a provider, a state, possibly a name, and an error exactly if the
      state says so. */
  lemma ComplaintExactly(message: Json)
    ensures Complaint(message).None? <==> message.Obj? && Addressed(message.members) && Welcome(message.members)
    ensures Complaint(message) == Some(UnknownField) <==>
      && message.Obj? && Addressed(message.members)
      && Lookup(message.members, "type").value.s in {"contained", "ready", "go", "result", "error"}
      && exists k :: k in Keys(message.members) && !Known(Lookup(message.members, "type").value.s, k)
    ensures Complaint(message) in {None, Some(UnknownField), Some(InvalidMessage)}
  {
    if message.Obj? && Addressed(message.members) {
      var ms := message.members;
      var kind := Lookup(ms, "type").value.s;
      if Allowed(kind).Some? {
        KindExactly(ms, kind);
      }
    }
  }

  lemma KindExactly(ms: seq<Member>, kind: string)
    requires Addressed(ms) && kind == Lookup(ms, "type").value.s && Allowed(kind).Some?
    ensures Complaint(Obj(ms)) ==
      if exists k :: k in Keys(ms) && !Known(kind, k) then Some(UnknownField) else if Welcome(ms) then None else Some(InvalidMessage)
  {
    KeyIsKnown(kind);
    var all := Keys(ms) <= Allowed(kind).value;
    assert all <==> forall k | k in Keys(ms) :: Known(kind, k);
    ResultExactly(ms);
    RequiredExactly(ms, kind);
    if kind == "result" {
      assert kind != "error" && kind != "contained" && kind != "ready" && kind != "go";
    } else if kind == "error" {
      assert kind != "contained" && kind != "ready" && kind != "go";
    }
  }

  lemma RequiredExactly(ms: seq<Member>, kind: string)
    ensures Required(kind) <= Keys(ms) <==>
      && Lookup(ms, "type").Some? && Lookup(ms, "nonce").Some?
      && (kind == "result" ==> Lookup(ms, "provider").Some? && Lookup(ms, "state").Some?)
      && (kind == "error" ==> Lookup(ms, "code").Some?)
  {
    forall k: string ensures k in Keys(ms) <==> Lookup(ms, k).Some? {
      LookupKey(ms, k);
    }
    assert Required(kind) <= Keys(ms) <==> forall k | k in Required(kind) :: k in Keys(ms);
  }

  /** A type and a nonce of 1 to 128 characters. */
  predicate Addressed(ms: seq<Member>) {
    var kind, nonce := Lookup(ms, "type"), Lookup(ms, "nonce");
    IsText(kind) && IsText(nonce) && 1 <= |nonce.value.s| <= 128
  }

  predicate Known(kind: string, key: string) {
    || key == "type" || key == "nonce" || (kind == "error" && key == "code")
    || (kind == "result" && (key == "provider" || key == "state" || key == "display_label" || key == "error"))
  }

  predicate Welcome(ms: seq<Member>)
    requires Addressed(ms)
  {
    var kind := Lookup(ms, "type").value.s;
    && (forall k | k in Keys(ms) :: Known(kind, k))
    && (kind == "contained" || kind == "ready" || kind == "go"
        || (kind == "error" && IsTextIn(Lookup(ms, "code"), ERROR_CODES))
        || (kind == "result" && ResultTells(Lookup(ms, "provider"), Lookup(ms, "state"), Lookup(ms, "display_label"), Lookup(ms, "error"))))
  }

  predicate ResultTells(provider: Option<Json>, state: Option<Json>, name: Option<Json>, error: Option<Json>) {
    && IsTextIn(provider, PROVIDERS) && IsTextIn(state, STATES) && Labelled(name)
    && if state.value.s == "safe_error" then error.Some? && ErrorObjectOk(error.value) else Missing(error)
  }

  lemma ResultExactly(ms: seq<Member>)
    ensures ResultFieldsOk(ms) <==>
      ResultTells(Lookup(ms, "provider"), Lookup(ms, "state"), Lookup(ms, "display_label"), Lookup(ms, "error"))
  {
    LabelExactly(Lookup(ms, "display_label"));
  }

  predicate Missing(v: Option<Json>) { v.None? || v.value.Null? }

  /** No label, or 1 to 64 characters without a control character before the space. */
  predicate Labelled(v: Option<Json>) {
    Missing(v) || (v.value.Str? && 1 <= |v.value.s| <= 64 && forall c | c in v.value.s :: ' ' <= c)
  }

  lemma LabelExactly(v: Option<Json>)
    ensures LabelOk(v) <==> Labelled(v)
  {
    if IsText(v) {
      assert forall i | 0 <= i < |v.value.s| :: v.value.s[i] in v.value.s;
    }
  }

  lemma KeyIsKnown(kind: string)
    requires Allowed(kind).Some?
    ensures forall k: string :: k in Allowed(kind).value <==> Known(kind, k)
  {
  }

  // ---------- canonical order ----------

  /** Keys are sorted in code point order. */
  function Insert(m: Member, ms: seq<Member>): seq<Member> {
    if ms == [] || TextLess(m.key, ms[0].key) then [m] + ms else [ms[0]] + Insert(m, ms[1..])
  }

  /** The same dictionary with its keys, and those of nested dictionaries, in order. */
  function Canon(v: Json): Json
    decreases v, 1
  {
    match v
    case Arr(items) => Arr(CanonItems(items))
    case Obj(members) => Obj(CanonMembers(members))
    case _ => v
  }

  function CanonItems(items: seq<Json>): seq<Json>
    decreases items, 0
  {
    if items == [] then [] else [Canon(items[0])] + CanonItems(items[1..])
  }

  function CanonMembers(members: seq<Member>): seq<Member>
    decreases members, 0
  {
    if members == [] then []
    else Insert(Member(members[0].key, Canon(members[0].value)), CanonMembers(members[1..]))
  }

  function Payload(message: Json): Bytes {
    Encode(Print(Canon(message), false))
  }

  // ---------- frames ----------

  function Pack(n: nat): (h: Bytes)
    requires n < 0x1_0000_0000
    ensures |h| == 4
  {
    [n / 256 / 256 / 256, n / 256 / 256 % 256, n / 256 % 256, n % 256]
  }

  function Unpack(h: Bytes): (n: nat)
    requires |h| >= 4
    ensures n < 0x1_0000_0000
  {
    ((((h[0] as int) * 256 + (h[1] as int)) * 256) + (h[2] as int)) * 256 + (h[3] as int)
  }

  function EncodeFrame(message: Json): Result<Bytes, Code> {
    var complaint := Complaint(message);
    if complaint.Some? then Err(complaint.value)
    else
      var payload := Payload(message);
      if |payload| > LimitFor(message) then Err(Oversize) else Ok(Pack(|payload|) + payload)
  }

  function DecodePayload(payload: Bytes): Result<Json, Code> {
    var text := Decode(payload);
    if text.None? then Err(InvalidUtf8)
    else match Parse(text.value, true)
      case Err(Syntax) => Err(InvalidJson)
      case Err(Duplicate) => Err(DuplicateKey)
      case Ok(message) =>
        var complaint := Complaint(message);
        if complaint.Some? then Err(complaint.value)
        else if Payload(message) != payload then Err(InvalidJson)
        else if |payload| > LimitFor(message) then Err(Oversize)
        else Ok(message)
  }

  function DecodeFrame(data: Bytes, limit: Option<nat>): Result<Json, Code> {
    if |data| < 4 then Err(Eof)
    else
      var length := Unpack(data);
      var maximum := if limit.None? then RESPONSE_MAX_BYTES else limit.value;
      if length > maximum then Err(Oversize)
      else if |data| < length + 4 then Err(Eof)
      else if |data| > length + 4 then Err(TrailingBytes)
      else DecodePayload(data[4..])
  }

  /** A frame that is cut short or has something behind it is told apart from every other fault, unless
      its announced length is already too large. */
  lemma LengthFaultsExactly(data: Bytes, limit: Option<nat>)
    ensures var maximum := if limit.None? then RESPONSE_MAX_BYTES else limit.value;
      var whole := if |data| < 4 then 4 else 4 + Unpack(data);
      && (DecodeFrame(data, limit) == Err(Eof) <==> |data| < 4 || (whole <= 4 + maximum && |data| < whole))
      && (DecodeFrame(data, limit) == Err(TrailingBytes) <==> |data| >= 4 && whole <= 4 + maximum && whole < |data|)
  {
  }

  // ---------- the canonical form is the same dictionary ----------

  predicate Sorted(ms: seq<Member>) {
    forall i, j | 0 <= i < j < |ms| :: TextLess(ms[i].key, ms[j].key)
  }

  predicate IsCanon(v: Json)
    decreases v
  {
    match v
    case Arr(items) => forall x | x in items :: IsCanon(x)
    case Obj(members) => Sorted(members) && forall m | m in members :: IsCanon(m.value)
    case _ => true
  }

  lemma {:induction false} InsertOrders(m: Member, ms: seq<Member>)
    requires Sorted(ms) && m.key !in Keys(ms)
    ensures Sorted(Insert(m, ms)) && (forall x :: x in Insert(m, ms) <==> x == m || x in ms)
    ensures Keys(Insert(m, ms)) == Keys(ms) + {m.key}
  {
    var r := Insert(m, ms);
    if ms == [] {
      assert r == [m];
    } else if TextLess(m.key, ms[0].key) {
      forall j | 1 <= j < |r| ensures TextLess(m.key, r[j].key) {
        if j > 1 {
          TextTransitive(m.key, ms[0].key, ms[j - 1].key);
        }
      }
    } else {
      assert ms[0].key in Keys(ms);
      TextTotal(m.key, ms[0].key);
      assert ms == [ms[0]] + ms[1..];
      assert Keys(ms) == Keys(ms[1..]) + {ms[0].key} by {
        forall i | 1 <= i < |ms| ensures ms[i].key in Keys(ms[1..]) { assert ms[1..][i - 1] == ms[i]; }
      }
      InsertOrders(m, ms[1..]);
      forall j | 1 <= j < |r| ensures TextLess(ms[0].key, r[j].key) {
        assert r[j] in Insert(m, ms[1..]);
      }
      forall i, j | 0 <= i < j < |r| ensures TextLess(r[i].key, r[j].key) {
        if i > 0 {
          assert r[i] == Insert(m, ms[1..])[i - 1] && r[j] == Insert(m, ms[1..])[j - 1];
        }
      }
    }
    KeysOfMembers(r, ms + [m]);
    assert Keys(ms + [m]) == Keys(ms) + {m.key} by {
      assert (ms + [m])[|ms|] == m;
      forall i | 0 <= i < |ms| ensures ms[i].key in Keys(ms + [m]) { assert (ms + [m])[i] == ms[i]; }
    }
  }

  lemma KeysOfMembers(a: seq<Member>, b: seq<Member>)
    requires forall x :: x in a <==> x in b
    ensures Keys(a) == Keys(b)
  {
    forall k | k in Keys(a) ensures k in Keys(b) {
      var i :| 0 <= i < |a| && a[i].key == k;
      assert a[i] in b;
    }
    forall k | k in Keys(b) ensures k in Keys(a) {
      var i :| 0 <= i < |b| && b[i].key == k;
      assert b[i] in a;
    }
  }

  lemma {:induction false} LookupOfMember(ms: seq<Member>, m: Member)
    requires m in ms && DistinctKeys(ms)
    ensures Lookup(ms, m.key) == Some(m.value)
  {
    if ms[0] != m {
      var i :| 0 <= i < |ms| && ms[i] == m;
      assert ms[1..][i - 1] == m;
      LookupOfMember(ms[1..], m);
    }
  }

  lemma SortedDistinct(ms: seq<Member>)
    requires Sorted(ms)
    ensures DistinctKeys(ms)
  {
    forall i, j | 0 <= i < j < |ms| ensures ms[i].key != ms[j].key {
      TextIrreflexive(ms[i].key);
    }
  }

  lemma TailKeys(ms: seq<Member>)
    requires ms != []
    ensures Keys(ms) == Keys(ms[1..]) + {ms[0].key}
    ensures DistinctKeys(ms) ==> DistinctKeys(ms[1..]) && ms[0].key !in Keys(ms[1..])
  {
    forall i | 1 <= i < |ms| ensures ms[i].key in Keys(ms[1..]) { assert ms[1..][i - 1] == ms[i]; }
  }

  /** Sorting keeps exactly the members, each with its value in canonical form. */
  lemma {:induction false} CanonMembersMeaning(ms: seq<Member>)
    requires DistinctKeys(ms)
    ensures Sorted(CanonMembers(ms)) && Keys(CanonMembers(ms)) == Keys(ms)
    ensures forall x | x in ms :: Member(x.key, Canon(x.value)) in CanonMembers(ms)
    ensures forall y | y in CanonMembers(ms) :: exists x :: x in ms && y == Member(x.key, Canon(x.value))
  {
    if ms != [] {
      TailKeys(ms);
      CanonMembersMeaning(ms[1..]);
      InsertOrders(Member(ms[0].key, Canon(ms[0].value)), CanonMembers(ms[1..]));
      assert ms == [ms[0]] + ms[1..];
      forall y | y in CanonMembers(ms) ensures exists x :: x in ms && y == Member(x.key, Canon(x.value)) {
        if y in CanonMembers(ms[1..]) {
          var x :| x in ms[1..] && y == Member(x.key, Canon(x.value));
          assert x in ms;
        } else {
          assert ms[0] in ms;
        }
      }
    }
  }

  lemma LookupKey(ms: seq<Member>, key: string)
    ensures Lookup(ms, key).Some? <==> key in Keys(ms)
  {
  }

  lemma CanonLookup(ms: seq<Member>, key: string)
    requires DistinctKeys(ms)
    ensures Lookup(CanonMembers(ms), key) == if Lookup(ms, key).Some? then Some(Canon(Lookup(ms, key).value)) else None
  {
    CanonMembersMeaning(ms);
    SortedDistinct(CanonMembers(ms));
    LookupKey(ms, key);
    LookupKey(CanonMembers(ms), key);
    if Lookup(ms, key).Some? {
      var m := Member(key, Lookup(ms, key).value);
      assert m in ms;
      LookupOfMember(CanonMembers(ms), Member(key, Canon(m.value)));
    }
  }

  lemma {:induction false} CanonIsCanon(v: Json)
    requires IsDict(v)
    ensures IsCanon(Canon(v))
    decreases v, 1
  {
    match v
    case Arr(items) => CanonItemsCanon(items);
    case Obj(members) =>
      CanonMembersMeaning(members);
      forall y | y in CanonMembers(members) ensures IsCanon(y.value) {
        var x :| x in members && y == Member(x.key, Canon(x.value));
        CanonIsCanon(x.value);
      }
    case _ =>
  }

  lemma {:induction false} CanonItemsCanon(items: seq<Json>)
    requires forall x | x in items :: IsDict(x)
    ensures forall y | y in CanonItems(items) :: IsCanon(y)
    decreases items, 0
  {
    if items != [] {
      CanonIsCanon(items[0]);
      CanonItemsCanon(items[1..]);
    }
  }

  lemma {:induction false} CanonFixes(v: Json)
    requires IsCanon(v)
    ensures Canon(v) == v
    decreases v, 1
  {
    match v
    case Arr(items) => CanonItemsFixes(items);
    case Obj(members) => CanonMembersFixes(members);
    case _ =>
  }

  lemma {:induction false} CanonItemsFixes(items: seq<Json>)
    requires forall x | x in items :: IsCanon(x)
    ensures CanonItems(items) == items
    decreases items, 0
  {
    if items != [] {
      CanonFixes(items[0]);
      CanonItemsFixes(items[1..]);
      assert [items[0]] + items[1..] == items;
    }
  }

  lemma {:induction false} CanonMembersFixes(members: seq<Member>)
    requires Sorted(members) && forall m | m in members :: IsCanon(m.value)
    ensures CanonMembers(members) == members
    decreases members, 0
  {
    if members != [] {
      CanonFixes(members[0].value);
      CanonMembersFixes(members[1..]);
      assert [members[0]] + members[1..] == members;
      assert |members| > 1 ==> TextLess(members[0].key, members[1].key);
    }
  }

  // ---------- valid messages ----------

  lemma ErrorObjectCanon(v: Json)
    requires IsDict(v) && ErrorObjectOk(v)
    ensures Canon(v) == v && FloatFree(v, true)
  {
    var ms := v.members;
    assert forall i | 0 <= i < |ms| :: ms[i].key in Keys(ms);
    assert ms != [] ==> ms[0].key == ms[|ms| - 1].key;
    assert "code" in Keys(ms);
    assert ms[0] == Member("code", Lookup(ms, "code").value);
    CanonFixes(v);
  }

  predicate Scalar(v: Json) { v.Str? || v.Null? }

  /** The values a valid message can hold: text, null, and one error object. */
  lemma ValidValue(ms: seq<Member>, key: string)
    requires Complaint(Obj(ms)).None? && key in Keys(ms)
    ensures Lookup(ms, key).Some?
    ensures Scalar(Lookup(ms, key).value) || ErrorObjectOk(Lookup(ms, key).value)
  {
    LookupKey(ms, key);
    ComplaintExactly(Obj(ms));
    assert Known(Lookup(ms, "type").value.s, key);
  }

  lemma ValidValues(message: Json, m: Member)
    requires IsDict(message) && Complaint(message).None? && m in message.members
    ensures Canon(m.value) == m.value && FloatFree(m.value, true)
  {
    LookupOfMember(message.members, m);
    LookupKey(message.members, m.key);
    ValidValue(message.members, m.key);
    if !Scalar(m.value) {
      ErrorObjectCanon(m.value);
    }
  }

  /** Two values the checks cannot tell apart. */
  predicate Alike(x: Option<Json>, y: Option<Json>) {
    && (x.Some? <==> y.Some?)
    && (x.Some? && (Scalar(x.value) || Scalar(y.value)) ==> x == y)
    && (x.Some? ==> (ErrorObjectOk(x.value) <==> ErrorObjectOk(y.value)))
  }

  lemma ResultFieldsAgree(a: seq<Member>, b: seq<Member>)
    requires forall key: string :: Alike(Lookup(a, key), Lookup(b, key))
    ensures ResultFieldsOk(a) == ResultFieldsOk(b)
  {
    ResultExactly(a);
    ResultExactly(b);
    TextsAgree(Lookup(a, "provider"), Lookup(b, "provider"));
    TextsAgree(Lookup(a, "state"), Lookup(b, "state"));
    AlikeAgree(Lookup(a, "display_label"), Lookup(b, "display_label"));
    AlikeAgree(Lookup(a, "error"), Lookup(b, "error"));
  }

  lemma AlikeAgree(x: Option<Json>, y: Option<Json>)
    requires Alike(x, y)
    ensures Missing(x) == Missing(y) && Labelled(x) == Labelled(y)
  {
  }

  lemma TextsAgree(x: Option<Json>, y: Option<Json>)
    requires Alike(x, y)
    ensures IsText(x) == IsText(y) && (IsText(x) ==> x == y)
  {
  }

  /** Validity depends on the dictionary, not on the order of its keys. */
  lemma ComplaintAgrees(a: seq<Member>, b: seq<Member>)
    requires Keys(a) == Keys(b) && ResultFieldsOk(a) == ResultFieldsOk(b)
    requires Alike(Lookup(a, "type"), Lookup(b, "type")) && Alike(Lookup(a, "nonce"), Lookup(b, "nonce"))
    requires Alike(Lookup(a, "code"), Lookup(b, "code"))
    ensures Complaint(Obj(a)) == Complaint(Obj(b))
    ensures Complaint(Obj(a)).None? ==> LimitFor(Obj(a)) == LimitFor(Obj(b))
  {
    TextsAgree(Lookup(a, "type"), Lookup(b, "type"));
    TextsAgree(Lookup(a, "nonce"), Lookup(b, "nonce"));
    TextsAgree(Lookup(a, "code"), Lookup(b, "code"));
  }

  lemma CanonAlike(v: Json)
    requires IsDict(v)
    ensures Alike(Some(v), Some(Canon(v)))
  {
    if v.Obj? {
      CanonMembersMeaning(v.members);
      CanonLookup(v.members, "code");
    }
  }

  lemma LookupIsDict(ms: seq<Member>, key: string)
    requires IsDict(Obj(ms)) && Lookup(ms, key).Some?
    ensures IsDict(Lookup(ms, key).value)
  {
    assert Member(key, Lookup(ms, key).value) in ms;
  }

  /** Sorting keeps the complaint, or its absence, of every dictionary and every other value. */
  lemma CanonKeepsComplaint(message: Json)
    requires IsDict(message)
    ensures Complaint(Canon(message)) == Complaint(message)
    ensures Complaint(message).None? ==> LimitFor(Canon(message)) == LimitFor(message)
  {
    if message.Obj? {
      var ms := message.members;
      CanonMembersMeaning(ms);
      forall key: string ensures Alike(Lookup(ms, key), Lookup(CanonMembers(ms), key)) {
        CanonLookup(ms, key);
        if Lookup(ms, key).Some? {
          LookupIsDict(ms, key);
          CanonAlike(Lookup(ms, key).value);
        }
      }
      ResultFieldsAgree(ms, CanonMembers(ms));
      ComplaintAgrees(ms, CanonMembers(ms));
    }
  }

  /** A valid message in canonical form holds only values that print and parse back. */
  lemma CanonIsPlain(message: Json)
    requires IsDict(message) && Complaint(message).None?
    ensures FloatFree(Canon(message), true) && Canon(Canon(message)) == Canon(message)
  {
    var ms := message.members;
    CanonMembersMeaning(ms);
    SortedDistinct(CanonMembers(ms));
    forall y | y in CanonMembers(ms) ensures FloatFree(y.value, true) {
      var x :| x in ms && y == Member(x.key, Canon(x.value));
      ValidValues(message, x);
    }
    CanonIsCanon(message);
    CanonFixes(Canon(message));
  }

  lemma UnpackOfPack(n: nat, rest: Bytes)
    requires n < 0x1_0000_0000
    ensures Unpack(Pack(n) + rest) == n
  {
    var h := Pack(n) + rest;
    assert h[0] == Pack(n)[0] && h[1] == Pack(n)[1] && h[2] == Pack(n)[2] && h[3] == Pack(n)[3];
    SplitByte(n);
    SplitByte(n / 256);
    SplitByte(n / 256 / 256);
  }

  lemma SplitByte(n: nat)
    ensures n / 256 * 256 + n % 256 == n
  {
  }

  lemma JoinByte(a: nat, b: nat)
    requires b < 256
    ensures (a * 256 + b) / 256 == a && (a * 256 + b) % 256 == b
  {
  }

  lemma PackOfUnpack(h: Bytes)
    requires |h| >= 4
    ensures Pack(Unpack(h)) == h[..4]
  {
    JoinByte(h[0] as int, h[1] as int);
    JoinByte((h[0] as int) * 256 + (h[1] as int), h[2] as int);
    JoinByte(((h[0] as int) * 256 + (h[1] as int)) * 256 + (h[2] as int), h[3] as int);
  }

  lemma PayloadDecodes(message: Json)
    requires IsDict(message) && Complaint(message).None? && |Payload(message)| <= LimitFor(message)
    ensures DecodePayload(Payload(message)) == Ok(Canon(message))
  {
    CanonKeepsComplaint(message);
    CanonIsPlain(message);
    DecodeOfEncode(Print(Canon(message), false));
    ParseOfPrint(Canon(message), false, true);
  }

  // ---------- main results ----------

  /** The order of keys, at any level, changes neither the frame nor the complaint. */
  lemma EncodingIgnoresOrder(a: Json, b: Json)
    requires IsDict(a) && IsDict(b) && Canon(a) == Canon(b)
    ensures EncodeFrame(a) == EncodeFrame(b)
  {
    CanonKeepsComplaint(a);
    CanonKeepsComplaint(b);
  }

  /** Whatever the encoder accepts, the decoder returns: the same dictionary. */
  lemma DecodeInvertsEncode(message: Json, frame: Bytes)
    requires IsDict(message) && EncodeFrame(message) == Ok(frame)
    ensures DecodeFrame(frame, None) == Ok(Canon(message))
  {
    var payload := Payload(message);
    UnpackOfPack(|payload|, payload);
    assert frame[4..] == payload;
    PayloadDecodes(message);
  }

  /** Whatever the decoder accepts, under any limit, is the encoding of what it returns. */
  lemma EncodeInvertsDecode(data: Bytes, limit: Option<nat>)
    requires DecodeFrame(data, limit).Ok?
    ensures EncodeFrame(DecodeFrame(data, limit).value) == Ok(data)
  {
    PackOfUnpack(data);
    assert data == data[..4] + data[4..];
  }

  predicate Encodes(message: Json, data: Bytes) {
    IsDict(message) && EncodeFrame(message) == Ok(data)
  }

  lemma DecodedPayloadIsDict(payload: Bytes)
    requires DecodePayload(payload).Ok?
    ensures IsDict(DecodePayload(payload).value)
  {
    var text := Decode(payload).value;
    ParsedIsDict(SkipSpace(text));
  }

  lemma AcceptedIsEncoded(data: Bytes)
    requires DecodeFrame(data, None).Ok?
    ensures Encodes(DecodeFrame(data, None).value, data)
  {
    EncodeInvertsDecode(data, None);
    DecodedPayloadIsDict(data[4..]);
  }

  /** So the accepted frames are exactly the encoder's image. */
  lemma AcceptedFramesAreCanonical(data: Bytes)
    ensures DecodeFrame(data, None).Ok? <==> exists message :: Encodes(message, data)
  {
    if DecodeFrame(data, None).Ok? {
      AcceptedIsEncoded(data);
    }
    if message :| Encodes(message, data) {
      DecodeInvertsEncode(message, data);
    }
  }

  // ---------- transport ----------

  datatype Answer = Chunk(bytes: Bytes) | Empty | TimedOut | Broken

  predicate IsTransport(c: Code) { c.TransportTimeout? || c.TransportFailure? || c.TransportEof? }

  /** A byte pipe whose operations may be short, time out or fail at any call; a smooth one is only
      ever short. */
  class Transport {
    const smooth: bool
    var incoming: Bytes
    var outgoing: Bytes

    constructor (incoming: Bytes, smooth: bool)
      ensures this.incoming == incoming && outgoing == [] && this.smooth == smooth
    {
      this.incoming, this.smooth := incoming, smooth;
      outgoing := [];
    }

    /** At most `size` bytes, and at least one unless nothing arrives. */
    method Read(size: nat) returns (a: Answer)
      requires 0 < size
      modifies this`incoming
      ensures a.Chunk? ==> 0 < |a.bytes| <= size && old(incoming) == a.bytes + incoming
      ensures !a.Chunk? ==> incoming == old(incoming)
      ensures a.Empty? ==> incoming == []
      ensures smooth ==> a.Chunk? || a.Empty?
    {
      var outcome: int := *;
      outcome := if smooth then 2 else outcome;
      if outcome == 0 {
        a := TimedOut;
      } else if outcome == 1 {
        a := Broken;
      } else if incoming == [] {
        a := Empty;
      } else {
        var k: nat :| 0 < k <= size && k <= |incoming|;
        a := Chunk(incoming[..k]);
        incoming := incoming[k..];
      }
    }

    /** Takes a prefix of `data`; `None` is a timeout or a failure, `Some(0)` a refused write. */
    method Write(data: Bytes) returns (written: Result<nat, Code>)
      modifies this`outgoing
      ensures written.Ok? ==> written.value <= |data| && outgoing == old(outgoing) + data[..written.value]
      ensures written.Err? ==> IsTransport(written.error) && outgoing == old(outgoing)
      ensures smooth && data != [] ==> written.Ok? && 0 < written.value
    {
      var outcome: int := *;
      outcome := if smooth then 2 else outcome;
      if outcome == 0 {
        written := Err(TransportTimeout);
      } else if outcome == 1 {
        written := Err(TransportFailure);
      } else {
        var k: nat :| k <= |data| && (smooth && data != [] ==> 0 < k);
        outgoing := outgoing + data[..k];
        written := Ok(k);
      }
    }
  }

  /** Reads exactly `length` bytes or stops with a transport error; a stopped read has consumed a
      proper prefix. */
  method ReadExact(transport: Transport, length: nat) returns (r: Result<Bytes, Code>)
    modifies transport`incoming
    ensures r.Ok? ==> |r.value| == length && old(transport.incoming) == r.value + transport.incoming
    ensures r.Err? ==> IsTransport(r.error)
    ensures transport.smooth ==> if length <= |old(transport.incoming)| then r.Ok? else r == Err(TransportEof)
  {
    var result: Bytes := [];
    while |result| < length
      invariant |result| <= length && old(transport.incoming) == result + transport.incoming
    {
      var a := transport.Read(length - |result|);
      match a
      case Chunk(bytes) =>
        result := result + bytes;
      case Empty => return Err(TransportEof);
      case TimedOut => return Err(TransportTimeout);
      case Broken => return Err(TransportFailure);
    }
    r := Ok(result);
  }

  /** What reading one frame from the start of a stream gives, and the bytes left behind it. */
  function ReadStream(stream: Bytes, limit: Option<nat>): Result<(Json, Bytes), Code> {
    if |stream| < 4 then Err(TransportEof)
    else
      var length := Unpack(stream[..4]);
      var maximum := if limit.None? then RESPONSE_MAX_BYTES else limit.value;
      if length > maximum then Err(Oversize)
      else if |stream| < length + 4 then Err(TransportEof)
      else
        var r := DecodeFrame(stream[..length + 4], Some(maximum));
        if r.Err? then Err(r.error) else Ok((r.value, stream[length + 4..]))
  }

  function Maximum(limit: Option<nat>): nat { if limit.None? then RESPONSE_MAX_BYTES else limit.value }

  /** An accepted frame has the length it announces. */
  lemma AcceptedLength(frame: Bytes, limit: Option<nat>)
    requires DecodeFrame(frame, limit).Ok?
    ensures |frame| >= 4 && |frame| == Unpack(frame) + 4 && Unpack(frame) <= Maximum(limit)
    ensures DecodeFrame(frame, Some(Maximum(limit))) == DecodeFrame(frame, limit)
  {
  }

  lemma SameHeader(a: Bytes, b: Bytes)
    requires |a| >= 4 && |b| >= 4 && a[..4] == b[..4]
    ensures Unpack(a) == Unpack(b)
  {
    assert a[0] == a[..4][0] && a[1] == a[..4][1] && a[2] == a[..4][2] && a[3] == a[..4][3];
    assert b[0] == b[..4][0] && b[1] == b[..4][1] && b[2] == b[..4][2] && b[3] == b[..4][3];
  }

  lemma FrameInStream(frame: Bytes, rest: Bytes, limit: Option<nat>, message: Json)
    requires DecodeFrame(frame, limit) == Ok(message)
    ensures ReadStream(frame + rest, limit) == Ok((message, rest))
  {
    AcceptedLength(frame, limit);
    var stream := frame + rest;
    assert stream[..4] == frame[..4] == frame[..4][..4];
    SameHeader(stream[..4], frame);
    assert stream[..|frame|] == frame && stream[|frame|..] == rest;
  }

  lemma StreamStartsWithFrame(stream: Bytes, limit: Option<nat>)
    requires ReadStream(stream, limit).Ok?
    ensures var (message, rest) := ReadStream(stream, limit).value;
      |rest| <= |stream| && stream[|stream| - |rest|..] == rest && DecodeFrame(stream[..|stream| - |rest|], limit) == Ok(message)
  {
    var length := Unpack(stream[..4]);
    assert DecodeFrame(stream[..length + 4], Some(Maximum(limit))) == DecodeFrame(stream[..length + 4], limit);
  }

  /** A message is read exactly if a front part of the stream is an accepted frame of it. */
  lemma StreamExactly(stream: Bytes, limit: Option<nat>, message: Json, rest: Bytes)
    ensures ReadStream(stream, limit) == Ok((message, rest)) <==>
      |rest| <= |stream| && stream[|stream| - |rest|..] == rest && DecodeFrame(stream[..|stream| - |rest|], limit) == Ok(message)
  {
    if ReadStream(stream, limit).Ok? {
      StreamStartsWithFrame(stream, limit);
    }
    if |rest| <= |stream| && stream[|stream| - |rest|..] == rest && DecodeFrame(stream[..|stream| - |rest|], limit) == Ok(message) {
      var frame := stream[..|stream| - |rest|];
      assert stream == frame + rest;
      FrameInStream(frame, rest, limit, message);
    }
  }

  /** The stream ends too early exactly if it is shorter than the frame it announces. */
  lemma StreamEndsEarly(stream: Bytes, limit: Option<nat>)
    ensures ReadStream(stream, limit) == Err(TransportEof) <==>
      |stream| < 4 || (Unpack(stream) <= Maximum(limit) && |stream| < 4 + Unpack(stream))
  {
    if |stream| >= 4 {
      SameHeader(stream[..4], stream);
    }
  }

  /** However the transport cuts the stream into chunks, reading a frame consumes exactly that
      frame and gives its message, or the protocol error it deserves. */
  method ReadFrame(transport: Transport, limit: Option<nat>) returns (r: Result<Json, Code>)
    modifies transport`incoming
    ensures r.Ok? ==> ReadStream(old(transport.incoming), limit) == Ok((r.value, transport.incoming))
    ensures r.Err? && (!IsTransport(r.error) || transport.smooth) ==> ReadStream(old(transport.incoming), limit) == Err(r.error)
  {
    ghost var stream := transport.incoming;
    var header := ReadExact(transport, 4);
    if header.Err? {
      return Err(header.error);
    }
    assert stream[..4] == header.value;
    var length := Unpack(header.value);
    var maximum := if limit.None? then RESPONSE_MAX_BYTES else limit.value;
    if length > maximum {
      return Err(Oversize);
    }
    var body := ReadExact(transport, length);
    if body.Err? {
      return Err(body.error);
    }
    assert stream == header.value + body.value + transport.incoming;
    assert stream[..length + 4] == header.value + body.value;
    assert stream[length + 4..] == transport.incoming;
    r := DecodeFrame(header.value + body.value, Some(maximum));
  }

  ghost predicate SentPrefix(before: Bytes, frame: Bytes, after: Bytes) {
    exists k: nat | k <= |frame| :: after == before + frame[..k]
  }

  method SendAll(transport: Transport, frame: Bytes) returns (r: Result<(), Code>)
    modifies transport`outgoing
    ensures r.Ok? ==> transport.outgoing == old(transport.outgoing) + frame
    ensures r.Err? ==> IsTransport(r.error) && SentPrefix(old(transport.outgoing), frame, transport.outgoing)
    ensures transport.smooth ==> r.Ok?
  {
    var offset := 0;
    while offset < |frame|
      invariant offset <= |frame| && transport.outgoing == old(transport.outgoing) + frame[..offset]
    {
      var written := transport.Write(frame[offset..]);
      if written.Err? {
        return Err(written.error);
      }
      if written.value == 0 {
        return Err(TransportFailure);
      }
      assert frame[..offset] + frame[offset..][..written.value] == frame[..offset + written.value];
      offset := offset + written.value;
    }
    assert frame[..offset] == frame;
    r := Ok(());
  }

  /** A completed write has sent exactly the frame; a failed one a prefix of it. */
  method WriteFrame(transport: Transport, message: Json) returns (r: Result<(), Code>)
    modifies transport`outgoing
    ensures r.Ok? ==> EncodeFrame(message).Ok? && transport.outgoing == old(transport.outgoing) + EncodeFrame(message).value
    ensures EncodeFrame(message).Err? ==> r == Err(EncodeFrame(message).error) && transport.outgoing == old(transport.outgoing)
    ensures r.Err? && EncodeFrame(message).Ok? ==>
              IsTransport(r.error) && SentPrefix(old(transport.outgoing), EncodeFrame(message).value, transport.outgoing)
    ensures transport.smooth ==> (r.Ok? <==> EncodeFrame(message).Ok?)
  {
    var encoded := EncodeFrame(message);
    if encoded.Err? {
      return Err(encoded.error);
    }
    r := SendAll(transport, encoded.value);
  }

  /** A stream that starts with a written frame reads back as its message, leaving the rest. */
  lemma WrittenFramesReadBack(message: Json, frame: Bytes, tail: Bytes)
    requires IsDict(message) && EncodeFrame(message) == Ok(frame)
    ensures ReadStream(frame + tail, None) == Ok((Canon(message), tail))
  {
    var stream := frame + tail;
    DecodeInvertsEncode(message, frame);
    assert stream[..|stream| - |tail|] == frame && stream[|stream| - |tail|..] == tail;
    StreamExactly(stream, None, Canon(message), tail);
  }
}
