/**
 The provider view a helper process sends back, as a JSON tree and as bytes: how it is written, how
 the parent reads it, and that reading undoes writing for every view in normal form.
 */
module HelperWire {
  import opened Decimals
  import opened Digits
  import opened Json
  import opened Percentage
  import opened Utf8
  import opened Wrappers

  const MAX_RESPONSE := 65_536
  const MAX_QUOTA_WINDOWS := 32
  const MAX_DISPLAY_LABEL := 64
  const SUM_DIGITS := 28
  const CODEX_SOURCE := "codex-app-server-v2"

  /** Enumerations are their names. */
  const STATES := {"loading", "success", "unavailable", "safe_error"}
  const OUTCOMES := {"snapshot", "undetected", "not_run", "execution_error"}
  const PUBLIC_STATES := {"available", "partial", "unavailable", "unauthorized", "rate_limited", "transient_error", "invalid_data"}
  const FRESHNESS := {"fresh", "stale"}
  const KINDS := {"commercial_quota", "technical_rate_limit", "other"}
  const METRICS := {"commercial_quota", "technical_rate_limit"}
  const AVAILABILITIES := {"known", "unlimited", "disabled", "unavailable", "unknown", "not_authorized", "not_applicable", "invalid", "error"}
  const ERROR_CODES := {"timeout", "provider_error", "internal_error", "configuration_invalid", "invocation_invalid", "invalid_provider_data",
                        "unknown_provider_state", "guard_acquisition_failed", "guard_wait_timeout", "deadline_exhausted", "cleanup_failed"}

  const WIRE_FIELDS := ["provider", "state", "outcome", "display_label", "error", "snapshot"]
  const SNAPSHOT_FIELDS := ["public_state", "freshness", "status_observed_at", "fetched_at", "data_at", "source_id", "windows", "rate_limit_reset_credits"]
  const WINDOW_FIELDS := ["kind", "scope", "period", "plan_id", "availability", "source_id", "reset_at", "limit", "used", "remaining"]
  const QUANTITY_FIELDS := ["metric", "value", "unit"]
  const RESET_FIELDS := ["available_count", "next_expires_at"]
  const ERROR_FIELDS := ["code"]

  // ---------- views; an instant is a number of microseconds ----------

  datatype Quantity = Quantity(metric: string, value: Dec, unit: string)

  datatype Window = Window(kind: string, scope: string, period: string, planId: Option<string>, availability: string,
                           sourceId: Option<string>, resetAt: Option<int>, limit: Option<Quantity>, used: Option<Quantity>, remaining: Option<Quantity>)

  datatype Resets = Resets(availableCount: int, nextExpiresAt: Option<int>)

  datatype Snapshot = Snapshot(publicState: string, freshness: string, statusObservedAt: int, fetchedAt: int, dataAt: int,
                               sourceId: Option<string>, windows: seq<Window>, resets: Option<Resets>)

  /** The view of a Codex provider without a not-run reason, which the wire does not carry. */
  datatype View = View(state: string, error: Option<string>, displayLabel: Option<string>, outcome: Option<string>, snapshot: Option<Snapshot>)

  /** Writing and reading UTC timestamps, the identity check with its Unicode normalisation, and the
      normalised, stripped form of a source. */
  datatype Env = Env(write: int -> string, read: string -> Option<int>, identity: string -> Option<string>, source: string -> string)

  ghost predicate Faithful(env: Env) {
    && (forall t :: env.read(env.write(t)) == Some(t))
    && (forall s :: env.identity(s).Some? ==> env.identity(env.identity(s).value) == env.identity(s))
    && env.source(CODEX_SOURCE) == CODEX_SOURCE
  }

  // ---------- what the constructors accept ----------

  function MakeQuantity(metric: string, value: Dec, unit: string, env: Env): Option<Quantity> {
    var canonical :- Canonical(Finite(false, value));
    var name :- env.identity(unit);
    if metric in METRICS then Some(Quantity(metric, canonical, name)) else None
  }

  /** The sum of two quantities as decimal arithmetic rounds it. */
  function Sum(a: Dec, b: Dec): Dec {
    RoundTo(Dec(Common(a, b) + Common(b, a), if a.exponent <= b.exponent then a.exponent else b.exponent), SUM_DIGITS)
  }

  predicate SameMeasure(a: Option<Quantity>, b: Option<Quantity>) {
    a.None? || b.None? || (a.value.metric == b.value.metric && a.value.unit == b.value.unit)
  }

  predicate MetricFits(kind: string, q: Option<Quantity>) {
    q.None? || kind == "other" || q.value.metric == kind
  }

  predicate NotAbove(q: Option<Quantity>, limit: Quantity) {
    q.None? || Worth(q.value.value) <= Worth(limit.value)
  }

  /** The numeric rules of a window. */
  predicate Consistent(w: Window) {
    if w.availability == "known" then
      && (w.limit.Some? || w.used.Some? || w.remaining.Some?)
      && MetricFits(w.kind, w.limit) && MetricFits(w.kind, w.used) && MetricFits(w.kind, w.remaining)
      && SameMeasure(w.limit, w.used) && SameMeasure(w.limit, w.remaining) && SameMeasure(w.used, w.remaining)
      && (w.limit.Some? ==>
            && NotAbove(w.used, w.limit.value) && NotAbove(w.remaining, w.limit.value)
            && (w.used.Some? && w.remaining.Some? ==>
                  Worth(Sum(w.used.value.value, w.remaining.value.value)) == Worth(w.limit.value.value)))
    else
      w.limit.None? && w.used.None? && w.remaining.None? && w.resetAt.None?
  }

  function OptionalIdentity(o: Option<string>, env: Env): Option<Option<string>> {
    if o.None? then Some(None)
    else
      var name :- env.identity(o.value);
      Some(Some(name))
  }

  function MakeWindow(w: Window, env: Env): Option<Window> {
    var scope :- env.identity(w.scope);
    var period :- env.identity(w.period);
    var plan :- OptionalIdentity(w.planId, env);
    if w.kind in KINDS && w.availability in AVAILABILITIES && Consistent(w) then
      Some(w.(scope := scope, period := period, planId := plan))
    else None
  }

  predicate ResetsOk(r: Option<Resets>) {
    r.None? || (r.value.availableCount >= 0 && (r.value.nextExpiresAt.Some? ==> r.value.availableCount > 0))
  }

  predicate DistinctWindows(windows: seq<Window>) {
    forall i, j | 0 <= i < j < |windows| ::
      windows[i].kind != windows[j].kind || windows[i].scope != windows[j].scope || windows[i].period != windows[j].period
  }

  predicate SnapshotOk(s: Snapshot) {
    && s.publicState in PUBLIC_STATES && s.freshness in FRESHNESS
    && ResetsOk(s.resets)
    && s.statusObservedAt <= s.fetchedAt && s.dataAt <= s.fetchedAt
    && |s.windows| <= MAX_QUOTA_WINDOWS && DistinctWindows(s.windows)
    && (s.publicState == "rate_limited" ==> forall i | 0 <= i < |s.windows| :: s.windows[i].kind == "technical_rate_limit")
  }

  function LegacyState(s: Snapshot): string {
    if s.freshness == "stale" then "unavailable"
    else if s.publicState == "available" || s.publicState == "partial" then "success"
    else "unavailable"
  }

  predicate LabelOk(name: Option<string>) {
    name.None? || (name.value != "" && |name.value| <= MAX_DISPLAY_LABEL && forall i | 0 <= i < |name.value| :: name.value[i] as int >= 32)
  }

  /** What the constructor of a view demands. */
  predicate ViewOk(v: View) {
    && v.state in STATES
    && (v.error.Some? <==> v.state == "safe_error")
    && (v.error.Some? ==> v.error.value in ERROR_CODES)
    && (v.outcome.Some? ==> v.outcome.value in OUTCOMES)
    && (v.outcome == Some("snapshot") <==> v.snapshot.Some?)
    && (v.outcome == Some("snapshot") ==> v.state != "safe_error")
    && (v.outcome == Some("execution_error") ==> v.state == "safe_error")
    && (v.outcome.Some? && v.outcome != Some("execution_error") ==> v.error.None?)
    && LabelOk(v.displayLabel)
  }

  // ---------- objects with exactly the expected fields ----------

  function Find(members: seq<Member>, key: string): Option<Json> {
    if members == [] then None
    else if members[0].key == key then Some(members[0].value)
    else Find(members[1..], key)
  }

  function Values(members: seq<Member>, keys: seq<string>): Option<seq<Json>> {
    if keys == [] then Some([])
    else
      var v :- Find(members, keys[0]);
      var rest :- Values(members, keys[1..]);
      Some([v] + rest)
  }

  /** The values of an object that has exactly these fields, in any order. */
  function Fields(v: Json, keys: seq<string>): (r: Option<seq<Json>>)
    ensures r.Some? ==> |r.value| == |keys|
  {
    if !v.Obj? || |v.members| != |keys| || !DistinctKeys(v.members) then None
    else
      ValuesCount(v.members, keys);
      Values(v.members, keys)
  }

  lemma {:induction false} ValuesCount(members: seq<Member>, keys: seq<string>)
    ensures Values(members, keys).Some? ==> |Values(members, keys).value| == |keys|
  {
    if keys != [] {
      ValuesCount(members, keys[1..]);
    }
  }

  function Members(keys: seq<string>, values: seq<Json>): (r: seq<Member>)
    requires |keys| == |values|
    ensures |r| == |keys| && forall i | 0 <= i < |r| :: r[i] == Member(keys[i], values[i])
  {
    if keys == [] then [] else [Member(keys[0], values[0])] + Members(keys[1..], values[1..])
  }

  function Object(keys: seq<string>, values: seq<Json>): Json
    requires |keys| == |values|
  {
    Obj(Members(keys, values))
  }

  predicate Distinct(keys: seq<string>) {
    forall i, j | 0 <= i < j < |keys| :: keys[i] != keys[j]
  }

  lemma {:induction false} FindAt(members: seq<Member>, i: nat)
    requires i < |members| && DistinctKeys(members)
    ensures Find(members, members[i].key) == Some(members[i].value)
  {
    if i > 0 {
      assert members[0].key != members[i].key;
      FindAt(members[1..], i - 1);
    }
  }

  lemma {:induction false} ValuesFrom(members: seq<Member>, keys: seq<string>, values: seq<Json>, from: nat)
    requires |keys| == |values| == |members| && DistinctKeys(members) && from <= |keys|
    requires forall i | 0 <= i < |keys| :: members[i] == Member(keys[i], values[i])
    ensures Values(members, keys[from..]) == Some(values[from..])
    decreases |keys| - from
  {
    if from < |keys| {
      FindAt(members, from);
      ValuesFrom(members, keys, values, from + 1);
      assert keys[from..][1..] == keys[from + 1..] && values[from..] == [values[from]] + values[from + 1..];
    }
  }

  /** An object written with distinct fields gives its values back. */
  lemma FieldsOfObject(keys: seq<string>, values: seq<Json>)
    requires |keys| == |values| && Distinct(keys)
    ensures Fields(Object(keys, values), keys) == Some(values)
  {
    ValuesFrom(Members(keys, values), keys, values, 0);
    assert keys[0..] == keys && values[0..] == values;
  }

  lemma ShortFieldsDistinct()
    ensures Distinct(QUANTITY_FIELDS) && Distinct(RESET_FIELDS) && Distinct(ERROR_FIELDS)
  {
    assert "available_count"[0] != "next_expires_at"[0];
  }

  lemma WireFieldsDistinct()
    ensures Distinct(WIRE_FIELDS)
  {
    assert "provider"[0] != "snapshot"[0] && "state"[0] != "error"[0];
  }

  lemma SnapshotFieldsDistinct()
    ensures Distinct(SNAPSHOT_FIELDS)
  {
    assert "freshness"[0] != "source_id"[0] && "data_at"[0] != "windows"[0];
  }

  lemma WindowFieldsDistinct()
    ensures Distinct(WINDOW_FIELDS)
  {
    assert "kind"[0] != "used"[0] && "scope"[0] != "limit"[0] && "source_id"[0] != "remaining"[0];
  }

  // ---------- writing ----------

  function TextTree(o: Option<string>): Json { if o.None? then Null else Str(o.value) }

  function TimeTree(o: Option<int>, env: Env): Json { if o.None? then Null else Str(env.write(o.value)) }

  function QuantityTree(q: Quantity): Json {
    Object(QUANTITY_FIELDS, QuantityValues(q))
  }

  function QuantityValues(q: Quantity): (m: seq<Json>)
    ensures |m| == 3
  {
    [Str(q.metric), Str(FixedText(q.value)), Str(q.unit)]
  }

  function OptionalQuantityTree(q: Option<Quantity>): Json { if q.None? then Null else QuantityTree(q.value) }

  function WindowTree(w: Window, env: Env): Json {
    Object(WINDOW_FIELDS, WindowValues(w, env))
  }

  function WindowValues(w: Window, env: Env): (m: seq<Json>)
    ensures |m| == 10
  {
    [Str(w.kind), Str(w.scope), Str(w.period), TextTree(w.planId), Str(w.availability), TextTree(w.sourceId),
                           TimeTree(w.resetAt, env), OptionalQuantityTree(w.limit), OptionalQuantityTree(w.used), OptionalQuantityTree(w.remaining)]
  }

  function WindowTrees(windows: seq<Window>, env: Env): (r: seq<Json>)
    ensures |r| == |windows|
  {
    if windows == [] then [] else [WindowTree(windows[0], env)] + WindowTrees(windows[1..], env)
  }

  function ResetsTree(r: Option<Resets>, env: Env): Json {
    if r.None? then Null
    else Object(RESET_FIELDS, [Int(r.value.availableCount), TimeTree(r.value.nextExpiresAt, env)])
  }

  function SnapshotTree(s: Snapshot, env: Env): Json {
    Object(SNAPSHOT_FIELDS, SnapshotValues(s, env))
  }

  function SnapshotValues(s: Snapshot, env: Env): (m: seq<Json>)
    ensures |m| == 8
  {
    [Str(s.publicState), Str(s.freshness), Str(env.write(s.statusObservedAt)), Str(env.write(s.fetchedAt)),
                             Str(env.write(s.dataAt)), TextTree(s.sourceId), Arr(WindowTrees(s.windows, env)), ResetsTree(s.resets, env)]
  }

  function PayloadTree(v: View, env: Env): Json {
    Object(WIRE_FIELDS, PayloadValues(v, env))
  }

  function PayloadValues(v: View, env: Env): (m: seq<Json>)
    ensures |m| == 6
  {
    [Str("codex"), Str(v.state), TextTree(v.outcome), TextTree(v.displayLabel),
                         if v.error.None? then Null else Object(ERROR_FIELDS, [Str(v.error.value)]),
                         if v.snapshot.None? then Null else SnapshotTree(v.snapshot.value, env)]
  }

  // ---------- reading ----------

  function ReadText(v: Json): Option<string> { if v.Str? then Some(v.s) else None }

  function ReadEnum(v: Json, names: set<string>): Option<string> {
    if v.Str? && v.s in names then Some(v.s) else None
  }

  function ReadIdentity(v: Json, env: Env): Option<string> { if v.Str? then env.identity(v.s) else None }

  function ReadTime(v: Json, env: Env): Option<int> { if v.Str? then env.read(v.s) else None }

  function ReadOptionalTime(v: Json, env: Env): Option<Option<int>> {
    if v.Null? then Some(None)
    else
      var t :- ReadTime(v, env);
      Some(Some(t))
  }

  function ReadQuantity(v: Json, env: Env): Option<Quantity> {
    var m :- Fields(v, QUANTITY_FIELDS);
    QuantityFrom(m, env)
  }

  function QuantityFrom(m: seq<Json>, env: Env): Option<Quantity>
    requires |m| == 3
  {
    var metric :- ReadEnum(m[0], METRICS);
    var unit :- ReadIdentity(m[2], env);
    var text :- ReadText(m[1]);
    var value :- ParseCanonical(text);
    MakeQuantity(metric, value, unit, env)
  }

  function ReadOptionalQuantity(v: Json, trusted: bool, env: Env): Option<Option<Quantity>> {
    if !trusted || v.Null? then Some(None)
    else
      var q :- ReadQuantity(v, env);
      Some(Some(q))
  }

  function ReadSource(v: Json, env: Env): Option<string> {
    if v.Str? && env.source(v.s) == CODEX_SOURCE then Some(CODEX_SOURCE) else None
  }

  function ReadPlan(v: Json, trusted: bool, env: Env): Option<Option<string>> {
    if !trusted || v.Null? then Some(None)
    else
      var plan :- ReadIdentity(v, env);
      Some(Some(plan))
  }

  /** A window of an unknown source keeps nothing but its identity. */
  function ReadWindow(v: Json, env: Env): Option<Window> {
    var m :- Fields(v, WINDOW_FIELDS);
    WindowFrom(m, env)
  }

  function WindowFrom(m: seq<Json>, env: Env): Option<Window>
    requires |m| == 10
  {
    var w :- WindowParts(m, env);
    MakeWindow(w, env)
  }

  function WindowParts(m: seq<Json>, env: Env): Option<Window>
    requires |m| == 10
  {
    var source := ReadSource(m[5], env);
    var (kind, scope, period) :- WindowName(m, env);
    var (plan, availability, reset) :- WindowTrust(m, source.Some?, env);
    var (limit, used, remaining) :- WindowNumbers(m, source.Some?, env);
    Some(Window(kind, scope, period, plan, availability, source, reset, limit, used, remaining))
  }

  function WindowName(m: seq<Json>, env: Env): Option<(string, string, string)>
    requires |m| == 10
  {
    var kind :- ReadEnum(m[0], KINDS);
    var scope :- ReadIdentity(m[1], env);
    var period :- ReadIdentity(m[2], env);
    Some((kind, scope, period))
  }

  function WindowTrust(m: seq<Json>, trusted: bool, env: Env): Option<(Option<string>, string, Option<int>)>
    requires |m| == 10
  {
    if !trusted then Some((None, "unavailable", None))
    else
      var plan :- ReadPlan(m[3], trusted, env);
      var reset :- ReadOptionalTime(m[6], env);
      var availability :- ReadEnum(m[4], AVAILABILITIES);
      Some((plan, availability, reset))
  }

  function WindowNumbers(m: seq<Json>, trusted: bool, env: Env): Option<(Option<Quantity>, Option<Quantity>, Option<Quantity>)>
    requires |m| == 10
  {
    var limit :- ReadOptionalQuantity(m[7], trusted, env);
    var used :- ReadOptionalQuantity(m[8], trusted, env);
    var remaining :- ReadOptionalQuantity(m[9], trusted, env);
    Some((limit, used, remaining))
  }

  function ReadWindows(items: seq<Json>, env: Env): Option<seq<Window>> {
    if items == [] then Some([])
    else
      var w :- ReadWindow(items[0], env);
      var rest :- ReadWindows(items[1..], env);
      Some([w] + rest)
  }

  function ReadResets(v: Json, env: Env): Option<Option<Resets>> {
    if v.Null? then Some(None)
    else
      var m :- Fields(v, RESET_FIELDS);
      var r :- ResetsFrom(m, env);
      Some(Some(r))
  }

  function ResetsFrom(m: seq<Json>, env: Env): Option<Resets>
    requires |m| == 2
  {
    var expiry :- ReadOptionalTime(m[1], env);
    if m[0].Int? && ResetsOk(Some(Resets(m[0].n, expiry))) then Some(Resets(m[0].n, expiry)) else None
  }

  function ReadSnapshot(v: Json, env: Env): Option<Snapshot> {
    var m :- Fields(v, SNAPSHOT_FIELDS);
    SnapshotFrom(m, env)
  }

  function SnapshotFrom(m: seq<Json>, env: Env): Option<Snapshot>
    requires |m| == 8
  {
    var s :- SnapshotParts(m, env);
    if SnapshotOk(s) then Some(s) else None
  }

  function SnapshotParts(m: seq<Json>, env: Env): Option<Snapshot>
    requires |m| == 8
  {
    if !m[6].Arr? || |m[6].items| > MAX_QUOTA_WINDOWS then None
    else
      var windows :- ReadWindows(m[6].items, env);
      var publicState :- ReadEnum(m[0], PUBLIC_STATES);
      var freshness :- ReadEnum(m[1], FRESHNESS);
      var (observed, fetched, dataAt) :- SnapshotTimes(m, env);
      var resets :- ReadResets(m[7], env);
      Some(Snapshot(publicState, freshness, observed, fetched, dataAt, ReadSource(m[5], env), windows, resets))
  }

  function SnapshotTimes(m: seq<Json>, env: Env): Option<(int, int, int)>
    requires |m| == 8
  {
    var observed :- ReadTime(m[2], env);
    var fetched :- ReadTime(m[3], env);
    var dataAt :- ReadTime(m[4], env);
    Some((observed, fetched, dataAt))
  }

  function ReadOptional(v: Json, names: set<string>): Option<Option<string>> {
    if v.Null? then Some(None)
    else
      var name :- ReadEnum(v, names);
      Some(Some(name))
  }

  function ReadLabel(v: Json): Option<Option<string>> {
    if v.Null? then Some(None)
    else
      var name :- ReadText(v);
      Some(Some(name))
  }

  function ReadError(v: Json, state: string): Option<Option<string>> {
    if state == "safe_error" then
      var m :- Fields(v, ERROR_FIELDS);
      var code :- ReadEnum(m[0], ERROR_CODES);
      Some(Some(code))
    else if v.Null? then Some(None)
    else None
  }

  function ReadOptionalSnapshot(v: Json, env: Env): Option<Option<Snapshot>> {
    if v.Null? then Some(None)
    else
      var s :- ReadSnapshot(v, env);
      Some(Some(s))
  }

  /** State, outcome and snapshot agree. */
  predicate Agree(v: View) {
    && (v.outcome == Some("snapshot") ==>
          v.snapshot.Some? && v.state != "safe_error" && v.error.None? && v.state == LegacyState(v.snapshot.value))
    && (v.outcome != Some("snapshot") ==> v.snapshot.None?)
    && (v.outcome == Some("undetected") || v.outcome == Some("not_run") ==> v.state == "unavailable")
    && (v.outcome == Some("execution_error") ==> v.state == "safe_error")
  }

  function ReadView(v: Json, env: Env): Option<View> {
    var m :- Fields(v, WIRE_FIELDS);
    ViewFrom(m, env)
  }

  function ViewFrom(m: seq<Json>, env: Env): Option<View>
    requires |m| == 6
  {
    if m[0] != Str("codex") then None
    else
      var state :- ReadEnum(m[1], STATES);
      var outcome :- ReadOptional(m[2], OUTCOMES);
      var name :- ReadLabel(m[3]);
      var error :- ReadError(m[4], state);
      var snapshot :- ReadOptionalSnapshot(m[5], env);
      var view := View(state, error, name, outcome, snapshot);
      if Agree(view) && ViewOk(view) then Some(view) else None
  }

  const INTERNAL_ERROR := View("safe_error", Some("internal_error"), None, Some("execution_error"), None)

  /** Whatever cannot be read becomes an internal error. */
  function Decode(v: Json, env: Env): View {
    var r := ReadView(v, env);
    if r.Some? then r.value else INTERNAL_ERROR
  }

  // ---------- normal form ----------

  ghost predicate QuantityNormal(q: Quantity, env: Env) {
    IsCanonical(q.value) && q.metric in METRICS && env.identity(q.unit) == Some(q.unit)
  }

  ghost predicate OptionalNormal(q: Option<Quantity>, env: Env) { q.None? || QuantityNormal(q.value, env) }

  predicate KnownSource(o: Option<string>) { o.None? || o.value == CODEX_SOURCE }

  /** A window whose source is not trusted is scrubbed. */
  ghost predicate WindowNormal(w: Window, env: Env) { WindowShape(w, env) && Consistent(w) }

  ghost predicate WindowShape(w: Window, env: Env) {
    && w.kind in KINDS && w.availability in AVAILABILITIES && KnownSource(w.sourceId)
    && env.identity(w.scope) == Some(w.scope) && env.identity(w.period) == Some(w.period)
    && (w.planId.Some? ==> env.identity(w.planId.value) == Some(w.planId.value))
    && (w.sourceId.None? ==>
          w.planId.None? && w.availability == "unavailable" && w.resetAt.None? && w.limit.None? && w.used.None? && w.remaining.None?)
    && OptionalNormal(w.limit, env) && OptionalNormal(w.used, env) && OptionalNormal(w.remaining, env)
  }

  ghost predicate SnapshotNormal(s: Snapshot, env: Env) {
    SnapshotOk(s) && KnownSource(s.sourceId) && forall i | 0 <= i < |s.windows| :: WindowNormal(s.windows[i], env)
  }

  ghost predicate NormalForm(v: View, env: Env) {
    ViewOk(v) && Agree(v) && (v.snapshot.Some? ==> SnapshotNormal(v.snapshot.value, env))
  }

  // ---------- reading undoes writing ----------

  lemma QuantityRoundTrip(q: Quantity, env: Env)
    requires Faithful(env) && QuantityNormal(q, env)
    ensures ReadQuantity(QuantityTree(q), env) == Some(q)
  {
    ShortFieldsDistinct();
    FieldsOfObject(QUANTITY_FIELDS, QuantityValues(q));
    ParseOfRendered(Finite(false, q.value));
  }

  lemma OptionalRoundTrip(q: Option<Quantity>, trusted: bool, env: Env)
    requires Faithful(env) && OptionalNormal(q, env) && (!trusted ==> q.None?)
    ensures ReadOptionalQuantity(OptionalQuantityTree(q), trusted, env) == Some(q)
  {
    if q.Some? {
      QuantityRoundTrip(q.value, env);
    }
  }

  lemma OptionalTimeRoundTrip(t: Option<int>, env: Env)
    requires Faithful(env)
    ensures ReadOptionalTime(TimeTree(t, env), env) == Some(t)
  {
    if t.Some? {
      TimeRoundTrip(t.value, env);
    }
  }

  lemma TimeRoundTrip(t: int, env: Env)
    requires Faithful(env)
    ensures env.read(env.write(t)) == Some(t)
  {
  }

  lemma WindowNameReads(w: Window, m: seq<Json>, env: Env)
    requires WindowShape(w, env) && |m| == 10 && m[0] == Str(w.kind) && m[1] == Str(w.scope) && m[2] == Str(w.period)
    ensures WindowName(m, env) == Some((w.kind, w.scope, w.period))
  {
  }

  lemma WindowTrustReads(w: Window, m: seq<Json>, env: Env)
    requires Faithful(env) && WindowShape(w, env)
    requires |m| == 10 && m[3] == TextTree(w.planId) && m[4] == Str(w.availability) && m[6] == TimeTree(w.resetAt, env)
    ensures WindowTrust(m, w.sourceId.Some?, env) == Some((w.planId, w.availability, w.resetAt))
  {
    OptionalTimeRoundTrip(w.resetAt, env);
  }

  lemma WindowNumbersRead(w: Window, m: seq<Json>, env: Env)
    requires Faithful(env) && WindowShape(w, env) && |m| == 10
    requires m[7] == OptionalQuantityTree(w.limit) && m[8] == OptionalQuantityTree(w.used) && m[9] == OptionalQuantityTree(w.remaining)
    ensures WindowNumbers(m, w.sourceId.Some?, env) == Some((w.limit, w.used, w.remaining))
  {
    OptionalRoundTrip(w.limit, w.sourceId.Some?, env);
    OptionalRoundTrip(w.used, w.sourceId.Some?, env);
    OptionalRoundTrip(w.remaining, w.sourceId.Some?, env);
  }

  lemma SourceReads(o: Option<string>, env: Env)
    requires Faithful(env) && KnownSource(o)
    ensures ReadSource(TextTree(o), env) == o
  {
  }

  lemma WindowAssembles(w: Window, m: seq<Json>, env: Env)
    requires |m| == 10 && ReadSource(m[5], env) == w.sourceId && WindowName(m, env) == Some((w.kind, w.scope, w.period))
    requires WindowTrust(m, w.sourceId.Some?, env) == Some((w.planId, w.availability, w.resetAt))
    requires WindowNumbers(m, w.sourceId.Some?, env) == Some((w.limit, w.used, w.remaining))
    ensures WindowParts(m, env) == Some(w)
  {
  }

  lemma WindowValuesAt(w: Window, env: Env)
    ensures var m := WindowValues(w, env);
      && m[0] == Str(w.kind) && m[1] == Str(w.scope) && m[2] == Str(w.period) && m[3] == TextTree(w.planId) && m[4] == Str(w.availability)
      && m[5] == TextTree(w.sourceId) && m[6] == TimeTree(w.resetAt, env)
      && m[7] == OptionalQuantityTree(w.limit) && m[8] == OptionalQuantityTree(w.used) && m[9] == OptionalQuantityTree(w.remaining)
  {
  }

  lemma WindowValuesRead(w: Window, m: seq<Json>, env: Env)
    requires Faithful(env) && WindowShape(w, env) && |m| == 10
    requires m[0] == Str(w.kind) && m[1] == Str(w.scope) && m[2] == Str(w.period) && m[3] == TextTree(w.planId) && m[4] == Str(w.availability)
    requires m[5] == TextTree(w.sourceId) && m[6] == TimeTree(w.resetAt, env)
    requires m[7] == OptionalQuantityTree(w.limit) && m[8] == OptionalQuantityTree(w.used) && m[9] == OptionalQuantityTree(w.remaining)
    ensures WindowParts(m, env) == Some(w)
  {
    SourceReads(w.sourceId, env);
    WindowNameReads(w, m, env);
    WindowTrustReads(w, m, env);
    WindowNumbersRead(w, m, env);
    WindowAssembles(w, m, env);
  }

  lemma MakesItself(w: Window, env: Env)
    requires WindowNormal(w, env)
    ensures MakeWindow(w, env) == Some(w)
  {
  }

  lemma WindowRoundTrip(w: Window, env: Env)
    requires Faithful(env) && WindowNormal(w, env)
    ensures ReadWindow(WindowTree(w, env), env) == Some(w)
  {
    WindowFieldsDistinct();
    FieldsOfObject(WINDOW_FIELDS, WindowValues(w, env));
    WindowValuesAt(w, env);
    WindowValuesRead(w, WindowValues(w, env), env);
    MakesItself(w, env);
  }

  lemma WindowsHead(w: Window, item: Json, windows: seq<Window>, items: seq<Json>, env: Env)
    requires ReadWindow(item, env) == Some(w) && ReadWindows(items, env) == Some(windows)
    ensures ReadWindows([item] + items, env) == Some([w] + windows)
  {
    assert ([item] + items)[1..] == items;
  }

  lemma {:induction false} WindowsRoundTrip(windows: seq<Window>, env: Env)
    requires Faithful(env) && forall i | 0 <= i < |windows| :: WindowNormal(windows[i], env)
    ensures ReadWindows(WindowTrees(windows, env), env) == Some(windows)
  {
    if windows != [] {
      var item, items := WindowTree(windows[0], env), WindowTrees(windows[1..], env);
      assert WindowTrees(windows, env) == [item] + items;
      assert ReadWindow(item, env) == Some(windows[0]) by {
        WindowRoundTrip(windows[0], env);
      }
      WindowsRoundTrip(windows[1..], env);
      WindowsHead(windows[0], item, windows[1..], items, env);
      assert windows == [windows[0]] + windows[1..];
    }
  }

  lemma ResetsRoundTrip(r: Option<Resets>, env: Env)
    requires Faithful(env) && ResetsOk(r)
    ensures ReadResets(ResetsTree(r, env), env) == Some(r)
  {
    if r.Some? {
      ShortFieldsDistinct();
      var values := [Int(r.value.availableCount), TimeTree(r.value.nextExpiresAt, env)];
      FieldsOfObject(RESET_FIELDS, values);
      OptionalTimeRoundTrip(r.value.nextExpiresAt, env);
    }
  }

  lemma SnapshotTimesRead(s: Snapshot, m: seq<Json>, env: Env)
    requires Faithful(env) && |m| == 8
    requires m[2] == Str(env.write(s.statusObservedAt)) && m[3] == Str(env.write(s.fetchedAt)) && m[4] == Str(env.write(s.dataAt))
    ensures SnapshotTimes(m, env) == Some((s.statusObservedAt, s.fetchedAt, s.dataAt))
  {
    TimeRoundTrip(s.statusObservedAt, env);
    TimeRoundTrip(s.fetchedAt, env);
    TimeRoundTrip(s.dataAt, env);
  }

  lemma SnapshotAssembles(s: Snapshot, m: seq<Json>, env: Env)
    requires |m| == 8 && m[6].Arr? && |m[6].items| <= MAX_QUOTA_WINDOWS
    requires ReadWindows(m[6].items, env) == Some(s.windows) && ReadResets(m[7], env) == Some(s.resets)
    requires ReadEnum(m[0], PUBLIC_STATES) == Some(s.publicState) && ReadEnum(m[1], FRESHNESS) == Some(s.freshness)
    requires SnapshotTimes(m, env) == Some((s.statusObservedAt, s.fetchedAt, s.dataAt)) && ReadSource(m[5], env) == s.sourceId
    ensures SnapshotParts(m, env) == Some(s)
  {
  }

  lemma SnapshotValuesAt(s: Snapshot, env: Env)
    ensures var m := SnapshotValues(s, env);
      && m[0] == Str(s.publicState) && m[1] == Str(s.freshness) && m[2] == Str(env.write(s.statusObservedAt))
      && m[3] == Str(env.write(s.fetchedAt)) && m[4] == Str(env.write(s.dataAt)) && m[5] == TextTree(s.sourceId)
      && m[6] == Arr(WindowTrees(s.windows, env)) && m[7] == ResetsTree(s.resets, env)
  {
  }

  lemma SnapshotNamesRead(s: Snapshot)
    requires s.publicState in PUBLIC_STATES && s.freshness in FRESHNESS
    ensures ReadEnum(Str(s.publicState), PUBLIC_STATES) == Some(s.publicState) && ReadEnum(Str(s.freshness), FRESHNESS) == Some(s.freshness)
  {
  }

  lemma SnapshotRoundTrip(s: Snapshot, env: Env)
    requires Faithful(env) && SnapshotNormal(s, env)
    ensures ReadSnapshot(SnapshotTree(s, env), env) == Some(s)
  {
    SnapshotFieldsDistinct();
    FieldsOfObject(SNAPSHOT_FIELDS, SnapshotValues(s, env));
    WindowsRoundTrip(s.windows, env);
    ResetsRoundTrip(s.resets, env);
    var m := SnapshotValues(s, env);
    SnapshotValuesAt(s, env);
    SnapshotNamesRead(s);
    SnapshotTimesRead(s, m, env);
    SourceReads(s.sourceId, env);
    SnapshotAssembles(s, m, env);
  }

  lemma ErrorRoundTrip(v: View, env: Env)
    requires ViewOk(v)
    ensures ReadError(PayloadValues(v, env)[4], v.state) == Some(v.error)
  {
    if v.error.Some? {
      ShortFieldsDistinct();
      FieldsOfObject(ERROR_FIELDS, [Str(v.error.value)]);
    }
  }

  /** Every view in normal form comes back as it was. */
  lemma ViewRoundTrip(v: View, env: Env)
    requires Faithful(env) && NormalForm(v, env)
    ensures Decode(PayloadTree(v, env), env) == v && ReadView(PayloadTree(v, env), env) == Some(v)
  {
    WireFieldsDistinct();
    FieldsOfObject(WIRE_FIELDS, PayloadValues(v, env));
    ValuesRoundTrip(v, env);
  }

  lemma TellingReads(v: View)
    requires ViewOk(v)
    ensures ReadEnum(Str(v.state), STATES) == Some(v.state)
    ensures ReadOptional(TextTree(v.outcome), OUTCOMES) == Some(v.outcome) && ReadLabel(TextTree(v.displayLabel)) == Some(v.displayLabel)
  {
  }

  lemma ViewAssembles(v: View, m: seq<Json>, env: Env)
    requires |m| == 6 && m[0] == Str("codex") && ReadEnum(m[1], STATES) == Some(v.state)
    requires ReadOptional(m[2], OUTCOMES) == Some(v.outcome) && ReadLabel(m[3]) == Some(v.displayLabel)
    requires ReadError(m[4], v.state) == Some(v.error) && ReadOptionalSnapshot(m[5], env) == Some(v.snapshot)
    requires Agree(v) && ViewOk(v)
    ensures ViewFrom(m, env) == Some(v)
  {
  }

  lemma ValuesRoundTrip(v: View, env: Env)
    requires Faithful(env) && NormalForm(v, env)
    ensures ViewFrom(PayloadValues(v, env), env) == Some(v)
  {
    TellingReads(v);
    ErrorRoundTrip(v, env);
    OptionalSnapshotReads(v.snapshot, env);
    ViewAssembles(v, PayloadValues(v, env), env);
  }

  lemma OptionalSnapshotReads(s: Option<Snapshot>, env: Env)
    requires Faithful(env) && (s.Some? ==> SnapshotNormal(s.value, env))
    ensures ReadOptionalSnapshot(if s.None? then Null else SnapshotTree(s.value, env), env) == Some(s)
  {
    if s.Some? {
      SnapshotRoundTrip(s.value, env);
    }
  }

  // ---------- whatever is read is in normal form ----------

  lemma QuantityReadNormal(v: Json, env: Env)
    requires Faithful(env) && ReadQuantity(v, env).Some?
    ensures QuantityNormal(ReadQuantity(v, env).value, env)
  {
    var m := Fields(v, QUANTITY_FIELDS).value;
    var value := ParseCanonical(m[1].s).value;
    CanonicalIsIdempotent(Finite(false, value));
  }

  lemma OptionalReadNormal(v: Json, trusted: bool, env: Env)
    requires Faithful(env) && ReadOptionalQuantity(v, trusted, env).Some?
    ensures OptionalNormal(ReadOptionalQuantity(v, trusted, env).value, env)
    ensures !trusted ==> ReadOptionalQuantity(v, trusted, env).value.None?
  {
    if trusted && !v.Null? {
      QuantityReadNormal(v, env);
    }
  }

  lemma NumbersReadNormal(m: seq<Json>, trusted: bool, env: Env)
    requires Faithful(env) && |m| == 10 && WindowNumbers(m, trusted, env).Some?
    ensures var (limit, used, remaining) := WindowNumbers(m, trusted, env).value;
      && OptionalNormal(limit, env) && OptionalNormal(used, env) && OptionalNormal(remaining, env)
      && (!trusted ==> limit.None? && used.None? && remaining.None?)
  {
    OptionalReadNormal(m[7], trusted, env);
    OptionalReadNormal(m[8], trusted, env);
    OptionalReadNormal(m[9], trusted, env);
  }

  lemma NameReadNormal(m: seq<Json>, env: Env)
    requires Faithful(env) && |m| == 10 && WindowName(m, env).Some?
    ensures var (kind, scope, period) := WindowName(m, env).value;
      kind in KINDS && env.identity(scope) == Some(scope) && env.identity(period) == Some(period)
  {
  }

  lemma TrustReadNormal(m: seq<Json>, trusted: bool, env: Env)
    requires Faithful(env) && |m| == 10 && WindowTrust(m, trusted, env).Some?
    ensures var (plan, availability, reset) := WindowTrust(m, trusted, env).value;
      && availability in AVAILABILITIES && (plan.Some? ==> env.identity(plan.value) == Some(plan.value))
      && (!trusted ==> plan.None? && availability == "unavailable" && reset.None?)
  {
  }

  lemma PartsShape(w: Window, m: seq<Json>, env: Env)
    requires Faithful(env) && |m| == 10 && WindowParts(m, env) == Some(w)
    ensures WindowShape(w, env)
  {
    var source := ReadSource(m[5], env);
    NameReadNormal(m, env);
    TrustReadNormal(m, source.Some?, env);
    NumbersReadNormal(m, source.Some?, env);
  }

  lemma MakeKeeps(w: Window, env: Env)
    requires WindowShape(w, env) && MakeWindow(w, env).Some?
    ensures MakeWindow(w, env) == Some(w) && Consistent(w)
  {
  }

  lemma WindowReadNormal(v: Json, env: Env)
    requires Faithful(env) && ReadWindow(v, env).Some?
    ensures WindowNormal(ReadWindow(v, env).value, env)
  {
    var m := Fields(v, WINDOW_FIELDS).value;
    var w := WindowParts(m, env).value;
    PartsShape(w, m, env);
    MakeKeeps(w, env);
  }

  lemma {:induction false} WindowsReadNormal(items: seq<Json>, env: Env)
    requires Faithful(env) && ReadWindows(items, env).Some?
    ensures forall i | 0 <= i < |ReadWindows(items, env).value| :: WindowNormal(ReadWindows(items, env).value[i], env)
  {
    if items != [] {
      WindowReadNormal(items[0], env);
      WindowsReadNormal(items[1..], env);
    }
  }

  lemma SnapshotReadNormal(v: Json, env: Env)
    requires Faithful(env) && ReadSnapshot(v, env).Some?
    ensures SnapshotNormal(ReadSnapshot(v, env).value, env)
  {
    var m := Fields(v, SNAPSHOT_FIELDS).value;
    WindowsReadNormal(m[6].items, env);
  }

  lemma ViewReadNormal(v: Json, env: Env)
    requires Faithful(env) && ReadView(v, env).Some?
    ensures NormalForm(ReadView(v, env).value, env)
  {
    var m := Fields(v, WIRE_FIELDS).value;
    if !m[5].Null? {
      SnapshotReadNormal(m[5], env);
    }
  }

  lemma InternalErrorNormal(env: Env)
    ensures NormalForm(INTERNAL_ERROR, env)
  {
  }

  /** Whatever arrives, the result is a well-formed view, and writing and reading it again changes
      nothing. */
  lemma DecodeIsNormal(v: Json, env: Env)
    requires Faithful(env)
    ensures NormalForm(Decode(v, env), env) && Decode(PayloadTree(Decode(v, env), env), env) == Decode(v, env)
  {
    if ReadView(v, env).Some? {
      ViewReadNormal(v, env);
    } else {
      InternalErrorNormal(env);
    }
    ViewRoundTrip(Decode(v, env), env);
  }

  // ---------- the same over bytes ----------

  /** The encoded payload, or nothing where writing it raises. */
  function Payload(v: View, env: Env): Option<Bytes> {
    var payload := Encode(Print(PayloadTree(v, env), false));
    if |payload| > MAX_RESPONSE then None else Some(payload)
  }

  function DecodeBytes(payload: Bytes, env: Env): View {
    if !(0 < |payload| <= MAX_RESPONSE) then INTERNAL_ERROR
    else
      var text := Utf8.Decode(payload);
      if text.None? then INTERNAL_ERROR
      else match Parse(text.value, true)
        case Ok(tree) => Decode(tree, env)
        case Err(_) => INTERNAL_ERROR
  }

  lemma ObjectIsPlain(keys: seq<string>, values: seq<Json>)
    requires |keys| == |values| && Distinct(keys) && forall i | 0 <= i < |values| :: FloatFree(values[i], true)
    ensures FloatFree(Object(keys, values), true)
  {
  }

  lemma QuantityIsPlain(q: Option<Quantity>)
    ensures FloatFree(OptionalQuantityTree(q), true)
  {
    if q.Some? {
      ShortFieldsDistinct();
      ObjectIsPlain(QUANTITY_FIELDS, QuantityValues(q.value));
    }
  }

  lemma WindowIsPlain(w: Window, env: Env)
    ensures FloatFree(WindowTree(w, env), true)
  {
    QuantityIsPlain(w.limit);
    QuantityIsPlain(w.used);
    QuantityIsPlain(w.remaining);
    WindowFieldsDistinct();
    ObjectIsPlain(WINDOW_FIELDS, WindowValues(w, env));
  }

  lemma {:induction false} WindowsArePlain(windows: seq<Window>, env: Env)
    ensures forall x | x in WindowTrees(windows, env) :: FloatFree(x, true)
  {
    if windows != [] {
      WindowIsPlain(windows[0], env);
      WindowsArePlain(windows[1..], env);
    }
  }

  lemma SnapshotIsPlain(s: Snapshot, env: Env)
    ensures FloatFree(SnapshotTree(s, env), true)
  {
    WindowsArePlain(s.windows, env);
    if s.resets.Some? {
      ShortFieldsDistinct();
      ObjectIsPlain(RESET_FIELDS, [Int(s.resets.value.availableCount), TimeTree(s.resets.value.nextExpiresAt, env)]);
    }
    SnapshotFieldsDistinct();
    ObjectIsPlain(SNAPSHOT_FIELDS, SnapshotValues(s, env));
  }

  lemma PayloadIsPlain(v: View, env: Env)
    ensures FloatFree(PayloadTree(v, env), true)
  {
    if v.error.Some? {
      ShortFieldsDistinct();
      ObjectIsPlain(ERROR_FIELDS, [Str(v.error.value)]);
    }
    if v.snapshot.Some? {
      SnapshotIsPlain(v.snapshot.value, env);
    }
    WireFieldsDistinct();
    ObjectIsPlain(WIRE_FIELDS, PayloadValues(v, env));
  }

  /** The bytes of any payload lead the reader to the tree they were written from. */
  lemma PayloadIsRead(v: View, env: Env)
    requires Payload(v, env).Some?
    ensures DecodeBytes(Payload(v, env).value, env) == Decode(PayloadTree(v, env), env)
  {
    var text := Print(PayloadTree(v, env), false);
    PayloadIsPlain(v, env);
    ParseOfPrint(PayloadTree(v, env), false, true);
    DecodeOfEncode(text);
    assert text[0] == '{';
  }

  /** Every view in normal form whose payload is not too long comes back from its bytes as it was. */
  lemma PayloadRoundTrip(v: View, env: Env)
    requires Faithful(env) && NormalForm(v, env) && Payload(v, env).Some?
    ensures DecodeBytes(Payload(v, env).value, env) == v
  {
    PayloadIsRead(v, env);
    ViewRoundTrip(v, env);
  }

  /** Whatever bytes arrive, the result is a well-formed view, and its own bytes, unless too long, read
      as the same view. */
  lemma DecodeBytesIsNormal(payload: Bytes, env: Env)
    requires Faithful(env)
    ensures var v := DecodeBytes(payload, env);
      NormalForm(v, env) && (Payload(v, env).Some? ==> DecodeBytes(Payload(v, env).value, env) == v)
  {
    var v := DecodeBytes(payload, env);
    var text := Utf8.Decode(payload);
    if text.Some? && Parse(text.value, true).Ok? {
      DecodeIsNormal(Parse(text.value, true).value, env);
    }
    InternalErrorNormal(env);
    if Payload(v, env).Some? {
      PayloadRoundTrip(v, env);
    }
  }

  // ---------- what an accepted view says ----------

  /** A view with a snapshot is a success exactly if the snapshot is fresh and available, at least in
      part, and unavailable otherwise; one without tells its outcome. */
  lemma DecodedStateFits(payload: Bytes, env: Env)
    requires Faithful(env)
    ensures var v := DecodeBytes(payload, env);
      && (v.snapshot.Some? ==>
            v.state == if v.snapshot.value.freshness == "fresh" && v.snapshot.value.publicState in {"available", "partial"} then "success" else "unavailable")
      && (v.state == "safe_error" <==> v.error.Some?)
      && (v.outcome == Some("snapshot") <==> v.snapshot.Some?)
      && (v.outcome in {Some("undetected"), Some("not_run")} ==> v.state == "unavailable")
  {
    DecodeBytesIsNormal(payload, env);
  }

  /** What a view may say, told by outcome. */
  predicate Tells(v: View) {
    match v.outcome
    case None =>
      v.snapshot.None? && v.state in STATES && if v.state == "safe_error" then v.error.Some? && v.error.value in ERROR_CODES else v.error.None?
    case Some(o) =>
      if o == "snapshot" then v.error.None? && v.snapshot.Some? && v.state == (if Succeeds(v.snapshot.value) then "success" else "unavailable")
      else if o == "execution_error" then v.state == "safe_error" && v.snapshot.None? && v.error.Some? && v.error.value in ERROR_CODES
      else (o == "undetected" || o == "not_run") && v.state == "unavailable" && v.error.None? && v.snapshot.None?
  }

  predicate Succeeds(s: Snapshot) { s.freshness != "stale" && (s.publicState == "available" || s.publicState == "partial") }

  /** A label has 1 to 64 characters, none of them a control character before the space. */
  predicate Labelled(name: Option<string>) {
    name.Some? ==> 1 <= |name.value| <= 64 && forall c | c in name.value :: ' ' <= c
  }

  /** The checks on a view accept exactly these. */
  lemma ViewAcceptedExactly(v: View)
    ensures Agree(v) && ViewOk(v) <==> Tells(v) && Labelled(v.displayLabel)
  {
    if v.displayLabel.Some? {
      var name := v.displayLabel.value;
      if forall c | c in name :: ' ' <= c {
        assert forall i | 0 <= i < |name| :: name[i] in name;
      }
    }
  }

  /** The numbers a window has. */
  function Numbers(w: Window): seq<Quantity> {
    (if w.limit.Some? then [w.limit.value] else []) + (if w.used.Some? then [w.used.value] else [])
    + (if w.remaining.Some? then [w.remaining.value] else [])
  }

  function Amount(q: Option<Quantity>): real { if q.Some? then Worth(q.value.value) else 0.0 }

  /** What the numbers of a window must be: all of one measure, which is the kind's own unless the kind
      is another; within the limit; and used and remaining together are the limit. */
  predicate SensibleNumbers(w: Window) {
    if w.availability != "known" then Numbers(w) == [] && w.resetAt.None?
    else
      && Numbers(w) != []
      && (forall i | 0 <= i < |Numbers(w)| ::
            && Numbers(w)[i].metric == Numbers(w)[0].metric && Numbers(w)[i].unit == Numbers(w)[0].unit
            && (w.kind == "other" || Numbers(w)[i].metric == w.kind))
      && (w.limit.Some? ==>
            && Amount(w.used) <= Amount(w.limit) && Amount(w.remaining) <= Amount(w.limit)
            && (w.used.Some? && w.remaining.Some? ==> Amount(w.used) + Amount(w.remaining) == Amount(w.limit)))
  }

  /** The sum of used and remaining has at most 28 digits, so that it is not rounded. */
  predicate ShortSum(w: Window) {
    w.used.Some? && w.remaining.Some? ==>
      |Decimal(Common(w.used.value.value, w.remaining.value.value) + Common(w.remaining.value.value, w.used.value.value))| <= SUM_DIGITS
  }

  lemma WorthAdds(x: nat, y: nat, e: int)
    ensures Worth(Dec(x + y, e)) == Worth(Dec(x, e)) + Worth(Dec(y, e))
  {
    assert (x + y) as real == x as real + y as real;
  }

  lemma SumIsExact(a: Dec, b: Dec)
    requires |Decimal(Common(a, b) + Common(b, a))| <= SUM_DIGITS
    ensures Worth(Sum(a, b)) == Worth(a) + Worth(b)
  {
    CommonWorth(a, b);
    CommonWorth(b, a);
    WorthAdds(Common(a, b), Common(b, a), Lower(a.exponent, b.exponent));
  }

  lemma AmountsAreNotNegative(q: Option<Quantity>)
    ensures 0.0 <= Amount(q)
  {
    if q.Some? {
      WorthPositive(q.value.value);
    }
  }

  /** Unless a sum is rounded the numeric rules accept exactly the sensible windows. */
  lemma ConsistentExactly(w: Window)
    requires ShortSum(w)
    ensures Consistent(w) <==> SensibleNumbers(w)
  {
    AmountsAreNotNegative(w.limit);
    if w.used.Some? && w.remaining.Some? {
      SumIsExact(w.used.value.value, w.remaining.value.value);
    }
    if w.availability == "known" {
      MeasuresAgree(w);
    }
  }

  lemma MeasuresAgree(w: Window)
    ensures (MetricFits(w.kind, w.limit) && MetricFits(w.kind, w.used) && MetricFits(w.kind, w.remaining)
             && SameMeasure(w.limit, w.used) && SameMeasure(w.limit, w.remaining) && SameMeasure(w.used, w.remaining))
      <==> (forall i | 0 <= i < |Numbers(w)| ::
              && Numbers(w)[i].metric == Numbers(w)[0].metric && Numbers(w)[i].unit == Numbers(w)[0].unit
              && (w.kind == "other" || Numbers(w)[i].metric == w.kind))
  {
    var n := Numbers(w);
    if w.limit.Some? {
      assert n[0] == w.limit.value;
    }
    if w.used.Some? {
      assert n[if w.limit.Some? then 1 else 0] == w.used.value;
    }
    if w.remaining.Some? {
      assert n[|n| - 1] == w.remaining.value;
    }
  }

  /** Every window of a decoded view has sensible numbers, unless its sum is rounded. */
  lemma DecodedNumbersAreSensible(payload: Bytes, env: Env, i: nat)
    requires Faithful(env) && DecodeBytes(payload, env).snapshot.Some?
    requires i < |DecodeBytes(payload, env).snapshot.value.windows| && ShortSum(DecodeBytes(payload, env).snapshot.value.windows[i])
    ensures SensibleNumbers(DecodeBytes(payload, env).snapshot.value.windows[i])
  {
    DecodeBytesIsNormal(payload, env);
    var s := DecodeBytes(payload, env).snapshot.value;
    assert SnapshotNormal(s, env);
    assert WindowNormal(s.windows[i], env);
    ConsistentExactly(s.windows[i]);
  }
}
