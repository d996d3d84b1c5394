/**
 How the cache reads a document: every object has exactly the expected fields in the expected order,
 numbers match the cache's pattern, and the bytes are the canonical ones.  It reads exactly the
 encodings of storable documents, so what it publishes is what the projector emitted.
 */
module CacheReader {
  import opened Decimals
  import opened Digits
  import opened Json
  import opened Percentage
  import opened Projection
  import opened Utf8
  import opened Wrappers

  const DOCUMENT_FIELDS := ["execution_state", "execution_error", "general", "providers"]
  const GENERAL_FIELDS := ["compact_text", "alternate_text", "tooltip_text"]
  const ITEM_FIELDS := ["provider", "outcome", "public_state", "freshness", "status_observed_at", "fetched_at", "data_at", "source_id",
                        "windows", "rate_limit_reset_credits", "execution_error", "not_run_reason"]
  const SHOWN_FIELDS := ["most_depleted_window", "compact_text", "alternate_text"] + ["tooltip_text"]
  const WINDOW_FIELDS := ["kind", "scope", "period", "plan_id", "availability", "source_id", "limit", "used", "remaining", "reset_at"]
  const QUANTITY_FIELDS := ["value", "metric", "unit"]
  const DEPLETED_FIELDS := ["kind", "scope", "period", "plan_id", "unit", "source_id", "remaining_percentage"]
  const RESET_FIELDS := ["available_count", "next_expires_at"]
  const ERROR_FIELDS := ["code", "phase"]
  const REASONS := ["disabled", "invalid_configuration", "invocation_invalid", "document_aborted", "deadline_exhausted", "guard_wait_timeout"]

  // ---------- reading ----------

  /** Exactly these keys, in this order. */
  predicate Named(members: seq<Member>, names: seq<string>) {
    |members| == |names| && forall i | 0 <= i < |names| :: members[i].key == names[i]
  }

  function TextOf(v: Json): Option<string> { if v.Str? then Some(v.s) else None }

  function OptionalTextOf(v: Json): Option<Option<string>> {
    if v.Null? then Some(None) else if v.Str? then Some(Some(v.s)) else None
  }

  function KindOf(v: Json): Option<Kind> {
    if v == Str("commercial_quota") then Some(CommercialQuota)
    else if v == Str("technical_rate_limit") then Some(TechnicalRateLimit)
    else if v == Str("other") then Some(OtherKind)
    else None
  }

  function ProviderOf(v: Json): Option<Provider> {
    if v == Str("codex") then Some(Codex) else if v == Str("opencode_go") then Some(OpenCodeGo) else None
  }

  function NumberOf(v: Json): Option<Dec> {
    if v.Str? && CachePattern(v.s) then ParseCanonical(v.s) else None
  }

  function QuantityOf(v: Json): Option<Option<Quantity>> {
    if v.Null? then Some(None)
    else if !v.Obj? || !Named(v.members, QUANTITY_FIELDS) then None
    else
      var value :- NumberOf(v.members[0].value);
      var metric :- TextOf(v.members[1].value);
      var unit :- TextOf(v.members[2].value);
      Some(Some(Quantity(value, metric, unit)))
  }

  function NamesOf(m: seq<Member>): Option<(Kind, string, string)>
    requires |m| >= 3
  {
    var kind :- KindOf(m[0].value);
    var scope :- TextOf(m[1].value);
    var period :- TextOf(m[2].value);
    Some((kind, scope, period))
  }

  function TermsOf(m: seq<Member>): Option<(Option<string>, string, Option<string>, Option<string>)>
    requires |m| == 10
  {
    var plan :- OptionalTextOf(m[3].value);
    var availability :- TextOf(m[4].value);
    var source :- OptionalTextOf(m[5].value);
    var reset :- OptionalTextOf(m[9].value);
    Some((plan, availability, source, reset))
  }

  function NumbersOf(m: seq<Member>): Option<(Option<Quantity>, Option<Quantity>, Option<Quantity>)>
    requires |m| == 10
  {
    var limit :- QuantityOf(m[6].value);
    var used :- QuantityOf(m[7].value);
    var remaining :- QuantityOf(m[8].value);
    Some((limit, used, remaining))
  }

  function WindowOf(v: Json): Option<Window> {
    if !v.Obj? || !Named(v.members, WINDOW_FIELDS) then None
    else
      var (kind, scope, period) :- NamesOf(v.members);
      var (plan, availability, source, reset) :- TermsOf(v.members);
      var (limit, used, remaining) :- NumbersOf(v.members);
      Some(Window(kind, scope, period, plan, availability, source, limit, used, remaining, reset))
  }

  function WindowsOf(items: seq<Json>): Option<seq<Window>> {
    if items == [] then Some([])
    else
      var w :- WindowOf(items[0]);
      var rest :- WindowsOf(items[1..]);
      Some([w] + rest)
  }

  function ResetsOf(v: Json): Option<Option<Resets>> {
    if v.Null? then Some(None)
    else if !v.Obj? || !Named(v.members, RESET_FIELDS) || !v.members[0].value.Int? || v.members[0].value.n < 0 then None
    else
      var expiry :- OptionalTextOf(v.members[1].value);
      Some(Some(Resets(v.members[0].value.n, expiry)))
  }

  function ErrorOf(v: Json): Option<Option<DocumentError>> {
    if v.Null? then Some(None)
    else if !v.Obj? || !Named(v.members, ERROR_FIELDS) then None
    else
      var code :- TextOf(v.members[0].value);
      var phase :- TextOf(v.members[1].value);
      Some(Some(DocumentError(code, phase)))
  }

  function DepletedOf(v: Json): Option<Option<Depleted>> {
    if v.Null? then Some(None)
    else if !v.Obj? || !Named(v.members, DEPLETED_FIELDS) then None
    else
      var m := v.members;
      var (kind, scope, period) :- NamesOf(m);
      var plan :- OptionalTextOf(m[3].value);
      var unit :- TextOf(m[4].value);
      var source :- OptionalTextOf(m[5].value);
      var percentage :- TextOf(m[6].value);
      Some(Some(Depleted(kind, scope, period, plan, unit, source, percentage)))
  }

  function StatesOf(m: seq<Member>): Option<(string, string, string, string, string)>
    requires |m| == 12
  {
    var publicState :- TextOf(m[2].value);
    var freshness :- TextOf(m[3].value);
    var observed :- TextOf(m[4].value);
    var fetched :- TextOf(m[5].value);
    var dataAt :- TextOf(m[6].value);
    Some((publicState, freshness, observed, fetched, dataAt))
  }

  function SnapshotOf(m: seq<Member>): Option<Snapshot>
    requires |m| == 12
  {
    if !m[8].value.Arr? then None
    else
      var (publicState, freshness, observed, fetched, dataAt) :- StatesOf(m);
      var source :- OptionalTextOf(m[7].value);
      var windows :- WindowsOf(m[8].value.items);
      var resets :- ResetsOf(m[9].value);
      Some(Snapshot(publicState, freshness, observed, fetched, dataAt, source, windows, resets))
  }

  /** No trace of a snapshot. */
  predicate Bare(m: seq<Member>)
    requires |m| == 12
  {
    && m[2].value.Null? && m[3].value.Null? && m[4].value.Null? && m[5].value.Null? && m[6].value.Null? && m[7].value.Null?
    && m[8].value == Arr([]) && m[9].value.Null?
  }

  /** Errors of a provider are not read. */
  function OutcomeOf(m: seq<Member>): Option<Outcome>
    requires |m| == 12
  {
    if !m[10].value.Null? then None
    else if m[1].value == Str("snapshot") then
      var s :- SnapshotOf(m);
      if m[11].value.Null? then Some(Seen(s)) else None
    else if !Bare(m) then None
    else if m[1].value == Str("undetected") && m[11].value.Null? then Some(Undetected)
    else if m[1].value == Str("not_run") && m[11].value.Str? && m[11].value.s in REASONS then Some(NotRun(m[11].value.s))
    else None
  }

  function ItemOf(m: seq<Member>): Option<Item> {
    if !Named(m, ITEM_FIELDS) then None
    else
      var provider :- ProviderOf(m[0].value);
      var outcome :- OutcomeOf(m);
      Some(Item(provider, outcome))
  }

  function PresentationOf(m: seq<Member>): Option<Presentation> {
    if !Named(m, SHOWN_FIELDS) then None
    else
      var depleted :- DepletedOf(m[0].value);
      var compact :- TextOf(m[1].value);
      var alternate :- TextOf(m[2].value);
      var tooltip :- TextOf(m[3].value);
      Some(Presentation(depleted, compact, alternate, tooltip))
  }

  datatype Row = Row(item: Item, shown: Presentation)

  function RowOf(v: Json): Option<Row> {
    if !v.Obj? || |v.members| != 16 then None
    else
      var item :- ItemOf(v.members[..12]);
      var shown :- PresentationOf(v.members[12..]);
      Some(Row(item, shown))
  }

  function GeneralOf(v: Json): Option<General> {
    if !v.Obj? || !Named(v.members, GENERAL_FIELDS) then None
    else
      var compact :- TextOf(v.members[0].value);
      var alternate :- TextOf(v.members[1].value);
      var tooltip :- TextOf(v.members[2].value);
      Some(General(compact, alternate, tooltip))
  }

  /** The two providers, in their order. */
  function RowsOf(v: Json): Option<(Row, Row)> {
    if !v.Arr? || |v.items| != 2 then None
    else
      var a :- RowOf(v.items[0]);
      var b :- RowOf(v.items[1]);
      if a.item.provider.Codex? && b.item.provider.OpenCodeGo? then Some((a, b)) else None
  }

  function DocumentOf(v: Json): Option<Document> {
    if !v.Obj? || !Named(v.members, DOCUMENT_FIELDS) then None
    else
      var m := v.members;
      var state :- TextOf(m[0].value);
      var error :- ErrorOf(m[1].value);
      var general :- GeneralOf(m[2].value);
      var (a, b) :- RowsOf(m[3].value);
      Some(Document(Base(state, error, [a.item, b.item]), general, [a.shown, b.shown]))
  }

  /** The bytes must be those the document is written as. */
  function ReadDocument(bytes: Bytes): Option<Document> {
    var text :- Decode(bytes);
    var tree := Parse(text, true);
    if tree.Err? || Encode(Print(tree.value, false) + "\n") != bytes then None else DocumentOf(tree.value)
  }

  // ---------- what can be stored ----------

  /** Canonical, and zero or at least one. */
  predicate StorableNumber(d: Dec) {
    IsCanonical(d) && (Worth(d) == 0.0 || 1.0 <= Worth(d))
  }

  predicate StorableQuantity(q: Option<Quantity>) { q.Some? ==> StorableNumber(q.value.value) }

  predicate StorableWindow(w: Window) {
    StorableQuantity(w.limit) && StorableQuantity(w.used) && StorableQuantity(w.remaining)
  }

  predicate StorableOutcome(o: Outcome) {
    match o
    case Seen(s) => forall w | w in s.windows :: StorableWindow(w)
    case Undetected => true
    case NotRun(reason) => reason in REASONS
    case Failed(_) => false
  }

  predicate Storable(d: Document) {
    && |d.base.items| == |d.presentations| == 2
    && d.base.items[0].provider.Codex? && d.base.items[1].provider.OpenCodeGo?
    && StorableOutcome(d.base.items[0].outcome) && StorableOutcome(d.base.items[1].outcome)
  }

  // ---------- each part is read exactly where it was written ----------

  lemma OneIsReached(c: nat, p: nat, t: real, v: real)
    requires 0.0 < t && t * p as real == 1.0 && v == c as real * t
    ensures 1.0 <= v <==> c >= p
  {
    Rescaled(p, c, t);
  }

  lemma AtLeastOne(c: nat, n: nat)
    ensures 1.0 <= Worth(Dec(c, 0 - n)) <==> c >= Pow10(n)
  {
    TenToSum(0 - n, n);
    TenToNat(n);
    OneIsReached(c, Pow10(n), TenTo(0 - n), Worth(Dec(c, 0 - n)));
  }

  /** The cache's pattern accepts a canonical number exactly if it is not strictly between zero and one. */
  lemma PatternExactly(d: Dec)
    requires IsCanonical(d)
    ensures CachePattern(FixedText(d)) <==> Worth(d) == 0.0 || 1.0 <= Worth(d)
  {
    CacheableExactly(d);
    WorthPositive(d);
    AtLeastOne(d.coefficient, -d.exponent);
  }

  lemma NumberRead(s: string)
    requires CachePattern(s) && ParseCanonical(s).Some?
    ensures StorableNumber(ParseCanonical(s).value) && s == FixedText(ParseCanonical(s).value)
  {
    ParseAcceptsExactly(s);
    PatternExactly(ParseCanonical(s).value);
  }

  lemma NumberWritten(d: Dec)
    requires StorableNumber(d)
    ensures NumberOf(Str(FixedText(d))) == Some(d)
  {
    PatternExactly(d);
    ParseOfRendered(Finite(false, d));
  }

  lemma NumberExactly(v: Json, d: Dec)
    ensures NumberOf(v) == Some(d) <==> StorableNumber(d) && v == Str(FixedText(d))
  {
    if v.Str? && CachePattern(v.s) && ParseCanonical(v.s).Some? {
      NumberRead(v.s);
    }
    if StorableNumber(d) {
      NumberWritten(d);
    }
  }

  lemma QuantityHolds(m: seq<Member>, q: Quantity)
    requires Named(m, QUANTITY_FIELDS)
    ensures Obj(m) == QuantityJson(Some(q)) <==>
      m[0].value == Str(FixedText(q.value)) && m[1].value == Str(q.metric) && m[2].value == Str(q.unit)
  {
    SameMembers(m, QuantityJson(Some(q)).members, QUANTITY_FIELDS);
  }

  lemma QuantityExactly(v: Json, q: Option<Quantity>)
    ensures QuantityOf(v) == Some(q) <==> StorableQuantity(q) && v == QuantityJson(q)
  {
    if q.Some? && v.Obj? && Named(v.members, QUANTITY_FIELDS) {
      QuantityHolds(v.members, q.value);
      NumberExactly(v.members[0].value, q.value.value);
    }
  }

  lemma KindExactly(v: Json, k: Kind)
    ensures KindOf(v) == Some(k) <==> v == Str(KindName(k))
  {
    assert "commercial_quota"[0] != "technical_rate_limit"[0] && "commercial_quota"[0] != "other"[0] && "technical_rate_limit"[0] != "other"[0];
  }

  lemma OptionalTextExactly(v: Json, o: Option<string>)
    ensures OptionalTextOf(v) == Some(o) <==> v == OptionJson(o)
  {
  }

  lemma NamesExactly(m: seq<Member>, kind: Kind, scope: string, period: string)
    requires |m| >= 3
    ensures NamesOf(m) == Some((kind, scope, period)) <==>
      m[0].value == Str(KindName(kind)) && m[1].value == Str(scope) && m[2].value == Str(period)
  {
    KindExactly(m[0].value, kind);
  }

  lemma TermsExactly(m: seq<Member>, w: Window)
    requires |m| == 10
    ensures TermsOf(m) == Some((w.planId, w.availability, w.sourceId, w.resetAt)) <==>
      && m[3].value == OptionJson(w.planId) && m[4].value == Str(w.availability) && m[5].value == OptionJson(w.sourceId)
      && m[9].value == OptionJson(w.resetAt)
  {
  }

  lemma NumbersExactly(m: seq<Member>, w: Window)
    requires |m| == 10
    ensures NumbersOf(m) == Some((w.limit, w.used, w.remaining)) <==>
      && StorableWindow(w)
      && m[6].value == QuantityJson(w.limit) && m[7].value == QuantityJson(w.used) && m[8].value == QuantityJson(w.remaining)
  {
    QuantityExactly(m[6].value, w.limit);
    QuantityExactly(m[7].value, w.used);
    QuantityExactly(m[8].value, w.remaining);
  }

  lemma WindowIsNamed(w: Window)
    ensures Named(WindowJson(w).members, WINDOW_FIELDS)
  {
  }

  lemma WindowHolds(m: seq<Member>, w: Window)
    requires Named(m, WINDOW_FIELDS)
    ensures Obj(m) == WindowJson(w) <==>
      && m[0].value == Str(KindName(w.kind)) && m[1].value == Str(w.scope) && m[2].value == Str(w.period)
      && m[3].value == OptionJson(w.planId) && m[4].value == Str(w.availability) && m[5].value == OptionJson(w.sourceId)
      && m[6].value == QuantityJson(w.limit) && m[7].value == QuantityJson(w.used) && m[8].value == QuantityJson(w.remaining)
      && m[9].value == OptionJson(w.resetAt)
  {
    WindowIsNamed(w);
    SameMembers(m, WindowJson(w).members, WINDOW_FIELDS);
  }

  lemma WindowParts(m: seq<Member>, w: Window)
    requires Named(m, WINDOW_FIELDS)
    ensures WindowOf(Obj(m)) == Some(w) <==>
      && NamesOf(m) == Some((w.kind, w.scope, w.period))
      && TermsOf(m) == Some((w.planId, w.availability, w.sourceId, w.resetAt))
      && NumbersOf(m) == Some((w.limit, w.used, w.remaining))
  {
  }

  lemma WindowOfNamed(m: seq<Member>, w: Window)
    requires Named(m, WINDOW_FIELDS)
    ensures WindowOf(Obj(m)) == Some(w) <==> StorableWindow(w) && Obj(m) == WindowJson(w)
  {
    WindowParts(m, w);
    NamesExactly(m, w.kind, w.scope, w.period);
    TermsExactly(m, w);
    NumbersExactly(m, w);
    WindowHolds(m, w);
  }

  lemma WindowExactly(v: Json, w: Window)
    ensures WindowOf(v) == Some(w) <==> StorableWindow(w) && v == WindowJson(w)
  {
    WindowIsNamed(w);
    if v.Obj? && Named(v.members, WINDOW_FIELDS) {
      WindowOfNamed(v.members, w);
    }
  }

  /** Members with the same names are the same if their values are. */
  lemma SameMembers(a: seq<Member>, b: seq<Member>, names: seq<string>)
    requires Named(a, names) && Named(b, names)
    ensures a == b <==> forall i | 0 <= i < |names| :: a[i].value == b[i].value
  {
  }

  lemma {:induction false} WindowsExactly(items: seq<Json>, windows: seq<Window>)
    ensures WindowsOf(items) == Some(windows) <==> (forall w | w in windows :: StorableWindow(w)) && items == WindowsJson(windows)
  {
    if items != [] && windows != [] {
      WindowExactly(items[0], windows[0]);
      WindowsExactly(items[1..], windows[1..]);
      assert windows == [windows[0]] + windows[1..] && items == [items[0]] + items[1..];
      assert forall w :: w in windows <==> w == windows[0] || w in windows[1..];
    }
  }

  lemma ResetsExactly(v: Json, r: Option<Resets>)
    ensures ResetsOf(v) == Some(r) <==> v == ResetsJson(r)
  {
    if v.Obj? && Named(v.members, RESET_FIELDS) && r.Some? {
      OptionalTextExactly(v.members[1].value, r.value.nextExpiresAt);
      SameMembers(v.members, ResetsJson(r).members, RESET_FIELDS);
    }
  }

  lemma ErrorExactly(v: Json, e: Option<DocumentError>)
    ensures ErrorOf(v) == Some(e) <==> v == ErrorJson(e)
  {
    if v.Obj? && Named(v.members, ERROR_FIELDS) && e.Some? {
      SameMembers(v.members, ErrorJson(e).members, ERROR_FIELDS);
    }
  }

  lemma DepletedIsNamed(d: Depleted)
    ensures Named(DepletedJson(Some(d)).members, DEPLETED_FIELDS)
  {
  }

  lemma DepletedHolds(m: seq<Member>, d: Depleted)
    requires Named(m, DEPLETED_FIELDS)
    ensures Obj(m) == DepletedJson(Some(d)) <==>
      && m[0].value == Str(KindName(d.kind)) && m[1].value == Str(d.scope) && m[2].value == Str(d.period)
      && m[3].value == OptionJson(d.planId) && m[4].value == Str(d.unit) && m[5].value == OptionJson(d.sourceId)
      && m[6].value == Str(d.percentage)
  {
    DepletedIsNamed(d);
    SameMembers(m, DepletedJson(Some(d)).members, DEPLETED_FIELDS);
  }

  lemma DepletedExactly(v: Json, d: Option<Depleted>)
    ensures DepletedOf(v) == Some(d) <==> v == DepletedJson(d)
  {
    if d.Some? {
      DepletedIsNamed(d.value);
      if v.Obj? && Named(v.members, DEPLETED_FIELDS) {
        DepletedHolds(v.members, d.value);
        NamesExactly(v.members, d.value.kind, d.value.scope, d.value.period);
        OptionalTextExactly(v.members[3].value, d.value.planId);
        OptionalTextExactly(v.members[5].value, d.value.sourceId);
      }
    }
  }

  // ---------- a provider ----------

  predicate SnapshotHolds(m: seq<Member>, s: Snapshot)
    requires |m| == 12
  {
    && m[2].value == Str(s.publicState) && m[3].value == Str(s.freshness) && m[4].value == Str(s.statusObservedAt)
    && m[5].value == Str(s.fetchedAt) && m[6].value == Str(s.dataAt) && m[7].value == OptionJson(s.sourceId)
    && m[8].value == Arr(WindowsJson(s.windows)) && m[9].value == ResetsJson(s.resets)
  }

  lemma StatesExactly(m: seq<Member>, s: Snapshot)
    requires |m| == 12
    ensures StatesOf(m) == Some((s.publicState, s.freshness, s.statusObservedAt, s.fetchedAt, s.dataAt)) <==>
      && m[2].value == Str(s.publicState) && m[3].value == Str(s.freshness) && m[4].value == Str(s.statusObservedAt)
      && m[5].value == Str(s.fetchedAt) && m[6].value == Str(s.dataAt)
  {
  }

  lemma SnapshotParts(m: seq<Member>, s: Snapshot)
    requires |m| == 12 && m[8].value.Arr?
    ensures SnapshotOf(m) == Some(s) <==>
      && StatesOf(m) == Some((s.publicState, s.freshness, s.statusObservedAt, s.fetchedAt, s.dataAt))
      && OptionalTextOf(m[7].value) == Some(s.sourceId)
      && WindowsOf(m[8].value.items) == Some(s.windows) && ResetsOf(m[9].value) == Some(s.resets)
  {
  }

  lemma SnapshotExactly(m: seq<Member>, s: Snapshot)
    requires |m| == 12
    ensures SnapshotOf(m) == Some(s) <==> StorableOutcome(Seen(s)) && SnapshotHolds(m, s)
  {
    if m[8].value.Arr? {
      SnapshotParts(m, s);
      StatesExactly(m, s);
      OptionalTextExactly(m[7].value, s.sourceId);
      WindowsExactly(m[8].value.items, s.windows);
      ResetsExactly(m[9].value, s.resets);
    }
  }

  predicate OutcomeHolds(m: seq<Member>, o: Outcome)
    requires |m| == 12
  {
    && m[1].value == Str(OutcomeName(o))
    && (if o.Seen? then SnapshotHolds(m, o.snapshot) else Bare(m))
    && m[10].value == (if o.Failed? then ErrorJson(Some(o.error)) else Null)
    && m[11].value == (if o.NotRun? then Str(o.reason) else Null)
  }

  lemma OutcomeExactly(m: seq<Member>, o: Outcome)
    requires |m| == 12
    ensures OutcomeOf(m) == Some(o) <==> StorableOutcome(o) && OutcomeHolds(m, o)
  {
    assert "snapshot"[0] != "undetected"[0] && "snapshot"[0] != "not_run"[0] && "undetected"[0] != "not_run"[0];
    if o.Seen? {
      SnapshotExactly(m, o.snapshot);
    }
  }

  lemma ItemIsNamed(item: Item)
    ensures Named(ItemMembers(item), ITEM_FIELDS)
  {
  }

  function Letter(p: Provider): Json { Str(if p.Codex? then "codex" else "opencode_go") }

  lemma ItemIsWritten(item: Item)
    ensures ItemMembers(item)[0].value == Letter(item.provider) && OutcomeHolds(ItemMembers(item), item.outcome)
  {
  }

  lemma ItemHolds(m: seq<Member>, written: seq<Member>, item: Item)
    requires Named(m, ITEM_FIELDS) && Named(written, ITEM_FIELDS)
    requires written[0].value == Letter(item.provider) && OutcomeHolds(written, item.outcome)
    ensures m == written <==> m[0].value == Letter(item.provider) && OutcomeHolds(m, item.outcome)
  {
    SameMembers(m, written, ITEM_FIELDS);
    OutcomeValues(m, written, item.outcome);
  }

  lemma OutcomeValues(m: seq<Member>, written: seq<Member>, o: Outcome)
    requires |m| == |written| == 12 && OutcomeHolds(written, o)
    ensures OutcomeHolds(m, o) <==> forall i | 1 <= i < 12 :: m[i].value == written[i].value
  {
  }

  lemma ItemExactly(m: seq<Member>, item: Item)
    ensures ItemOf(m) == Some(item) <==> StorableOutcome(item.outcome) && m == ItemMembers(item)
  {
    assert "codex"[0] != "opencode_go"[0];
    ItemIsNamed(item);
    if Named(m, ITEM_FIELDS) {
      ItemIsWritten(item);
      ItemHolds(m, ItemMembers(item), item);
      OutcomeExactly(m, item.outcome);
    }
  }

  function ShownMembers(p: Presentation): seq<Member> {
    [Member("most_depleted_window", DepletedJson(p.depleted)), Member("compact_text", Str(p.compact)), Member("alternate_text", Str(p.alternate))]
    + [Member("tooltip_text", Str(p.tooltip))]
  }

  lemma PresentationExactly(m: seq<Member>, p: Presentation)
    ensures PresentationOf(m) == Some(p) <==> m == ShownMembers(p)
  {
    assert Named(ShownMembers(p), SHOWN_FIELDS);
    if Named(m, SHOWN_FIELDS) {
      DepletedExactly(m[0].value, p.depleted);
      SameMembers(m, ShownMembers(p), SHOWN_FIELDS);
    }
  }

  lemma RowExactly(v: Json, r: Row)
    ensures RowOf(v) == Some(r) <==> StorableOutcome(r.item.outcome) && v == ProviderJson(r.item, r.shown)
  {
    var front, back := ItemMembers(r.item), ShownMembers(r.shown);
    var written := ProviderJson(r.item, r.shown).members;
    assert written == front + back;
    assert written[..12] == front && written[12..] == back;
    if v.Obj? && |v.members| == 16 {
      ItemExactly(v.members[..12], r.item);
      PresentationExactly(v.members[12..], r.shown);
      assert v.members == v.members[..12] + v.members[12..];
    }
  }

  // ---------- the document ----------

  lemma GeneralExactly(v: Json, g: General)
    ensures GeneralOf(v) == Some(g) <==> v == GeneralJson(g)
  {
    assert Named(GeneralJson(g).members, GENERAL_FIELDS);
    if v.Obj? && Named(v.members, GENERAL_FIELDS) {
      SameMembers(v.members, GeneralJson(g).members, GENERAL_FIELDS);
    }
  }

  lemma TwoProviders(items: seq<Item>, shown: seq<Presentation>)
    requires |items| == |shown| == 2
    ensures ProvidersJson(items, shown) == [ProviderJson(items[0], shown[0])] + [ProviderJson(items[1], shown[1])]
  {
    assert ProvidersJson(items[1..], shown[1..]) == [ProviderJson(items[1], shown[1])] + ProvidersJson(items[1..][1..], shown[1..][1..]);
  }

  lemma RowsParts(items: seq<Json>, a: Row, b: Row)
    requires |items| == 2
    ensures RowsOf(Arr(items)) == Some((a, b)) <==>
      RowOf(items[0]) == Some(a) && RowOf(items[1]) == Some(b) && a.item.provider.Codex? && b.item.provider.OpenCodeGo?
  {
  }

  lemma PairOf<T>(items: seq<T>, x: T, y: T)
    ensures items == [x] + [y] <==> |items| == 2 && items[0] == x && items[1] == y
  {
  }

  lemma RowsExactly(v: Json, a: Row, b: Row)
    ensures RowsOf(v) == Some((a, b)) <==>
      && StorableOutcome(a.item.outcome) && StorableOutcome(b.item.outcome) && a.item.provider.Codex? && b.item.provider.OpenCodeGo?
      && v == Arr([ProviderJson(a.item, a.shown)] + [ProviderJson(b.item, b.shown)])
  {
    if v.Arr? && |v.items| == 2 {
      RowsParts(v.items, a, b);
      RowExactly(v.items[0], a);
      RowExactly(v.items[1], b);
      PairOf(v.items, ProviderJson(a.item, a.shown), ProviderJson(b.item, b.shown));
    }
  }

  lemma DocumentIsNamed(d: Document)
    requires |d.base.items| == |d.presentations|
    ensures Named(DocumentJson(d).members, DOCUMENT_FIELDS)
  {
  }

  lemma DocumentHolds(m: seq<Member>, d: Document)
    requires Named(m, DOCUMENT_FIELDS) && |d.base.items| == |d.presentations|
    ensures Obj(m) == DocumentJson(d) <==>
      && m[0].value == Str(d.base.state) && m[1].value == ErrorJson(d.base.error) && m[2].value == GeneralJson(d.general)
      && m[3].value == Arr(ProvidersJson(d.base.items, d.presentations))
  {
    SameMembers(m, DocumentJson(d).members, DOCUMENT_FIELDS);
  }

  lemma DocumentOfNamed(m: seq<Member>, d: Document)
    requires Named(m, DOCUMENT_FIELDS) && |d.base.items| == |d.presentations| == 2
    ensures DocumentOf(Obj(m)) == Some(d) <==>
      && m[0].value == Str(d.base.state) && ErrorOf(m[1].value) == Some(d.base.error) && GeneralOf(m[2].value) == Some(d.general)
      && RowsOf(m[3].value) == Some((Row(d.base.items[0], d.presentations[0]), Row(d.base.items[1], d.presentations[1])))
  {
    assert d.base.items == [d.base.items[0], d.base.items[1]] && d.presentations == [d.presentations[0], d.presentations[1]];
  }

  /** A tree is read as a document exactly if it is what that document is written as. */
  lemma DocumentExactly(v: Json, d: Document)
    ensures DocumentOf(v) == Some(d) <==> Storable(d) && v == DocumentJson(d)
  {
    if |d.base.items| == |d.presentations| == 2 {
      DocumentIsNamed(d);
      if v.Obj? && Named(v.members, DOCUMENT_FIELDS) {
        var m := v.members;
        DocumentOfNamed(m, d);
        DocumentHolds(m, d);
        ErrorExactly(m[1].value, d.base.error);
        GeneralExactly(m[2].value, d.general);
        RowsExactly(m[3].value, Row(d.base.items[0], d.presentations[0]), Row(d.base.items[1], d.presentations[1]));
        TwoProviders(d.base.items, d.presentations);
      }
    }
  }

  // ---------- every written object is a dictionary ----------

  predicate Distinct(names: seq<string>) {
    forall i, j | 0 <= i < j < |names| :: names[i] != names[j]
  }

  lemma WindowNamesDistinct()
    ensures Distinct(WINDOW_FIELDS)
  {
    assert "kind"[0] != "used"[0] && "scope"[0] != "limit"[0] && "source_id"[0] != "remaining"[0];
  }

  lemma DepletedNamesDistinct()
    ensures Distinct(DEPLETED_FIELDS)
  {
    assert "kind"[0] != "unit"[0] && "scope"[0] != "plan_id"[0] && "source_id"[0] != "remaining_percentage"[0];
  }

  lemma ItemNamesDistinct()
    ensures Distinct(ITEM_FIELDS + SHOWN_FIELDS)
  {
  }

  lemma ShortNamesDistinct()
    ensures Distinct(QUANTITY_FIELDS) && Distinct(RESET_FIELDS) && Distinct(ERROR_FIELDS)
    ensures Distinct(GENERAL_FIELDS) && Distinct(DOCUMENT_FIELDS)
  {
  }

  lemma NamedIsFree(m: seq<Member>, names: seq<string>)
    requires Named(m, names) && Distinct(names)
    requires forall i | 0 <= i < |m| :: FloatFree(m[i].value, true)
    ensures FloatFree(Obj(m), true)
  {
    assert DistinctKeys(m);
  }

  lemma QuantityIsFree(q: Option<Quantity>)
    ensures FloatFree(QuantityJson(q), true)
  {
    ShortNamesDistinct();
    if q.Some? {
      NamedIsFree(QuantityJson(q).members, QUANTITY_FIELDS);
    }
  }

  lemma WindowIsFree(w: Window)
    ensures FloatFree(WindowJson(w), true)
  {
    WindowNamesDistinct();
    WindowIsNamed(w);
    QuantityIsFree(w.limit);
    QuantityIsFree(w.used);
    QuantityIsFree(w.remaining);
    NamedIsFree(WindowJson(w).members, WINDOW_FIELDS);
  }

  lemma {:induction false} WindowsAreFree(windows: seq<Window>)
    ensures FloatFree(Arr(WindowsJson(windows)), true)
  {
    if windows != [] {
      WindowIsFree(windows[0]);
      WindowsAreFree(windows[1..]);
      assert forall x | x in WindowsJson(windows) :: x == WindowJson(windows[0]) || x in WindowsJson(windows[1..]);
    }
  }

  lemma ResetsAreFree(r: Option<Resets>)
    ensures FloatFree(ResetsJson(r), true)
  {
    ShortNamesDistinct();
    if r.Some? {
      NamedIsFree(ResetsJson(r).members, RESET_FIELDS);
    }
  }

  lemma ErrorIsFree(e: Option<DocumentError>)
    ensures FloatFree(ErrorJson(e), true)
  {
    ShortNamesDistinct();
    if e.Some? {
      NamedIsFree(ErrorJson(e).members, ERROR_FIELDS);
    }
  }

  lemma DepletedIsFree(d: Option<Depleted>)
    ensures FloatFree(DepletedJson(d), true)
  {
    DepletedNamesDistinct();
    if d.Some? {
      DepletedIsNamed(d.value);
      NamedIsFree(DepletedJson(d).members, DEPLETED_FIELDS);
    }
  }

  lemma ItemIsFree(item: Item)
    ensures forall i | 0 <= i < 12 :: FloatFree(ItemMembers(item)[i].value, true)
  {
    var o := item.outcome;
    if o.Seen? {
      WindowsAreFree(o.snapshot.windows);
      ResetsAreFree(o.snapshot.resets);
    }
    if o.Failed? {
      ErrorIsFree(Some(o.error));
    }
  }

  lemma ProviderIsFree(item: Item, p: Presentation)
    ensures FloatFree(ProviderJson(item, p), true)
  {
    var front, back := ItemMembers(item), ShownMembers(p);
    var m := ProviderJson(item, p).members;
    assert m == front + back;
    ItemIsFree(item);
    ItemIsNamed(item);
    DepletedIsFree(p.depleted);
    ItemNamesDistinct();
    assert Named(back, SHOWN_FIELDS);
    NamedConcat(front, ITEM_FIELDS, back, SHOWN_FIELDS);
    NamedIsFree(m, ITEM_FIELDS + SHOWN_FIELDS);
  }

  lemma NamedConcat(a: seq<Member>, names: seq<string>, b: seq<Member>, more: seq<string>)
    requires Named(a, names) && Named(b, more)
    ensures Named(a + b, names + more)
  {
  }

  lemma {:induction false} ProvidersAreFree(items: seq<Item>, shown: seq<Presentation>)
    requires |items| == |shown|
    ensures FloatFree(Arr(ProvidersJson(items, shown)), true)
  {
    if items != [] {
      ProviderIsFree(items[0], shown[0]);
      ProvidersAreFree(items[1..], shown[1..]);
      assert forall x | x in ProvidersJson(items, shown) :: x == ProviderJson(items[0], shown[0]) || x in ProvidersJson(items[1..], shown[1..]);
    }
  }

  lemma GeneralIsFree(g: General)
    ensures FloatFree(GeneralJson(g), true)
  {
    ShortNamesDistinct();
    NamedIsFree(GeneralJson(g).members, GENERAL_FIELDS);
  }

  lemma FieldsAreFree(m: seq<Member>)
    requires Named(m, DOCUMENT_FIELDS)
    requires FloatFree(m[0].value, true) && FloatFree(m[1].value, true) && FloatFree(m[2].value, true) && FloatFree(m[3].value, true)
    ensures FloatFree(Obj(m), true)
  {
    ShortNamesDistinct();
    NamedIsFree(m, DOCUMENT_FIELDS);
  }

  lemma DocumentIsFree(d: Document)
    requires |d.base.items| == |d.presentations|
    ensures FloatFree(DocumentJson(d), true)
  {
    DocumentIsNamed(d);
    ErrorIsFree(d.base.error);
    GeneralIsFree(d.general);
    ProvidersAreFree(d.base.items, d.presentations);
    FieldsAreFree(DocumentJson(d).members);
  }

  // ---------- from bytes ----------

  /** Parsing the bytes of a document gives the tree it was written as. */
  lemma WrittenTreeIsParsed(d: Document)
    requires |d.base.items| == |d.presentations|
    ensures Decode(EncodeDocument(d)).Some? && Parse(Decode(EncodeDocument(d)).value, true) == Ok(DocumentJson(d))
  {
    DocumentIsFree(d);
    DecodeOfEncode(Print(DocumentJson(d), false) + "\n");
    ParseOfPrintedLine(DocumentJson(d), false, true);
  }

  /** The cache reads a document from exactly the bytes a storable document is written as. */
  lemma ReadExactly(bytes: Bytes, d: Document)
    ensures ReadDocument(bytes) == Some(d) <==> Storable(d) && bytes == EncodeDocument(d)
  {
    if |d.base.items| == |d.presentations| {
      WrittenTreeIsParsed(d);
      DocumentExactly(DocumentJson(d), d);
    }
    if Decode(bytes).Some? && Parse(Decode(bytes).value, true).Ok? {
      DocumentExactly(Parse(Decode(bytes).value, true).value, d);
    }
  }

  predicate Usable(item: Item) { item.outcome.Seen? || item.outcome.Undetected? }

  /** What a document must be as a whole to be published: some provider is usable, the state fits the
      outcomes, and there is neither an error nor a run that was cut short. */
  predicate Publishable(d: Document) {
    && d.base.state in {"complete", "partial", "not_run", "execution_error"}
    && (exists i :: 0 <= i < |d.base.items| && Usable(d.base.items[i]))
    && (d.base.error.None? ==> d.base.state != "execution_error")
    && (d.base.state == "complete" ==> forall i | 0 <= i < |d.base.items| :: Usable(d.base.items[i]))
    && (d.base.state == "not_run" ==> forall i | 0 <= i < |d.base.items| :: d.base.items[i].outcome.NotRun?)
    && (d.base.state == "partial" ==> exists i :: 0 <= i < |d.base.items| && !Usable(d.base.items[i]))
    && d.base.error.None?
    && forall i | 0 <= i < |d.base.items| :: d.base.items[i].outcome !in {NotRun("deadline_exhausted"), NotRun("guard_wait_timeout")}
  }

  /** Two usable providers make a complete document, one a partial one, and nothing else is published. */
  lemma PublishableExactly(d: Document)
    requires Storable(d)
    ensures var a, b := d.base.items[0], d.base.items[1];
      Publishable(d) <==>
        && d.base.error.None? && (Usable(a) || Usable(b))
        && d.base.state == (if Usable(a) && Usable(b) then "complete" else "partial")
        && a.outcome !in {NotRun("deadline_exhausted"), NotRun("guard_wait_timeout")}
        && b.outcome !in {NotRun("deadline_exhausted"), NotRun("guard_wait_timeout")}
  {
    var a, b := d.base.items[0], d.base.items[1];
    assert "complete"[0] != "partial"[0] && "complete"[0] != "not_run"[0] && "partial"[0] != "not_run"[0];
    assert forall i | 0 <= i < 2 :: d.base.items[i] == if i == 0 then a else b;
  }

  /** What the cache publishes: bytes it reads, of a publishable document whose presentation it recomputes. */
  ghost predicate Stored(bytes: Bytes, texts: Texts) {
    ReadDocument(bytes).Some? && Publishable(ReadDocument(bytes).value) && CacheAccepts(ReadDocument(bytes).value, texts)
  }

  ghost predicate Emitted(bytes: Bytes, raw: Base, texts: Texts) {
    && Projected(raw, texts).Some? && Storable(Projected(raw, texts).value) && Publishable(Projected(raw, texts).value)
    && bytes == EncodeDocument(Projected(raw, texts).value)
  }

  /** These are exactly the bytes the projector emits for storable and publishable documents. */
  lemma StoredExactly(bytes: Bytes, texts: Texts)
    ensures Stored(bytes, texts) <==> exists raw :: Emitted(bytes, raw, texts)
  {
    if Stored(bytes, texts) {
      var d := ReadDocument(bytes).value;
      ReadExactly(bytes, d);
      CacheAgreesWithProjection(d.base, d, texts);
      assert Emitted(bytes, d.base, texts);
    }
    if raw :| Emitted(bytes, raw, texts) {
      var d := Projected(raw, texts).value;
      ReadExactly(bytes, d);
      CacheAgreesWithProjection(raw, d, texts);
    }
  }

  // ---------- what is never stored ----------

  predicate CanonicalQuantity(q: Option<Quantity>) { q.Some? ==> IsCanonical(q.value.value) }

  predicate CanonicalWindow(w: Window) {
    CanonicalQuantity(w.limit) && CanonicalQuantity(w.used) && CanonicalQuantity(w.remaining)
  }

  /** The numbers are canonical, as the model's quantities are. */
  predicate CanonicalItem(item: Item) {
    item.outcome.Seen? ==> forall w | w in item.outcome.snapshot.windows :: CanonicalWindow(w)
  }

  lemma QuantityReads(q: Option<Quantity>)
    requires CanonicalQuantity(q) && QuantityOf(QuantityJson(q)).Some?
    ensures StorableQuantity(q)
  {
    if q.Some? {
      PatternExactly(q.value.value);
    }
  }

  lemma WindowReads(w: Window)
    requires CanonicalWindow(w) && WindowOf(WindowJson(w)).Some?
    ensures StorableWindow(w)
  {
    var m := WindowJson(w).members;
    assert NumbersOf(m).Some?;
    QuantityReads(w.limit);
    QuantityReads(w.used);
    QuantityReads(w.remaining);
  }

  lemma {:induction false} WindowsRead(windows: seq<Window>)
    requires (forall w | w in windows :: CanonicalWindow(w)) && WindowsOf(WindowsJson(windows)).Some?
    ensures forall w | w in windows :: StorableWindow(w)
  {
    if windows != [] {
      WindowReads(windows[0]);
      WindowsRead(windows[1..]);
      assert forall w | w in windows :: w == windows[0] || w in windows[1..];
    }
  }

  lemma ItemReads(item: Item)
    requires CanonicalItem(item) && ItemOf(ItemMembers(item)).Some?
    ensures StorableOutcome(item.outcome)
  {
    var m := ItemMembers(item);
    if item.outcome.Seen? {
      assert SnapshotOf(m).Some? && m[8].value == Arr(WindowsJson(item.outcome.snapshot.windows));
      WindowsRead(item.outcome.snapshot.windows);
    }
  }

  lemma RowReads(item: Item, p: Presentation)
    requires CanonicalItem(item) && RowOf(ProviderJson(item, p)).Some?
    ensures StorableOutcome(item.outcome)
  {
    var front, back := ItemMembers(item), ShownMembers(p);
    assert ProviderJson(item, p).members == front + back;
    assert (front + back)[..12] == front;
    ItemReads(item);
  }

  lemma DocumentReads(d: Document)
    requires |d.base.items| == |d.presentations| == 2 && CanonicalItem(d.base.items[0]) && CanonicalItem(d.base.items[1])
    requires DocumentOf(DocumentJson(d)).Some?
    ensures StorableOutcome(d.base.items[0].outcome) && StorableOutcome(d.base.items[1].outcome)
  {
    TwoProviders(d.base.items, d.presentations);
    assert RowsOf(DocumentJson(d).members[3].value).Some?;
    RowReads(d.base.items[0], d.presentations[0]);
    RowReads(d.base.items[1], d.presentations[1]);
  }

  /** A document of two providers comes back whole from its bytes, unless it tells an error of a
      provider, an unknown reason for not running, or a number strictly between zero and one: such a
      document the cache does not read. */
  lemma ReadsBackExactly(d: Document)
    requires |d.base.items| == |d.presentations| == 2 && d.base.items[0].provider.Codex? && d.base.items[1].provider.OpenCodeGo?
    requires CanonicalItem(d.base.items[0]) && CanonicalItem(d.base.items[1])
    ensures ReadDocument(EncodeDocument(d)) == if Storable(d) then Some(d) else None
  {
    ReadExactly(EncodeDocument(d), d);
    WrittenTreeIsParsed(d);
    if DocumentOf(DocumentJson(d)).Some? {
      DocumentReads(d);
    }
  }
}
