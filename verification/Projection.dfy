/**
 The quota document: how each provider is presented, how long its tooltip may be so that the whole
 encoded document stays within its budget, and the cache's own recomputation of both.
 */
module Projection {
  import opened Decimals
  import opened Digits
  import opened Json
  import opened Percentage
  import opened Utf8
  import opened TextOrder
  import opened Wrappers

  const MAX_DOCUMENT_BYTES := 65_536
  const MAX_TOOLTIP_SCALARS := 4_096
  const MAX_QUOTA_WINDOWS := 32
  const MAX_SUMMARY := 128

  datatype Provider = Codex | OpenCodeGo

  datatype Kind = CommercialQuota | TechnicalRateLimit | OtherKind

  datatype Quantity = Quantity(value: Dec, metric: string, unit: string)

  datatype Window = Window(kind: Kind, scope: string, period: string, planId: Option<string>, availability: string,
                           sourceId: Option<string>, limit: Option<Quantity>, used: Option<Quantity>,
                           remaining: Option<Quantity>, resetAt: Option<string>)

  datatype Resets = Resets(availableCount: nat, nextExpiresAt: Option<string>)

  datatype DocumentError = DocumentError(code: string, phase: string)

  datatype Snapshot = Snapshot(publicState: string, freshness: string, statusObservedAt: string, fetchedAt: string,
                               dataAt: string, sourceId: Option<string>, windows: seq<Window>, resets: Option<Resets>)

  datatype Outcome = Seen(snapshot: Snapshot) | Undetected | NotRun(reason: string) | Failed(error: DocumentError)

  datatype Item = Item(provider: Provider, outcome: Outcome)

  datatype Depleted = Depleted(kind: Kind, scope: string, period: string, planId: Option<string>, unit: string,
                               sourceId: Option<string>, percentage: string)

  datatype Presentation = Presentation(depleted: Option<Depleted>, compact: string, alternate: string, tooltip: string)

  datatype General = General(compact: string, alternate: string, tooltip: string)

  /** What a document says apart from its presentation. */
  datatype Base = Base(state: string, error: Option<DocumentError>, items: seq<Item>)

  datatype Document = Document(base: Base, general: General, presentations: seq<Presentation>)

  /** Locale-dependent texts: the display of a timestamp, if any, and `str.capitalize`. */
  datatype Texts = Texts(stamp: string -> Option<string>, capitalize: string -> string)

  // ---------- the order of windows ----------

  predicate KeyLess(a: seq<string>, b: seq<string>) {
    b != [] && (a == [] || TextLess(a[0], b[0]) || (a[0] == b[0] && KeyLess(a[1..], b[1..])))
  }

  function KindRank(k: Kind): string {
    match k
    case CommercialQuota => "0"
    case TechnicalRateLimit => "1"
    case OtherKind => "2"
  }

  function OptionKey(o: Option<string>): seq<string> {
    if o.None? then ["0", ""] else ["1", o.value]
  }

  function SortKey(w: Window): seq<string> {
    [KindRank(w.kind), w.scope, w.period] + OptionKey(w.planId) + OptionKey(w.sourceId)
  }

  predicate Before(a: Window, b: Window) { KeyLess(SortKey(a), SortKey(b)) }

  function Rank(k: Kind): nat {
    match k
    case CommercialQuota => 0
    case TechnicalRateLimit => 1
    case OtherKind => 2
  }

  /** An absent text comes before every present one. */
  predicate OptionLess(a: Option<string>, b: Option<string>) {
    b.Some? && (a.None? || TextLess(a.value, b.value))
  }

  /** Windows are ordered by kind, scope, period, plan and source, in that order of precedence. */
  lemma BeforeIsLexicographic(a: Window, b: Window)
    ensures Before(a, b) <==>
      if a.kind != b.kind then Rank(a.kind) < Rank(b.kind)
      else if a.scope != b.scope then TextLess(a.scope, b.scope)
      else if a.period != b.period then TextLess(a.period, b.period)
      else if a.planId != b.planId then OptionLess(a.planId, b.planId)
      else OptionLess(a.sourceId, b.sourceId)
  {
    var ka, kb := OptionKey(a.planId), OptionKey(b.planId);
    var la, lb := OptionKey(a.sourceId), OptionKey(b.sourceId);
    assert "0" != "1" && "1" != "2" && "0" != "2";
    TextIrreflexive(KindRank(a.kind));
    TextIrreflexive(a.scope);
    TextIrreflexive(a.period);
    KeyCons(KindRank(a.kind), [a.scope, a.period] + ka + la, KindRank(b.kind), [b.scope, b.period] + kb + lb);
    assert SortKey(a) == [KindRank(a.kind)] + ([a.scope, a.period] + ka + la);
    assert SortKey(b) == [KindRank(b.kind)] + ([b.scope, b.period] + kb + lb);
    KeyCons(a.scope, [a.period] + ka + la, b.scope, [b.period] + kb + lb);
    assert [a.scope, a.period] + ka + la == [a.scope] + ([a.period] + ka + la);
    assert [b.scope, b.period] + kb + lb == [b.scope] + ([b.period] + kb + lb);
    KeyCons(a.period, ka + la, b.period, kb + lb);
    assert [a.period] + ka + la == [a.period] + (ka + la) && [b.period] + kb + lb == [b.period] + (kb + lb);
    OptionKeyOrder(a.planId, la, b.planId, lb);
    OptionKeyOrder(a.sourceId, [], b.sourceId, []);
    assert la + [] == la && lb + [] == lb;
  }

  lemma KeyCons(x: string, a: seq<string>, y: string, b: seq<string>)
    ensures KeyLess([x] + a, [y] + b) <==> TextLess(x, y) || (x == y && KeyLess(a, b))
  {
    assert ([x] + a)[1..] == a && ([y] + b)[1..] == b;
  }

  lemma OptionKeyOrder(o: Option<string>, a: seq<string>, p: Option<string>, b: seq<string>)
    ensures KeyLess(OptionKey(o) + a, OptionKey(p) + b) <==> if o != p then OptionLess(o, p) else KeyLess(a, b)
  {
    var x, y := OptionKey(o), OptionKey(p);
    assert x + a == [x[0]] + ([x[1]] + a) && y + b == [y[0]] + ([y[1]] + b);
    KeyCons(x[0], [x[1]] + a, y[0], [y[1]] + b);
    KeyCons(x[1], a, y[1], b);
    TextIrreflexive(x[0]);
    TextIrreflexive(x[1]);
    assert "0"[0] < "1"[0];
  }

  lemma {:induction false} KeyTotal(a: seq<string>, b: seq<string>)
    ensures KeyLess(a, b) || a == b || KeyLess(b, a)
  {
    if a != [] && b != [] {
      TextTotal(a[0], b[0]);
      if a[0] == b[0] {
        KeyTotal(a[1..], b[1..]);
        assert a == [a[0]] + a[1..] && b == [b[0]] + b[1..];
      }
    }
  }

  lemma {:induction false} KeyTransitive(a: seq<string>, b: seq<string>, c: seq<string>)
    requires KeyLess(a, b) && KeyLess(b, c)
    ensures KeyLess(a, c)
  {
    if a != [] {
      if TextLess(a[0], b[0]) && TextLess(b[0], c[0]) {
        TextTransitive(a[0], b[0], c[0]);
      }
      if a[0] == b[0] == c[0] && KeyLess(a[1..], b[1..]) && KeyLess(b[1..], c[1..]) {
        KeyTransitive(a[1..], b[1..], c[1..]);
      }
    }
  }

  lemma {:induction false} KeyIrreflexive(a: seq<string>)
    ensures !KeyLess(a, a)
  {
    if a != [] {
      TextIrreflexive(a[0]);
      KeyIrreflexive(a[1..]);
    }
  }

  /** Not after: the order in which equal keys are left alone. */
  predicate NotAfter(a: Window, b: Window) { !Before(b, a) }

  lemma NotAfterTransitive(a: Window, b: Window, c: Window)
    requires NotAfter(a, b) && NotAfter(b, c)
    ensures NotAfter(a, c)
  {
    KeyTotal(SortKey(a), SortKey(b));
    KeyTotal(SortKey(b), SortKey(c));
    if Before(c, a) {
      if Before(a, b) {
        KeyTransitive(SortKey(c), SortKey(a), SortKey(b));
      }
      assert false;
    }
  }

  /** A stable sort. */
  function SortWindows(windows: seq<Window>): (r: seq<Window>)
    ensures |r| == |windows| && multiset(r) == multiset(windows)
  {
    if windows == [] then []
    else
      assert windows == [windows[0]] + windows[1..];
      Insert(windows[0], SortWindows(windows[1..]))
  }

  /** Before everything it does not come after. */
  function Insert(w: Window, sorted: seq<Window>): (r: seq<Window>)
    ensures |r| == |sorted| + 1 && multiset(r) == multiset([w]) + multiset(sorted)
  {
    if sorted == [] || NotAfter(w, sorted[0]) then
      [w] + sorted
    else
      assert sorted == [sorted[0]] + sorted[1..];
      [sorted[0]] + Insert(w, sorted[1..])
  }

  predicate Ordered(windows: seq<Window>) {
    forall i, j | 0 <= i < j < |windows| :: NotAfter(windows[i], windows[j])
  }

  lemma {:induction false} InsertKeepsOrder(w: Window, sorted: seq<Window>)
    requires Ordered(sorted)
    ensures Ordered(Insert(w, sorted))
    ensures forall v | v in Insert(w, sorted) :: v == w || v in sorted
  {
    var r := Insert(w, sorted);
    if sorted == [] || NotAfter(w, sorted[0]) {
      forall j | 0 < j < |r|
        ensures NotAfter(r[0], r[j])
      {
        if j > 1 {
          NotAfterTransitive(w, sorted[0], sorted[j - 1]);
        }
      }
    } else {
      InsertKeepsOrder(w, sorted[1..]);
      KeyTotal(SortKey(w), SortKey(sorted[0]));
      assert NotAfter(sorted[0], w) by {
        if Before(w, sorted[0]) {
          KeyTransitive(SortKey(w), SortKey(sorted[0]), SortKey(w));
          KeyIrreflexive(SortKey(w));
        }
      }
      forall j | 0 < j < |r|
        ensures NotAfter(r[0], r[j])
      {
        assert r[j] in Insert(w, sorted[1..]);
      }
    }
  }

  lemma {:induction false} SortingOrders(windows: seq<Window>)
    ensures Ordered(SortWindows(windows))
  {
    if windows != [] {
      SortingOrders(windows[1..]);
      InsertKeepsOrder(windows[0], SortWindows(windows[1..]));
    }
  }

  /** Sorting what is in order changes nothing. */
  lemma {:induction false} SortingOrdered(windows: seq<Window>)
    requires Ordered(windows)
    ensures SortWindows(windows) == windows
  {
    if windows != [] {
      SortingOrdered(windows[1..]);
      assert windows == [windows[0]] + windows[1..];
    }
  }

  // ---------- the most depleted window ----------

  function PercentageOf(w: Window): Option<string> {
    if w.availability != "known" || w.limit.None? || w.remaining.None? then None
    else if w.limit.value.metric != w.remaining.value.metric || w.limit.value.unit != w.remaining.value.unit then None
    else PercentText(w.limit.value.value, w.remaining.value.value)
  }

  datatype Shown = Shown(window: Window, text: string)

  function Eligible(windows: seq<Window>): seq<Shown> {
    if windows == [] then []
    else
      var p := PercentageOf(windows[0]);
      (if p.Some? then [Shown(windows[0], p.value)] else []) + Eligible(windows[1..])
  }

  predicate Preferred(a: Shown, b: Shown) {
    TextWorth(a.text) < TextWorth(b.text) || (TextWorth(a.text) == TextWorth(b.text) && Before(a.window, b.window))
  }

  /** The first of the least. */
  function Least(s: seq<Shown>): Shown
    requires s != []
  {
    if |s| == 1 then s[0]
    else
      var rest := Least(s[1..]);
      if Preferred(rest, s[0]) then rest else s[0]
  }

  lemma NotPreferredTransitive(a: Shown, b: Shown, c: Shown)
    requires !Preferred(b, a) && !Preferred(c, b)
    ensures !Preferred(c, a)
  {
    if TextWorth(c.text) == TextWorth(a.text) {
      NotAfterTransitive(a.window, b.window, c.window);
    }
  }

  lemma PreferredIsStrict(a: Shown, b: Shown)
    requires Preferred(a, b)
    ensures !Preferred(b, a)
  {
    if Before(a.window, b.window) && Before(b.window, a.window) {
      KeyTransitive(SortKey(a.window), SortKey(b.window), SortKey(a.window));
      KeyIrreflexive(SortKey(a.window));
    }
  }

  lemma {:induction false} LeastIsLeast(s: seq<Shown>)
    requires s != []
    ensures Least(s) in s && forall x | x in s :: !Preferred(x, Least(s))
  {
    if |s| == 1 {
      KeyIrreflexive(SortKey(s[0].window));
    } else {
      LeastIsLeast(s[1..]);
      var rest := Least(s[1..]);
      KeyIrreflexive(SortKey(s[0].window));
      if Preferred(rest, s[0]) {
        PreferredIsStrict(rest, s[0]);
      }
      forall x | x in s
        ensures !Preferred(x, Least(s))
      {
        if x != s[0] && !Preferred(rest, s[0]) {
          assert x in s[1..];
          NotPreferredTransitive(s[0], rest, x);
        }
      }
    }
  }

  lemma {:induction false} EligibleMeans(windows: seq<Window>, x: Shown)
    ensures x in Eligible(windows) <==> x.window in windows && PercentageOf(x.window) == Some(x.text)
  {
    if windows != [] {
      EligibleMeans(windows[1..], x);
    }
  }

  /** The selected window shows the least percentage of all eligible ones, and a window that shows
      strictly less has a strictly smaller true remaining share. */
  lemma SelectedIsMostDepleted(windows: seq<Window>, w: Window)
    requires w in windows && PercentageOf(w).Some?
    ensures Eligible(windows) != []
    ensures var best := Least(Eligible(windows));
      && best.window in windows && PercentageOf(best.window) == Some(best.text)
      && TextWorth(best.text) <= TextWorth(PercentageOf(w).value)
      && (TextWorth(best.text) < TextWorth(PercentageOf(w).value) ==> StrictlySmallerShare(best.window, w))
  {
    var x := Shown(w, PercentageOf(w).value);
    EligibleMeans(windows, x);
    var best := Least(Eligible(windows));
    LeastIsLeast(Eligible(windows));
    EligibleMeans(windows, best);
    if TextWorth(best.text) < TextWorth(x.text) {
      SmallerShownIsSmaller(best, x);
    }
  }

  predicate StrictlySmallerShare(a: Window, b: Window)
    requires a.limit.Some? && a.remaining.Some? && b.limit.Some? && b.remaining.Some?
  {
    SmallerShare(a.limit.value.value, a.remaining.value.value, b.limit.value.value, b.remaining.value.value)
  }

  lemma SmallerShownIsSmaller(a: Shown, b: Shown)
    requires PercentageOf(a.window) == Some(a.text) && PercentageOf(b.window) == Some(b.text)
    requires TextWorth(a.text) < TextWorth(b.text)
    ensures StrictlySmallerShare(a.window, b.window)
  {
    SmallerTextSmallerShare(a.window.limit.value.value, a.window.remaining.value.value, a.text,
                            b.window.limit.value.value, b.window.remaining.value.value, b.text);
  }

  // ---------- one provider ----------

  function ProviderName(p: Provider): string {
    match p
    case Codex => "Codex"
    case OpenCodeGo => "OpenCode Go"
  }

  function ReplaceUnderscores(t: string): string {
    if t == "" then "" else [if t[0] == '_' then ' ' else t[0]] + ReplaceUnderscores(t[1..])
  }

  function StateText(value: string, texts: Texts): string {
    texts.capitalize(ReplaceUnderscores(value))
  }

  function PeriodText(period: string, texts: Texts): string {
    if period == "five_hour" then "5h"
    else if period == "monthly" then "Monthly"
    else if period == "weekly" then "Weekly"
    else StateText(period, texts)
  }

  function NotRunText(reason: string): string {
    match reason
    case "disabled" => "provider disabled"
    case "invalid_configuration" => "configuration invalid"
    case "invocation_invalid" => "invocation invalid"
    case "document_aborted" => "document aborted"
    case "guard_wait_timeout" => "guard wait timeout"
    case "deadline_exhausted" => "deadline exhausted"
    case _ => ""
  }

  /** The base is cut, never the qualifier. */
  function BoundedSummary(base: string, qualifier: string): (r: string)
    requires |qualifier| <= MAX_SUMMARY
    ensures |r| == if |base| + |qualifier| <= MAX_SUMMARY then |base| + |qualifier| else MAX_SUMMARY
    ensures r[|r| - |qualifier|..] == qualifier && r[..|r| - |qualifier|] <= base
  {
    if |base| + |qualifier| <= MAX_SUMMARY then base + qualifier else base[..MAX_SUMMARY - |qualifier|] + qualifier
  }

  function Stamp(at: Option<string>, texts: Texts): Option<string> {
    if at.None? then None
    else
      var t := texts.stamp(at.value);
      if t == Some("") then None else t
  }

  function WindowEntry(w: Window, texts: Texts): seq<string> {
    var p := PercentageOf(w);
    var stamp := Stamp(w.resetAt, texts);
    [PeriodText(w.period, texts) + ": " + (if p.Some? then p.value + "%" else "Unavailable")]
    + (if stamp.Some? then ["  Renews: " + stamp.value] else [])
  }

  function WindowLines(windows: seq<Window>, texts: Texts): seq<string> {
    if windows == [] then [] else WindowEntry(windows[0], texts) + WindowLines(windows[1..], texts)
  }

  function ResetLines(resets: Option<Resets>, texts: Texts): seq<string> {
    if resets.None? then []
    else
      var expiry := Stamp(resets.value.nextExpiresAt, texts);
      ["Quota resets available: " + Decimal(resets.value.availableCount)]
      + (if expiry.Some? then ["Next reset expiry: " + expiry.value] else [])
  }

  function DetailLines(s: Snapshot, texts: Texts): seq<string> {
    WindowLines(SortWindows(s.windows), texts)
    + (if s.windows == [] then ["No quota windows"] else [])
    + ResetLines(s.resets, texts)
  }

  function Header(p: Provider, s: Snapshot, texts: Texts): string {
    ProviderName(p) + "\nState: " + StateText(s.publicState, texts) + " · " + StateText(s.freshness, texts) + "\nQuota remaining:"
  }

  /** Whole lines are added as long as they fit. */
  function Greedy(text: string, lines: seq<string>, limit: nat): string
    decreases |lines|
  {
    if lines == [] then text
    else
      var candidate := if text == "" then lines[0] else text + "\n" + lines[0];
      if |candidate| > limit then text else Greedy(candidate, lines[1..], limit)
  }

  method BuildTooltip(header: string, lines: seq<string>, limit: nat) returns (tooltip: string)
    ensures tooltip == Greedy(header, lines, limit)
  {
    tooltip := header;
    var i := 0;
    while i < |lines|
      invariant i <= |lines|
      invariant Greedy(tooltip, lines[i..], limit) == Greedy(header, lines, limit)
    {
      var candidate := if tooltip == "" then lines[i] else tooltip + "\n" + lines[i];
      if |candidate| > limit {
        return;
      }
      assert lines[i..][0] == lines[i] && lines[i..][1..] == lines[i + 1..];
      tooltip := candidate;
      i := i + 1;
    }
  }

  lemma {:induction false} GreedyExtends(text: string, lines: seq<string>, limit: nat)
    ensures text <= Greedy(text, lines, limit)
    decreases |lines|
  {
    if lines != [] {
      var candidate := if text == "" then lines[0] else text + "\n" + lines[0];
      GreedyExtends(candidate, lines[1..], limit);
    }
  }

  /** The tooltip at a smaller limit is a prefix of the tooltip at a larger one. */
  lemma {:induction false} TooltipPrefix(text: string, lines: seq<string>, low: nat, high: nat)
    requires low <= high
    ensures Greedy(text, lines, low) <= Greedy(text, lines, high)
    decreases |lines|
  {
    if lines != [] {
      var candidate := if text == "" then lines[0] else text + "\n" + lines[0];
      if |candidate| > low {
        GreedyExtends(text, lines, high);
      } else {
        TooltipPrefix(candidate, lines[1..], low, high);
      }
    }
  }

  /** A tooltip never outgrows its limit, unless its header already does. */
  lemma {:induction false} TooltipFits(text: string, lines: seq<string>, limit: nat)
    ensures |Greedy(text, lines, limit)| <= limit || Greedy(text, lines, limit) == text
    decreases |lines|
  {
    if lines != [] {
      var candidate := if text == "" then lines[0] else text + "\n" + lines[0];
      if |candidate| <= limit {
        TooltipFits(candidate, lines[1..], limit);
      }
    }
  }

  function PresentSnapshot(p: Provider, s: Snapshot, limit: nat, texts: Texts): Presentation {
    var eligible := Eligible(SortWindows(s.windows));
    var qualifier := Qualifier(s);
    var tooltip := Greedy(Header(p, s, texts), DetailLines(s, texts), limit);
    if eligible == [] then
      Presentation(None, "—", BoundedSummary("Quota unavailable", qualifier), tooltip)
    else
      var best := Least(eligible);
      LeastIsLeast(eligible);
      EligibleMeans(SortWindows(s.windows), best);
      var w := best.window;
      Presentation(
        Some(Depleted(w.kind, w.scope, w.period, w.planId, w.remaining.value.unit, w.sourceId, best.text)),
        best.text + "%",
        BoundedSummary(PeriodText(w.period, texts) + ": " + best.text + "% left", qualifier),
        tooltip)
  }

  function PresentOther(p: Provider, text: string, detail: string): Presentation {
    Presentation(None, "—", text, ProviderName(p) + "\n" + text + (if detail == "" then "" else ": " + detail))
  }

  function Present(item: Item, limit: nat, texts: Texts): Presentation {
    match item.outcome
    case Seen(s) => PresentSnapshot(item.provider, s, limit, texts)
    case Undetected => PresentOther(item.provider, "Provider not detected", "")
    case NotRun(reason) => PresentOther(item.provider, "Quota unavailable", NotRunText(reason))
    case Failed(error) =>
      PresentOther(item.provider, "Quota unavailable" + (if error.code == "provider_timeout" then " · timeout" else " · request failed"), error.code)
  }

  // ---------- what a presentation shows ----------

  /** No window shows less, and none that shows the same comes before. */
  ghost predicate MostDepleted(w: Window, windows: seq<Window>) {
    && w in windows && PercentageOf(w).Some?
    && forall v | v in windows && PercentageOf(v).Some? ::
         || TextWorth(PercentageOf(w).value) < TextWorth(PercentageOf(v).value)
         || (TextWorth(PercentageOf(w).value) == TextWorth(PercentageOf(v).value) && !Before(v, w))
  }

  predicate Describes(d: Depleted, w: Window) {
    && PercentageOf(w) == Some(d.percentage) && w.remaining.Some? && d.unit == w.remaining.value.unit
    && d.kind == w.kind && d.scope == w.scope && d.period == w.period && d.planId == w.planId && d.sourceId == w.sourceId
  }

  function Qualifier(s: Snapshot): (q: string)
    ensures |q| <= 18
  {
    (if s.publicState == "partial" then " · partial" else "") + (if s.freshness == "stale" then " · stale" else "")
  }

  /** The presentation of a snapshot names the most depleted window, if any window has a percentage,
      and shows its percentage. */
  ghost predicate ShowsMostDepleted(s: Snapshot, p: Presentation, texts: Texts) {
    if p.depleted.None? then
      && (forall w | w in s.windows :: PercentageOf(w).None?)
      && p.compact == "—" && p.alternate == BoundedSummary("Quota unavailable", Qualifier(s))
    else
      var d := p.depleted.value;
      && (exists w :: MostDepleted(w, s.windows) && Describes(d, w))
      && p.compact == d.percentage + "%"
      && p.alternate == BoundedSummary(PeriodText(d.period, texts) + ": " + d.percentage + "% left", Qualifier(s))
  }

  lemma SortedMembers(windows: seq<Window>)
    ensures forall w :: w in SortWindows(windows) <==> w in windows
  {
    assert multiset(SortWindows(windows)) == multiset(windows);
    forall w ensures w in SortWindows(windows) <==> w in windows {
      assert w in SortWindows(windows) <==> w in multiset(SortWindows(windows));
      assert w in windows <==> w in multiset(windows);
    }
  }

  lemma LeastIsMostDepleted(windows: seq<Window>)
    requires Eligible(windows) != []
    ensures var best := Least(Eligible(windows)); MostDepleted(best.window, windows) && PercentageOf(best.window) == Some(best.text)
  {
    var best := Least(Eligible(windows));
    LeastIsLeast(Eligible(windows));
    EligibleMeans(windows, best);
    forall v | v in windows && PercentageOf(v).Some?
      ensures !Preferred(Shown(v, PercentageOf(v).value), best)
    {
      EligibleMeans(windows, Shown(v, PercentageOf(v).value));
    }
  }

  lemma MostDepletedOfSame(w: Window, a: seq<Window>, b: seq<Window>)
    requires MostDepleted(w, a) && forall v :: v in a <==> v in b
    ensures MostDepleted(w, b)
  {
  }

  /** Every presented snapshot shows its most depleted window, whatever the order of its windows. */
  lemma PresentationShowsMostDepleted(item: Item, limit: nat, texts: Texts)
    requires item.outcome.Seen?
    ensures ShowsMostDepleted(item.outcome.snapshot, Present(item, limit, texts), texts)
  {
    var s := item.outcome.snapshot;
    var sorted := SortWindows(s.windows);
    SortedMembers(s.windows);
    if Eligible(sorted) == [] {
      forall w | w in s.windows ensures PercentageOf(w).None? {
        if PercentageOf(w).Some? {
          EligibleMeans(sorted, Shown(w, PercentageOf(w).value));
        }
      }
    } else {
      LeastIsMostDepleted(sorted);
      MostDepletedOfSame(Least(Eligible(sorted)).window, sorted, s.windows);
    }
  }

  /** A window shows a percentage exactly when it is known, its limit and remainder are measured alike,
      the remainder is a share of the limit, and the text is not too long; the text is then worth the
      percentage. */
  lemma WindowShowsPercentage(w: Window)
    ensures PercentageOf(w).Some? <==>
      && w.availability == "known" && w.limit.Some? && w.remaining.Some?
      && w.limit.value.metric == w.remaining.value.metric && w.limit.value.unit == w.remaining.value.unit
      && 0.0 < Worth(w.limit.value.value) && Worth(w.remaining.value.value) <= Worth(w.limit.value.value)
      && Comparable(w.limit.value.value, w.remaining.value.value)
      && |FixedText(Plain(Percent(w.limit.value.value, w.remaining.value.value)))| < MAX_PERCENT_TEXT
    ensures PercentageOf(w).Some? ==> TextWorth(PercentageOf(w).value) == Worth(Percent(w.limit.value.value, w.remaining.value.value))
  {
    if w.limit.Some? && w.remaining.Some? {
      ComparableExactly(w.limit.value.value, w.remaining.value.value);
    }
    if w.limit.Some? && w.remaining.Some? && Comparable(w.limit.value.value, w.remaining.value.value) {
      PercentTextMeaning(w.limit.value.value, w.remaining.value.value);
    }
    if PercentageOf(w).Some? {
      TextWorthIsPercent(w.limit.value.value, w.remaining.value.value, PercentageOf(w).value);
    }
  }

  /** There is an instant, and its display is not empty. */
  predicate Displayed(at: Option<string>, texts: Texts) {
    at.Some? && texts.stamp(at.value).Some? && texts.stamp(at.value).value != ""
  }

  lemma JoinOfThree(separator: string, a: string, b: string, c: string)
    ensures Join(separator, [a, b, c]) == a + separator + (b + separator + c)
  {
    assert [a, b, c][1..] == [b, c] && [b, c][1..] == [c];
    assert Join(separator, [b, c]) == b + separator + Join(separator, [c]);
  }

  /** The header has three lines: provider, states, and what follows. */
  lemma HeaderLines(p: Provider, s: Snapshot, texts: Texts)
    ensures Header(p, s, texts) == Join("\n", [ProviderName(p),
      "State: " + StateText(s.publicState, texts) + " · " + StateText(s.freshness, texts), "Quota remaining:"])
  {
    var a, b := StateText(s.publicState, texts), StateText(s.freshness, texts);
    JoinOfThree("\n", ProviderName(p), "State: " + a + " · " + b, "Quota remaining:");
    assert "\nState: " == "\n" + "State: " && "\nQuota remaining:" == "\n" + "Quota remaining:";
  }

  /** What is added to a summary, and the periods that have a name of their own. */
  lemma Wording(s: Snapshot, period: string, texts: Texts)
    ensures Qualifier(s) ==
      if s.publicState != "partial" then (if s.freshness != "stale" then "" else " · stale")
      else if s.freshness != "stale" then " · partial"
      else " · partial" + " · stale"
    ensures PeriodText("five_hour", texts) == "5h" && PeriodText("weekly", texts) == "Weekly" && PeriodText("monthly", texts) == "Monthly"
    ensures period !in {"five_hour", "weekly", "monthly"} ==> PeriodText(period, texts) == StateText(period, texts)
  {
    assert "five_hour"[0] != "weekly"[0] && "monthly"[0] != "weekly"[0];
  }

  /** Every window has its line among those of the tooltip, and behind it the line of its renewal. */
  lemma {:induction false} WindowIsListed(windows: seq<Window>, texts: Texts, w: Window) returns (k: nat)
    requires w in windows
    ensures var lines := WindowLines(windows, texts);
      && k < |lines|
      && lines[k] == PeriodText(w.period, texts) + ": " + (if PercentageOf(w).Some? then PercentageOf(w).value + "%" else "Unavailable")
      && (Displayed(w.resetAt, texts) ==> k + 1 < |lines| && lines[k + 1] == "  Renews: " + texts.stamp(w.resetAt.value).value)
  {
    if w == windows[0] {
      k := 0;
    } else {
      k := WindowIsListed(windows[1..], texts, w);
      k := |WindowEntry(windows[0], texts)| + k;
    }
  }

  /** A tooltip with room for all lines has all of them. */
  lemma {:induction false} RoomyTooltip(text: string, lines: seq<string>, limit: nat)
    requires text != "" && |Join("\n", [text] + lines)| <= limit
    ensures Greedy(text, lines, limit) == Join("\n", [text] + lines)
    decreases |lines|
  {
    if lines == [] {
      assert [text] + lines == [text];
    } else {
      var candidate := text + "\n" + lines[0];
      JoinHead(text, lines[0], lines[1..]);
      JoinPrefix(candidate, lines[1..]);
      assert [text] + lines == [text, lines[0]] + lines[1..];
      RoomyTooltip(candidate, lines[1..], limit);
    }
  }

  lemma JoinHead(a: string, b: string, rest: seq<string>)
    ensures Join("\n", [a, b] + rest) == Join("\n", [a + "\n" + b] + rest)
  {
    assert ([a, b] + rest)[1..] == [b] + rest;
    assert ([b] + rest)[1..] == rest && ([a + "\n" + b] + rest)[1..] == rest;
    if rest != [] {
      assert a + "\n" + (b + "\n" + Join("\n", rest)) == (a + "\n" + b) + "\n" + Join("\n", rest);
    }
  }

  lemma JoinPrefix(a: string, rest: seq<string>)
    ensures |a| <= |Join("\n", [a] + rest)|
  {
    assert ([a] + rest)[1..] == rest;
  }

  // ---------- the document ----------

  function Join(separator: string, parts: seq<string>): string {
    if parts == [] then ""
    else if |parts| == 1 then parts[0]
    else parts[0] + separator + Join(separator, parts[1..])
  }

  /** The presentations that count, each under the letter of its provider. */
  function Selected(items: seq<Item>, shown: seq<Presentation>): seq<(string, Presentation)>
    requires |items| == |shown|
  {
    if items == [] then []
    else
      (if items[0].outcome == NotRun("disabled") then [] else [(if items[0].provider.Codex? then "C" else "O", shown[0])])
      + Selected(items[1..], shown[1..])
  }

  function Compacts(s: seq<(string, Presentation)>): seq<string> {
    if s == [] then [] else [s[0].0 + "=" + s[0].1.compact] + Compacts(s[1..])
  }

  function Alternates(s: seq<(string, Presentation)>): seq<string> {
    if s == [] then [] else [s[0].0 + ": " + s[0].1.alternate] + Alternates(s[1..])
  }

  function Tooltips(s: seq<(string, Presentation)>): seq<string> {
    if s == [] then [] else [s[0].1.tooltip] + Tooltips(s[1..])
  }

  function Combine(items: seq<Item>, shown: seq<Presentation>): General
    requires |items| == |shown|
  {
    var s := Selected(items, shown);
    if s == [] then General("—", "No providers enabled", "No providers enabled")
    else General(Join(" · ", Compacts(s)), Join(" · ", Alternates(s)), Join("\n\n", Tooltips(s)))
  }

  function PresentAll(items: seq<Item>, limit: nat, texts: Texts): (r: seq<Presentation>)
    ensures |r| == |items|
  {
    if items == [] then [] else [Present(items[0], limit, texts)] + PresentAll(items[1..], limit, texts)
  }

  function DocumentAt(base: Base, limit: nat, texts: Texts): Document {
    var shown := PresentAll(base.items, limit, texts);
    Document(base, Combine(base.items, shown), shown)
  }

  // ---------- its bytes ----------

  function OptionJson(o: Option<string>): Json { if o.None? then Null else Str(o.value) }

  function KindName(k: Kind): string {
    match k
    case CommercialQuota => "commercial_quota"
    case TechnicalRateLimit => "technical_rate_limit"
    case OtherKind => "other"
  }

  function QuantityJson(q: Option<Quantity>): Json {
    if q.None? then Null
    else Obj([Member("value", Str(FixedText(q.value.value))), Member("metric", Str(q.value.metric)), Member("unit", Str(q.value.unit))])
  }

  function WindowJson(w: Window): Json {
    Obj([Member("kind", Str(KindName(w.kind))), Member("scope", Str(w.scope)), Member("period", Str(w.period)),
         Member("plan_id", OptionJson(w.planId)), Member("availability", Str(w.availability)),
         Member("source_id", OptionJson(w.sourceId)), Member("limit", QuantityJson(w.limit)),
         Member("used", QuantityJson(w.used)), Member("remaining", QuantityJson(w.remaining)),
         Member("reset_at", OptionJson(w.resetAt))])
  }

  function WindowsJson(windows: seq<Window>): seq<Json> {
    if windows == [] then [] else [WindowJson(windows[0])] + WindowsJson(windows[1..])
  }

  function ResetsJson(r: Option<Resets>): Json {
    if r.None? then Null
    else Obj([Member("available_count", Int(r.value.availableCount)), Member("next_expires_at", OptionJson(r.value.nextExpiresAt))])
  }

  function ErrorJson(e: Option<DocumentError>): Json {
    if e.None? then Null else Obj([Member("code", Str(e.value.code)), Member("phase", Str(e.value.phase))])
  }

  function DepletedJson(d: Option<Depleted>): Json {
    if d.None? then Null
    else
      Obj([Member("kind", Str(KindName(d.value.kind))), Member("scope", Str(d.value.scope)), Member("period", Str(d.value.period)),
           Member("plan_id", OptionJson(d.value.planId)), Member("unit", Str(d.value.unit)),
           Member("source_id", OptionJson(d.value.sourceId)), Member("remaining_percentage", Str(d.value.percentage))])
  }

  function OutcomeName(o: Outcome): string {
    match o
    case Seen(_) => "snapshot"
    case Undetected => "undetected"
    case NotRun(_) => "not_run"
    case Failed(_) => "execution_error"
  }

  function ItemMembers(item: Item): seq<Member> {
    var o := item.outcome;
    [Member("provider", Str(if item.provider.Codex? then "codex" else "opencode_go")),
     Member("outcome", Str(OutcomeName(o))),
     Member("public_state", if o.Seen? then Str(o.snapshot.publicState) else Null),
     Member("freshness", if o.Seen? then Str(o.snapshot.freshness) else Null),
     Member("status_observed_at", if o.Seen? then Str(o.snapshot.statusObservedAt) else Null),
     Member("fetched_at", if o.Seen? then Str(o.snapshot.fetchedAt) else Null),
     Member("data_at", if o.Seen? then Str(o.snapshot.dataAt) else Null),
     Member("source_id", if o.Seen? then OptionJson(o.snapshot.sourceId) else Null),
     Member("windows", Arr(if o.Seen? then WindowsJson(o.snapshot.windows) else [])),
     Member("rate_limit_reset_credits", if o.Seen? then ResetsJson(o.snapshot.resets) else Null),
     Member("execution_error", if o.Failed? then ErrorJson(Some(o.error)) else Null),
     Member("not_run_reason", if o.NotRun? then Str(o.reason) else Null)]
  }

  function PresentedMembers(item: Item, p: Presentation): seq<Member> {
    ItemMembers(item)
    + [Member("most_depleted_window", DepletedJson(p.depleted)), Member("compact_text", Str(p.compact)), Member("alternate_text", Str(p.alternate))]
  }

  function ProviderJson(item: Item, p: Presentation): Json {
    Obj(PresentedMembers(item, p) + [Member("tooltip_text", Str(p.tooltip))])
  }

  function ProvidersJson(items: seq<Item>, shown: seq<Presentation>): seq<Json>
    requires |items| == |shown|
  {
    if items == [] then [] else [ProviderJson(items[0], shown[0])] + ProvidersJson(items[1..], shown[1..])
  }

  function GeneralJson(g: General): Json {
    Obj([Member("compact_text", Str(g.compact)), Member("alternate_text", Str(g.alternate))] + [Member("tooltip_text", Str(g.tooltip))])
  }

  function DocumentJson(d: Document): Json
    requires |d.base.items| == |d.presentations|
  {
    Obj([Member("execution_state", Str(d.base.state)), Member("execution_error", ErrorJson(d.base.error)),
         Member("general", GeneralJson(d.general)), Member("providers", Arr(ProvidersJson(d.base.items, d.presentations)))])
  }

  /** Compact, not escaped to ASCII, with one line feed at the end. */
  function EncodeDocument(d: Document): Bytes
    requires |d.base.items| == |d.presentations|
  {
    Encode(Print(DocumentJson(d), false) + "\n")
  }

  function Size(base: Base, limit: nat, texts: Texts): nat {
    |EncodeDocument(DocumentAt(base, limit, texts))|
  }

  // ---------- the encoded size grows with the limit ----------

  function Weight(t: string): nat { |Encode(t)| }

  lemma WeightConcat(a: string, b: string)
    ensures Weight(a + b) == Weight(a) + Weight(b)
  {
    EncodeConcat(a, b);
  }

  /** The same document except for texts that encode to no more bytes. */
  ghost predicate Lighter(a: Json, b: Json)
    decreases a
  {
    match a
    case Str(s) => b.Str? && Weight(PrintString(s, false)) <= Weight(PrintString(b.s, false))
    case Arr(items) => b.Arr? && |items| == |b.items| && forall i | 0 <= i < |items| :: Lighter(items[i], b.items[i])
    case Obj(members) =>
      b.Obj? && |members| == |b.members| && forall i | 0 <= i < |members| :: LighterMember(members[i], b.members[i])
    case _ => a == b
  }

  ghost predicate LighterMember(m: Member, n: Member)
    decreases m
  {
    m.key == n.key && Lighter(m.value, n.value)
  }

  lemma {:induction false} LighterPrints(a: Json, b: Json)
    requires Lighter(a, b)
    ensures Weight(Print(a, false)) <= Weight(Print(b, false))
    decreases a, 1
  {
    match a
    case Arr(items) =>
      LighterItems(items, b.items);
      WeightBracketed("[", PrintItems(items, false), "]");
      WeightBracketed("[", PrintItems(b.items, false), "]");
    case Obj(members) =>
      LighterMembers(members, b.members);
      WeightBracketed("{", PrintMembers(members, false), "}");
      WeightBracketed("{", PrintMembers(b.members, false), "}");
    case _ =>
  }

  lemma WeightBracketed(a: string, b: string, c: string)
    ensures Weight(a + b + c) == Weight(a) + Weight(b) + Weight(c)
  {
    WeightConcat(a + b, c);
    WeightConcat(a, b);
  }

  lemma {:induction false} LighterItems(a: seq<Json>, b: seq<Json>)
    requires |a| == |b| && forall i | 0 <= i < |a| :: Lighter(a[i], b[i])
    ensures Weight(PrintItems(a, false)) <= Weight(PrintItems(b, false))
    decreases a, 0
  {
    if a != [] {
      LighterPrints(a[0], b[0]);
      LighterItems(a[1..], b[1..]);
      WeightBracketed(Print(a[0], false), ",", PrintItems(a[1..], false));
      WeightBracketed(Print(b[0], false), ",", PrintItems(b[1..], false));
    }
  }

  lemma {:induction false} LighterMembers(a: seq<Member>, b: seq<Member>)
    requires |a| == |b| && forall i | 0 <= i < |a| :: LighterMember(a[i], b[i])
    ensures Weight(PrintMembers(a, false)) <= Weight(PrintMembers(b, false))
    decreases a, 0
  {
    if a != [] {
      LighterOne(a[0], b[0]);
      LighterMembers(a[1..], b[1..]);
      WeightBracketed(PrintMember(a[0], false), ",", PrintMembers(a[1..], false));
      WeightBracketed(PrintMember(b[0], false), ",", PrintMembers(b[1..], false));
    }
  }

  lemma {:induction false} LighterOne(m: Member, n: Member)
    requires LighterMember(m, n)
    ensures Weight(PrintMember(m, false)) <= Weight(PrintMember(n, false))
    decreases m, 0
  {
    LighterPrints(m.value, n.value);
    WeightBracketed(PrintString(m.key, false), ":", Print(m.value, false));
    WeightBracketed(PrintString(n.key, false), ":", Print(n.value, false));
  }

  lemma {:induction false} LighterReflexive(a: Json)
    ensures Lighter(a, a)
    decreases a
  {
    match a
    case Arr(items) =>
      forall i | 0 <= i < |items|
        ensures Lighter(items[i], items[i])
      {
        LighterReflexive(items[i]);
      }
    case Obj(members) =>
      forall i | 0 <= i < |members|
        ensures LighterMember(members[i], members[i])
      {
        LighterReflexive(members[i].value);
      }
    case _ =>
  }

  /** The weight of a text inside a JSON string. */
  function Escaped(t: string): nat { Weight(EscapeAll(t, false)) }

  lemma {:induction false} EscapedConcat(a: string, b: string)
    ensures Escaped(a + b) == Escaped(a) + Escaped(b)
  {
    EscapeAllConcat(a, b);
    WeightConcat(EscapeAll(a, false), EscapeAll(b, false));
  }

  lemma {:induction false} EscapeAllConcat(a: string, b: string)
    ensures EscapeAll(a + b, false) == EscapeAll(a, false) + EscapeAll(b, false)
  {
    if a == "" {
      assert a + b == b;
    } else {
      assert (a + b)[1..] == a[1..] + b;
      EscapeAllConcat(a[1..], b);
    }
  }

  lemma PrefixWeighsLess(a: string, b: string)
    requires a <= b
    ensures Escaped(a) <= Escaped(b)
  {
    assert b == a + b[|a|..];
    EscapedConcat(a, b[|a|..]);
  }

  lemma LighterString(a: string, b: string)
    requires Escaped(a) <= Escaped(b)
    ensures Lighter(Str(a), Str(b))
  {
    WeightBracketed("\"", EscapeAll(a, false), "\"");
    WeightBracketed("\"", EscapeAll(b, false), "\"");
  }

  lemma LighterTail(members: seq<Member>, key: string, a: string, b: string)
    requires Escaped(a) <= Escaped(b)
    ensures Lighter(Obj(members + [Member(key, Str(a))]), Obj(members + [Member(key, Str(b))]))
  {
    LighterString(a, b);
    var x, y := members + [Member(key, Str(a))], members + [Member(key, Str(b))];
    forall i | 0 <= i < |x|
      ensures LighterMember(x[i], y[i])
    {
      if i < |members| {
        LighterReflexive(members[i].value);
      }
    }
  }

  /** Only the tooltip depends on the limit, and it grows. */
  lemma OnlyTooltipGrows(item: Item, low: nat, high: nat, texts: Texts)
    requires low <= high
    ensures var a, b := Present(item, low, texts), Present(item, high, texts);
      a.(tooltip := b.tooltip) == b && a.tooltip <= b.tooltip
  {
    if item.outcome.Seen? {
      var s := item.outcome.snapshot;
      TooltipPrefix(Header(item.provider, s, texts), DetailLines(s, texts), low, high);
    }
  }

  /** Presentations that differ at most in shorter tooltips. */
  ghost predicate Shorter(a: seq<Presentation>, b: seq<Presentation>) {
    |a| == |b| && forall i | 0 <= i < |a| :: a[i].(tooltip := b[i].tooltip) == b[i] && Escaped(a[i].tooltip) <= Escaped(b[i].tooltip)
  }

  lemma {:induction false} PresentationsGrow(items: seq<Item>, low: nat, high: nat, texts: Texts)
    requires low <= high
    ensures Shorter(PresentAll(items, low, texts), PresentAll(items, high, texts))
  {
    if items != [] {
      OnlyTooltipGrows(items[0], low, high, texts);
      PrefixWeighsLess(Present(items[0], low, texts).tooltip, Present(items[0], high, texts).tooltip);
      PresentationsGrow(items[1..], low, high, texts);
    }
  }

  lemma {:induction false} ProvidersGrow(items: seq<Item>, a: seq<Presentation>, b: seq<Presentation>)
    requires |items| == |a| && Shorter(a, b)
    ensures |ProvidersJson(items, a)| == |items| == |ProvidersJson(items, b)|
    ensures forall i | 0 <= i < |items| :: Lighter(ProvidersJson(items, a)[i], ProvidersJson(items, b)[i])
  {
    if items != [] {
      assert PresentedMembers(items[0], a[0]) == PresentedMembers(items[0], b[0]);
      LighterTail(PresentedMembers(items[0], a[0]), "tooltip_text", a[0].tooltip, b[0].tooltip);
      ProvidersGrow(items[1..], a[1..], b[1..]);
    }
  }

  lemma {:induction false} SelectedGrow(items: seq<Item>, a: seq<Presentation>, b: seq<Presentation>)
    requires |items| == |a| && Shorter(a, b)
    ensures var x, y := Selected(items, a), Selected(items, b);
      && |x| == |y| && Compacts(x) == Compacts(y) && Alternates(x) == Alternates(y)
      && |Tooltips(x)| == |Tooltips(y)| && TextsGrow(Tooltips(x), Tooltips(y))
  {
    if items != [] {
      SelectedGrow(items[1..], a[1..], b[1..]);
      SelectedParts(items, a);
      SelectedParts(items, b);
    }
  }

  ghost predicate TextsGrow(a: seq<string>, b: seq<string>)
    requires |a| == |b|
  {
    forall i | 0 <= i < |a| :: Escaped(a[i]) <= Escaped(b[i])
  }

  lemma SelectedParts(items: seq<Item>, a: seq<Presentation>)
    requires |items| == |a| && items != []
    ensures var x, rest := Selected(items, a), Selected(items[1..], a[1..]);
      if items[0].outcome == NotRun("disabled") then x == rest
      else x == [(if items[0].provider.Codex? then "C" else "O", a[0])] + rest && x[1..] == rest
  {
  }

  lemma {:induction false} JoinGrows(separator: string, a: seq<string>, b: seq<string>)
    requires |a| == |b| && TextsGrow(a, b)
    ensures Escaped(Join(separator, a)) <= Escaped(Join(separator, b))
  {
    if |a| > 1 {
      JoinGrows(separator, a[1..], b[1..]);
      EscapedThree(a[0], separator, Join(separator, a[1..]));
      EscapedThree(b[0], separator, Join(separator, b[1..]));
    }
  }

  lemma EscapedThree(a: string, b: string, c: string)
    ensures Escaped(a + b + c) == Escaped(a) + Escaped(b) + Escaped(c)
  {
    EscapedConcat(a + b, c);
    EscapedConcat(a, b);
  }

  lemma GeneralGrows(items: seq<Item>, a: seq<Presentation>, b: seq<Presentation>)
    requires |items| == |a| && Shorter(a, b)
    ensures Lighter(GeneralJson(Combine(items, a)), GeneralJson(Combine(items, b)))
  {
    SelectedGrow(items, a, b);
    var g, h := Combine(items, a), Combine(items, b);
    if Selected(items, a) != [] {
      JoinGrows("\n\n", Tooltips(Selected(items, a)), Tooltips(Selected(items, b)));
    }
    LighterTail([Member("compact_text", Str(g.compact)), Member("alternate_text", Str(g.alternate))], "tooltip_text", g.tooltip, h.tooltip);
  }

  /** The encoded size is monotone in the tooltip limit. */
  lemma SizeIsMonotone(base: Base, low: nat, high: nat, texts: Texts)
    requires low <= high
    ensures Size(base, low, texts) <= Size(base, high, texts)
  {
    var a, b := DocumentAt(base, low, texts), DocumentAt(base, high, texts);
    PresentationsGrow(base.items, low, high, texts);
    GeneralGrows(base.items, a.presentations, b.presentations);
    ProvidersGrow(base.items, a.presentations, b.presentations);
    LighterDocument(a, b);
    LighterPrints(DocumentJson(a), DocumentJson(b));
    WeightConcat(Print(DocumentJson(a), false), "\n");
    WeightConcat(Print(DocumentJson(b), false), "\n");
  }

  lemma LighterDocument(a: Document, b: Document)
    requires |a.base.items| == |a.presentations| == |b.presentations| && a.base == b.base
    requires Lighter(GeneralJson(a.general), GeneralJson(b.general))
    requires Lighter(Arr(ProvidersJson(a.base.items, a.presentations)), Arr(ProvidersJson(b.base.items, b.presentations)))
    ensures Lighter(DocumentJson(a), DocumentJson(b))
  {
    LighterReflexive(Str(a.base.state));
    LighterReflexive(ErrorJson(a.base.error));
  }

  // ---------- the two searches ----------

  /** The greatest limit up to `top` at which the size is within the budget, if there is one. */
  ghost predicate IsBest(size: nat -> nat, budget: nat, top: nat, best: Option<nat>) {
    if best.None? then forall l: nat | l <= top :: size(l) > budget
    else best.value <= top && size(best.value) <= budget && forall l: nat | best.value < l <= top :: size(l) > budget
  }

  ghost predicate Monotone(size: nat -> nat) {
    forall a: nat, b: nat | a <= b :: size(a) <= size(b)
  }

  lemma {:induction false} BestExists(size: nat -> nat, budget: nat, top: nat)
    ensures exists best :: IsBest(size, budget, top, best)
  {
    if size(top) <= budget {
      assert IsBest(size, budget, top, Some(top));
    } else if top == 0 {
      assert IsBest(size, budget, top, None);
    } else {
      BestExists(size, budget, top - 1);
      var best :| IsBest(size, budget, top - 1, best);
      assert IsBest(size, budget, top, best);
    }
  }

  lemma BestIsUnique(size: nat -> nat, budget: nat, top: nat, a: Option<nat>, b: Option<nat>)
    requires IsBest(size, budget, top, a) && IsBest(size, budget, top, b)
    ensures a == b
  {
  }

  /** The halving search finds it whenever the size is monotone. */
  method Search(size: nat -> nat, budget: nat, top: nat) returns (best: Option<nat>)
    requires Monotone(size)
    ensures IsBest(size, budget, top, best)
  {
    var low, high := 0, top;
    best := None;
    while low <= high
      invariant 0 <= low <= high + 1 <= top + 1
      invariant best == if low == 0 then None else Some(low - 1)
      invariant low > 0 ==> size(low - 1) <= budget
      invariant high < top ==> size(high + 1) > budget
      decreases high - low
    {
      var limit := (low + high) / 2;
      if size(limit) <= budget {
        best := Some(limit);
        low := limit + 1;
      } else {
        high := limit - 1;
      }
    }
  }

  function Sizes(base: Base, texts: Texts): nat -> nat {
    limit => Size(base, limit, texts)
  }

  /** The limit a document is presented at. */
  ghost function BestLimit(base: Base, texts: Texts): (best: Option<nat>)
    ensures IsBest(Sizes(base, texts), MAX_DOCUMENT_BYTES, MAX_TOOLTIP_SCALARS, best)
  {
    BestExists(Sizes(base, texts), MAX_DOCUMENT_BYTES, MAX_TOOLTIP_SCALARS);
    var best :| IsBest(Sizes(base, texts), MAX_DOCUMENT_BYTES, MAX_TOOLTIP_SCALARS, best);
    best
  }

  lemma SizesAreMonotone(base: Base, texts: Texts)
    ensures Monotone(Sizes(base, texts))
  {
    forall a: nat, b: nat | a <= b
      ensures Sizes(base, texts)(a) <= Sizes(base, texts)(b)
    {
      SizeIsMonotone(base, a, b, texts);
    }
  }

  method FindLimit(base: Base, texts: Texts) returns (best: Option<nat>)
    ensures best == BestLimit(base, texts)
  {
    SizesAreMonotone(base, texts);
    best := Search(Sizes(base, texts), MAX_DOCUMENT_BYTES, MAX_TOOLTIP_SCALARS);
    BestIsUnique(Sizes(base, texts), MAX_DOCUMENT_BYTES, MAX_TOOLTIP_SCALARS, best, BestLimit(base, texts));
  }

  // ---------- the projector ----------

  /** A snapshot with its windows in order. */
  function ArrangeOne(item: Item): Item {
    match item.outcome
    case Seen(s) => item.(outcome := Seen(s.(windows := SortWindows(s.windows))))
    case _ => item
  }

  function Arrange(items: seq<Item>): (r: seq<Item>)
    ensures |r| == |items| && forall i | 0 <= i < |items| :: r[i] == ArrangeOne(items[i])
  {
    if items == [] then [] else [ArrangeOne(items[0])] + Arrange(items[1..])
  }

  predicate TooManyWindows(items: seq<Item>) {
    exists i :: 0 <= i < |items| && items[i].outcome.Seen? && |items[i].outcome.snapshot.windows| > MAX_QUOTA_WINDOWS
  }

  ghost function Projected(raw: Base, texts: Texts): Option<Document> {
    var base := raw.(items := Arrange(raw.items));
    var best := BestLimit(base, texts);
    if TooManyWindows(raw.items) || best.None? then None else Some(DocumentAt(base, best.value, texts))
  }

  predicate Disabled(item: Item) { item.outcome == NotRun("disabled") }

  /** The general texts of the two providers: one that is disabled is left out, and if both are that is
      said instead. */
  lemma GeneralOfTwo(codex: Item, other: Item, p: Presentation, q: Presentation)
    requires codex.provider.Codex? && other.provider.OpenCodeGo?
    ensures var g := Combine([codex, other], [p, q]);
      if Disabled(codex) && Disabled(other) then g == General("—", "No providers enabled", "No providers enabled")
      else if Disabled(other) then g == General("C=" + p.compact, "C: " + p.alternate, p.tooltip)
      else if Disabled(codex) then g == General("O=" + q.compact, "O: " + q.alternate, q.tooltip)
      else g == General("C=" + p.compact + " · " + ("O=" + q.compact), "C: " + p.alternate + " · " + ("O: " + q.alternate),
                        p.tooltip + "\n\n" + q.tooltip)
  {
    SelectedOfTwo(codex, other, p, q);
    assert Disabled(codex) && !Disabled(other) ==> Selected([codex, other], [p, q]) == [("O", q)];
    TextsOfOne(("C", p));
    TextsOfOne(("O", q));
    TextsOfTwo(("C", p), ("O", q));
  }

  lemma SelectedOfTwo(codex: Item, other: Item, p: Presentation, q: Presentation)
    requires codex.provider.Codex? && other.provider.OpenCodeGo?
    ensures Selected([codex, other], [p, q]) ==
      (if Disabled(codex) then [] else [("C", p)]) + (if Disabled(other) then [] else [("O", q)])
  {
    assert [codex, other][1..] == [other] && [p, q][1..] == [q];
    assert Selected([other], [q]) == (if Disabled(other) then [] else [("O", q)]) + Selected([other][1..], [q][1..]);
  }

  lemma TextsOfOne(x: (string, Presentation))
    ensures Compacts([x]) == [x.0 + "=" + x.1.compact]
    ensures Alternates([x]) == [x.0 + ": " + x.1.alternate]
    ensures Tooltips([x]) == [x.1.tooltip]
  {
    assert [x][1..] == [];
  }

  lemma TextsOfTwo(x: (string, Presentation), y: (string, Presentation))
    ensures Join(" · ", Compacts([x] + [y])) == x.0 + "=" + x.1.compact + " · " + (y.0 + "=" + y.1.compact)
    ensures Join(" · ", Alternates([x] + [y])) == x.0 + ": " + x.1.alternate + " · " + (y.0 + ": " + y.1.alternate)
    ensures Join("\n\n", Tooltips([x] + [y])) == x.1.tooltip + "\n\n" + y.1.tooltip
  {
    TextsOfOne(y);
    assert ([x] + [y])[1..] == [y];
    JoinOfTwo(" · ", x.0 + "=" + x.1.compact, y.0 + "=" + y.1.compact);
    JoinOfTwo(" · ", x.0 + ": " + x.1.alternate, y.0 + ": " + y.1.alternate);
    JoinOfTwo("\n\n", x.1.tooltip, y.1.tooltip);
  }

  lemma JoinOfTwo(separator: string, a: string, b: string)
    ensures Join(separator, [a] + [b]) == a + separator + b
  {
    assert ([a] + [b])[1..] == [b];
  }

  /** What is shown of a provider without a snapshot: no window, a dash, and a text that tells a missing
      provider, a timeout, another failure and a provider that did not run apart. */
  lemma WithoutSnapshot(item: Item, limit: nat, texts: Texts)
    requires !item.outcome.Seen?
    ensures var p := Present(item, limit, texts);
      && p.depleted.None? && p.compact == "—"
      && p.alternate == (match item.outcome
        case Undetected => "Provider not detected"
        case Failed(e) => if e.code == "provider_timeout" then "Quota unavailable · timeout" else "Quota unavailable · request failed"
        case _ => "Quota unavailable")
      && ProviderName(item.provider) + "\n" + p.alternate <= p.tooltip
  {
    match item.outcome
    case Undetected => OtherIsShown(item.provider, "Provider not detected", "");
    case NotRun(reason) => OtherIsShown(item.provider, "Quota unavailable", NotRunText(reason));
    case Failed(e) =>
      assert "Quota unavailable" + " · timeout" == "Quota unavailable · timeout";
      assert "Quota unavailable" + " · request failed" == "Quota unavailable · request failed";
      OtherIsShown(item.provider, Present(item, limit, texts).alternate, e.code);
  }

  lemma OtherIsShown(p: Provider, text: string, detail: string)
    ensures ProviderName(p) + "\n" + text <= PresentOther(p, text, detail).tooltip
    ensures detail != "" ==> PresentOther(p, text, detail).tooltip == ProviderName(p) + "\n" + text + ": " + detail
  {
    var start := ProviderName(p) + "\n" + text;
    var rest := if detail == "" then "" else ": " + detail;
    assert PresentOther(p, text, detail).tooltip == start + rest;
  }

  /** In the projected document the presentation of every snapshot shows its most depleted window. */
  lemma ProjectionShowsMostDepleted(raw: Base, texts: Texts, i: nat)
    requires Projected(raw, texts).Some? && i < |raw.items| && raw.items[i].outcome.Seen?
    ensures |Projected(raw, texts).value.presentations| == |raw.items|
    ensures var s := raw.items[i].outcome.snapshot;
      ShowsMostDepleted(s, Projected(raw, texts).value.presentations[i], texts)
  {
    var items := Arrange(raw.items);
    var limit := BestLimit(raw.(items := items), texts).value;
    PresentedAt(items, limit, texts, i);
    ArrangedShowsMostDepleted(raw.items[i], limit, texts);
  }

  lemma ArrangedShowsMostDepleted(item: Item, limit: nat, texts: Texts)
    requires item.outcome.Seen?
    ensures ShowsMostDepleted(item.outcome.snapshot, Present(ArrangeOne(item), limit, texts), texts)
  {
    var s := item.outcome.snapshot;
    var p := Present(ArrangeOne(item), limit, texts);
    PresentationShowsMostDepleted(ArrangeOne(item), limit, texts);
    SortedMembers(s.windows);
    ShowsOfSame(s, ArrangeOne(item).outcome.snapshot, p, texts);
  }

  /** The order of the windows does not matter to what is shown. */
  lemma ShowsOfSame(s: Snapshot, sorted: Snapshot, p: Presentation, texts: Texts)
    requires ShowsMostDepleted(sorted, p, texts)
    requires sorted.publicState == s.publicState && sorted.freshness == s.freshness
    requires forall w :: w in sorted.windows <==> w in s.windows
    ensures ShowsMostDepleted(s, p, texts)
  {
    if p.depleted.Some? {
      var w :| MostDepleted(w, sorted.windows) && Describes(p.depleted.value, w);
      MostDepletedOfSame(w, sorted.windows, s.windows);
    }
  }

  lemma {:induction false} PresentedAt(items: seq<Item>, limit: nat, texts: Texts, i: nat)
    requires i < |items|
    ensures PresentAll(items, limit, texts)[i] == Present(items[i], limit, texts)
  {
    if i > 0 {
      PresentedAt(items[1..], limit, texts, i - 1);
    }
  }

  /** The encoded document, or nothing where the fixed failure envelope takes its place.  The full
      limit is tried first. */
  method ProjectBytes(raw: Base, texts: Texts) returns (encoded: Option<Bytes>)
    ensures Projected(raw, texts).None? ==> encoded.None?
    ensures Projected(raw, texts).Some? ==>
      encoded == Some(EncodeDocument(Projected(raw, texts).value)) && |encoded.value| <= MAX_DOCUMENT_BYTES
  {
    if TooManyWindows(raw.items) {
      return None;
    }
    var base := raw.(items := Arrange(raw.items));
    var full := EncodeDocument(DocumentAt(base, MAX_TOOLTIP_SCALARS, texts));
    if |full| <= MAX_DOCUMENT_BYTES {
      BestIsUnique(Sizes(base, texts), MAX_DOCUMENT_BYTES, MAX_TOOLTIP_SCALARS, Some(MAX_TOOLTIP_SCALARS), BestLimit(base, texts));
      return Some(full);
    }
    var best := FindLimit(base, texts);
    encoded := if best.None? then None else Some(EncodeDocument(DocumentAt(base, best.value, texts)));
  }

  // ---------- the cache ----------

  predicate WindowsInOrder(items: seq<Item>) {
    forall i | 0 <= i < |items| :: ArrangeOne(items[i]) == items[i]
  }

  /** What the cache requires of the presentation of a document. */
  ghost predicate CacheAccepts(root: Document, texts: Texts) {
    && !TooManyWindows(root.base.items) && WindowsInOrder(root.base.items)
    && BestLimit(root.base, texts).Some?
    && root == DocumentAt(root.base, BestLimit(root.base, texts).value, texts)
  }

  /** Order and number of the windows, then the search again and a comparison of the general block
      and of every provider's presentation. */
  method PresentationMatches(root: Document, texts: Texts) returns (ok: bool)
    ensures ok <==> CacheAccepts(root, texts)
  {
    if TooManyWindows(root.base.items) || !WindowsInOrder(root.base.items) {
      return false;
    }
    var best := FindLimit(root.base, texts);
    if best.None? {
      return false;
    }
    var expected := PresentAll(root.base.items, best.value, texts);
    if root.general != Combine(root.base.items, expected) {
      return false;
    }
    ok := root.presentations == expected;
  }

  lemma ArrangingTwice(item: Item)
    ensures ArrangeOne(ArrangeOne(item)) == ArrangeOne(item)
  {
    if item.outcome.Seen? {
      SortingOrders(item.outcome.snapshot.windows);
      SortingOrdered(SortWindows(item.outcome.snapshot.windows));
    }
  }

  lemma ArrangedInOrder(items: seq<Item>)
    ensures WindowsInOrder(Arrange(items))
    ensures TooManyWindows(Arrange(items)) <==> TooManyWindows(items)
  {
    var r := Arrange(items);
    forall i | 0 <= i < |r|
      ensures ArrangeOne(r[i]) == r[i]
    {
      ArrangingTwice(items[i]);
    }
    assert forall i | 0 <= i < |r| :: r[i] == ArrangeOne(items[i]);
  }

  lemma OrderedAreArranged(items: seq<Item>)
    requires WindowsInOrder(items)
    ensures Arrange(items) == items
  {
  }

  /** Budget search agreement: what the projector emits is what the cache's own search recomputes,
      field by field, and the cache accepts nothing else. */
  lemma CacheAgreesWithProjection(raw: Base, root: Document, texts: Texts)
    ensures Projected(raw, texts) == Some(root) ==> CacheAccepts(root, texts)
    ensures CacheAccepts(root, texts) <==> Projected(root.base, texts) == Some(root) && WindowsInOrder(root.base.items)
  {
    ArrangedInOrder(raw.items);
    if WindowsInOrder(root.base.items) {
      OrderedAreArranged(root.base.items);
    }
  }
}
