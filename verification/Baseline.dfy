/** The personal baseline: which matches of a history are selected, which are excluded and why,
    and what may change without changing the selection
    (crates/openfrag-domain/src/baseline.rs). */
module Baseline {
  import opened Prelude
  import opened Ordering
  import opened Exact
  import opened Statistics
  import Rating

  const BASELINE_MINIMUM_MATCHES: nat := 10
  const BASELINE_WINDOW_MATCHES: nat := 20

  datatype MatchInterval = MatchInterval(start: u64, end: u64)

  datatype Side = Terrorist | CounterTerrorist

  datatype MatchTrendExclusion = TrendUnavailable | TrendPreview | TrendRosterImbalanced | TrendEvidenceRule

  datatype MapContext = Known(name: string) | Unknown

  type BasisPoints = n: nat | n <= 20_000

  datatype HistoryMatch = HistoryMatch(
    matchId: string, demoHash: string, calculationRunId: string, series: string, canonical: bool,
    mapContext: MapContext, interval: Option<MatchInterval>, rating: Option<BasisPoints>,
    components: Option<Rating.ComponentVector>, sideVectors: map<Side, Rating.ComponentVector>,
    trendExclusion: Option<MatchTrendExclusion>)

  datatype BaselineField = RatingField | ComponentField(kind: Rating.ComponentKind)

  datatype BaselineScope = AllMaps | OneMap(name: string)

  datatype BaselineQuery = BaselineQuery(series: string, cutoff: u64, field: BaselineField, scope: BaselineScope)

  datatype CohortExclusionReason =
    | CalculationSeriesMismatch
    | NonCanonicalRun
    | MatchRule(rule: MatchTrendExclusion)
    | MissingChronology
    | ReversedChronology
    | CurrentOrFutureMatch
    | ScopeMismatch
    | DuplicateDemo
    | OutsideRecentWindow
    | MissingSideVector
    | MissingCanonicalValue
    | UnknownMap
    | OverlappingChronology

  datatype CohortExclusion = CohortExclusion(matchId: string, reason: CohortExclusionReason)

  datatype BaselineMaturity = NotReady(selected: nat, required: nat) | Limited(selected: nat) | Recent(selected: nat)

  datatype BaselineReceipt = BaselineReceipt(
    query: BaselineQuery, includedMatchIds: seq<string>, includedDemoHashes: seq<string>,
    includedRunIds: seq<string>, selectedValues: seq<Rational>, exclusions: seq<CohortExclusion>,
    maturity: BaselineMaturity, stats: Option<RobustStats>)

  datatype BaselineError = Stats(error: StatsError) | SideRatingForbidden | MapSideScopeForbidden

  /** A match that passed the cohort rules, with the value it contributes. */
  datatype Selected = Selected(item: HistoryMatch, value: Rational)

  /** What the cohort rules say of one match. */
  datatype Verdict = Rejected(reason: CohortExclusionReason) | Admitted(value: Rational)

  function CohortReason(item: HistoryMatch, query: BaselineQuery): Option<CohortExclusionReason> {
    if item.series != query.series then Some(CalculationSeriesMismatch)
    else if !item.canonical then Some(NonCanonicalRun)
    else if item.trendExclusion.Some? then Some(MatchRule(item.trendExclusion.value))
    else if item.interval.None? then Some(MissingChronology)
    else if item.interval.value.start > item.interval.value.end then Some(ReversedChronology)
    else if item.interval.value.end > query.cutoff then Some(CurrentOrFutureMatch)
    else if query.scope.OneMap? then
      match item.mapContext
      case Known(name) => if name == query.scope.name then None else Some(ScopeMismatch)
      case Unknown => Some(UnknownMap)
    else None
  }

  function MatchValue(item: HistoryMatch, field: BaselineField): Option<Rational> {
    match field
    case RatingField => if item.rating.Some? then Some(FromInteger(item.rating.value)) else None
    case ComponentField(kind) => if item.components.Some? then Some(item.components.value.Get(kind)) else None
  }

  /** One pass of the loop in `build_lens`, for a query that is not a side rating. */
  function Judge(item: HistoryMatch, query: BaselineQuery, side: Option<Side>): (v: Verdict)
    requires side.Some? ==> query.field.ComponentField?
    ensures v.Admitted? ==> item.interval.Some?
  {
    var reason := CohortReason(item, query);
    if reason.Some? then Rejected(reason.value)
    else if side.Some? then
      if side.value in item.sideVectors then Admitted(item.sideVectors[side.value].Get(query.field.kind))
      else Rejected(MissingSideVector)
    else
      match MatchValue(item, query.field)
      case Some(value) => Admitted(value)
      case None => Rejected(MissingCanonicalValue)
  }

  function Admissions(history: seq<HistoryMatch>, judge: HistoryMatch -> Verdict): seq<Selected> {
    if history == [] then []
    else
      match judge(history[0])
      case Admitted(value) => [Selected(history[0], value)] + Admissions(history[1..], judge)
      case Rejected(_) => Admissions(history[1..], judge)
  }

  lemma {:induction false} AdmissionsAre(history: seq<HistoryMatch>, judge: HistoryMatch -> Verdict)
    ensures forall s :: s in Admissions(history, judge) <==> s.item in history && judge(s.item) == Admitted(s.value)
  {
    if history != [] {
      AdmissionsAre(history[1..], judge);
    }
  }

  function Rejections(history: seq<HistoryMatch>, judge: HistoryMatch -> Verdict): seq<CohortExclusion> {
    if history == [] then []
    else
      match judge(history[0])
      case Admitted(_) => Rejections(history[1..], judge)
      case Rejected(reason) => [CohortExclusion(history[0].matchId, reason)] + Rejections(history[1..], judge)
  }

  // ----- Selection: latest first, one match per demo, at most twenty

  function EndOf(item: HistoryMatch): u64 {
    if item.interval.Some? then item.interval.value.end else 0
  }

  /** `a` sorts before or with `b`: descending by end time and then by demo hash. */
  predicate LaterLe(a: Selected, b: Selected) {
    if EndOf(a.item) != EndOf(b.item) then EndOf(b.item) < EndOf(a.item)
    else StrLe(b.item.demoHash, a.item.demoHash)
  }

  lemma LaterOrder()
    ensures Preorder(LaterLe)
  {
    var byHash := (a: Selected, b: Selected) => StrLe(a.item.demoHash, b.item.demoHash);
    var endDown: Selected -> int := (s: Selected) => 0 - EndOf(s.item);
    var byHashDown := (a: Selected, b: Selected) => byHash(b, a);
    TextOrder((s: Selected) => s.item.demoHash, byHash);
    assert Preorder(byHashDown) by {
      assert forall a, b :: byHash(b, a) || byHash(a, b);
    }
    NumberThen(endDown, byHashDown, LaterLe);
  }

  /** `retain` with the `seen` set: the first match of every demo. */
  function FirstPerDemo(cs: seq<Selected>, seen: set<string>): (r: seq<Selected>)
    ensures |r| <= |cs|
  {
    if cs == [] then []
    else if cs[0].item.demoHash in seen then FirstPerDemo(cs[1..], seen)
    else [cs[0]] + FirstPerDemo(cs[1..], seen + {cs[0].item.demoHash})
  }

  function Repeats(cs: seq<Selected>, seen: set<string>): seq<CohortExclusion> {
    if cs == [] then []
    else if cs[0].item.demoHash in seen then
      [CohortExclusion(cs[0].item.matchId, DuplicateDemo)] + Repeats(cs[1..], seen)
    else Repeats(cs[1..], seen + {cs[0].item.demoHash})
  }

  function Demos(cs: seq<Selected>): seq<Selected> {
    FirstPerDemo(StableSort(cs, LaterLe), {})
  }

  function Window(cs: seq<Selected>): (r: seq<Selected>)
    ensures |r| <= BASELINE_WINDOW_MATCHES
  {
    if |cs| > BASELINE_WINDOW_MATCHES then cs[..BASELINE_WINDOW_MATCHES] else cs
  }

  function BeyondWindow(cs: seq<Selected>): seq<CohortExclusion> {
    if |cs| > BASELINE_WINDOW_MATCHES then Outside(cs[BASELINE_WINDOW_MATCHES..]) else []
  }

  function Outside(cs: seq<Selected>): (r: seq<CohortExclusion>)
    ensures |r| == |cs|
  {
    if cs == [] then [] else [CohortExclusion(cs[0].item.matchId, OutsideRecentWindow)] + Outside(cs[1..])
  }

  function MaturityOf(selected: nat): BaselineMaturity {
    if selected < BASELINE_MINIMUM_MATCHES then NotReady(selected, BASELINE_MINIMUM_MATCHES)
    else if selected < BASELINE_WINDOW_MATCHES then Limited(selected)
    else Recent(selected)
  }

  function Values(cs: seq<Selected>): (r: seq<Rational>)
    ensures |r| == |cs| && forall i :: 0 <= i < |cs| ==> r[i] == cs[i].value
  {
    seq(|cs|, i requires 0 <= i < |cs| => cs[i].value)
  }

  function StatsOf(cs: seq<Selected>, field: BaselineField): Result<Option<RobustStats>, BaselineError> {
    if |cs| < BASELINE_MINIMUM_MATCHES then Ok(None)
    else
      match RobustStatsOf(Values(cs), ZERO, if field.RatingField? then FromInteger(20_000) else ONE)
      case Ok(stats) => Ok(Some(stats))
      case Err(e) => Err(Stats(e))
  }

  /** The selection and the exclusions that `finalize_baseline` adds to it. */
  function Selection(cs: seq<Selected>): seq<Selected> {
    Window(Demos(cs))
  }

  function LateExclusions(cs: seq<Selected>): seq<CohortExclusion> {
    Repeats(StableSort(cs, LaterLe), {}) + BeyondWindow(Demos(cs))
  }

  function MatchIds(cs: seq<Selected>): (r: seq<string>)
    ensures |r| == |cs| && forall i :: 0 <= i < |cs| ==> r[i] == cs[i].item.matchId
  {
    seq(|cs|, i requires 0 <= i < |cs| => cs[i].item.matchId)
  }

  function ReceiptOf(query: BaselineQuery, chosen: seq<Selected>, exclusions: seq<CohortExclusion>,
                     stats: Option<RobustStats>): BaselineReceipt {
    BaselineReceipt(
      query,
      MatchIds(chosen),
      seq(|chosen|, i requires 0 <= i < |chosen| => chosen[i].item.demoHash),
      seq(|chosen|, i requires 0 <= i < |chosen| => chosen[i].item.calculationRunId),
      Values(chosen), exclusions, MaturityOf(|chosen|), stats)
  }

  function JudgeWith(query: BaselineQuery, side: Option<Side>): HistoryMatch -> Verdict
    requires side.Some? ==> query.field.ComponentField?
  {
    (item: HistoryMatch) => Judge(item, query, side)
  }

  /** The whole of `build_lens`. */
  function Lens(history: seq<HistoryMatch>, query: BaselineQuery, side: Option<Side>): Result<BaselineReceipt, BaselineError> {
    if side.Some? && query.field.RatingField? then Err(SideRatingForbidden)
    else
      var judge := JudgeWith(query, side);
      var cs := Admissions(history, judge);
      var chosen := Selection(cs);
      var stats :- StatsOf(chosen, query.field);
      Ok(ReceiptOf(query, chosen, Rejections(history, judge) + LateExclusions(cs), stats))
  }

  // ----- The program's loops

  method BuildLens(history: seq<HistoryMatch>, query: BaselineQuery, side: Option<Side>)
    returns (r: Result<BaselineReceipt, BaselineError>)
    ensures r == Lens(history, query, side)
  {
    if side.Some? && query.field.RatingField? {
      return Err(SideRatingForbidden);
    }
    var candidates, exclusions := Admit(history, JudgeWith(query, side));
    r := FinalizeBaseline(candidates, exclusions, query);
  }

  /** The loop over the history, for any rule that judges one match. */
  method Admit(history: seq<HistoryMatch>, judge: HistoryMatch -> Verdict)
    returns (candidates: seq<Selected>, exclusions: seq<CohortExclusion>)
    ensures candidates == Admissions(history, judge)
    ensures exclusions == Rejections(history, judge)
  {
    candidates, exclusions := [], [];
    var i := 0;
    while i < |history|
      invariant 0 <= i <= |history|
      invariant candidates == Admissions(history[..i], judge)
      invariant exclusions == Rejections(history[..i], judge)
    {
      var item := history[i];
      JudgeNext(history[..i], item, judge);
      assert history[..i + 1] == history[..i] + [item];
      match judge(item) {
        case Rejected(reason) =>
          exclusions := exclusions + [CohortExclusion(item.matchId, reason)];
        case Admitted(value) =>
          candidates := candidates + [Selected(item, value)];
      }
      i := i + 1;
    }
    assert history[..|history|] == history;
  }

  lemma {:induction false} JudgeNext(before: seq<HistoryMatch>, item: HistoryMatch, judge: HistoryMatch -> Verdict)
    ensures Admissions(before + [item], judge) ==
            Admissions(before, judge) + (if judge(item).Admitted? then [Selected(item, judge(item).value)] else [])
    ensures Rejections(before + [item], judge) ==
            Rejections(before, judge) + (if judge(item).Rejected? then [CohortExclusion(item.matchId, judge(item).reason)] else [])
  {
    AdmissionsConcat(before, [item], judge);
    RejectionsConcat(before, [item], judge);
    assert [item][1..] == [];
  }

  lemma {:induction false} AdmissionsConcat(a: seq<HistoryMatch>, b: seq<HistoryMatch>, judge: HistoryMatch -> Verdict)
    ensures Admissions(a + b, judge) == Admissions(a, judge) + Admissions(b, judge)
  {
    if a == [] {
      assert a + b == b;
    } else {
      assert (a + b)[1..] == a[1..] + b;
      AdmissionsConcat(a[1..], b, judge);
    }
  }

  lemma {:induction false} RejectionsConcat(a: seq<HistoryMatch>, b: seq<HistoryMatch>, judge: HistoryMatch -> Verdict)
    ensures Rejections(a + b, judge) == Rejections(a, judge) + Rejections(b, judge)
  {
    if a == [] {
      assert a + b == b;
    } else {
      assert (a + b)[1..] == a[1..] + b;
      RejectionsConcat(a[1..], b, judge);
    }
  }

  method FinalizeBaseline(candidates: seq<Selected>, rejected: seq<CohortExclusion>, query: BaselineQuery)
    returns (r: Result<BaselineReceipt, BaselineError>)
    ensures var chosen := Selection(candidates); var stats := StatsOf(chosen, query.field);
      r == if stats.Err? then Err(stats.error)
           else Ok(ReceiptOf(query, chosen, rejected + LateExclusions(candidates), stats.value))
  {
    hide StatsOf;
    hide ReceiptOf;
    hide StableSort;
    var kept, repeats := RetainFirst(StableSort(candidates, LaterLe));
    var chosen, outside := DrainWindow(kept);
    var stats := StatsOf(chosen, query.field);
    if stats.Err? {
      return Err(stats.error);
    }
    return Ok(ReceiptOf(query, chosen, rejected + (repeats + outside), stats.value));
  }

  method RetainFirst(sorted: seq<Selected>) returns (kept: seq<Selected>, exclusions: seq<CohortExclusion>)
    ensures kept == FirstPerDemo(sorted, {}) && exclusions == Repeats(sorted, {})
  {
    var seen: set<string> := {};
    kept, exclusions := [], [];
    var i := 0;
    while i < |sorted|
      invariant 0 <= i <= |sorted|
      invariant FirstPerDemo(sorted, {}) == kept + FirstPerDemo(sorted[i..], seen)
      invariant Repeats(sorted, {}) == exclusions + Repeats(sorted[i..], seen)
    {
      var item := sorted[i].item;
      assert sorted[i..][0] == sorted[i] && sorted[i..][1..] == sorted[i + 1..];
      if item.demoHash in seen {
        exclusions := exclusions + [CohortExclusion(item.matchId, DuplicateDemo)];
      } else {
        seen := seen + {item.demoHash};
        kept := kept + [sorted[i]];
      }
      i := i + 1;
    }
  }

  method DrainWindow(cs: seq<Selected>) returns (kept: seq<Selected>, exclusions: seq<CohortExclusion>)
    ensures kept == Window(cs) && exclusions == BeyondWindow(cs)
  {
    kept, exclusions := cs, [];
    if |cs| > BASELINE_WINDOW_MATCHES {
      var drained := cs[BASELINE_WINDOW_MATCHES..];
      var j := 0;
      while j < |drained|
        invariant 0 <= j <= |drained|
        invariant Outside(drained) == exclusions + Outside(drained[j..])
      {
        assert drained[j..][0] == drained[j] && drained[j..][1..] == drained[j + 1..];
        exclusions := exclusions + [CohortExclusion(drained[j].item.matchId, OutsideRecentWindow)];
        j := j + 1;
      }
      kept := cs[..BASELINE_WINDOW_MATCHES];
    }
  }

  // ----- Conservation: every match is included or excluded, exactly once

  function SelectedIds(cs: seq<Selected>): multiset<string> {
    if cs == [] then multiset{} else multiset{cs[0].item.matchId} + SelectedIds(cs[1..])
  }

  function ExcludedIds(es: seq<CohortExclusion>): multiset<string> {
    if es == [] then multiset{} else multiset{es[0].matchId} + ExcludedIds(es[1..])
  }

  function HistoryIds(history: seq<HistoryMatch>): multiset<string> {
    if history == [] then multiset{} else multiset{history[0].matchId} + HistoryIds(history[1..])
  }

  lemma {:induction false} ExcludedConcat(a: seq<CohortExclusion>, b: seq<CohortExclusion>)
    ensures ExcludedIds(a + b) == ExcludedIds(a) + ExcludedIds(b)
  {
    if a == [] {
      assert a + b == b;
    } else {
      assert (a + b)[1..] == a[1..] + b;
      ExcludedConcat(a[1..], b);
    }
  }

  lemma {:induction false} SelectedConcat(a: seq<Selected>, b: seq<Selected>)
    ensures SelectedIds(a + b) == SelectedIds(a) + SelectedIds(b)
  {
    if a == [] {
      assert a + b == b;
    } else {
      assert (a + b)[1..] == a[1..] + b;
      SelectedConcat(a[1..], b);
    }
  }

  lemma {:induction false} SelectedIdsAre(cs: seq<Selected>)
    ensures multiset(MatchIds(cs)) == SelectedIds(cs)
  {
    if cs != [] {
      SelectedIdsAre(cs[1..]);
      assert MatchIds(cs) == [cs[0].item.matchId] + MatchIds(cs[1..]);
    }
  }

  lemma {:induction false} JudgedIds(history: seq<HistoryMatch>, judge: HistoryMatch -> Verdict)
    ensures HistoryIds(history) == SelectedIds(Admissions(history, judge)) + ExcludedIds(Rejections(history, judge))
  {
    if history != [] {
      JudgedIds(history[1..], judge);
      if judge(history[0]).Admitted? {
        assert Admissions(history, judge)[1..] == Admissions(history[1..], judge);
      } else {
        assert Rejections(history, judge)[1..] == Rejections(history[1..], judge);
      }
    }
  }

  lemma {:induction false} InsertIds(x: Selected, cs: seq<Selected>, le: (Selected, Selected) -> bool)
    ensures SelectedIds(Insert(x, cs, le)) == multiset{x.item.matchId} + SelectedIds(cs)
  {
    if cs == [] {
      assert [x][1..] == [];
    } else if le(x, cs[0]) {
      assert ([x] + cs)[1..] == cs;
    } else {
      InsertIds(x, cs[1..], le);
      assert ([cs[0]] + Insert(x, cs[1..], le))[1..] == Insert(x, cs[1..], le);
    }
  }

  lemma {:induction false} SortIds(cs: seq<Selected>, le: (Selected, Selected) -> bool)
    ensures SelectedIds(StableSort(cs, le)) == SelectedIds(cs)
  {
    if cs != [] {
      SortIds(cs[1..], le);
      InsertIds(cs[0], StableSort(cs[1..], le), le);
    }
  }

  lemma {:induction false} DedupIds(cs: seq<Selected>, seen: set<string>)
    ensures SelectedIds(cs) == SelectedIds(FirstPerDemo(cs, seen)) + ExcludedIds(Repeats(cs, seen))
  {
    if cs != [] {
      if cs[0].item.demoHash in seen {
        DedupIds(cs[1..], seen);
        assert Repeats(cs, seen)[1..] == Repeats(cs[1..], seen);
      } else {
        var seen' := seen + {cs[0].item.demoHash};
        DedupIds(cs[1..], seen');
        assert FirstPerDemo(cs, seen)[1..] == FirstPerDemo(cs[1..], seen');
      }
    }
  }

  lemma {:induction false} OutsideIds(cs: seq<Selected>)
    ensures ExcludedIds(Outside(cs)) == SelectedIds(cs)
  {
    if cs != [] {
      OutsideIds(cs[1..]);
      assert Outside(cs)[1..] == Outside(cs[1..]);
    }
  }

  lemma {:induction false} WindowIds(cs: seq<Selected>)
    ensures SelectedIds(cs) == SelectedIds(Window(cs)) + ExcludedIds(BeyondWindow(cs))
  {
    if |cs| > BASELINE_WINDOW_MATCHES {
      var n := BASELINE_WINDOW_MATCHES;
      assert cs == cs[..n] + cs[n..];
      SelectedConcat(cs[..n], cs[n..]);
      OutsideIds(cs[n..]);
    }
  }

  /** Every history item appears exactly once, as an included match or as an exclusion. */
  lemma {:induction false} BaselineConserves(history: seq<HistoryMatch>, query: BaselineQuery, side: Option<Side>)
    requires Lens(history, query, side).Ok?
    ensures var r := Lens(history, query, side).value;
      HistoryIds(history) == multiset(r.includedMatchIds) + ExcludedIds(r.exclusions)
  {
    hide StatsOf;
    hide StableSort;
    hide FirstPerDemo;
    hide Repeats;
    hide Admissions;
    hide Rejections;
    hide HistoryIds;
    hide ExcludedIds;
    hide SelectedIds;
    hide Judge;
    hide LaterLe;
    var judge := JudgeWith(query, side);
    var cs := Admissions(history, judge);
    JudgedIds(history, judge);
    SortIds(cs, LaterLe);
    DedupIds(StableSort(cs, LaterLe), {});
    WindowIds(Demos(cs));
    SelectedIdsAre(Selection(cs));
    ExcludedConcat(Rejections(history, judge), LateExclusions(cs));
    ExcludedConcat(Repeats(StableSort(cs, LaterLe), {}), BeyondWindow(Demos(cs)));
  }

  // ----- Dominance: the selection is the latest of what is eligible

  ghost predicate DistinctDemos(cs: seq<Selected>) {
    forall i, j :: 0 <= i < j < |cs| ==> cs[i].item.demoHash != cs[j].item.demoHash
  }

  lemma {:induction false} FirstPerDemoMembers(cs: seq<Selected>, seen: set<string>)
    ensures forall c :: c in FirstPerDemo(cs, seen) ==> c in cs && c.item.demoHash !in seen
    ensures DistinctDemos(FirstPerDemo(cs, seen))
  {
    if cs != [] {
      FirstPerDemoMembers(cs[1..], seen);
      FirstPerDemoMembers(cs[1..], seen + {cs[0].item.demoHash});
    }
  }

  lemma {:induction false} FirstPerDemoSorted(cs: seq<Selected>, seen: set<string>, le: (Selected, Selected) -> bool)
    requires Sorted(cs, le)
    ensures Sorted(FirstPerDemo(cs, seen), le)
  {
    if cs != [] {
      FirstPerDemoSorted(cs[1..], seen, le);
      var rest := FirstPerDemo(cs[1..], seen + {cs[0].item.demoHash});
      FirstPerDemoSorted(cs[1..], seen + {cs[0].item.demoHash}, le);
      FirstPerDemoMembers(cs[1..], seen + {cs[0].item.demoHash});
      forall j | 0 <= j < |rest|
        ensures le(cs[0], rest[j])
      {
        assert rest[j] in rest;
        var k :| 0 <= k < |cs[1..]| && cs[1..][k] == rest[j];
        assert cs[k + 1] == rest[j];
      }
      PrependSorted(cs[0], rest, le);
    }
  }

  /** Each match is represented by the first copy of its demo, which is at least as late. */
  lemma {:induction false} Representative(cs: seq<Selected>, seen: set<string>, le: (Selected, Selected) -> bool, i: nat)
    returns (k: nat)
    requires Total(le) && Sorted(cs, le) && i < |cs| && cs[i].item.demoHash !in seen
    ensures k < |FirstPerDemo(cs, seen)|
    ensures FirstPerDemo(cs, seen)[k].item.demoHash == cs[i].item.demoHash
    ensures le(FirstPerDemo(cs, seen)[k], cs[i])
    decreases |cs|
  {
    assert le(cs[0], cs[0]);
    if cs[0].item.demoHash in seen {
      k := Representative(cs[1..], seen, le, i - 1);
    } else if cs[i].item.demoHash == cs[0].item.demoHash {
      k := 0;
    } else {
      k := Representative(cs[1..], seen + {cs[0].item.demoHash}, le, i - 1);
      k := k + 1;
    }
  }

  ghost predicate Represented(chosen: seq<Selected>, c: Selected) {
    exists k :: 0 <= k < |chosen| && chosen[k].item.demoHash == c.item.demoHash && LaterLe(chosen[k], c)
  }

  /** The selection is at most twenty distinct demos in descending order, and every admitted match
      is represented by a copy of its demo that is at least as late, or is no later than any of
      twenty selected matches. */
  lemma SelectionIsLatest(cs: seq<Selected>)
    ensures var chosen := Selection(cs);
      && |chosen| <= BASELINE_WINDOW_MATCHES
      && Sorted(chosen, LaterLe) && DistinctDemos(chosen)
      && (forall s :: s in chosen ==> s in cs)
      && (forall c :: c in cs ==>
            || Represented(chosen, c)
            || (|chosen| == BASELINE_WINDOW_MATCHES && forall k :: 0 <= k < |chosen| ==> LaterLe(chosen[k], c)))
  {
    var sorted := StableSort(cs, LaterLe);
    LaterOrder();
    SortSorts(cs, LaterLe);
    SameElements(sorted, cs);
    FirstPerDemoSorted(sorted, {}, LaterLe);
    FirstPerDemoMembers(sorted, {});
    hide LaterLe;
    hide StableSort;
    hide FirstPerDemo;
    forall c | c in cs
      ensures
        || Represented(Selection(cs), c)
        || (|Selection(cs)| == BASELINE_WINDOW_MATCHES && forall k :: 0 <= k < |Selection(cs)| ==> LaterLe(Selection(cs)[k], c))
    {
      var i :| 0 <= i < |sorted| && sorted[i] == c;
      var k := Representative(sorted, {}, LaterLe, i);
      WindowDominates(Demos(cs), c, k);
    }
    WindowPrefix(Demos(cs));
  }

  lemma WindowPrefix(demos: seq<Selected>)
    requires DistinctDemos(demos) && Sorted(demos, LaterLe)
    ensures DistinctDemos(Window(demos)) && Sorted(Window(demos), LaterLe)
    ensures forall s :: s in Window(demos) ==> s in demos
  {
    hide LaterLe;
  }

  lemma WindowDominates(demos: seq<Selected>, c: Selected, k: nat)
    requires Preorder(LaterLe) && Sorted(demos, LaterLe)
    requires k < |demos| && demos[k].item.demoHash == c.item.demoHash && LaterLe(demos[k], c)
    ensures || Represented(Window(demos), c)
            || (|Window(demos)| == BASELINE_WINDOW_MATCHES && forall j :: 0 <= j < |Window(demos)| ==> LaterLe(Window(demos)[j], c))
  {
    hide LaterLe;
    var chosen := Window(demos);
    if k < |chosen| {
      assert chosen[k] == demos[k];
    } else {
      forall j | 0 <= j < |chosen|
        ensures LaterLe(chosen[j], c)
      {
        assert chosen[j] == demos[j] && LaterLe(demos[j], demos[k]);
      }
    }
  }

  /** Only matches of the query's series and scope, finished by the cutoff, enter a baseline. */
  lemma {:induction false} IncludedAreEligible(history: seq<HistoryMatch>, query: BaselineQuery, side: Option<Side>, s: Selected)
    requires side.Some? ==> query.field.ComponentField?
    requires s in Selection(Admissions(history, JudgeWith(query, side)))
    ensures s.item in history && s.item.series == query.series && s.item.canonical
    ensures s.item.trendExclusion.None? && s.item.interval.Some?
    ensures s.item.interval.value.start <= s.item.interval.value.end <= query.cutoff
    ensures query.scope.OneMap? ==> s.item.mapContext == Known(query.scope.name)
  {
    SelectionIsLatest(Admissions(history, JudgeWith(query, side)));
    hide StableSort;
    hide Selection;
    AdmissionsAre(history, JudgeWith(query, side));
    assert s in Admissions(history, JudgeWith(query, side));
  }

  // ----- What does not matter

  lemma {:induction false} OnlyAdmittedMatter(history: seq<HistoryMatch>, judge: HistoryMatch -> Verdict)
    ensures Admissions(Filter(history, (h: HistoryMatch) => judge(h).Admitted?), judge) == Admissions(history, judge)
  {
    var keep := (h: HistoryMatch) => judge(h).Admitted?;
    if history != [] {
      OnlyAdmittedMatter(history[1..], judge);
      if keep(history[0]) {
        assert ([history[0]] + Filter(history[1..], keep))[1..] == Filter(history[1..], keep);
      }
    }
  }

  /** Everything of a receipt but its exclusions. */
  ghost predicate SameStatistics(a: Result<BaselineReceipt, BaselineError>, b: Result<BaselineReceipt, BaselineError>) {
    if a.Err? then a == b
    else b.Ok? && a.value.(exclusions := []) == b.value.(exclusions := [])
  }

  /** Adding or removing any number of rejected matches, anywhere, changes neither the selection
      nor the statistics. */
  lemma {:induction false} RejectedMatchesDoNotMatter(history: seq<HistoryMatch>, others: seq<HistoryMatch>,
                                   query: BaselineQuery, side: Option<Side>)
    requires side.Some? ==> query.field.ComponentField?
    requires var admitted := (h: HistoryMatch) => JudgeWith(query, side)(h).Admitted?;
      Filter(history, admitted) == Filter(others, admitted)
    ensures SameStatistics(Lens(history, query, side), Lens(others, query, side))
  {
    OnlyAdmittedMatter(history, JudgeWith(query, side));
    OnlyAdmittedMatter(others, JudgeWith(query, side));
    SelectionDetermines(history, others, query, side);
  }

  lemma {:induction false} SelectionDetermines(history: seq<HistoryMatch>, others: seq<HistoryMatch>, query: BaselineQuery, side: Option<Side>)
    requires side.Some? ==> query.field.ComponentField?
    requires var judge := JudgeWith(query, side);
      Selection(Admissions(history, judge)) == Selection(Admissions(others, judge))
    ensures SameStatistics(Lens(history, query, side), Lens(others, query, side))
  {
    hide Selection;
    hide StatsOf;
    hide Admissions;
    hide Rejections;
    hide LateExclusions;
  }

  lemma {:induction false} AdmissionCount(history: seq<HistoryMatch>, judge: HistoryMatch -> Verdict, s: Selected)
    ensures multiset(Admissions(history, judge))[s] ==
            if judge(s.item) == Admitted(s.value) then multiset(history)[s.item] else 0
  {
    if history != [] {
      AdmissionCount(history[1..], judge, s);
      assert history == [history[0]] + history[1..];
      if judge(history[0]).Admitted? {
        assert Admissions(history, judge) == [Selected(history[0], judge(history[0]).value)] + Admissions(history[1..], judge);
      }
    }
  }

  lemma {:induction false} AdmissionsPermutation(history: seq<HistoryMatch>, others: seq<HistoryMatch>, judge: HistoryMatch -> Verdict)
    requires multiset(history) == multiset(others)
    ensures multiset(Admissions(history, judge)) == multiset(Admissions(others, judge))
  {
    forall s: Selected
      ensures multiset(Admissions(history, judge))[s] == multiset(Admissions(others, judge))[s]
    {
      AdmissionCount(history, judge, s);
      AdmissionCount(others, judge, s);
    }
  }

  /** The order in which matches were imported does not matter, as long as different admitted
      matches differ in end time or demo hash. */
  lemma {:induction false} ImportOrderDoesNotMatter(history: seq<HistoryMatch>, others: seq<HistoryMatch>,
                                 query: BaselineQuery, side: Option<Side>)
    requires side.Some? ==> query.field.ComponentField?
    requires multiset(history) == multiset(others)
    requires TiesEqual(Admissions(history, JudgeWith(query, side)), LaterLe)
    ensures SameStatistics(Lens(history, query, side), Lens(others, query, side))
  {
    hide LaterLe;
    hide StableSort;
    hide Admissions;
    hide FirstPerDemo;
    var judge := JudgeWith(query, side);
    AdmissionsPermutation(history, others, judge);
    SortAdmissions(Admissions(history, judge), Admissions(others, judge));
    SelectionDetermines(history, others, query, side);
  }

  lemma {:induction false} SortAdmissions(cs: seq<Selected>, ds: seq<Selected>)
    requires multiset(cs) == multiset(ds) && TiesEqual(cs, LaterLe)
    ensures StableSort(cs, LaterLe) == StableSort(ds, LaterLe)
  {
    LaterOrder();
    hide LaterLe;
    SortPermutation(cs, ds, LaterLe);
  }

  /** A rating baseline is always produced: its statistics cannot overflow. */
  lemma RatingBaselineAlwaysExists(history: seq<HistoryMatch>, query: BaselineQuery)
    requires query.field.RatingField?
    ensures Lens(history, query, None).Ok?
  {
    var cs := Admissions(history, JudgeWith(query, None));
    var chosen := Selection(cs);
    SelectionIsLatest(cs);
    hide Selection;
    hide Small;
    hide Admissions;
    forall v | v in Values(chosen)
      ensures Small(v, 1, 20_000)
    {
      var i :| 0 <= i < |chosen| && chosen[i].value == v;
      assert chosen[i] in chosen;
      RatingAdmission(history, query, chosen[i]);
    }
    if |chosen| >= BASELINE_MINIMUM_MATCHES {
      RatingStatsNeverOverflow(Values(chosen), FromInteger(20_000));
    }
  }

  lemma {:induction false} RatingAdmission(history: seq<HistoryMatch>, query: BaselineQuery, s: Selected)
    requires query.field.RatingField? && s in Admissions(history, JudgeWith(query, None))
    ensures Small(s.value, 1, 20_000)
  {
    AdmissionsAre(history, JudgeWith(query, None));
    var points := s.item.rating.value;
    assert s.value == FromInteger(points);
    assert Value(s.value) == RatioReal(points, 1);
  }

  // ----- What a receipt says, field by field

  /** The rules of a cohort: the same series, canonical, not excluded from trends, a well-formed
      interval that ended by the cutoff, and the map if one is asked for. */
  predicate InCohort(item: HistoryMatch, series: string, cutoff: u64, scope: BaselineScope) {
    && item.series == series && item.canonical && item.trendExclusion.None?
    && item.interval.Some? && item.interval.value.start <= item.interval.value.end <= cutoff
    && (scope.OneMap? ==> item.mapContext.Known? && item.mapContext.name == scope.name)
  }

  /** The rule a match breaks, when it keeps all earlier ones. */
  predicate BreaksFirst(item: HistoryMatch, series: string, cutoff: u64, scope: BaselineScope, reason: CohortExclusionReason) {
    var chosen := item.series == series && item.canonical;
    var timed := chosen && item.trendExclusion.None? && item.interval.Some?;
    var ended := timed && item.interval.value.start <= item.interval.value.end && item.interval.value.end <= cutoff;
    match reason
    case CalculationSeriesMismatch => item.series != series
    case NonCanonicalRun => item.series == series && !item.canonical
    case MatchRule(rule) => chosen && item.trendExclusion == Some(rule)
    case MissingChronology => chosen && item.trendExclusion.None? && item.interval.None?
    case ReversedChronology => timed && item.interval.value.end < item.interval.value.start
    case CurrentOrFutureMatch =>
      timed && item.interval.value.start <= item.interval.value.end && cutoff < item.interval.value.end
    case UnknownMap => ended && scope.OneMap? && item.mapContext.Unknown?
    case ScopeMismatch => ended && scope.OneMap? && item.mapContext.Known? && item.mapContext.name != scope.name
    case _ => false
  }

  lemma CohortReasonIff(item: HistoryMatch, query: BaselineQuery)
    ensures CohortReason(item, query).None? <==> InCohort(item, query.series, query.cutoff, query.scope)
    ensures forall reason ::
              CohortReason(item, query) == Some(reason) <==>
              BreaksFirst(item, query.series, query.cutoff, query.scope, reason)
  {
  }

  /** The component of a vector that carries this name. */
  predicate IsPart(c: Rating.ComponentVector, kind: Rating.ComponentKind, v: Rational) {
    match kind
    case DirectDamage => v == c.directDamage
    case FragBalance => v == c.fragBalance
    case OpeningDuels => v == c.openingDuels
    case TradeKills => v == c.tradeKills
    case Utility => v == c.utility
    case ClutchConversion => v == c.clutchConversion
  }

  /** The value a match has for a field: its rating in basis points, or that component of the match
      or of the side asked for. */
  predicate HasValue(item: HistoryMatch, field: BaselineField, side: Option<Side>, v: Rational) {
    match field
    case RatingField => side.None? && item.rating.Some? && v.num == item.rating.value && v.den == 1
    case ComponentField(kind) =>
      if side.None? then item.components.Some? && IsPart(item.components.value, kind, v)
      else side.value in item.sideVectors && IsPart(item.sideVectors[side.value], kind, v)
  }

  /** A match is admitted with a value exactly when it keeps the rules and has that value. */
  predicate Eligible(item: HistoryMatch, query: BaselineQuery, side: Option<Side>, v: Rational) {
    InCohort(item, query.series, query.cutoff, query.scope) && HasValue(item, query.field, side, v)
  }

  /** Why it is not: the rule it breaks, or the value it lacks. */
  predicate Ineligible(item: HistoryMatch, query: BaselineQuery, side: Option<Side>, reason: CohortExclusionReason) {
    || BreaksFirst(item, query.series, query.cutoff, query.scope, reason)
    || (InCohort(item, query.series, query.cutoff, query.scope)
        && if side.Some? then reason == MissingSideVector && side.value !in item.sideVectors
           else reason == MissingCanonicalValue
                && if query.field.RatingField? then item.rating.None? else item.components.None?)
  }

  lemma JudgeIff(item: HistoryMatch, query: BaselineQuery, side: Option<Side>)
    requires side.Some? ==> query.field.ComponentField?
    ensures forall v :: JudgeWith(query, side)(item) == Admitted(v) <==> Eligible(item, query, side, v)
    ensures forall reason :: JudgeWith(query, side)(item) == Rejected(reason) <==> Ineligible(item, query, side, reason)
  {
    CohortReasonIff(item, query);
    hide CohortReason;
    hide InCohort;
    hide BreaksFirst;
  }

  /** `a` ended later than `b`, or at the same time with the greater hash, or they agree. */
  predicate NoEarlier(a: HistoryMatch, b: HistoryMatch) {
    && a.interval.Some? && b.interval.Some?
    && (|| a.interval.value.end > b.interval.value.end
        || (a.interval.value.end == b.interval.value.end && StrLe(b.demoHash, a.demoHash)))
  }

  lemma NoEarlierIsLater(a: Selected, b: Selected)
    requires a.item.interval.Some? && b.item.interval.Some?
    ensures LaterLe(a, b) <==> NoEarlier(a.item, b.item)
  {
    hide StrLe;
  }

  /** Of eligible matches with their values: at most twenty, one a demo, latest first, such that every
      other eligible match is an earlier copy of a chosen demo or comes after twenty chosen ones. */
  ghost predicate LatestTwenty(history: seq<HistoryMatch>, query: BaselineQuery, side: Option<Side>, chosen: seq<Selected>) {
    && |chosen| <= 20
    && (forall i :: 0 <= i < |chosen| ==>
          chosen[i].item in history && Eligible(chosen[i].item, query, side, chosen[i].value))
    && (forall i, j :: 0 <= i < j < |chosen| ==>
          chosen[i].item.demoHash != chosen[j].item.demoHash && NoEarlier(chosen[i].item, chosen[j].item))
    && (forall item, v :: item in history && Eligible(item, query, side, v) ==>
          || (exists k :: 0 <= k < |chosen| && chosen[k].item.demoHash == item.demoHash && NoEarlier(chosen[k].item, item))
          || (|chosen| == 20 && forall k :: 0 <= k < |chosen| ==> NoEarlier(chosen[k].item, item)))
  }

  lemma {:induction false} SelectionIsLatestTwenty(history: seq<HistoryMatch>, query: BaselineQuery, side: Option<Side>)
    requires side.Some? ==> query.field.ComponentField?
    ensures LatestTwenty(history, query, side, Selection(Admissions(history, JudgeWith(query, side))))
  {
    hide Selection;
    hide Judge;
    hide JudgeWith;
    hide Eligible;
    hide NoEarlier;
    hide LaterLe;
    var judge := JudgeWith(query, side);
    var cs := Admissions(history, judge);
    var chosen := Selection(cs);
    AdmissionsAre(history, judge);
    hide Admissions;
    SelectionIsLatest(cs);
    forall s: Selected | s in cs
      ensures s.item in history && Eligible(s.item, query, side, s.value) && s.item.interval.Some?
    {
      JudgeIff(s.item, query, side);
      EligibleTimed(s.item, query, side, s.value);
    }
    forall a: Selected, b: Selected | a in cs && b in cs
      ensures LaterLe(a, b) <==> NoEarlier(a.item, b.item)
    {
      NoEarlierIsLater(a, b);
    }
    forall item: HistoryMatch, v: Rational | item in history && Eligible(item, query, side, v)
      ensures || (exists k :: 0 <= k < |chosen| && chosen[k].item.demoHash == item.demoHash && NoEarlier(chosen[k].item, item))
              || (|chosen| == 20 && forall k :: 0 <= k < |chosen| ==> NoEarlier(chosen[k].item, item))
    {
      JudgeIff(item, query, side);
      var c := Selected(item, v);
      assert c in cs;
    }
  }

  lemma EligibleTimed(item: HistoryMatch, query: BaselineQuery, side: Option<Side>, v: Rational)
    requires Eligible(item, query, side, v)
    ensures item.interval.Some?
  {
  }

  /** What a baseline receipt says: its lists are those of one selection of the latest twenty, its
      maturity counts it, and it carries the statistics of exactly its values from ten matches on. */
  lemma LensReceipt(history: seq<HistoryMatch>, query: BaselineQuery, side: Option<Side>) returns (chosen: seq<Selected>)
    requires Lens(history, query, side).Ok?
    ensures side.Some? ==> query.field.ComponentField?
    ensures LatestTwenty(history, query, side, chosen)
    ensures var r, n := Lens(history, query, side).value, |chosen|;
      && r.query == query
      && |r.includedMatchIds| == |r.includedDemoHashes| == |r.includedRunIds| == |r.selectedValues| == n
      && (forall i :: 0 <= i < n ==>
            && r.includedMatchIds[i] == chosen[i].item.matchId
            && r.includedDemoHashes[i] == chosen[i].item.demoHash
            && r.includedRunIds[i] == chosen[i].item.calculationRunId
            && r.selectedValues[i] == chosen[i].value)
      && (n < 10 <==> r.maturity == NotReady(n, 10))
      && (10 <= n < 20 <==> r.maturity == Limited(n))
      && (n == 20 <==> r.maturity == Recent(n))
      && (n < 10 <==> r.stats.None?)
      && (n >= 10 ==> RobustStatsOf(r.selectedValues, ZERO, if query.field.RatingField? then FromInteger(20_000) else ONE)
                      == Ok(r.stats.value))
  {
    hide Admissions;
    hide Rejections;
    hide Selection;
    hide LatestTwenty;
    hide LateExclusions;
    hide RobustStatsOf;
    chosen := Selection(Admissions(history, JudgeWith(query, side)));
    SelectionIsLatestTwenty(history, query, side);
    AtMostTwenty(history, query, side, chosen);
  }

  lemma AtMostTwenty(history: seq<HistoryMatch>, query: BaselineQuery, side: Option<Side>, chosen: seq<Selected>)
    requires LatestTwenty(history, query, side, chosen)
    ensures |chosen| <= 20
  {
  }

  /** A side lens of ratings is refused, and nothing else is but by the statistics. */
  lemma LensFails(history: seq<HistoryMatch>, query: BaselineQuery, side: Option<Side>)
    ensures Lens(history, query, side) == Err(SideRatingForbidden) <==> side.Some? && query.field.RatingField?
    ensures Lens(history, query, side).Err? && !(side.Some? && query.field.RatingField?) ==>
              Lens(history, query, side).error.Stats?
  {
    hide Admissions;
    hide Rejections;
    hide Selection;
    hide LateExclusions;
    hide RobustStatsOf;
  }

  /** Two matches of the history, at different places, that are eligible copies of one demo. */
  ghost predicate CopiedDemo(history: seq<HistoryMatch>, query: BaselineQuery, side: Option<Side>, hash: string) {
    exists i, j :: 0 <= i < j < |history| && history[i].demoHash == hash && history[j].demoHash == hash
      && IsEligible(history[i], query, side) && IsEligible(history[j], query, side)
  }

  ghost predicate IsEligible(item: HistoryMatch, query: BaselineQuery, side: Option<Side>) {
    exists v :: Eligible(item, query, side, v)
  }

  /** Every exclusion of a baseline has its cause: a broken rule or a missing value, another eligible
      copy of the demo, or twenty included demos other than it. */
  ghost predicate HasCause(history: seq<HistoryMatch>, query: BaselineQuery, side: Option<Side>,
                           r: BaselineReceipt, x: CohortExclusion, item: HistoryMatch) {
    && item in history && item.matchId == x.matchId
    && (|| Ineligible(item, query, side, x.reason)
        || (x.reason == DuplicateDemo && IsEligible(item, query, side) && CopiedDemo(history, query, side, item.demoHash))
        || (x.reason == OutsideRecentWindow && IsEligible(item, query, side)
            && |r.includedDemoHashes| == 20 && item.demoHash !in r.includedDemoHashes))
  }

  lemma ExclusionsHaveCauses(history: seq<HistoryMatch>, query: BaselineQuery, side: Option<Side>, x: CohortExclusion)
    returns (item: HistoryMatch)
    requires Lens(history, query, side).Ok? && x in Lens(history, query, side).value.exclusions
    ensures HasCause(history, query, side, Lens(history, query, side).value, x, item)
  {
    hide Judge;
    hide Eligible;
    hide Ineligible;
    hide LaterLe;
    hide CopiedDemo;
    hide RobustStatsOf;
    hide StatsOf;
    var judge := JudgeWith(query, side);
    var cs := Admissions(history, judge);
    if x in Rejections(history, judge) {
      item := RejectionOf(history, judge, x);
      JudgeIff(item, query, side);
    } else {
      assert x in LateExclusions(cs);
      var s := LateOf(cs, x);
      item := s.item;
      hide LateExclusions;
      hide Selection;
      AdmissionsAre(history, judge);
      JudgeIff(item, query, side);
      assert IsEligible(item, query, side);
      if x.reason == DuplicateDemo {
        CopiesAdmitted(history, query, side, item.demoHash);
      } else {
        var hashes := Lens(history, query, side).value.includedDemoHashes;
        forall i | 0 <= i < |hashes|
          ensures hashes[i] != item.demoHash
        {
          assert hashes[i] == Selection(cs)[i].item.demoHash;
        }
      }
    }
  }

  lemma {:induction false} RejectionOf(history: seq<HistoryMatch>, judge: HistoryMatch -> Verdict, x: CohortExclusion)
    returns (item: HistoryMatch)
    requires x in Rejections(history, judge)
    ensures item in history && item.matchId == x.matchId && judge(item) == Rejected(x.reason)
  {
    if judge(history[0]) == Rejected(x.reason) && history[0].matchId == x.matchId {
      item := history[0];
    } else {
      item := RejectionOf(history[1..], judge, x);
    }
  }

  function OfDemo(hash: string): Selected -> bool {
    (s: Selected) => s.item.demoHash == hash
  }

  lemma LateOf(cs: seq<Selected>, x: CohortExclusion) returns (s: Selected)
    requires x in LateExclusions(cs)
    ensures s in cs && s.item.matchId == x.matchId
    ensures x.reason == DuplicateDemo || x.reason == OutsideRecentWindow
    ensures x.reason == DuplicateDemo ==> 2 <= |Filter(cs, OfDemo(s.item.demoHash))|
    ensures x.reason == OutsideRecentWindow ==>
              |Selection(cs)| == 20 && forall i :: 0 <= i < |Selection(cs)| ==> Selection(cs)[i].item.demoHash != s.item.demoHash
  {
    hide LaterLe;
    hide StableSort;
    hide FirstPerDemo;
    hide Repeats;
    hide Filter;
    if x in Repeats(StableSort(cs, LaterLe), {}) {
      s := RepeatIn(cs, x);
    } else {
      s := BeyondIn(cs, x);
    }
  }

  lemma RepeatIn(cs: seq<Selected>, x: CohortExclusion) returns (s: Selected)
    requires x in Repeats(StableSort(cs, LaterLe), {})
    ensures s in cs && s.item.matchId == x.matchId && x.reason == DuplicateDemo
    ensures 2 <= |Filter(cs, OfDemo(s.item.demoHash))|
  {
    hide LaterLe;
    hide StableSort;
    hide Repeats;
    hide Filter;
    var sorted := StableSort(cs, LaterLe);
    LaterOrder();
    SameElements(sorted, cs);
    s := RepeatOf(sorted, {}, x);
    FilterSort(cs, LaterLe, OfDemo(s.item.demoHash));
    assert multiset(StableSort(Filter(cs, OfDemo(s.item.demoHash)), LaterLe)) == multiset(Filter(cs, OfDemo(s.item.demoHash)));
  }

  lemma BeyondIn(cs: seq<Selected>, x: CohortExclusion) returns (s: Selected)
    requires x in LateExclusions(cs) && x !in Repeats(StableSort(cs, LaterLe), {})
    ensures s in cs && s.item.matchId == x.matchId && x.reason == OutsideRecentWindow
    ensures |Selection(cs)| == 20 && forall i :: 0 <= i < |Selection(cs)| ==> Selection(cs)[i].item.demoHash != s.item.demoHash
  {
    hide LaterLe;
    hide StableSort;
    hide Repeats;
    hide FirstPerDemo;
    var sorted := StableSort(cs, LaterLe);
    LaterOrder();
    SameElements(sorted, cs);
    var demos := FirstPerDemo(sorted, {});
    FirstPerDemoMembers(sorted, {});
    s := OutsideOf(demos[BASELINE_WINDOW_MATCHES..], x);
    var k :| BASELINE_WINDOW_MATCHES <= k < |demos| && demos[k] == s;
  }

  lemma {:induction false} RepeatOf(cs: seq<Selected>, seen: set<string>, x: CohortExclusion) returns (s: Selected)
    requires x in Repeats(cs, seen)
    ensures s in cs && s.item.matchId == x.matchId && x.reason == DuplicateDemo
    ensures s.item.demoHash in seen || 2 <= |Filter(cs, OfDemo(s.item.demoHash))|
    decreases |cs|
  {
    if cs[0].item.demoHash in seen && x == CohortExclusion(cs[0].item.matchId, DuplicateDemo) {
      s := cs[0];
    } else {
      s := RepeatOf(cs[1..], if cs[0].item.demoHash in seen then seen else seen + {cs[0].item.demoHash}, x);
      var rest := Filter(cs[1..], OfDemo(s.item.demoHash));
      assert s in rest;
    }
  }

  lemma {:induction false} OutsideOf(cs: seq<Selected>, x: CohortExclusion) returns (s: Selected)
    requires x in Outside(cs)
    ensures s in cs && s.item.matchId == x.matchId && x.reason == OutsideRecentWindow
    decreases |cs|
  {
    if x == CohortExclusion(cs[0].item.matchId, OutsideRecentWindow) {
      s := cs[0];
    } else {
      s := OutsideOf(cs[1..], x);
    }
  }

  lemma {:induction false} CopiesAdmitted(history: seq<HistoryMatch>, query: BaselineQuery, side: Option<Side>, hash: string)
    requires side.Some? ==> query.field.ComponentField?
    requires 2 <= |Filter(Admissions(history, JudgeWith(query, side)), OfDemo(hash))|
    ensures CopiedDemo(history, query, side, hash)
  {
    hide Judge;
    hide Eligible;
    var judge := JudgeWith(query, side);
    var i, j := TwoAdmitted(history, judge, hash);
    JudgeIff(history[i], query, side);
    JudgeIff(history[j], query, side);
  }

  lemma {:induction false} TwoAdmitted(history: seq<HistoryMatch>, judge: HistoryMatch -> Verdict, hash: string)
    returns (i: nat, j: nat)
    requires 2 <= |Filter(Admissions(history, judge), OfDemo(hash))|
    ensures i < j < |history| && history[i].demoHash == hash && history[j].demoHash == hash
    ensures judge(history[i]).Admitted? && judge(history[j]).Admitted?
  {
    if 2 <= |Filter(Admissions(history[1..], judge), OfDemo(hash))| {
      i, j := TwoAdmitted(history[1..], judge, hash);
      i, j := i + 1, j + 1;
    } else {
      var first := judge(history[0]);
      assert first.Admitted? && history[0].demoHash == hash by {
        if first.Admitted? {
          var rest := Admissions(history[1..], judge);
          assert ([Selected(history[0], first.value)] + rest)[1..] == rest;
        }
      }
      var rest := Admissions(history[1..], judge);
      assert ([Selected(history[0], first.value)] + rest)[1..] == rest;
      j := OneAdmitted(history[1..], judge, hash);
      i, j := 0, j + 1;
    }
  }

  lemma OneAdmitted(history: seq<HistoryMatch>, judge: HistoryMatch -> Verdict, hash: string) returns (j: nat)
    requires 1 <= |Filter(Admissions(history, judge), OfDemo(hash))|
    ensures j < |history| && history[j].demoHash == hash && judge(history[j]).Admitted?
  {
    AdmissionsAre(history, judge);
    var s := Filter(Admissions(history, judge), OfDemo(hash))[0];
    assert s in Filter(Admissions(history, judge), OfDemo(hash));
    j :| 0 <= j < |history| && history[j] == s.item;
  }
}
