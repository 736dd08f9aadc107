/** Goals: the first ten qualifying matches after the goal was set decide it, and nothing that
    happens later can change the decision (`evaluate_goal` in crates/openfrag-domain/src/baseline.rs). */
module Goals {
  import opened Prelude
  import opened Ordering
  import opened Text
  import opened Exact
  import opened Statistics
  import opened Baseline

  const GOAL_EVALUATION_MATCHES: nat := 10

  datatype Goal = Goal(
    id: string, createdAt: u64, series: string, field: BaselineField, scope: BaselineScope,
    target: Rational, cancelled: bool)

  datatype GoalStatus = InProgress(selected: nat, required: nat) | Achieved | NotAchieved | Cancelled | VersionChanged

  datatype GoalReceipt = GoalReceipt(
    goalId: string, status: GoalStatus, selectedMatchIds: seq<string>, selectedDemoHashes: seq<string>,
    exclusions: seq<CohortExclusion>, evaluationMedian: Option<Rational>)

  /** One pass of the loop: the cohort rules without a cutoff, then the creation time, then the value. */
  function JudgeForGoal(goal: Goal): HistoryMatch -> Verdict {
    (item: HistoryMatch) =>
      var reason := CohortReason(item, BaselineQuery(goal.series, U64_MAX, goal.field, goal.scope));
      if reason.Some? then Rejected(reason.value)
      else if item.interval.value.start <= goal.createdAt then Rejected(CurrentOrFutureMatch)
      else
        match MatchValue(item, goal.field)
        case Some(value) => Admitted(value)
        case None => Rejected(MissingCanonicalValue)
  }

  function StartOf(item: HistoryMatch): u64 {
    if item.interval.Some? then item.interval.value.start else 0
  }

  /** Chronological order: start, then end, then demo hash. */
  predicate EarlierLe(a: Selected, b: Selected) {
    if StartOf(a.item) != StartOf(b.item) then StartOf(a.item) < StartOf(b.item)
    else if EndOf(a.item) != EndOf(b.item) then EndOf(a.item) < EndOf(b.item)
    else StrLe(a.item.demoHash, b.item.demoHash)
  }

  lemma EarlierOrder()
    ensures Preorder(EarlierLe)
  {
    var byHash := (a: Selected, b: Selected) => StrLe(a.item.demoHash, b.item.demoHash);
    var byEnd := (a: Selected, b: Selected) =>
      if EndOf(a.item) != EndOf(b.item) then EndOf(a.item) < EndOf(b.item) else byHash(a, b);
    TextOrder((s: Selected) => s.item.demoHash, byHash);
    NumberThen((s: Selected) => EndOf(s.item), byHash, byEnd);
    NumberThen((s: Selected) => StartOf(s.item), byEnd, EarlierLe);
  }

  function FirstTen(cs: seq<Selected>): (r: seq<Selected>)
    ensures |r| <= GOAL_EVALUATION_MATCHES
  {
    if |cs| > GOAL_EVALUATION_MATCHES then cs[..GOAL_EVALUATION_MATCHES] else cs
  }

  function GoalSelection(cs: seq<Selected>): seq<Selected> {
    FirstTen(FirstPerDemo(StableSort(cs, EarlierLe), {}))
  }

  function MedianOf(chosen: seq<Selected>): Result<Option<Rational>, StatsError> {
    if chosen == [] then Ok(None)
    else
      var m :- Median(Values(chosen));
      Ok(Some(m))
  }

  function StatusOf(goal: Goal, selected: nat, median: Option<Rational>): GoalStatus {
    if selected < GOAL_EVALUATION_MATCHES then InProgress(selected, GOAL_EVALUATION_MATCHES)
    else if median.Some? && RatLe(goal.target, median.value) then Achieved
    else NotAchieved
  }

  function EmptyReceipt(goal: Goal, status: GoalStatus): GoalReceipt {
    GoalReceipt(goal.id, status, [], [], [], None)
  }

  function DemoHashes(cs: seq<Selected>): seq<string> {
    seq(|cs|, i requires 0 <= i < |cs| => cs[i].item.demoHash)
  }

  function Evaluate(goal: Goal, activeSeries: string, history: seq<HistoryMatch>): Result<GoalReceipt, StatsError> {
    if goal.cancelled then Ok(EmptyReceipt(goal, Cancelled))
    else if goal.series != activeSeries then Ok(EmptyReceipt(goal, VersionChanged))
    else
      var cs := Admissions(history, JudgeForGoal(goal));
      var chosen := GoalSelection(cs);
      var median :- MedianOf(chosen);
      Ok(GoalReceipt(goal.id, StatusOf(goal, |chosen|, median), MatchIds(chosen), DemoHashes(chosen),
                     Rejections(history, JudgeForGoal(goal)) + Repeats(StableSort(cs, EarlierLe), {}), median))
  }

  method EvaluateGoal(goal: Goal, activeSeries: string, history: seq<HistoryMatch>)
    returns (r: Result<GoalReceipt, StatsError>)
    ensures r == Evaluate(goal, activeSeries, history)
  {
    if goal.cancelled {
      return Ok(EmptyReceipt(goal, Cancelled));
    }
    if goal.series != activeSeries {
      return Ok(EmptyReceipt(goal, VersionChanged));
    }
    var candidates, exclusions := Admit(history, JudgeForGoal(goal));
    hide StableSort;
    var kept, repeats := RetainFirst(StableSort(candidates, EarlierLe));
    if |kept| > GOAL_EVALUATION_MATCHES {
      kept := kept[..GOAL_EVALUATION_MATCHES];
    }
    var median := MedianOf(kept);
    if median.Err? {
      return Err(median.error);
    }
    return Ok(GoalReceipt(goal.id, StatusOf(goal, |kept|, median.value), MatchIds(kept), DemoHashes(kept),
                          exclusions + repeats, median.value));
  }

  // ----- The decision is final

  /** Everything of a receipt but its exclusions. */
  ghost predicate SameDecision(a: Result<GoalReceipt, StatsError>, b: Result<GoalReceipt, StatsError>) {
    if a.Err? then a == b
    else b.Ok? && a.value.(exclusions := []) == b.value.(exclusions := [])
  }

  /** `keep` is decided by how early an element comes. */
  ghost predicate DownwardClosed(keep: Selected -> bool, le: (Selected, Selected) -> bool) {
    forall a, b :: keep(b) && le(a, b) ==> keep(a)
  }

  /** `keep` cuts a sorted sequence into a kept prefix and a dropped rest. */
  lemma {:induction false} SortedCut(s: seq<Selected>, keep: Selected -> bool, le: (Selected, Selected) -> bool)
    returns (p: seq<Selected>, q: seq<Selected>)
    requires Sorted(s, le) && DownwardClosed(keep, le)
    ensures s == p + q && Filter(s, keep) == p
    ensures forall c :: c in q ==> !keep(c)
  {
    if s == [] {
      p, q := [], [];
    } else if keep(s[0]) {
      hide DownwardClosed;
      p, q := SortedCut(s[1..], keep, le);
      p := [s[0]] + p;
      assert s == [s[0]] + s[1..];
    } else {
      p, q := [], s;
      forall c | c in s
        ensures !keep(c)
      {
        var j :| 0 <= j < |s| && s[j] == c;
        assert j == 0 || le(s[0], s[j]);
      }
      FilterNone(s, keep);
    }
  }

  lemma {:induction false} FirstPerDemoPrefix(p: seq<Selected>, q: seq<Selected>, seen: set<string>) returns (rest: seq<Selected>)
    ensures FirstPerDemo(p + q, seen) == FirstPerDemo(p, seen) + rest
    ensures forall c :: c in rest ==> c in q
  {
    if p == [] {
      rest := FirstPerDemo(q, seen);
      assert p + q == q;
      FirstPerDemoMembers(q, seen);
    } else {
      assert (p + q)[1..] == p[1..] + q;
      rest := FirstPerDemoPrefix(p[1..], q, if p[0].item.demoHash in seen then seen else seen + {p[0].item.demoHash});
    }
  }

  /** Ten demos in a prefix decide the selection. */
  lemma {:induction false} PrefixDecides(p: seq<Selected>, q: seq<Selected>)
    requires |FirstPerDemo(p, {})| >= GOAL_EVALUATION_MATCHES
    ensures FirstTen(FirstPerDemo(p + q, {})) == FirstPerDemo(p, {})[..GOAL_EVALUATION_MATCHES]
  {
    hide FirstPerDemo;
    var rest := FirstPerDemoPrefix(p, q, {});
  }

  /** The tenth selected match is kept, so the kept prefix holds all ten. */
  lemma {:induction false} TenthInPrefix(p: seq<Selected>, q: seq<Selected>, tenth: Selected, keep: Selected -> bool)
    requires var chosen := FirstTen(FirstPerDemo(p + q, {}));
      |chosen| == GOAL_EVALUATION_MATCHES && chosen[GOAL_EVALUATION_MATCHES - 1] == tenth
    requires keep(tenth) && forall c :: c in q ==> !keep(c)
    ensures |FirstPerDemo(p, {})| >= GOAL_EVALUATION_MATCHES
  {
    hide FirstPerDemo;
    var rest := FirstPerDemoPrefix(p, q, {});
    assert |FirstPerDemo(p, {})| < GOAL_EVALUATION_MATCHES ==> tenth in rest;
  }

  lemma KeepUpTo(tenth: Selected, keep: Selected -> bool)
    requires forall c :: keep(c) <==> EarlierLe(c, tenth)
    ensures keep(tenth) && DownwardClosed(keep, EarlierLe)
  {
    EarlierOrder();
    hide EarlierLe;
    assert EarlierLe(tenth, tenth);
  }

  lemma {:induction false} SortEarlier(cs: seq<Selected>, keep: Selected -> bool)
    ensures Sorted(StableSort(cs, EarlierLe), EarlierLe)
    ensures Filter(StableSort(cs, EarlierLe), keep) == StableSort(Filter(cs, keep), EarlierLe)
  {
    hide EarlierLe;
    EarlierOrder();
    SortSorts(cs, EarlierLe);
    FilterSort(cs, EarlierLe, keep);
  }

  /** If the matches up to the tenth selected one are the same, so is the selection. */
  lemma {:induction false} SelectionFixedBy(cs: seq<Selected>, ds: seq<Selected>, tenth: Selected, keep: Selected -> bool)
    requires |GoalSelection(cs)| == GOAL_EVALUATION_MATCHES
    requires tenth == GoalSelection(cs)[GOAL_EVALUATION_MATCHES - 1]
    requires forall c :: keep(c) <==> EarlierLe(c, tenth)
    requires Filter(cs, keep) == Filter(ds, keep)
    ensures GoalSelection(ds) == GoalSelection(cs)
  {
    hide EarlierLe;
    hide StableSort;
    hide FirstPerDemo;
    hide FirstTen;
    KeepUpTo(tenth, keep);
    SortEarlier(cs, keep);
    SortEarlier(ds, keep);
    var p, q := SortedCut(StableSort(cs, EarlierLe), keep, EarlierLe);
    var p', q' := SortedCut(StableSort(ds, EarlierLe), keep, EarlierLe);
    TenthInPrefix(p, q, tenth, keep);
    PrefixDecides(p, q);
    PrefixDecides(p, q');
  }

  function InsertAt<T>(s: seq<T>, i: nat, x: T): (r: seq<T>)
    requires i <= |s|
    ensures |r| == |s| + 1
  {
    s[..i] + [x] + s[i..]
  }

  lemma OneAdmission(x: HistoryMatch, judge: HistoryMatch -> Verdict, keep: Selected -> bool)
    requires judge(x).Admitted? ==> !keep(Selected(x, judge(x).value))
    ensures Filter(Admissions([x], judge), keep) == []
  {
    assert [x][1..] == [];
  }

  lemma SplitAt<T>(s: seq<T>, i: nat)
    requires i <= |s|
    ensures s == s[..i] + s[i..]
  {
  }

  lemma {:induction false} AdmissionsBetween(a: seq<HistoryMatch>, x: HistoryMatch, b: seq<HistoryMatch>, judge: HistoryMatch -> Verdict, keep: Selected -> bool)
    requires judge(x).Admitted? ==> !keep(Selected(x, judge(x).value))
    ensures Filter(Admissions(a + [x] + b, judge), keep) == Filter(Admissions(a + b, judge), keep)
  {
    hide Filter;
    hide Admissions;
    AdmissionsConcat(a, b, judge);
    AdmissionsConcat(a + [x], b, judge);
    AdmissionsConcat(a, [x], judge);
    OneAdmission(x, judge, keep);
    FilterBetween(Admissions(a, judge), Admissions([x], judge), Admissions(b, judge), keep);
  }

  lemma {:induction false} AdmissionsInsert(history: seq<HistoryMatch>, i: nat, x: HistoryMatch, judge: HistoryMatch -> Verdict, keep: Selected -> bool)
    requires i <= |history|
    requires judge(x).Admitted? ==> !keep(Selected(x, judge(x).value))
    ensures Filter(Admissions(InsertAt(history, i, x), judge), keep) == Filter(Admissions(history, judge), keep)
  {
    hide Filter;
    hide Admissions;
    SplitAt(history, i);
    AdmissionsBetween(history[..i], x, history[i..], judge, keep);
  }

  lemma {:induction false} FilterBetween(a: seq<Selected>, x: seq<Selected>, b: seq<Selected>, keep: Selected -> bool)
    requires Filter(x, keep) == []
    ensures Filter(a + x + b, keep) == Filter(a + b, keep)
  {
    hide Filter;
    FilterConcat(a, b, keep);
    FilterConcat(a + x, b, keep);
    FilterConcat(a, x, keep);
    assert Filter(a, keep) + [] == Filter(a, keep);
  }

  /** A goal that has its ten matches: what was selected last. */
  ghost predicate DecidedBy(goal: Goal, history: seq<HistoryMatch>, tenth: Selected) {
    var chosen := GoalSelection(Admissions(history, JudgeForGoal(goal)));
    |chosen| == GOAL_EVALUATION_MATCHES && chosen[GOAL_EVALUATION_MATCHES - 1] == tenth
  }

  /** `x` comes strictly after the tenth match in (start, end, demo hash). */
  ghost predicate After(x: HistoryMatch, tenth: Selected) {
    forall value: Rational :: !EarlierLe(Selected(x, value), tenth)
  }

  lemma {:induction false} LaterMatchKeepsSelection(goal: Goal, history: seq<HistoryMatch>, i: nat, x: HistoryMatch, tenth: Selected)
    requires DecidedBy(goal, history, tenth) && i <= |history| && After(x, tenth)
    ensures GoalSelection(Admissions(InsertAt(history, i, x), JudgeForGoal(goal))) ==
            GoalSelection(Admissions(history, JudgeForGoal(goal)))
  {
    hide EarlierLe;
    hide GoalSelection;
    hide JudgeForGoal;
    var judge := JudgeForGoal(goal);
    var keep := (c: Selected) => EarlierLe(c, tenth);
    AdmissionsInsert(history, i, x, judge, keep);
    SelectionFixedBy(Admissions(history, judge), Admissions(InsertAt(history, i, x), judge), tenth, keep);
  }

  /** The history with matches inserted one after the other. */
  function InsertAll(history: seq<HistoryMatch>, inserts: seq<(nat, HistoryMatch)>): seq<HistoryMatch>
    decreases |inserts|
  {
    if inserts == [] then history
    else InsertAll(InsertAt(history, Min(inserts[0].0, |history|), inserts[0].1), inserts[1..])
  }

  lemma OneLaterMatch(goal: Goal, activeSeries: string, history: seq<HistoryMatch>, i: nat, x: HistoryMatch, tenth: Selected)
    requires DecidedBy(goal, history, tenth) && i <= |history| && After(x, tenth)
    ensures DecidedBy(goal, InsertAt(history, i, x), tenth)
    ensures SameDecision(Evaluate(goal, activeSeries, history), Evaluate(goal, activeSeries, InsertAt(history, i, x)))
  {
    hide After;
    hide GoalSelection;
    hide MedianOf;
    hide InsertAt;
    hide JudgeForGoal;
    LaterMatchKeepsSelection(goal, history, i, x, tenth);
  }

  lemma SameDecisionReflexive(a: Result<GoalReceipt, StatsError>)
    ensures SameDecision(a, a)
  {
  }

  lemma SameDecisionTransitive(a: Result<GoalReceipt, StatsError>, b: Result<GoalReceipt, StatsError>,
                               c: Result<GoalReceipt, StatsError>)
    ensures SameDecision(a, b) && SameDecision(b, c) ==> SameDecision(a, c)
  {
  }

  /** Once ten matches are selected, any number of later matches, inserted anywhere and possibly
      repeating a selected demo, leave the status, the selection and the median as they are. */
  lemma {:induction false} DecisionIsFinal(goal: Goal, activeSeries: string, history: seq<HistoryMatch>,
                                           inserts: seq<(nat, HistoryMatch)>, tenth: Selected)
    requires DecidedBy(goal, history, tenth)
    requires forall k :: 0 <= k < |inserts| ==> After(inserts[k].1, tenth)
    ensures SameDecision(Evaluate(goal, activeSeries, history), Evaluate(goal, activeSeries, InsertAll(history, inserts)))
    decreases |inserts|
  {
    hide After;
    hide Evaluate;
    hide DecidedBy;
    hide SameDecision;
    hide InsertAt;
    if inserts == [] {
      SameDecisionReflexive(Evaluate(goal, activeSeries, history));
    } else {
      var i, x := Min(inserts[0].0, |history|), inserts[0].1;
      OneLaterMatch(goal, activeSeries, history, i, x, tenth);
      assert forall k :: 0 <= k < |inserts[1..]| ==> inserts[1..][k] == inserts[k + 1];
      SameDecisionTransitive(Evaluate(goal, activeSeries, history), Evaluate(goal, activeSeries, InsertAt(history, i, x)),
                             Evaluate(goal, activeSeries, InsertAll(InsertAt(history, i, x), inserts[1..])));
      DecisionIsFinal(goal, activeSeries, InsertAt(history, i, x), inserts[1..], tenth);
    }
  }

  /** A decided goal is achieved exactly when the target does not exceed the median of its ten
      matches. */
  lemma AchievedIffMedianReachesTarget(goal: Goal, activeSeries: string, history: seq<HistoryMatch>, tenth: Selected)
    requires !goal.cancelled && goal.series == activeSeries && DecidedBy(goal, history, tenth)
    requires Evaluate(goal, activeSeries, history).Ok?
    ensures var r := Evaluate(goal, activeSeries, history).value;
      && r.evaluationMedian.Some? && |r.selectedMatchIds| == GOAL_EVALUATION_MATCHES
      && (r.status == Achieved <==> Value(goal.target) <= Value(r.evaluationMedian.value))
      && (r.status == NotAchieved <==> Value(goal.target) > Value(r.evaluationMedian.value))
  {
    hide GoalSelection;
    hide Median;
    hide Value;
    CmpIsValueOrder(goal.target, Evaluate(goal, activeSeries, history).value.evaluationMedian.value);
  }

  // ----- Conservation

  lemma {:induction false} IdCount(cs: seq<Selected>)
    ensures |SelectedIds(cs)| == |cs|
  {
    if cs != [] {
      IdCount(cs[1..]);
    }
  }

  lemma {:induction false} TenIds(demos: seq<Selected>)
    ensures SelectedIds(demos) == SelectedIds(FirstTen(demos)) <==> |demos| <= GOAL_EVALUATION_MATCHES
    ensures SelectedIds(FirstTen(demos)) <= SelectedIds(demos)
  {
    var chosen := FirstTen(demos);
    var rest := demos[|chosen|..];
    assert demos == chosen + rest;
    SelectedConcat(chosen, rest);
    IdCount(chosen);
    IdCount(demos);
  }

  function DemoSet(cs: seq<Selected>): set<string> {
    set c | c in cs :: c.item.demoHash
  }

  lemma {:induction false} OnePerDemo(cs: seq<Selected>, seen: set<string>)
    ensures |FirstPerDemo(cs, seen)| == |DemoSet(cs) - seen|
  {
    if cs == [] {
      assert DemoSet(cs) == {};
    } else {
      var hash := cs[0].item.demoHash;
      DemoSetHead(cs);
      hide DemoSet;
      OnePerDemo(cs[1..], if hash in seen then seen else seen + {hash});
      CountHead(hash, DemoSet(cs[1..]), seen);
    }
  }

  lemma DemoSetHead(cs: seq<Selected>)
    requires cs != []
    ensures DemoSet(cs) == {cs[0].item.demoHash} + DemoSet(cs[1..])
  {
    assert cs == [cs[0]] + cs[1..];
  }

  lemma CountHead<T>(x: T, rest: set<T>, seen: set<T>)
    ensures |{x} + rest - seen| == if x in seen then |rest - seen| else 1 + |rest - (seen + {x})|
  {
    if x in seen {
      assert {x} + rest - seen == rest - seen;
    } else {
      assert {x} + rest - seen == (rest - (seen + {x})) + {x};
    }
  }

  lemma {:induction false} DemosOf(cs: seq<Selected>)
    ensures |FirstPerDemo(StableSort(cs, EarlierLe), {})| == |DemoSet(cs)|
  {
    hide FirstPerDemo;
    var sorted := StableSort(cs, EarlierLe);
    hide StableSort;
    SameElements(sorted, cs);
    OnePerDemo(sorted, {});
    assert DemoSet(sorted) - {} == DemoSet(cs);
  }

  /** Unlike a baseline, a goal does not account for every match: what lies beyond the ten it
      evaluates is neither selected nor excluded.  So every match is accounted for exactly when at
      most ten distinct demos qualify. */
  lemma {:induction false} GoalConservesIff(goal: Goal, activeSeries: string, history: seq<HistoryMatch>)
    requires !goal.cancelled && goal.series == activeSeries && Evaluate(goal, activeSeries, history).Ok?
    ensures var r := Evaluate(goal, activeSeries, history).value;
      HistoryIds(history) == multiset(r.selectedMatchIds) + ExcludedIds(r.exclusions) <==>
      |DemoSet(Admissions(history, JudgeForGoal(goal)))| <= GOAL_EVALUATION_MATCHES
  {
    hide StableSort;
    hide FirstPerDemo;
    hide FirstTen;
    hide Repeats;
    hide Admissions;
    hide Rejections;
    hide HistoryIds;
    hide ExcludedIds;
    hide SelectedIds;
    hide MedianOf;
    hide JudgeForGoal;
    var judge := JudgeForGoal(goal);
    var cs := Admissions(history, judge);
    var sorted := StableSort(cs, EarlierLe);
    DemosOf(cs);
    hide DemoSet;
    JudgedIds(history, judge);
    SortIds(cs, EarlierLe);
    DedupIds(sorted, {});
    TenIds(FirstPerDemo(sorted, {}));
    SelectedIdsAre(GoalSelection(cs));
    ExcludedConcat(Rejections(history, judge), Repeats(sorted, {}));
    var repeated, rejected := ExcludedIds(Repeats(sorted, {})), ExcludedIds(Rejections(history, judge));
    Cancel(SelectedIds(FirstPerDemo(sorted, {})), SelectedIds(GoalSelection(cs)), repeated + rejected);
    assert HistoryIds(history) == SelectedIds(FirstPerDemo(sorted, {})) + (repeated + rejected);
    assert rejected + repeated == repeated + rejected;
  }

  lemma Cancel<T>(a: multiset<T>, b: multiset<T>, c: multiset<T>)
    ensures a + c == b + c <==> a == b
  {
    if a + c == b + c {
      assert a + c - c == a && b + c - c == b;
    }
  }

  /** A rating goal always has its median. */
  lemma RatingGoalAlwaysEvaluated(goal: Goal, activeSeries: string, history: seq<HistoryMatch>)
    requires goal.field.RatingField?
    ensures Evaluate(goal, activeSeries, history).Ok?
  {
    var cs := Admissions(history, JudgeForGoal(goal));
    var chosen := GoalSelection(cs);
    SelectedFrom(cs);
    AdmissionsAre(history, JudgeForGoal(goal));
    hide GoalSelection;
    hide Small;
    hide Admissions;
    forall v | v in Values(chosen) ensures Small(v, 1, 20_000) {
      var i :| 0 <= i < |chosen| && chosen[i].value == v;
      assert chosen[i] in chosen;
      BasisPointsSmall(chosen[i].item.rating.value);
    }
    if chosen != [] {
      MedianFits(Values(chosen), 1, 20_000);
    }
  }

  lemma BasisPointsSmall(points: BasisPoints)
    ensures Small(FromInteger(points), 1, 20_000)
  {
    assert Value(FromInteger(points)) == RatioReal(points, 1);
  }

  lemma SelectedFrom(cs: seq<Selected>)
    ensures forall s :: s in GoalSelection(cs) ==> s in cs
  {
    var sorted := StableSort(cs, EarlierLe);
    hide StableSort;
    hide EarlierLe;
    SameElements(sorted, cs);
    FirstPerDemoMembers(sorted, {});
  }

  // ----- Eleven qualifying demos

  const OPEN_GOAL := Goal("goal", 1, "series", RatingField, AllMaps, ONE, false)

  function Qualifying(i: nat): HistoryMatch {
    HistoryMatch(Decimal(i), Decimal(i), "run", "series", true, Known("map"), Some(MatchInterval(2, 3)), Some(10_000),
                 None, map[], None)
  }

  function QualifyingAll(n: nat): seq<HistoryMatch> {
    if n == 0 then [] else QualifyingAll(n - 1) + [Qualifying(n - 1)]
  }

  ghost predicate NumeralBelow(h: string, n: nat) {
    exists i :: 0 <= i < n && h == Decimal(i)
  }

  function Qualified(i: nat): Selected {
    Selected(Qualifying(i), FromInteger(10_000))
  }

  lemma QualifyingNext(n: nat)
    requires n > 0
    ensures Admissions(QualifyingAll(n), JudgeForGoal(OPEN_GOAL)) ==
            Admissions(QualifyingAll(n - 1), JudgeForGoal(OPEN_GOAL)) + [Qualified(n - 1)]
  {
    var judge, x := JudgeForGoal(OPEN_GOAL), Qualifying(n - 1);
    AdmissionsConcat(QualifyingAll(n - 1), [x], judge);
    assert [x][1..] == [];
    assert Admissions([x], judge) == [Qualified(n - 1)];
  }

  lemma DemoSetPush(cs: seq<Selected>, s: Selected)
    ensures DemoSet(cs + [s]) == DemoSet(cs) + {s.item.demoHash}
  {
    assert forall c :: c in cs + [s] <==> c in cs || c == s;
    assert s in cs + [s];
  }

  lemma NextNumeral(h: string, n: nat)
    ensures NumeralBelow(h, n + 1) <==> NumeralBelow(h, n) || h == Decimal(n)
    ensures !NumeralBelow(Decimal(n), n)
  {
    hide Decimal;
    if i :| 0 <= i < n && Decimal(n) == Decimal(i) {
      DecimalDenotes(n);
      DecimalDenotes(i);
    }
    if h == Decimal(n) {
      assert 0 <= n < n + 1;
    }
  }

  /** The set holds `n` numerals, all below `n`. */
  ghost predicate Numerals(demos: set<string>, n: nat) {
    |demos| == n && forall h :: h in demos ==> NumeralBelow(h, n)
  }

  lemma {:induction false} GrowNumerals(demos: set<string>, n: nat)
    requires Numerals(demos, n)
    ensures Numerals(demos + {Decimal(n)}, n + 1)
  {
    hide NumeralBelow;
    hide Decimal;
    NextNumeral(Decimal(n), n);
    forall h | h in demos + {Decimal(n)} ensures NumeralBelow(h, n + 1) {
      NextNumeral(h, n);
    }
  }

  lemma {:induction false} QualifyingDemos(n: nat)
    ensures Numerals(DemoSet(Admissions(QualifyingAll(n), JudgeForGoal(OPEN_GOAL))), n)
  {
    hide Admissions;
    hide JudgeForGoal;
    hide DemoSet;
    if n == 0 {
      NoneQualify();
    } else {
      var before := Admissions(QualifyingAll(n - 1), JudgeForGoal(OPEN_GOAL));
      hide Numerals;
      hide Decimal;
      QualifyingDemos(n - 1);
      QualifyingNext(n);
      DemoSetPush(before, Qualified(n - 1));
      GrowNumerals(DemoSet(before), n - 1);
    }
  }

  lemma NoneQualify()
    ensures DemoSet(Admissions(QualifyingAll(0), JudgeForGoal(OPEN_GOAL))) == {}
  {
  }

  /** With eleven qualifying demos one match is neither selected nor excluded, with ten none. */
  lemma ElevenLoseOne()
    ensures forall n: nat :: n in {10, 11} ==>
      var history := QualifyingAll(n);
      Evaluate(OPEN_GOAL, "series", history).Ok? &&
      var r := Evaluate(OPEN_GOAL, "series", history).value;
      (HistoryIds(history) == multiset(r.selectedMatchIds) + ExcludedIds(r.exclusions) <==> n == 10)
  {
    hide Evaluate;
    hide QualifyingAll;
    hide DemoSet;
    forall n: nat | n in {10, 11}
      ensures var history := QualifyingAll(n);
        Evaluate(OPEN_GOAL, "series", history).Ok? &&
        var r := Evaluate(OPEN_GOAL, "series", history).value;
        (HistoryIds(history) == multiset(r.selectedMatchIds) + ExcludedIds(r.exclusions) <==> n == 10)
    {
      RatingGoalAlwaysEvaluated(OPEN_GOAL, "series", QualifyingAll(n));
      QualifyingDemos(n);
      GoalConservesIff(OPEN_GOAL, "series", QualifyingAll(n));
    }
  }

  // ----- What an evaluation says, field by field

  /** A candidate of the goal: the rules of its cohort without a cutoff, a start after the goal was
      set, and a value for its field. */
  predicate Qualifies(goal: Goal, item: HistoryMatch, v: Rational) {
    && item.series == goal.series && item.canonical && item.trendExclusion.None?
    && item.interval.Some? && item.interval.value.start <= item.interval.value.end
    && (goal.scope.OneMap? ==> item.mapContext.Known? && item.mapContext.name == goal.scope.name)
    && goal.createdAt < item.interval.value.start
    && HasValue(item, goal.field, None, v)
  }

  /** Why a match is no candidate. */
  predicate Disqualified(goal: Goal, item: HistoryMatch, reason: CohortExclusionReason) {
    || BreaksFirst(item, goal.series, U64_MAX, goal.scope, reason)
    || (InCohort(item, goal.series, U64_MAX, goal.scope)
        && if item.interval.value.start <= goal.createdAt then reason == CurrentOrFutureMatch
           else reason == MissingCanonicalValue
                && if goal.field.RatingField? then item.rating.None? else item.components.None?)
  }

  lemma QualifiesIff(goal: Goal, item: HistoryMatch)
    ensures forall v :: JudgeForGoal(goal)(item) == Admitted(v) <==> Qualifies(goal, item, v)
    ensures forall reason :: JudgeForGoal(goal)(item) == Rejected(reason) <==> Disqualified(goal, item, reason)
  {
    CohortReasonIff(item, BaselineQuery(goal.series, U64_MAX, goal.field, goal.scope));
    hide CohortReason;
    hide BreaksFirst;
  }

  /** `a` started earlier than `b`, or ended earlier, or has the smaller hash, or they agree. */
  predicate NoLater(a: HistoryMatch, b: HistoryMatch) {
    && a.interval.Some? && b.interval.Some?
    && var x, y := a.interval.value, b.interval.value;
    || x.start < y.start
    || (x.start == y.start && x.end < y.end)
    || (x.start == y.start && x.end == y.end && StrLe(a.demoHash, b.demoHash))
  }

  lemma NoLaterIsEarlier(a: Selected, b: Selected)
    requires a.item.interval.Some? && b.item.interval.Some?
    ensures EarlierLe(a, b) <==> NoLater(a.item, b.item)
  {
    hide StrLe;
  }

  /** Of the candidates with their values: at most ten, one a demo, earliest first, such that every
      other candidate is a later copy of a chosen demo or comes after ten chosen ones. */
  ghost predicate EarliestTen(goal: Goal, history: seq<HistoryMatch>, chosen: seq<Selected>) {
    && |chosen| <= 10
    && (forall i :: 0 <= i < |chosen| ==> chosen[i].item in history && Qualifies(goal, chosen[i].item, chosen[i].value))
    && (forall i, j :: 0 <= i < j < |chosen| ==>
          chosen[i].item.demoHash != chosen[j].item.demoHash && NoLater(chosen[i].item, chosen[j].item))
    && (forall item, v :: item in history && Qualifies(goal, item, v) ==>
          || (exists k :: 0 <= k < |chosen| && chosen[k].item.demoHash == item.demoHash && NoLater(chosen[k].item, item))
          || (|chosen| == 10 && forall k :: 0 <= k < |chosen| ==> NoLater(chosen[k].item, item)))
  }

  ghost predicate Stood(chosen: seq<Selected>, c: Selected) {
    || (exists k :: 0 <= k < |chosen| && chosen[k].item.demoHash == c.item.demoHash && EarlierLe(chosen[k], c))
    || (|chosen| == 10 && forall k :: 0 <= k < |chosen| ==> EarlierLe(chosen[k], c))
  }

  lemma SelectionIsEarliest(cs: seq<Selected>)
    ensures var chosen := GoalSelection(cs);
      && |chosen| <= 10 && Sorted(chosen, EarlierLe) && DistinctDemos(chosen)
      && (forall s :: s in chosen ==> s in cs)
      && (forall c :: c in cs ==> Stood(chosen, c))
  {
    var sorted := StableSort(cs, EarlierLe);
    EarlierOrder();
    SortSorts(cs, EarlierLe);
    SameElements(sorted, cs);
    FirstPerDemoSorted(sorted, {}, EarlierLe);
    FirstPerDemoMembers(sorted, {});
    hide EarlierLe;
    hide StableSort;
    hide FirstPerDemo;
    hide Stood;
    var demos := FirstPerDemo(sorted, {});
    forall c | c in cs
      ensures Stood(GoalSelection(cs), c)
    {
      var i :| 0 <= i < |sorted| && sorted[i] == c;
      var k := Representative(sorted, {}, EarlierLe, i);
      TenStand(demos, c, k);
    }
  }

  lemma TenStand(demos: seq<Selected>, c: Selected, k: nat)
    requires Preorder(EarlierLe) && Sorted(demos, EarlierLe)
    requires k < |demos| && demos[k].item.demoHash == c.item.demoHash && EarlierLe(demos[k], c)
    ensures Stood(FirstTen(demos), c)
  {
    hide EarlierLe;
    var chosen := FirstTen(demos);
    if k < |chosen| {
      assert chosen[k] == demos[k];
    } else {
      forall j | 0 <= j < |chosen|
        ensures EarlierLe(chosen[j], c)
      {
        assert chosen[j] == demos[j] && EarlierLe(demos[j], demos[k]);
      }
    }
  }

  lemma {:induction false} SelectionIsEarliestTen(goal: Goal, history: seq<HistoryMatch>)
    ensures EarliestTen(goal, history, GoalSelection(Admissions(history, JudgeForGoal(goal))))
  {
    hide GoalSelection;
    hide JudgeForGoal;
    hide Qualifies;
    hide NoLater;
    hide EarlierLe;
    var judge := JudgeForGoal(goal);
    var cs := Admissions(history, judge);
    var chosen := GoalSelection(cs);
    AdmissionsAre(history, judge);
    hide Admissions;
    SelectionIsEarliest(cs);
    forall s: Selected | s in cs
      ensures s.item in history && Qualifies(goal, s.item, s.value) && s.item.interval.Some?
    {
      QualifiesIff(goal, s.item);
      QualifiedTimed(goal, s.item, s.value);
    }
    forall a: Selected, b: Selected | a in cs && b in cs
      ensures EarlierLe(a, b) <==> NoLater(a.item, b.item)
    {
      NoLaterIsEarlier(a, b);
    }
    forall item: HistoryMatch, v: Rational | item in history && Qualifies(goal, item, v)
      ensures || (exists k :: 0 <= k < |chosen| && chosen[k].item.demoHash == item.demoHash && NoLater(chosen[k].item, item))
              || (|chosen| == 10 && forall k :: 0 <= k < |chosen| ==> NoLater(chosen[k].item, item))
    {
      QualifiesIff(goal, item);
      var c := Selected(item, v);
      assert c in cs;
      assert Stood(chosen, c);
    }
  }

  lemma QualifiedTimed(goal: Goal, item: HistoryMatch, v: Rational)
    requires Qualifies(goal, item, v)
    ensures item.interval.Some?
  {
  }

  lemma AtMostTen(goal: Goal, history: seq<HistoryMatch>, chosen: seq<Selected>)
    requires EarliestTen(goal, history, chosen)
    ensures |chosen| <= 10
  {
  }

  /** What a receipt of an active goal says: its lists are those of one selection of the earliest
      ten, the median is theirs, and the status follows from their number and the target. */
  lemma EvaluationReceipt(goal: Goal, activeSeries: string, history: seq<HistoryMatch>) returns (chosen: seq<Selected>)
    requires !goal.cancelled && goal.series == activeSeries && Evaluate(goal, activeSeries, history).Ok?
    ensures EarliestTen(goal, history, chosen)
    ensures var r, n := Evaluate(goal, activeSeries, history).value, |chosen|;
      && r.goalId == goal.id
      && |r.selectedMatchIds| == |r.selectedDemoHashes| == n
      && (forall i :: 0 <= i < n ==>
            r.selectedMatchIds[i] == chosen[i].item.matchId && r.selectedDemoHashes[i] == chosen[i].item.demoHash)
      && (n == 0 <==> r.evaluationMedian.None?)
      && (n > 0 ==> Median(Values(chosen)) == Ok(r.evaluationMedian.value))
      && (n < 10 <==> r.status == InProgress(n, 10))
      && (r.status == Achieved <==> n == 10 && Value(goal.target) <= Value(r.evaluationMedian.value))
      && (r.status == NotAchieved <==> n == 10 && Value(goal.target) > Value(r.evaluationMedian.value))
  {
    hide Admissions;
    hide Rejections;
    hide GoalSelection;
    hide EarliestTen;
    hide StableSort;
    hide Median;
    hide Value;
    hide RatLe;
    chosen := GoalSelection(Admissions(history, JudgeForGoal(goal)));
    SelectionIsEarliestTen(goal, history);
    AtMostTen(goal, history, chosen);
    RatOrder();
  }

  /** A cancelled goal, or one of another series, is answered without looking at the history. */
  lemma InactiveGoals(goal: Goal, activeSeries: string, history: seq<HistoryMatch>)
    ensures goal.cancelled ==> Evaluate(goal, activeSeries, history) == Ok(GoalReceipt(goal.id, Cancelled, [], [], [], None))
    ensures !goal.cancelled && goal.series != activeSeries ==>
              Evaluate(goal, activeSeries, history) == Ok(GoalReceipt(goal.id, VersionChanged, [], [], [], None))
  {
  }

  ghost predicate IsCandidate(goal: Goal, item: HistoryMatch) {
    exists v :: Qualifies(goal, item, v)
  }

  /** Two candidates at different places of the history are copies of one demo. */
  ghost predicate CopiedCandidate(goal: Goal, history: seq<HistoryMatch>, hash: string) {
    exists i, j :: 0 <= i < j < |history| && history[i].demoHash == hash && history[j].demoHash == hash
      && IsCandidate(goal, history[i]) && IsCandidate(goal, history[j])
  }

  /** Every exclusion of an evaluation has its cause: the match is disqualified, or its demo has been
      counted with another of its copies. */
  lemma GoalExclusionsHaveCauses(goal: Goal, activeSeries: string, history: seq<HistoryMatch>, x: CohortExclusion)
    returns (item: HistoryMatch)
    requires !goal.cancelled && goal.series == activeSeries && Evaluate(goal, activeSeries, history).Ok?
    requires x in Evaluate(goal, activeSeries, history).value.exclusions
    ensures item in history && item.matchId == x.matchId
    ensures || Disqualified(goal, item, x.reason)
            || (x.reason == DuplicateDemo && CopiedCandidate(goal, history, item.demoHash))
  {
    hide JudgeForGoal;
    hide Disqualified;
    hide Qualifies;
    hide EarlierLe;
    hide Median;
    hide FirstTen;
    var judge := JudgeForGoal(goal);
    var cs := Admissions(history, judge);
    if x in Rejections(history, judge) {
      item := RejectionOf(history, judge, x);
      QualifiesIff(goal, item);
    } else {
      var sorted := StableSort(cs, EarlierLe);
      assert x in Repeats(sorted, {});
      var s := RepeatOf(sorted, {}, x);
      EarlierOrder();
      FilterSort(cs, EarlierLe, OfDemo(s.item.demoHash));
      SameElements(sorted, cs);
      AdmissionsAre(history, judge);
      item := s.item;
      var i, j := TwoAdmitted(history, judge, s.item.demoHash);
      QualifiesIff(goal, history[i]);
      QualifiesIff(goal, history[j]);
    }
  }
}
