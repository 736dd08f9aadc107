/** Grouping matches into sessions (`group_sessions` in crates/openfrag-domain/src/baseline.rs). */
module Sessions {
  import opened Prelude
  import opened Ordering
  import opened Baseline

  const SESSION_GAP_MS: int := 90 * 60 * 1_000

  datatype Session = Session(matchIds: seq<string>, start: u64, end: u64)

  datatype SessionGrouping = SessionGrouping(sessions: seq<Session>, exclusions: seq<CohortExclusion>)

  /** A match with a well-formed interval. */
  datatype Timed = Timed(item: HistoryMatch, start: u64, end: u64)

  predicate TimedLe(a: Timed, b: Timed) {
    if a.start != b.start then a.start < b.start
    else if a.end != b.end then a.end < b.end
    else StrLe(a.item.demoHash, b.item.demoHash)
  }

  lemma TimedOrder()
    ensures Preorder(TimedLe)
  {
    var byHash := (a: Timed, b: Timed) => StrLe(a.item.demoHash, b.item.demoHash);
    var byEnd := (a: Timed, b: Timed) => if a.end != b.end then a.end < b.end else byHash(a, b);
    TextOrder((t: Timed) => t.item.demoHash, byHash);
    NumberThen((t: Timed) => t.end, byHash, byEnd);
    NumberThen((t: Timed) => t.start, byEnd, TimedLe);
  }

  function Chronology(item: HistoryMatch): Option<CohortExclusionReason> {
    if item.interval.None? then Some(MissingChronology)
    else if item.interval.value.start > item.interval.value.end then Some(ReversedChronology)
    else None
  }

  function TimedMatches(history: seq<HistoryMatch>): seq<Timed> {
    if history == [] then []
    else if Chronology(history[0]).Some? then TimedMatches(history[1..])
    else [Timed(history[0], history[0].interval.value.start, history[0].interval.value.end)] + TimedMatches(history[1..])
  }

  lemma {:induction false} TimedMatchesAre(history: seq<HistoryMatch>)
    ensures forall t :: t in TimedMatches(history) ==>
              t.start <= t.end && t.item in history && t.item.interval == Some(MatchInterval(t.start, t.end))
  {
    if history != [] {
      TimedMatchesAre(history[1..]);
    }
  }

  function Untimed(history: seq<HistoryMatch>): seq<CohortExclusion> {
    if history == [] then []
    else if Chronology(history[0]).Some? then
      [CohortExclusion(history[0].matchId, Chronology(history[0]).value)] + Untimed(history[1..])
    else Untimed(history[1..])
  }

  // ----- The grouping loop, on the matches themselves

  /** The sessions built so far, as the matches they hold, and the matches that overlapped. */
  datatype Groups = Groups(sessions: seq<seq<Timed>>, overlaps: seq<Timed>)

  function Last<T>(s: seq<T>): T
    requires s != []
  {
    s[|s| - 1]
  }

  predicate NonEmpty(g: Groups) {
    forall i :: 0 <= i < |g.sessions| ==> g.sessions[i] != []
  }

  /** The match kept last. */
  function LastKept(g: Groups): Timed
    requires g.sessions != [] && NonEmpty(g)
  {
    Last(Last(g.sessions))
  }

  function Place(g: Groups, t: Timed): (r: Groups)
    requires NonEmpty(g)
    ensures NonEmpty(r)
  {
    if g.sessions == [] then g.(sessions := [[t]])
    else
      var n := |g.sessions| - 1;
      var end := LastKept(g).end;
      if t.start <= end then g.(overlaps := g.overlaps + [t])
      else if t.start - end <= SESSION_GAP_MS then g.(sessions := g.sessions[..n] + [g.sessions[n] + [t]])
      else g.(sessions := g.sessions + [[t]])
  }

  /** All matches placed, in order. */
  function PlaceAll(ts: seq<Timed>): (g: Groups)
    ensures NonEmpty(g)
  {
    if ts == [] then Groups([], []) else Place(PlaceAll(ts[..|ts| - 1]), Last(ts))
  }

  function ToSession(s: seq<Timed>): Session
    requires s != []
  {
    Session(seq(|s|, i requires 0 <= i < |s| => s[i].item.matchId), s[0].start, Last(s).end)
  }

  function ToSessions(g: Groups): (r: seq<Session>)
    requires NonEmpty(g)
    ensures |r| == |g.sessions| && forall i :: 0 <= i < |r| ==> r[i] == ToSession(g.sessions[i])
  {
    seq(|g.sessions|, i requires 0 <= i < |g.sessions| => ToSession(g.sessions[i]))
  }

  function OverlapExclusions(ts: seq<Timed>): (r: seq<CohortExclusion>)
    ensures |r| == |ts|
    ensures forall i :: 0 <= i < |ts| ==> r[i] == CohortExclusion(ts[i].item.matchId, OverlappingChronology)
  {
    seq(|ts|, i requires 0 <= i < |ts| => CohortExclusion(ts[i].item.matchId, OverlappingChronology))
  }

  function Grouped(history: seq<HistoryMatch>): Groups {
    PlaceAll(StableSort(TimedMatches(history), TimedLe))
  }

  function GroupSessionsOf(history: seq<HistoryMatch>): SessionGrouping {
    SessionGrouping(ToSessions(Grouped(history)), Untimed(history) + OverlapExclusions(Grouped(history).overlaps))
  }

  /** The program: only the session records are kept, and the last one is updated in place. */
  method GroupSessions(history: seq<HistoryMatch>) returns (r: SessionGrouping)
    ensures r == GroupSessionsOf(history)
  {
    var valid, exclusions := SplitByChronology(history);
    var sorted := StableSort(valid, TimedLe);
    var sessions, overlaps := PlaceInOrder(sorted);
    return SessionGrouping(sessions, exclusions + overlaps);
  }

  method SplitByChronology(history: seq<HistoryMatch>) returns (valid: seq<Timed>, exclusions: seq<CohortExclusion>)
    ensures valid == TimedMatches(history) && exclusions == Untimed(history)
  {
    valid, exclusions := [], [];
    var i := 0;
    while i < |history|
      invariant 0 <= i <= |history|
      invariant valid == TimedMatches(history[..i])
      invariant exclusions == Untimed(history[..i])
    {
      var item := history[i];
      ChronologyNext(history[..i], item);
      assert history[..i + 1] == history[..i] + [item];
      if item.interval.None? {
        exclusions := exclusions + [CohortExclusion(item.matchId, MissingChronology)];
      } else if item.interval.value.start > item.interval.value.end {
        exclusions := exclusions + [CohortExclusion(item.matchId, ReversedChronology)];
      } else {
        valid := valid + [Timed(item, item.interval.value.start, item.interval.value.end)];
      }
      i := i + 1;
    }
    assert history[..|history|] == history;
  }

  lemma {:induction false} ChronologyNext(before: seq<HistoryMatch>, item: HistoryMatch)
    ensures TimedMatches(before + [item]) == TimedMatches(before) +
            (if Chronology(item).Some? then [] else [Timed(item, item.interval.value.start, item.interval.value.end)])
    ensures Untimed(before + [item]) == Untimed(before) +
            (if Chronology(item).Some? then [CohortExclusion(item.matchId, Chronology(item).value)] else [])
  {
    TimedConcat(before, [item]);
    UntimedConcat(before, [item]);
    assert [item][1..] == [];
  }

  lemma {:induction false} TimedConcat(a: seq<HistoryMatch>, b: seq<HistoryMatch>)
    ensures TimedMatches(a + b) == TimedMatches(a) + TimedMatches(b)
  {
    if a == [] {
      assert a + b == b;
    } else {
      assert (a + b)[1..] == a[1..] + b;
      TimedConcat(a[1..], b);
    }
  }

  lemma {:induction false} UntimedConcat(a: seq<HistoryMatch>, b: seq<HistoryMatch>)
    ensures Untimed(a + b) == Untimed(a) + Untimed(b)
  {
    if a == [] {
      assert a + b == b;
    } else {
      assert (a + b)[1..] == a[1..] + b;
      UntimedConcat(a[1..], b);
    }
  }

  /** What placing a match does to the published records. */
  lemma PublishedPlace(g: Groups, t: Timed)
    requires NonEmpty(g)
    ensures var before, after := ToSessions(g), ToSessions(Place(g, t)); var n := |before| - 1;
      if before != [] && t.start <= before[n].end then
        after == before && OverlapExclusions(Place(g, t).overlaps) ==
                        OverlapExclusions(g.overlaps) + [CohortExclusion(t.item.matchId, OverlappingChronology)]
      else if before != [] && t.start - before[n].end <= SESSION_GAP_MS then
        after == before[n := Session(before[n].matchIds + [t.item.matchId], before[n].start, t.end)] &&
        Place(g, t).overlaps == g.overlaps
      else
        after == before + [Session([t.item.matchId], t.start, t.end)] && Place(g, t).overlaps == g.overlaps
  {
    var n := |g.sessions| - 1;
    if g.sessions == [] {
      assert ToSession([t]) == Session([t.item.matchId], t.start, t.end);
    } else if t.start <= LastKept(g).end {
    } else if t.start - LastKept(g).end <= SESSION_GAP_MS {
      var s := g.sessions[n];
      assert ToSession(s + [t]) == Session(ToSession(s).matchIds + [t.item.matchId], s[0].start, t.end);
    } else {
      assert ToSession([t]) == Session([t.item.matchId], t.start, t.end);
    }
  }

  method PlaceInOrder(sorted: seq<Timed>) returns (sessions: seq<Session>, exclusions: seq<CohortExclusion>)
    ensures sessions == ToSessions(PlaceAll(sorted))
    ensures exclusions == OverlapExclusions(PlaceAll(sorted).overlaps)
  {
    sessions, exclusions := [], [];
    var i := 0;
    while i < |sorted|
      invariant 0 <= i <= |sorted|
      invariant sessions == ToSessions(PlaceAll(sorted[..i]))
      invariant exclusions == OverlapExclusions(PlaceAll(sorted[..i]).overlaps)
    {
      var t := sorted[i];
      ghost var g := PlaceAll(sorted[..i]);
      assert sorted[..i + 1][..i] == sorted[..i] && Last(sorted[..i + 1]) == t;
      assert PlaceAll(sorted[..i + 1]) == Place(g, t);
      PublishedPlace(g, t);
      i := i + 1;
      if sessions != [] {
        var n := |sessions| - 1;
        var current := sessions[n];
        if t.start <= current.end {
          exclusions := exclusions + [CohortExclusion(t.item.matchId, OverlappingChronology)];
          continue;
        }
        if t.start - current.end <= SESSION_GAP_MS {
          sessions := sessions[n := Session(current.matchIds + [t.item.matchId], current.start, t.end)];
          continue;
        }
      }
      sessions := sessions + [Session([t.item.matchId], t.start, t.end)];
    }
    assert sorted[..|sorted|] == sorted;
  }

  // ----- What the grouping guarantees

  /** The kept matches in order. */
  function Kept(sessions: seq<seq<Timed>>): seq<Timed> {
    if sessions == [] then [] else Kept(sessions[..|sessions| - 1]) + Last(sessions)
  }

  /** Inside a session each match starts after the previous one ended, at most 90 minutes later. */
  ghost predicate Continuous(s: seq<Timed>) {
    && (forall i :: 0 <= i < |s| ==> s[i].start <= s[i].end)
    && (forall i :: 0 < i < |s| ==> 0 < s[i].start - s[i - 1].end <= SESSION_GAP_MS)
  }

  /** Successive sessions are more than 90 minutes apart. */
  ghost predicate Separated(sessions: seq<seq<Timed>>)
    requires forall i :: 0 <= i < |sessions| ==> sessions[i] != []
  {
    forall i :: 0 < i < |sessions| ==> sessions[i][0].start - Last(sessions[i - 1]).end > SESSION_GAP_MS
  }

  /** Any two matches are disjoint and in order. */
  ghost predicate Apart(ts: seq<Timed>) {
    && (forall i :: 0 <= i < |ts| ==> ts[i].start <= ts[i].end)
    && (forall i, j :: 0 <= i < j < |ts| ==> ts[i].end < ts[j].start)
  }

  /** The start of `o` lies inside the `k`-th match, which comes before `o`; the next one starts later. */
  ghost predicate HeldBy(ts: seq<Timed>, k: nat, o: Timed) {
    && k < |ts| && TimedLe(ts[k], o) && o.start <= ts[k].end
    && forall j :: k < j < |ts| ==> o.start < ts[j].start
  }

  /** Every excluded overlap starts inside the last match that was kept before it. */
  ghost predicate OverlapsKept(g: Groups) {
    forall o :: o in g.overlaps ==> exists k :: HeldBy(Kept(g.sessions), k, o)
  }

  ghost predicate GroupsSound(g: Groups) {
    && NonEmpty(g)
    && (forall i :: 0 <= i < |g.sessions| ==> Continuous(g.sessions[i]))
    && Separated(g.sessions)
    && Apart(Kept(g.sessions))
    && OverlapsKept(g)
  }

  lemma {:induction false} KeptPush(sessions: seq<seq<Timed>>, s: seq<Timed>)
    ensures Kept(sessions + [s]) == Kept(sessions) + s
  {
    assert (sessions + [s])[..|sessions|] == sessions;
  }

  lemma Associate<T>(a: seq<T>, b: seq<T>, c: seq<T>)
    ensures a + (b + c) == (a + b) + c
  {
  }

  lemma {:induction false} KeptExtend(sessions: seq<seq<Timed>>, t: Timed)
    requires sessions != []
    ensures var n := |sessions| - 1;
      Kept(sessions[..n] + [sessions[n] + [t]]) == Kept(sessions) + [t]
  {
    hide Kept;
    var front, last := sessions[..|sessions| - 1], sessions[|sessions| - 1];
    KeptPush(front, last + [t]);
    KeptPush(front, last);
    assert front + [last] == sessions;
    Associate(Kept(front), last, [t]);
  }

  /** Keeping more matches keeps the overlaps justified. */
  lemma {:induction false} StillOverlapsKept(g: Groups, sessions: seq<seq<Timed>>, t: Timed)
    requires OverlapsKept(g) && Kept(sessions) == Kept(g.sessions) + [t]
    requires Apart(Kept(g.sessions)) && t.start <= t.end
    requires var kept := Kept(g.sessions); kept != [] ==> Last(kept).end < t.start
    ensures OverlapsKept(g.(sessions := sessions)) && Apart(Kept(sessions))
  {
    hide Kept;
    hide TimedLe;
    var kept := Kept(g.sessions);
    forall o | o in g.overlaps
      ensures exists k :: HeldBy(Kept(sessions), k, o)
    {
      var k: nat :| HeldBy(kept, k, o);
      assert HeldBy(Kept(sessions), k, o);
    }
  }

  lemma LastOfKept(g: Groups)
    requires NonEmpty(g) && g.sessions != []
    ensures Kept(g.sessions) != [] && Last(Kept(g.sessions)) == LastKept(g)
  {
  }

  lemma SeparatedPush(sessions: seq<seq<Timed>>, s: seq<Timed>)
    requires s != [] && (forall i :: 0 <= i < |sessions| ==> sessions[i] != []) && Separated(sessions)
    requires sessions != [] ==> s[0].start - Last(Last(sessions)).end > SESSION_GAP_MS
    ensures Separated(sessions + [s])
  {
    var longer: seq<seq<Timed>> := sessions + [s];
    forall i | 0 < i < |longer|
      ensures longer[i][0].start - Last(longer[i - 1]).end > SESSION_GAP_MS
    {
      assert longer[i - 1] == sessions[i - 1];
      if i < |sessions| {
        assert longer[i] == sessions[i];
      }
    }
  }

  /** Placing a match after a long gap opens a session. */
  lemma OpenSound(g: Groups, t: Timed)
    requires GroupsSound(g) && t.start <= t.end
    requires g.sessions != [] ==> t.start - LastKept(g).end > SESSION_GAP_MS
    ensures GroupsSound(g.(sessions := g.sessions + [[t]]))
  {
    if g.sessions != [] {
      LastOfKept(g);
    }
    KeptPush(g.sessions, [t]);
    StillOverlapsKept(g, g.sessions + [[t]], t);
    SeparatedPush(g.sessions, [t]);
    assert Continuous([t]);
    hide OverlapsKept;
    hide Separated;
    hide Continuous;
  }

  /** Placing a match soon after the last one extends the session. */
  lemma ExtendSound(g: Groups, t: Timed)
    requires GroupsSound(g) && t.start <= t.end && g.sessions != []
    requires 0 < t.start - LastKept(g).end <= SESSION_GAP_MS
    ensures var n := |g.sessions| - 1; GroupsSound(g.(sessions := g.sessions[..n] + [g.sessions[n] + [t]]))
  {
    hide OverlapsKept;
    hide Separated;
    hide Continuous;
    hide Apart;
    hide Kept;
    LastOfKept(g);
    var n := |g.sessions| - 1;
    var front, last := g.sessions[..n], g.sessions[n];
    KeptExtend(g.sessions, t);
    StillOverlapsKept(g, front + [last + [t]], t);
    ContinuousPush(last, t);
    SeparatedFront(g.sessions);
    SeparatedPush(front, last + [t]);
  }

  lemma ContinuousPush(s: seq<Timed>, t: Timed)
    requires s != [] && Continuous(s) && t.start <= t.end
    requires 0 < t.start - Last(s).end <= SESSION_GAP_MS
    ensures Continuous(s + [t])
  {
  }

  lemma SeparatedFront(sessions: seq<seq<Timed>>)
    requires sessions != [] && (forall i :: 0 <= i < |sessions| ==> sessions[i] != []) && Separated(sessions)
    ensures var front := sessions[..|sessions| - 1];
      && Separated(front)
      && (front != [] ==> sessions[|sessions| - 1][0].start - Last(Last(front)).end > SESSION_GAP_MS)
  {
  }

  /** A match that starts inside the last one is excluded. */
  lemma OverlapSound(g: Groups, t: Timed)
    requires GroupsSound(g) && g.sessions != [] && TimedLe(LastKept(g), t) && t.start <= LastKept(g).end
    ensures GroupsSound(g.(overlaps := g.overlaps + [t]))
  {
    hide TimedLe;
    LastOfKept(g);
    hide Kept;
    assert HeldBy(Kept(g.sessions), |Kept(g.sessions)| - 1, t);
  }

  /** The matches kept or excluded after placing `t`, and the last one kept. */
  lemma PlaceAdds(g: Groups, t: Timed)
    requires NonEmpty(g)
    ensures var r := Place(g, t);
      || (Kept(r.sessions) == Kept(g.sessions) + [t] && r.overlaps == g.overlaps && r.sessions != [] && LastKept(r) == t)
      || (r.sessions == g.sessions && r.overlaps == g.overlaps + [t])
  {
    hide Kept;
    KeptPush(g.sessions, [t]);
    assert Last(g.sessions + [[t]]) == [t];
    var r := Place(g, t);
    if g.sessions == [] {
      assert r.sessions == g.sessions + [[t]];
    } else if t.start <= LastKept(g).end {
      assert r.sessions == g.sessions && r.overlaps == g.overlaps + [t];
    } else {
      var n := |g.sessions| - 1;
      var longer := g.sessions[n] + [t];
      KeptExtend(g.sessions, t);
      assert Last(g.sessions[..n] + [longer]) == longer;
      assert Last(longer) == t;
      assert r.sessions == g.sessions[..n] + [longer] || r.sessions == g.sessions + [[t]];
      assert r.overlaps == g.overlaps;
    }
  }

  lemma PlaceSound(g: Groups, t: Timed)
    requires GroupsSound(g) && t.start <= t.end
    requires g.sessions != [] ==> TimedLe(LastKept(g), t)
    ensures GroupsSound(Place(g, t))
  {
    hide Apart;
    hide Continuous;
    hide Separated;
    hide OverlapsKept;
    if g.sessions == [] {
      OpenSound(g, t);
      assert g.sessions + [[t]] == [[t]];
    } else if t.start <= LastKept(g).end {
      OverlapSound(g, t);
    } else if t.start - LastKept(g).end <= SESSION_GAP_MS {
      ExtendSound(g, t);
    } else {
      OpenSound(g, t);
    }
  }

  lemma {:induction false} PlaceAllSound(ts: seq<Timed>)
    requires Sorted(ts, TimedLe)
    requires forall t :: t in ts ==> t.start <= t.end
    ensures GroupsSound(PlaceAll(ts))
    ensures PlaceAll(ts).sessions != [] ==> LastKept(PlaceAll(ts)) in ts
  {
    hide GroupsSound;
    hide Place;
    if ts != [] {
      var before, t := ts[..|ts| - 1], Last(ts);
      assert ts == before + [t];
      PlaceAllSound(before);
      var g := PlaceAll(before);
      if g.sessions != [] {
        var i :| 0 <= i < |before| && before[i] == LastKept(g);
        assert TimedLe(ts[i], ts[|ts| - 1]);
      }
      PlaceSound(g, t);
      PlaceAdds(g, t);
    } else {
      EmptySound();
    }
  }

  lemma EmptySound()
    ensures GroupsSound(Groups([], []))
  {
  }

  /** The grouping of any history: sessions are continuous runs more than 90 minutes apart, all kept
      matches are disjoint, and each one excluded for overlap starts inside the last match kept
      before it. */
  lemma GroupingSound(history: seq<HistoryMatch>)
    ensures GroupsSound(Grouped(history))
  {
    var sorted := StableSort(TimedMatches(history), TimedLe);
    TimedOrder();
    SortSorts(TimedMatches(history), TimedLe);
    SameElements(sorted, TimedMatches(history));
    TimedMatchesAre(history);
    hide StableSort;
    hide TimedLe;
    hide GroupsSound;
    PlaceAllSound(sorted);
  }

  /** Any two matches of one session are disjoint in time. */
  lemma {:induction false} SessionDisjoint(s: seq<Timed>, i: nat, j: nat)
    requires Continuous(s) && i < j < |s|
    ensures s[i].end < s[j].start
    decreases j
  {
    if i < j - 1 {
      SessionDisjoint(s, i, j - 1);
    }
  }

  // ----- Conservation of match identifiers in the published grouping

  function SessionIds(sessions: seq<Session>): multiset<string> {
    if sessions == [] then multiset{}
    else SessionIds(sessions[..|sessions| - 1]) + multiset(Last(sessions).matchIds)
  }

  function TimedIds(ts: seq<Timed>): multiset<string> {
    if ts == [] then multiset{} else multiset{ts[0].item.matchId} + TimedIds(ts[1..])
  }

  lemma {:induction false} TimedIdsConcat(a: seq<Timed>, b: seq<Timed>)
    ensures TimedIds(a + b) == TimedIds(a) + TimedIds(b)
  {
    if a == [] {
      assert a + b == b;
    } else {
      assert (a + b)[1..] == a[1..] + b;
      TimedIdsConcat(a[1..], b);
    }
  }

  lemma {:induction false} TimedIdsInsert(x: Timed, ts: seq<Timed>)
    ensures TimedIds(Insert(x, ts, TimedLe)) == multiset{x.item.matchId} + TimedIds(ts)
  {
    hide TimedLe;
    if ts == [] {
      assert [x][1..] == [];
    } else if TimedLe(x, ts[0]) {
      assert ([x] + ts)[1..] == ts;
    } else {
      TimedIdsInsert(x, ts[1..]);
      assert ([ts[0]] + Insert(x, ts[1..], TimedLe))[1..] == Insert(x, ts[1..], TimedLe);
    }
  }

  lemma {:induction false} TimedIdsSort(ts: seq<Timed>)
    ensures TimedIds(StableSort(ts, TimedLe)) == TimedIds(ts)
  {
    hide TimedLe;
    if ts != [] {
      TimedIdsSort(ts[1..]);
      TimedIdsInsert(ts[0], StableSort(ts[1..], TimedLe));
    }
  }

  lemma {:induction false} PublishedIds(s: seq<Timed>)
    requires s != []
    ensures multiset(ToSession(s).matchIds) == TimedIds(s)
    decreases |s|
  {
    assert [s[0]] + s[1..] == s;
    if |s| == 1 {
      assert ToSession(s).matchIds == [s[0].item.matchId];
      assert TimedIds(s[1..]) == multiset{};
    } else {
      PublishedIds(s[1..]);
      assert ToSession(s).matchIds == [s[0].item.matchId] + ToSession(s[1..]).matchIds;
    }
  }

  lemma {:induction false} KeptIds(g: Groups)
    requires NonEmpty(g)
    ensures TimedIds(Kept(g.sessions)) == SessionIds(ToSessions(g))
    decreases |g.sessions|
  {
    if g.sessions != [] {
      var n := |g.sessions| - 1;
      var front := Groups(g.sessions[..n], g.overlaps);
      KeptIds(front);
      assert ToSessions(g)[..n] == ToSessions(front);
      TimedIdsConcat(Kept(front.sessions), g.sessions[n]);
      PublishedIds(g.sessions[n]);
    }
  }

  lemma {:induction false} OverlapIds(ts: seq<Timed>)
    ensures ExcludedIds(OverlapExclusions(ts)) == TimedIds(ts)
  {
    if ts != [] {
      OverlapIds(ts[1..]);
      assert OverlapExclusions(ts)[1..] == OverlapExclusions(ts[1..]);
    }
  }

  lemma {:induction false} ChronologyIds(history: seq<HistoryMatch>)
    ensures HistoryIds(history) == TimedIds(TimedMatches(history)) + ExcludedIds(Untimed(history))
  {
    if history != [] {
      ChronologyIds(history[1..]);
      if Chronology(history[0]).Some? {
        assert Untimed(history)[1..] == Untimed(history[1..]);
      } else {
        assert TimedMatches(history)[1..] == TimedMatches(history[1..]);
        assert Untimed(history) == Untimed(history[1..]);
      }
    }
  }

  lemma {:induction false} PlaceAllIds(ts: seq<Timed>)
    ensures TimedIds(ts) == TimedIds(Kept(PlaceAll(ts).sessions)) + TimedIds(PlaceAll(ts).overlaps)
  {
    hide Place;
    if ts != [] {
      var before, t := ts[..|ts| - 1], Last(ts);
      assert ts == before + [t];
      var g := PlaceAll(before);
      PlaceAllIds(before);
      PlaceAdds(g, t);
      TimedIdsConcat(before, [t]);
      TimedIdsConcat(Kept(g.sessions), [t]);
      TimedIdsConcat(g.overlaps, [t]);
    }
  }

  /** Every match of the history is in exactly one session or one exclusion. */
  lemma {:induction false} GroupingConserves(history: seq<HistoryMatch>)
    ensures HistoryIds(history) ==
            SessionIds(GroupSessionsOf(history).sessions) + ExcludedIds(GroupSessionsOf(history).exclusions)
  {
    hide StableSort;
    hide PlaceAll;
    hide TimedIds;
    hide HistoryIds;
    hide ExcludedIds;
    hide SessionIds;
    var g := Grouped(history);
    ChronologyIds(history);
    TimedIdsSort(TimedMatches(history));
    PlaceAllIds(StableSort(TimedMatches(history), TimedLe));
    KeptIds(g);
    OverlapIds(g.overlaps);
    ExcludedConcat(Untimed(history), OverlapExclusions(g.overlaps));
  }

  // ----- What the published grouping says, field by field

  ghost predicate WellTimed(item: HistoryMatch) {
    item.interval.Some? && item.interval.value.start <= item.interval.value.end
  }

  /** `a` started earlier than `b`, or ended earlier, or has the smaller hash, or they agree. */
  ghost predicate Sooner(a: HistoryMatch, b: HistoryMatch)
    requires WellTimed(a) && WellTimed(b)
  {
    var x, y := a.interval.value, b.interval.value;
    || x.start < y.start
    || (x.start == y.start && x.end < y.end)
    || (x.start == y.start && x.end == y.end && Alphabetical(a.demoHash, b.demoHash))
  }

  /** The match starts inside a sooner one of these. */
  ghost predicate Covered(ids: seq<HistoryMatch>, item: HistoryMatch) {
    && WellTimed(item)
    && exists k :: 0 <= k < |ids| && WellTimed(ids[k]) && Sooner(ids[k], item)
                   && item.interval.value.start <= ids[k].interval.value.end
  }

  /** A session lists these matches, in order: each starts after the last one ended, at most ninety
      minutes later. */
  ghost predicate IsSession(s: Session, items: seq<HistoryMatch>) {
    && items != [] && |s.matchIds| == |items|
    && (forall i :: 0 <= i < |items| ==> WellTimed(items[i]) && s.matchIds[i] == items[i].matchId)
    && s.start == items[0].interval.value.start && s.end == items[|items| - 1].interval.value.end
    && forall i :: 0 < i < |items| ==>
         0 < items[i].interval.value.start - items[i - 1].interval.value.end <= 5_400_000
  }

  /** Why a match is in no session. */
  ghost predicate LeftOut(kept: seq<HistoryMatch>, item: HistoryMatch, reason: CohortExclusionReason) {
    match reason
    case MissingChronology => item.interval.None?
    case ReversedChronology => item.interval.Some? && item.interval.value.end < item.interval.value.start
    case OverlappingChronology => Covered(kept, item)
    case _ => false
  }

  function ItemsOf(ts: seq<Timed>): (r: seq<HistoryMatch>)
    ensures |r| == |ts| && forall i :: 0 <= i < |ts| ==> r[i] == ts[i].item
  {
    seq(|ts|, i requires 0 <= i < |ts| => ts[i].item)
  }

  ghost predicate Faithful(t: Timed) {
    t.item.interval == Some(MatchInterval(t.start, t.end)) && t.start <= t.end
  }

  lemma SoonerIff(a: Timed, b: Timed)
    requires Faithful(a) && Faithful(b)
    ensures TimedLe(a, b) <==> Sooner(a.item, b.item)
  {
    StrLeIff(a.item.demoHash, b.item.demoHash);
    hide StrLe;
    hide Alphabetical;
  }

  lemma {:induction false} PlaceAllMembers(ts: seq<Timed>)
    ensures var g := PlaceAll(ts); forall t :: t in ts <==> t in Kept(g.sessions) || t in g.overlaps
  {
    hide Place;
    hide Kept;
    if ts == [] {
      NothingKept();
    } else {
      var before := ts[..|ts| - 1];
      PlaceAllMembers(before);
      PlaceAdds(PlaceAll(before), Last(ts));
      assert ts == before + [Last(ts)];
    }
  }

  lemma NothingKept()
    ensures Kept([]) == []
  {
  }

  lemma {:induction false} KeptMembers(sessions: seq<seq<Timed>>, i: nat, t: Timed)
    requires i < |sessions| && t in sessions[i]
    ensures t in Kept(sessions)
    decreases |sessions|
  {
    var front := sessions[..|sessions| - 1];
    if i < |front| {
      assert front[i] == sessions[i];
      KeptMembers(front, i, t);
    }
  }

  /** What a grouping does with every match that takes part. */
  lemma GroupsAre(history: seq<HistoryMatch>)
    ensures var g := Grouped(history); var kept := Kept(g.sessions);
      && GroupsSound(g)
      && (forall t :: t in kept || t in g.overlaps ==> Faithful(t) && t.item in history)
      && (forall item :: item in history && WellTimed(item) ==>
            exists t: Timed :: t.item == item && (t in kept || t in g.overlaps))
  {
    GroupingSound(history);
    var ts := TimedMatches(history);
    var sorted := StableSort(ts, TimedLe);
    TimedOrder();
    SameElements(sorted, ts);
    TimedMatchesAre(history);
    AllTimed(history);
    PlaceAllMembers(sorted);
    hide PlaceAll;
    hide Kept;
    hide GroupsSound;
    hide StableSort;
    hide TimedLe;
  }

  lemma {:induction false} AllTimed(history: seq<HistoryMatch>)
    ensures forall item :: item in history && WellTimed(item) ==>
              exists t: Timed :: t in TimedMatches(history) && t.item == item
  {
    if history != [] {
      AllTimed(history[1..]);
      forall item | item in history && WellTimed(item)
        ensures exists t: Timed :: t in TimedMatches(history) && t.item == item
      {
        if item in history[1..] {
          var t: Timed :| t in TimedMatches(history[1..]) && t.item == item;
          assert t in TimedMatches(history);
        } else {
          assert item == history[0];
          assert TimedMatches(history)[0].item == item;
        }
      }
    }
  }

  lemma CoveredIs(ts: seq<Timed>, k: nat, o: Timed)
    requires HeldBy(ts, k, o) && Faithful(ts[k]) && Faithful(o)
    ensures Covered(ItemsOf(ts), o.item)
  {
    SoonerIff(ts[k], o);
    hide TimedLe;
    hide Sooner;
    assert ItemsOf(ts)[k] == ts[k].item;
  }

  lemma SessionIs(s: seq<Timed>)
    requires s != [] && Continuous(s) && forall t :: t in s ==> Faithful(t)
    ensures IsSession(ToSession(s), ItemsOf(s))
  {
    var items := ItemsOf(s);
    forall i | 0 <= i < |s|
      ensures Faithful(s[i]) && items[i] == s[i].item
    {
      assert s[i] in s;
    }
  }

  /** The sessions are runs of these matches, more than ninety minutes apart. */
  ghost predicate Runs(sessions: seq<Session>, groups: seq<seq<HistoryMatch>>) {
    && |groups| == |sessions|
    && (forall i :: 0 <= i < |groups| ==> IsSession(sessions[i], groups[i]))
    && forall i :: 0 < i < |sessions| ==> sessions[i].start - sessions[i - 1].end > 5_400_000
  }

  /** These matches of the history are kept: none starts before the end of an earlier one, and every
      other one with an interval in order starts inside a sooner one of them. */
  ghost predicate KeepsAll(history: seq<HistoryMatch>, kept: seq<HistoryMatch>) {
    && (forall item :: item in kept ==> item in history && WellTimed(item))
    && (forall i, j :: 0 <= i < j < |kept| ==>
          WellTimed(kept[i]) && WellTimed(kept[j]) && kept[i].interval.value.end < kept[j].interval.value.start)
    && forall item :: item in history && WellTimed(item) ==> item in kept || Covered(kept, item)
  }

  ghost predicate Explained(history: seq<HistoryMatch>, kept: seq<HistoryMatch>, x: CohortExclusion) {
    exists item :: item in history && item.matchId == x.matchId && LeftOut(kept, item, x.reason)
  }

  ghost function Flat(groups: seq<seq<HistoryMatch>>): seq<HistoryMatch> {
    if groups == [] then [] else Flat(groups[..|groups| - 1]) + Last(groups)
  }

  /** What is published, in the matches of the history. */
  lemma SessionsAre(history: seq<HistoryMatch>) returns (groups: seq<seq<HistoryMatch>>)
    ensures Runs(GroupSessionsOf(history).sessions, groups) && KeepsAll(history, Flat(groups))
    ensures forall x :: x in GroupSessionsOf(history).exclusions ==> Explained(history, Flat(groups), x)
  {
    hide Grouped;
    hide Kept;
    hide GroupsSound;
    hide HeldBy;
    hide IsSession;
    hide Covered;
    hide WellTimed;
    hide Explained;
    hide Untimed;
    hide OverlapExclusions;
    GroupsAre(history);
    var g := Grouped(history);
    var kept := ItemsOf(Kept(g.sessions));
    groups := seq(|g.sessions|, i requires 0 <= i < |g.sessions| => ItemsOf(g.sessions[i]));
    FlatIsKept(g.sessions, groups);
    hide Flat;
    PublishedSessions(g);
    KeptAre(g, history);
    KeptOrCovered(history, Kept(g.sessions), kept, g.overlaps);
    ExclusionsAre(history, g, kept);
  }

  lemma {:induction false} FlatIsKept(sessions: seq<seq<Timed>>, groups: seq<seq<HistoryMatch>>)
    requires |groups| == |sessions| && forall i :: 0 <= i < |groups| ==> groups[i] == ItemsOf(sessions[i])
    ensures Flat(groups) == ItemsOf(Kept(sessions))
    decreases |sessions|
  {
    if sessions != [] {
      var n := |sessions| - 1;
      FlatIsKept(sessions[..n], groups[..n]);
      assert ItemsOf(Kept(sessions[..n]) + sessions[n]) == ItemsOf(Kept(sessions[..n])) + ItemsOf(sessions[n]);
    }
  }

  lemma PublishedSessions(g: Groups)
    requires GroupsSound(g) && forall t :: t in Kept(g.sessions) ==> Faithful(t)
    ensures forall i :: 0 <= i < |g.sessions| ==> IsSession(ToSession(g.sessions[i]), ItemsOf(g.sessions[i]))
    ensures forall i :: 0 < i < |g.sessions| ==> ToSession(g.sessions[i]).start - ToSession(g.sessions[i - 1]).end > 5_400_000
  {
    hide Kept;
    hide IsSession;
    hide Faithful;
    hide OverlapsKept;
    hide Apart;
    hide Continuous;
    forall i | 0 <= i < |g.sessions|
      ensures IsSession(ToSession(g.sessions[i]), ItemsOf(g.sessions[i]))
    {
      forall t | t in g.sessions[i]
        ensures t in Kept(g.sessions)
      {
        KeptMembers(g.sessions, i, t);
      }
      SessionIs(g.sessions[i]);
    }
  }

  lemma KeptAre(g: Groups, history: seq<HistoryMatch>)
    requires GroupsSound(g)
    requires forall t :: t in Kept(g.sessions) || t in g.overlaps ==> Faithful(t) && t.item in history
    ensures var kept := ItemsOf(Kept(g.sessions));
      && (forall item :: item in kept ==> item in history && WellTimed(item))
      && (forall i, j :: 0 <= i < j < |kept| ==>
            WellTimed(kept[i]) && WellTimed(kept[j]) && kept[i].interval.value.end < kept[j].interval.value.start)
      && forall o :: o in g.overlaps ==> Covered(kept, o.item)
  {
    hide Kept;
    hide HeldBy;
    hide Covered;
    hide Continuous;
    hide Separated;
    var ts := Kept(g.sessions);
    var kept := ItemsOf(ts);
    forall i | 0 <= i < |ts|
      ensures kept[i] == ts[i].item && Faithful(ts[i]) && kept[i] in history
    {
      assert ts[i] in ts;
    }
    forall o | o in g.overlaps
      ensures Covered(kept, o.item)
    {
      var k: nat :| HeldBy(ts, k, o);
      HolderExists(ts, k, o);
      CoveredIs(ts, k, o);
    }
  }

  lemma HolderExists(ts: seq<Timed>, k: nat, o: Timed)
    requires HeldBy(ts, k, o)
    ensures k < |ts|
  {
  }

  lemma KeptOrCovered(history: seq<HistoryMatch>, ts: seq<Timed>, kept: seq<HistoryMatch>, overlaps: seq<Timed>)
    requires kept == ItemsOf(ts)
    requires forall o :: o in overlaps ==> Covered(kept, o.item)
    requires forall item :: item in history && WellTimed(item) ==>
               exists t: Timed :: t.item == item && (t in ts || t in overlaps)
    ensures forall item :: item in history && WellTimed(item) ==> item in kept || Covered(kept, item)
  {
    hide Covered;
    forall item | item in history && WellTimed(item)
      ensures item in kept || Covered(kept, item)
    {
      var t: Timed :| t.item == item && (t in ts || t in overlaps);
      if t in ts {
        var k :| 0 <= k < |ts| && ts[k] == t;
        assert kept[k] == item;
      }
    }
  }

  lemma {:induction false} UntimedAre(history: seq<HistoryMatch>, kept: seq<HistoryMatch>)
    ensures forall x :: x in Untimed(history) ==>
              Explained(history, kept, x)
  {
    hide Covered;
    if history != [] {
      UntimedAre(history[1..], kept);
      forall x | x in Untimed(history)
        ensures Explained(history, kept, x)
      {
        if x in Untimed(history[1..]) {
          var item :| item in history[1..] && item.matchId == x.matchId && LeftOut(kept, item, x.reason);
          assert item in history;
        } else {
          assert history[0] in history && LeftOut(kept, history[0], x.reason);
        }
      }
    }
  }

  lemma {:induction false} ExclusionsAre(history: seq<HistoryMatch>, g: Groups, kept: seq<HistoryMatch>)
    requires forall o :: o in g.overlaps ==> o.item in history && Covered(kept, o.item)
    ensures forall x :: x in Untimed(history) + OverlapExclusions(g.overlaps) ==>
              Explained(history, kept, x)
  {
    hide Covered;
    UntimedAre(history, kept);
    forall x | x in OverlapExclusions(g.overlaps)
      ensures Explained(history, kept, x)
    {
      var i :| 0 <= i < |g.overlaps| && OverlapExclusions(g.overlaps)[i] == x;
      assert g.overlaps[i] in g.overlaps && LeftOut(kept, g.overlaps[i].item, x.reason);
    }
  }
}
