/** Merging provisional highlight candidates (crates/openfrag-domain/src/highlight.rs).

    The program repeatedly replaces the first mergeable pair by its hull.  The main result
    is that this closure computes connected components of the *original* candidates: a hull
    may cover a gap between its parts, yet never attracts a candidate that no part was
    linked to. */
module Highlight {
  import opened Prelude
  import opened Ordering

  const RULE_VERSION := "highlight-rules-1"
  const CANDIDATE_MERGE_GAP_MS: int := 10_000

  datatype TimeRange = TimeRange(start: u64, end: u64) {
    predicate Overlaps(other: TimeRange) {
      start <= other.end && other.start <= end
    }
  }

  datatype Trigger = KillMilestone | PossibleKnife | OfficialRoundEndCapture

  datatype Candidate = Candidate(
    session: string, round: string, rule: string, range: TimeRange,
    starts: set<u64>, triggers: set<Trigger>, receipts: set<string>)

  datatype HighlightError = ReversedRange

  function NewCandidate(session: string, round: string, range: TimeRange, trigger: Trigger,
                        receipt: string): (r: Result<Candidate, HighlightError>)
    ensures r.Ok? <==> range.start <= range.end
    ensures r.Ok? ==> Fresh(r.value)
  {
    if range.start > range.end then Err(ReversedRange)
    else Ok(Candidate(session, round, RULE_VERSION, range, {range.start}, {trigger}, {receipt}))
  }

  /** What `HighlightCandidate::new` guarantees. */
  predicate Fresh(c: Candidate) {
    c.range.start <= c.range.end && c.starts == {c.range.start}
  }

  predicate SameGroup(a: Candidate, b: Candidate) {
    a.session == b.session && a.round == b.round && a.rule == b.rule
  }

  predicate Near(a: u64, b: u64) {
    -CANDIDATE_MERGE_GAP_MS <= a - b <= CANDIDATE_MERGE_GAP_MS
  }

  predicate CanMerge(a: Candidate, b: Candidate) {
    SameGroup(a, b) &&
    (a.range.Overlaps(b.range) || exists l, r :: l in a.starts && r in b.starts && Near(l, r))
  }

  function Merged(a: Candidate, b: Candidate): Candidate {
    a.(range := TimeRange(Min(a.range.start, b.range.start), Max(a.range.end, b.range.end)),
       starts := a.starts + b.starts,
       triggers := a.triggers + b.triggers,
       receipts := a.receipts + b.receipts)
  }

  // ----- candidate_order

  predicate CandidateLe(a: Candidate, b: Candidate) {
    if a.session != b.session then StrLe(a.session, b.session)
    else if a.round != b.round then StrLe(a.round, b.round)
    else if a.rule != b.rule then StrLe(a.rule, b.rule)
    else if a.range.start != b.range.start then a.range.start < b.range.start
    else if a.range.end != b.range.end then a.range.end < b.range.end
    else SetLe(a.receipts, b.receipts)
  }

  lemma CandidateOrder()
    ensures Preorder(CandidateLe)
    ensures forall a, b :: CandidateLe(a, b) && CandidateLe(b, a) ==> SameGroup(a, b) && a.range == b.range
  {
    StrOrder();
    SetOrder();
    assert forall a: Candidate, b: Candidate :: StrLe(a.session, b.session) || StrLe(b.session, a.session);
    assert Total(CandidateLe);
    forall a, b, c | CandidateLe(a, b) && CandidateLe(b, c)
      ensures CandidateLe(a, c)
    {
      CandidateTransitive(a, b, c);
    }
  }

  lemma CandidateTransitive(a: Candidate, b: Candidate, c: Candidate)
    requires CandidateLe(a, b) && CandidateLe(b, c)
    ensures CandidateLe(a, c)
  {
    StrOrder();
    SetOrder();
    if a.session != b.session || b.session != c.session {
      assert StrLe(a.session, b.session) && StrLe(b.session, c.session);
    } else if a.round != b.round || b.round != c.round {
      assert StrLe(a.round, b.round) && StrLe(b.round, c.round);
    } else if a.rule != b.rule || b.rule != c.rule {
      assert StrLe(a.rule, b.rule) && StrLe(b.rule, c.rule);
    }
  }

  // ----- merge_candidates as a function

  function Dedup(cs: seq<Candidate>): (r: seq<Candidate>)
    ensures forall c :: c in r <==> c in cs
    ensures |r| <= |cs|
  {
    if |cs| < 2 then cs
    else if cs[0] == cs[1] then Dedup(cs[1..])
    else [cs[0]] + Dedup(cs[1..])
  }

  /** The pair `(left, right)` is the first one, in row order, that can merge. */
  ghost predicate IsFirstPair(cs: seq<Candidate>, left: nat, right: nat) {
    && left < right < |cs|
    && CanMerge(cs[left], cs[right])
    && (forall i, j :: 0 <= i < left && i < j < |cs| ==> !CanMerge(cs[i], cs[j]))
    && (forall j :: left < j < right ==> !CanMerge(cs[left], cs[j]))
  }

  ghost predicate Settled(cs: seq<Candidate>) {
    forall i, j :: 0 <= i < j < |cs| ==> !CanMerge(cs[i], cs[j])
  }

  /** `Vec::remove`. */
  function Remove<T>(s: seq<T>, i: nat): (r: seq<T>)
    requires i < |s|
    ensures |r| == |s| - 1
  {
    s[..i] + s[i + 1..]
  }

  function MergeAt(cs: seq<Candidate>, left: nat, right: nat): (r: seq<Candidate>)
    requires left < right < |cs|
    ensures |r| == |cs| - 1
  {
    StableSort(Remove(Remove(cs, right), left) + [Merged(cs[left], cs[right])], CandidateLe)
  }

  /** The fixpoint loop.  Each merge shortens the list, so it terminates. */
  ghost function MergeLoop(cs: seq<Candidate>): seq<Candidate>
    decreases |cs|
  {
    if left: nat, right: nat :| IsFirstPair(cs, left, right)
    then MergeLoop(MergeAt(cs, left, right))
    else cs
  }

  ghost function MergeCandidates(cs: seq<Candidate>): seq<Candidate> {
    MergeLoop(Dedup(StableSort(cs, CandidateLe)))
  }

  lemma FirstPairUnique(cs: seq<Candidate>, l: nat, r: nat, l': nat, r': nat)
    requires IsFirstPair(cs, l, r) && IsFirstPair(cs, l', r')
    ensures l == l' && r == r'
  {
    assert !(l < l') && !(l' < l);
  }

  /** The search loops of the program, on a fixed list. */
  method FindFirstPair(cs: seq<Candidate>) returns (pair: Option<(nat, nat)>)
    ensures pair.None? ==> Settled(cs)
    ensures pair.Some? ==> IsFirstPair(cs, pair.value.0, pair.value.1)
  {
    var left := 0;
    while left < |cs|
      invariant 0 <= left <= |cs|
      invariant forall i, j :: 0 <= i < left && i < j < |cs| ==> !CanMerge(cs[i], cs[j])
    {
      var right := left + 1;
      while right < |cs|
        invariant left < right <= |cs|
        invariant forall j :: left < j < right ==> !CanMerge(cs[left], cs[j])
      {
        if CanMerge(cs[left], cs[right]) {
          return Some((left, right));
        }
        right := right + 1;
      }
      left := left + 1;
    }
    return None;
  }

  /** The program's `merge_candidates`: sort, dedup, then remove / remove / push / sort
      until no pair can merge. */
  method MergeCandidateList(input: seq<Candidate>) returns (candidates: seq<Candidate>)
    ensures candidates == MergeCandidates(input)
    ensures Settled(candidates)
  {
    candidates := Dedup(StableSort(input, CandidateLe));
    while true
      invariant MergeLoop(candidates) == MergeCandidates(input)
      decreases |candidates|
    {
      var pair := FindFirstPair(candidates);
      if pair.None? {
        return;
      }
      var left, right := pair.value.0, pair.value.1;
      MergeLoopStep(candidates, left, right);
      assert Remove(candidates, right)[left] == candidates[left];
      var other := candidates[right];
      candidates := Remove(candidates, right);
      var current := candidates[left];
      candidates := Remove(candidates, left);
      candidates := candidates + [Merged(current, other)];
      candidates := StableSort(candidates, CandidateLe);
    }
  }

  lemma {:induction false} MergeLoopStep(cs: seq<Candidate>, left: nat, right: nat)
    requires IsFirstPair(cs, left, right)
    ensures MergeLoop(cs) == MergeLoop(MergeAt(cs, left, right))
  {
    var l: nat, r: nat :| IsFirstPair(cs, l, r) && MergeLoop(cs) == MergeLoop(MergeAt(cs, l, r));
    FirstPairUnique(cs, left, right, l, r);
  }

  // ----- What a merged candidate stands for

  ghost predicate AllFresh(s: set<Candidate>) {
    forall c :: c in s ==> Fresh(c)
  }

  /** No split of `p` into two nonempty parts separates it: some link crosses the split. */
  ghost predicate Connected(p: set<Candidate>) {
    forall a: set<Candidate> :: a < p && a != {} ==> exists x, y :: x in a && y in p - a && CanMerge(x, y)
  }

  /** `c` is the hull of `p`: extremes of the ranges, unions of everything else. */
  ghost predicate IsHull(c: Candidate, p: set<Candidate>) {
    && p != {}
    && (forall x :: x in p ==> SameGroup(c, x) && c.range.start <= x.range.start && x.range.end <= c.range.end)
    && (exists x :: x in p && x.range.start == c.range.start)
    && (exists x :: x in p && x.range.end == c.range.end)
    && c.starts == (set x | x in p :: x.range.start)
    && (forall t :: t in c.triggers <==> exists x :: x in p && t in x.triggers)
    && (forall r :: r in c.receipts <==> exists x :: x in p && r in x.receipts)
  }

  /** `p` is a connected component of the link relation on `s`. */
  ghost predicate IsComponent(s: set<Candidate>, p: set<Candidate>) {
    && p != {} && p <= s
    && Connected(p)
    && (forall x, y :: x in p && y in s && CanMerge(x, y) ==> y in p)
  }

  lemma HullUnique(c: Candidate, d: Candidate, p: set<Candidate>)
    requires IsHull(c, p) && IsHull(d, p)
    ensures c == d
  {
    assert c.range == d.range;
    assert c.triggers == d.triggers;
    assert c.receipts == d.receipts;
  }

  // ----- The loop invariant: every current candidate is the hull of a connected set of originals

  ghost predicate StandsFor(s: set<Candidate>, c: Candidate, p: set<Candidate>) {
    p <= s && Connected(p) && IsHull(c, p)
  }

  ghost predicate Accounts(s: set<Candidate>, cs: seq<Candidate>) {
    && (forall c :: c in cs ==> exists p :: StandsFor(s, c, p))
    && (forall x :: x in s ==> exists c, p :: c in cs && x in p && StandsFor(s, c, p))
  }

  /** The start of `c2`'s hull lies inside `c1`'s: some part of `c1` is linked to the part of
      `c2` that starts there.  If that start falls into a gap of `c1`, the connectedness of
      `c1`'s parts yields two parts around the gap whose starts are within ten seconds. */
  lemma GapLink(s: set<Candidate>, c1: Candidate, p1: set<Candidate>, c2: Candidate, p2: set<Candidate>)
    returns (x: Candidate, y: Candidate)
    requires AllFresh(s)
    requires StandsFor(s, c1, p1) && StandsFor(s, c2, p2)
    requires SameGroup(c1, c2) && c1.range.start <= c2.range.start <= c1.range.end
    ensures x in p1 && y in p2 && CanMerge(x, y)
  {
    y :| y in p2 && y.range.start == c2.range.start;
    assert Fresh(y);
    var before := set z | z in p1 && z.range.end < y.range.start;
    if before == {} {
      x :| x in p1 && x.range.start == c1.range.start;
      assert x !in before;
    } else {
      var last :| last in p1 && last.range.end == c1.range.end;
      assert last !in before;
      assert before < p1;
      var a, d :| a in before && d in p1 - before && CanMerge(a, d);
      assert Fresh(a) && Fresh(d);
      if d.range.start <= y.range.start {
        x := d;
      } else {
        x := a;
        assert a.starts == {a.range.start} && d.starts == {d.range.start} && y.starts == {y.range.start};
        assert Near(a.range.start, y.range.start);
      }
    }
  }

  /** Hull growth is harmless: if two hulls can merge, two of their parts were linked. */
  lemma CrossLink(s: set<Candidate>, c1: Candidate, p1: set<Candidate>, c2: Candidate, p2: set<Candidate>)
    returns (x: Candidate, y: Candidate)
    requires AllFresh(s)
    requires StandsFor(s, c1, p1) && StandsFor(s, c2, p2)
    requires CanMerge(c1, c2)
    ensures x in p1 && y in p2 && CanMerge(x, y)
  {
    if c1.range.Overlaps(c2.range) {
      if c1.range.start <= c2.range.start {
        x, y := GapLink(s, c1, p1, c2, p2);
      } else {
        y, x := GapLink(s, c2, p2, c1, p1);
      }
    } else {
      var l, r :| l in c1.starts && r in c2.starts && Near(l, r);
      x :| x in p1 && x.range.start == l;
      y :| y in p2 && y.range.start == r;
      assert l in x.starts && r in y.starts;
    }
  }

  /** Conversely, linked parts keep their hulls mergeable. */
  lemma LinkLifts(s: set<Candidate>, c1: Candidate, p1: set<Candidate>, c2: Candidate, p2: set<Candidate>,
                  x: Candidate, y: Candidate)
    requires AllFresh(s)
    requires StandsFor(s, c1, p1) && StandsFor(s, c2, p2)
    requires x in p1 && y in p2 && (x == y || CanMerge(x, y))
    ensures CanMerge(c1, c2)
  {
    assert Fresh(x) && Fresh(y);
    assert SameGroup(c1, x) && SameGroup(c2, y);
    if !x.range.Overlaps(y.range) {
      assert x.range.start in c1.starts && y.range.start in c2.starts;
      assert Near(x.range.start, y.range.start);
    }
  }

  lemma UnionConnected(p1: set<Candidate>, p2: set<Candidate>, x: Candidate, y: Candidate)
    requires Connected(p1) && Connected(p2)
    requires x in p1 && y in p2 && CanMerge(x, y)
    ensures Connected(p1 + p2)
  {
    CanMergeSymmetric(x, y);
    hide CanMerge;
    forall a: set<Candidate> | a < p1 + p2 && a != {}
      ensures exists u, v :: u in a && v in (p1 + p2) - a && CanMerge(u, v)
    {
      if p1 * a != {} && p1 * a != p1 {
        assert p1 * a < p1;
        var u, v :| u in p1 * a && v in p1 - p1 * a && CanMerge(u, v);
        assert u in a && v in (p1 + p2) - a;
      } else if p2 * a != {} && p2 * a != p2 {
        assert p2 * a < p2;
        var u, v :| u in p2 * a && v in p2 - p2 * a && CanMerge(u, v);
        assert u in a && v in (p1 + p2) - a;
      } else if p1 * a == p1 {
        assert p2 * a == {};
        assert x in p1 * a && y !in p2 * a;
        assert x in a && y in (p1 + p2) - a;
      } else {
        assert p2 * a == p2;
        assert y in p2 * a && x !in p1 * a;
        assert y in a && x in (p1 + p2) - a && CanMerge(y, x);
      }
    }
  }

  lemma UnionHull(c1: Candidate, p1: set<Candidate>, c2: Candidate, p2: set<Candidate>)
    requires IsHull(c1, p1) && IsHull(c2, p2) && SameGroup(c1, c2)
    ensures IsHull(Merged(c1, c2), p1 + p2)
  {
    var c := Merged(c1, c2);
    var s1 :| s1 in p1 && s1.range.start == c1.range.start;
    var s2 :| s2 in p2 && s2.range.start == c2.range.start;
    var e1 :| e1 in p1 && e1.range.end == c1.range.end;
    var e2 :| e2 in p2 && e2.range.end == c2.range.end;
    assert s1 in p1 + p2 && s2 in p1 + p2 && e1 in p1 + p2 && e2 in p1 + p2;
    assert c.starts == (set x | x in p1 + p2 :: x.range.start);
  }

  lemma MergedStandsFor(s: set<Candidate>, c1: Candidate, p1: set<Candidate>, c2: Candidate, p2: set<Candidate>)
    requires AllFresh(s)
    requires StandsFor(s, c1, p1) && StandsFor(s, c2, p2)
    requires CanMerge(c1, c2)
    ensures StandsFor(s, Merged(c1, c2), p1 + p2)
  {
    var x, y := CrossLink(s, c1, p1, c2, p2);
    UnionConnected(p1, p2, x, y);
    UnionHull(c1, p1, c2, p2);
  }

  lemma MergeAtElements(cs: seq<Candidate>, left: nat, right: nat)
    requires left < right < |cs|
    ensures forall c :: c in MergeAt(cs, left, right) ==> c in cs || c == Merged(cs[left], cs[right])
    ensures Merged(cs[left], cs[right]) in MergeAt(cs, left, right)
    ensures forall c :: c in cs ==> c in MergeAt(cs, left, right) || c == cs[left] || c == cs[right]
  {
    hide CandidateLe;
    hide Merged;
    hide StableSort;
    var kept := Remove(Remove(cs, right), left);
    var m := Merged(cs[left], cs[right]);
    SameElements(MergeAt(cs, left, right), kept + [m]);
    assert (kept + [m])[|kept|] == m;
    forall c | c in cs
      ensures c in kept || c == cs[left] || c == cs[right]
    {
      var i :| 0 <= i < |cs| && cs[i] == c;
      if i < left {
        assert kept[i] == c;
      } else if left < i < right {
        assert kept[i - 1] == c;
      } else if right < i {
        assert kept[i - 2] == c;
      }
    }
  }

  lemma MergeAtAccounts(s: set<Candidate>, cs: seq<Candidate>, left: nat, right: nat)
    requires AllFresh(s) && Accounts(s, cs)
    requires IsFirstPair(cs, left, right)
    ensures Accounts(s, MergeAt(cs, left, right))
  {
    hide StandsFor;
    hide AllFresh;
    hide Merged;
    var m := Merged(cs[left], cs[right]);
    var r := MergeAt(cs, left, right);
    MergeAtElements(cs, left, right);
    assert cs[left] in cs && cs[right] in cs;
    var p1 :| StandsFor(s, cs[left], p1);
    var p2 :| StandsFor(s, cs[right], p2);
    MergedStandsFor(s, cs[left], p1, cs[right], p2);
    forall x | x in s
      ensures exists c, p :: c in r && x in p && StandsFor(s, c, p)
    {
      var c, p :| c in cs && x in p && StandsFor(s, c, p);
      if c !in r {
        if c == cs[left] {
          MergedStandsFor(s, c, p, cs[right], p2);
          assert m in r && x in p + p2;
        } else {
          MergedStandsFor(s, cs[left], p1, c, p);
          assert m in r && x in p1 + p;
        }
      }
    }
  }

  lemma {:induction false} MergeLoopResult(s: set<Candidate>, cs: seq<Candidate>)
    requires AllFresh(s) && Accounts(s, cs) && Sorted(cs, CandidateLe)
    ensures Accounts(s, MergeLoop(cs)) && Settled(MergeLoop(cs)) && Sorted(MergeLoop(cs), CandidateLe)
    decreases |cs|
  {
    var pair := SearchPair(cs);
    if pair.Some? {
      var (left, right) := pair.value;
      MergeLoopStep(cs, left, right);
      MergeAtAccounts(s, cs, left, right);
      CandidateOrder();
      SortSorts(Remove(Remove(cs, right), left) + [Merged(cs[left], cs[right])], CandidateLe);
      MergeLoopResult(s, MergeAt(cs, left, right));
    }
  }

  /** A list is settled or has a first mergeable pair. */
  lemma SearchPair(cs: seq<Candidate>) returns (pair: Option<(nat, nat)>)
    ensures pair.None? ==> Settled(cs) && MergeLoop(cs) == cs
    ensures pair.Some? ==> IsFirstPair(cs, pair.value.0, pair.value.1)
  {
    if left: nat, right: nat :| IsFirstPair(cs, left, right) {
      return Some((left, right));
    }
    assert Settled(cs) by {
      if i, j :| 0 <= i < j < |cs| && CanMerge(cs[i], cs[j]) {
        var l, r := LeastPair(cs, i, j);
      }
    }
    return None;
  }

  lemma {:induction false} LeastPair(cs: seq<Candidate>, i: nat, j: nat) returns (l: nat, r: nat)
    requires i < j < |cs| && CanMerge(cs[i], cs[j])
    ensures IsFirstPair(cs, l, r)
    decreases i, j
  {
    if i', j' :| 0 <= i' < i && i' < j' < |cs| && CanMerge(cs[i'], cs[j']) {
      l, r := LeastPair(cs, i', j');
    } else if j' :| i < j' < j && CanMerge(cs[i], cs[j']) {
      l, r := LeastPair(cs, i, j');
    } else {
      return i, j;
    }
  }

  lemma SingletonStandsFor(s: set<Candidate>, c: Candidate)
    requires AllFresh(s) && c in s
    ensures StandsFor(s, c, {c})
  {
    var p := {c};
    assert c.starts == (set x | x in p :: x.range.start);
    assert forall a: set<Candidate> :: a < p && a != {} ==> c !in a;
  }

  // ----- The main theorem

  /** `out` is the strictly sorted list of the hulls of the components of `s`, one each. */
  ghost predicate IsComponentList(s: set<Candidate>, out: seq<Candidate>) {
    && Sorted(out, CandidateLe) && TieFree(out, CandidateLe)
    && (forall c :: c in out ==> exists p :: IsComponent(s, p) && IsHull(c, p))
    && (forall p :: IsComponent(s, p) ==> exists c :: c in out && IsHull(c, p))
  }

  lemma MergeComputesComponents(input: seq<Candidate>)
    requires AllFresh(Elems(input))
    ensures IsComponentList(Elems(input), MergeCandidates(input))
    ensures forall c, p, q ::
              IsComponent(Elems(input), p) && IsHull(c, p) && IsComponent(Elems(input), q) && IsHull(c, q) ==> p == q
    ensures Settled(MergeCandidates(input))
  {
    hide IsComponent;
    hide IsHull;
    hide IsComponentList;
    FreshAccounts(Elems(input), input);
    MergeOfParts(Elems(input), input);
    forall c, p, q |
      IsComponent(Elems(input), p) && IsHull(c, p) && IsComponent(Elems(input), q) && IsHull(c, q)
      ensures p == q
    {
      HullOfOneComponent(Elems(input), c, p, q);
    }
  }

  /** Two original candidates are linked exactly when they are of one session, round and rule and
      their intervals meet or their starts are at most ten seconds apart. */
  lemma LinkIff(a: Candidate, b: Candidate)
    requires Fresh(a) && Fresh(b)
    ensures CanMerge(a, b) <==>
            && a.session == b.session && a.round == b.round && a.rule == b.rule
            && (|| (a.range.start <= b.range.end && b.range.start <= a.range.end)
                || -10_000 <= a.range.start - b.range.start <= 10_000)
  {
    assert a.range.start in a.starts && b.range.start in b.starts;
  }

  /** The order of the output: alphabetical by session, round and rule, then one after the other in
      time, as the intervals of one group no longer meet. */
  ghost predicate ListedBefore(a: Candidate, b: Candidate) {
    if a.session != b.session then Alphabetical(a.session, b.session)
    else if a.round != b.round then Alphabetical(a.round, b.round)
    else if a.rule != b.rule then Alphabetical(a.rule, b.rule)
    else a.range.end < b.range.start
  }

  lemma MergedInOrder(input: seq<Candidate>)
    requires AllFresh(Elems(input))
    ensures var out := MergeCandidates(input);
      forall i, j :: 0 <= i < j < |out| ==> ListedBefore(out[i], out[j])
  {
    hide IsComponent;
    hide MergeCandidates;
    hide CandidateLe;
    hide CanMerge;
    hide ListedBefore;
    MergeComputesComponents(input);
    var s, out := Elems(input), MergeCandidates(input);
    forall i, j | 0 <= i < j < |out|
      ensures ListedBefore(out[i], out[j])
    {
      assert out[i] in out && out[j] in out;
      var p: set<Candidate> :| IsComponent(s, p) && IsHull(out[i], p);
      var q: set<Candidate> :| IsComponent(s, q) && IsHull(out[j], q);
      HullInOrder(s, p, out[i]);
      HullInOrder(s, q, out[j]);
      SettledApart(out[i], out[j]);
    }
  }

  lemma HullInOrder(s: set<Candidate>, p: set<Candidate>, c: Candidate)
    requires AllFresh(s) && IsComponent(s, p) && IsHull(c, p)
    ensures c.range.start <= c.range.end
  {
    hide Connected;
    var x :| x in p;
    assert Fresh(x);
  }

  lemma SettledApart(a: Candidate, b: Candidate)
    requires CandidateLe(a, b) && !CanMerge(a, b)
    requires a.range.start <= a.range.end && b.range.start <= b.range.end
    ensures ListedBefore(a, b)
  {
    StrLeIff(a.session, b.session);
    StrLeIff(a.round, b.round);
    StrLeIff(a.rule, b.rule);
    hide StrLe;
    hide SetLe;
    hide Alphabetical;
  }

  /** Only the originals matter: merging candidates that already stand for parts of `s` gives
      the components of `s`. */
  lemma MergeOfParts(s: set<Candidate>, input: seq<Candidate>)
    requires AllFresh(s) && Accounts(s, input)
    ensures Accounts(s, MergeCandidates(input)) && Settled(MergeCandidates(input))
    ensures IsComponentList(s, MergeCandidates(input))
  {
    hide StandsFor;
    hide AllFresh;
    hide Settled;
    hide IsComponentList;
    var start := Dedup(StableSort(input, CandidateLe));
    SameElements(StableSort(input, CandidateLe), input);
    AccountsByElements(s, input, start);
    CandidateOrder();
    SortSorts(input, CandidateLe);
    DedupSorted(StableSort(input, CandidateLe));
    MergeLoopResult(s, start);
    SettledAreComponents(s, MergeCandidates(input));
  }

  lemma AccountsByElements(s: set<Candidate>, cs: seq<Candidate>, other: seq<Candidate>)
    requires Accounts(s, cs)
    requires forall c :: c in cs <==> c in other
    ensures Accounts(s, other)
  {
    hide StandsFor;
    forall x | x in s
      ensures exists c, p :: c in other && x in p && StandsFor(s, c, p)
    {
      var c, p :| c in cs && x in p && StandsFor(s, c, p);
    }
  }

  /** A candidate is the hull of one component only: two components with one hull are linked. */
  lemma HullOfOneComponent(s: set<Candidate>, c: Candidate, p: set<Candidate>, q: set<Candidate>)
    requires AllFresh(s)
    requires IsComponent(s, p) && IsHull(c, p)
    requires IsComponent(s, q) && IsHull(c, q)
    ensures p == q
  {
    SelfMergeable(s, c, p);
    var x, y := CrossLink(s, c, p, c, q);
    assert y in p;
    ComponentsDisjoint(s, p, q, y);
  }

  lemma SettledAreComponents(s: set<Candidate>, out: seq<Candidate>)
    requires AllFresh(s) && Accounts(s, out) && Settled(out) && Sorted(out, CandidateLe)
    ensures IsComponentList(s, out)
  {
    hide Accounts;
    hide Settled;
    hide StandsFor;
    hide IsHull;
    hide CandidateLe;
    hide AllFresh;
    hide Connected;
    hide CanMerge;
    SettledTieFree(s, out);
    forall c | c in out
      ensures exists p :: IsComponent(s, p) && IsHull(c, p)
    {
      PartIsComponent(s, out, c);
    }
    forall p | IsComponent(s, p)
      ensures exists c :: c in out && IsHull(c, p)
    {
      var x :| x in p;
      var c := Owner(s, out, x);
      PartIsComponent(s, out, c);
      ComponentsDisjoint(s, p, Part(s, c), x);
    }
  }

  /** The current candidate that accounts for the original `x`. */
  lemma Owner(s: set<Candidate>, out: seq<Candidate>, x: Candidate) returns (c: Candidate)
    requires Accounts(s, out) && x in s
    ensures c in out && x in Part(s, c)
  {
    hide StandsFor;
    var p;
    c, p :| c in out && x in p && StandsFor(s, c, p);
  }

  lemma FreshAccounts(s: set<Candidate>, cs: seq<Candidate>)
    requires AllFresh(s)
    requires forall c :: c in cs <==> c in s
    ensures Accounts(s, cs)
  {
    hide StandsFor;
    hide AllFresh;
    forall x | x in s
      ensures StandsFor(s, x, {x})
    {
      SingletonStandsFor(s, x);
    }
    forall x | x in s
      ensures exists c, p :: c in cs && x in p && StandsFor(s, c, p)
    {
      assert x in cs && x in {x} && StandsFor(s, x, {x});
    }
  }

  /** Everything in `s` that the candidate `c` stands for. */
  ghost function Part(s: set<Candidate>, c: Candidate): set<Candidate> {
    set x | x in s && exists p :: x in p && StandsFor(s, c, p)
  }

  lemma PartIsComponent(s: set<Candidate>, out: seq<Candidate>, c: Candidate)
    requires AllFresh(s) && Accounts(s, out) && Settled(out)
    requires c in out
    ensures IsComponent(s, Part(s, c)) && IsHull(c, Part(s, c))
  {
    hide StandsFor;
    hide IsHull;
    hide CanMerge;
    var p0 :| StandsFor(s, c, p0);
    PartHull(s, c, p0);
    PartConnected(s, c, p0);
    PartClosed(s, out, c);
    HullNonempty(c, Part(s, c));
  }

  lemma HullNonempty(c: Candidate, p: set<Candidate>)
    requires IsHull(c, p)
    ensures p != {}
  {
  }

  lemma PartConnected(s: set<Candidate>, c: Candidate, p0: set<Candidate>)
    requires AllFresh(s) && StandsFor(s, c, p0)
    ensures Connected(Part(s, c))
  {
    hide IsHull;
    SelfMergeable(s, c, p0);
    var part := Part(s, c);
    forall a: set<Candidate> | a < part && a != {}
      ensures exists x, y :: x in a && y in part - a && CanMerge(x, y)
    {
      var u :| u in a;
      var v :| v in part && v !in a;
      var pu :| u in pu && StandsFor(s, c, pu);
      var pv :| v in pv && StandsFor(s, c, pv);
      var x, y := CrossLink(s, c, pu, c, pv);
      UnionConnected(pu, pv, x, y);
      var i, j := CrossingLink(pu + pv, a, u, v);
      assert StandsFor(s, c, pu) && StandsFor(s, c, pv);
      assert j in part - a;
    }
  }

  lemma CrossingLink(q: set<Candidate>, a: set<Candidate>, u: Candidate, v: Candidate)
    returns (x: Candidate, y: Candidate)
    requires Connected(q)
    requires u in q && u in a && v in q && v !in a
    ensures x in q && x in a && y in q && y !in a && CanMerge(x, y)
  {
    hide CanMerge;
    var cut := q * a;
    assert u in cut && v !in cut;
    x, y :| x in cut && y in q - cut && CanMerge(x, y);
  }

  lemma SelfMergeable(s: set<Candidate>, c: Candidate, p: set<Candidate>)
    requires AllFresh(s) && StandsFor(s, c, p)
    ensures CanMerge(c, c) && c.range.start <= c.range.end
  {
    var x :| x in p;
    LinkLifts(s, c, p, c, p, x, x);
    assert Fresh(x);
  }

  lemma PartClosed(s: set<Candidate>, out: seq<Candidate>, c: Candidate)
    requires AllFresh(s) && Accounts(s, out) && Settled(out)
    requires c in out
    ensures forall x, y :: x in Part(s, c) && y in s && CanMerge(x, y) ==> y in Part(s, c)
  {
    hide StandsFor;
    hide CanMerge;
    forall x, y | x in Part(s, c) && y in s && CanMerge(x, y)
      ensures y in Part(s, c)
    {
      var p :| x in p && StandsFor(s, c, p);
      var d, q :| d in out && y in q && StandsFor(s, d, q);
      LinkLifts(s, c, p, d, q, x, y);
      CanMergeSymmetric(c, d);
      var i :| 0 <= i < |out| && out[i] == c;
      var j :| 0 <= j < |out| && out[j] == d;
      assert i == j;
    }
  }

  lemma CanMergeSymmetric(a: Candidate, b: Candidate)
    requires CanMerge(a, b)
    ensures CanMerge(b, a)
  {
    if l, r :| l in a.starts && r in b.starts && Near(l, r) {
      assert r in b.starts && l in a.starts && Near(r, l);
    }
  }

  lemma PartMember(s: set<Candidate>, c: Candidate, x: Candidate)
    requires x in Part(s, c)
    ensures SameGroup(c, x) && c.range.start <= x.range.start && x.range.end <= c.range.end
    ensures x.range.start in c.starts && x.triggers <= c.triggers && x.receipts <= c.receipts
  {
    var p :| x in p && StandsFor(s, c, p);
  }

  lemma PartHull(s: set<Candidate>, c: Candidate, p0: set<Candidate>)
    requires StandsFor(s, c, p0)
    ensures IsHull(c, Part(s, c))
  {
    var part := Part(s, c);
    assert p0 <= part;
    assert IsHull(c, p0);
    hide StandsFor;
    hide Part;
    forall x | x in part
      ensures SameGroup(c, x) && c.range.start <= x.range.start && x.range.end <= c.range.end
      ensures x.range.start in c.starts && x.triggers <= c.triggers && x.receipts <= c.receipts
    {
      PartMember(s, c, x);
    }
    WiderHull(c, p0, part);
  }

  lemma WiderHull(c: Candidate, p0: set<Candidate>, part: set<Candidate>)
    requires IsHull(c, p0) && p0 <= part
    requires forall x :: x in part ==>
               && SameGroup(c, x) && c.range.start <= x.range.start && x.range.end <= c.range.end
               && x.range.start in c.starts && x.triggers <= c.triggers && x.receipts <= c.receipts
    ensures IsHull(c, part)
  {
    var lo :| lo in p0 && lo.range.start == c.range.start;
    var hi :| hi in p0 && hi.range.end == c.range.end;
    assert lo in part && hi in part;
    assert c.starts == (set x | x in part :: x.range.start);
    forall t | t in c.triggers
      ensures exists x :: x in part && t in x.triggers
    {
      var x :| x in p0 && t in x.triggers;
    }
    forall r | r in c.receipts
      ensures exists x :: x in part && r in x.receipts
    {
      var x :| x in p0 && r in x.receipts;
    }
  }

  lemma ComponentsDisjoint(s: set<Candidate>, p: set<Candidate>, q: set<Candidate>, x: Candidate)
    requires IsComponent(s, p) && IsComponent(s, q)
    requires x in p && x in q
    ensures p == q
  {
    ComponentWithin(s, p, q, x);
    ComponentWithin(s, q, p, x);
  }

  lemma ComponentWithin(s: set<Candidate>, p: set<Candidate>, q: set<Candidate>, x: Candidate)
    requires IsComponent(s, p) && IsComponent(s, q)
    requires x in p && x in q
    ensures p <= q
  {
    hide CanMerge;
    if v :| v in p && v !in q {
      var a, b := CrossingLink(p, q, x, v);
      assert false;
    }
  }

  lemma SettledTieFree(s: set<Candidate>, out: seq<Candidate>)
    requires AllFresh(s) && Accounts(s, out) && Settled(out)
    ensures TieFree(out, CandidateLe)
  {
    CandidateOrder();
    hide StandsFor;
    hide CandidateLe;
    forall i, j | 0 <= i < j < |out|
      ensures !(CandidateLe(out[i], out[j]) && CandidateLe(out[j], out[i]))
    {
      assert out[i] in out;
      var p :| StandsFor(s, out[i], p);
      SelfMergeable(s, out[i], p);
      assert !CanMerge(out[i], out[j]);
    }
  }

  lemma {:induction false} DedupSorted(cs: seq<Candidate>)
    requires Sorted(cs, CandidateLe)
    ensures Sorted(Dedup(cs), CandidateLe)
  {
    if |cs| >= 2 {
      DedupSorted(cs[1..]);
      var r := Dedup(cs[1..]);
      forall j | 0 <= j < |r|
        ensures CandidateLe(cs[0], r[j])
      {
        assert r[j] in cs[1..];
      }
      if cs[0] != cs[1] {
        PrependSorted(cs[0], r, CandidateLe);
      }
    }
  }

  // ----- Consequences

  /** A chain of links between originals. */
  ghost predicate IsChain(s: set<Candidate>, chain: seq<Candidate>, x: Candidate, y: Candidate) {
    && chain != [] && chain[0] == x && chain[|chain| - 1] == y
    && (forall i :: 0 <= i < |chain| ==> chain[i] in s)
    && (forall i :: 0 < i < |chain| ==> CanMerge(chain[i - 1], chain[i]))
  }

  ghost predicate Reaches(s: set<Candidate>, x: Candidate, y: Candidate) {
    exists chain :: IsChain(s, chain, x, y)
  }

  /** The component of `x` is exactly what a chain of links reaches from `x`. */
  lemma ComponentIsReachability(s: set<Candidate>, p: set<Candidate>, x: Candidate)
    requires IsComponent(s, p) && x in p
    ensures forall y :: y in s ==> (y in p <==> Reaches(s, x, y))
  {
    var reached := set y | y in p && Reaches(s, x, y);
    hide CanMerge;
    assert IsChain(s, [x], x, x);
    if v :| v in p && v !in reached {
      var a, b := CrossingLink(p, reached, x, v);
      ExtendChain(s, x, a, b);
    }
    forall y | y in s && Reaches(s, x, y)
      ensures y in p
    {
      var chain :| IsChain(s, chain, x, y);
      ChainStays(s, p, chain, x, y);
    }
  }

  lemma ExtendChain(s: set<Candidate>, x: Candidate, a: Candidate, b: Candidate)
    requires Reaches(s, x, a) && b in s && CanMerge(a, b)
    ensures Reaches(s, x, b)
  {
    hide CanMerge;
    var chain :| IsChain(s, chain, x, a);
    assert IsChain(s, chain + [b], x, b);
  }

  lemma {:induction false} ChainStays(s: set<Candidate>, p: set<Candidate>, chain: seq<Candidate>, x: Candidate, y: Candidate)
    requires IsComponent(s, p) && x in p && IsChain(s, chain, x, y)
    ensures y in p
    decreases |chain|
  {
    hide CanMerge;
    if |chain| > 1 {
      var before := chain[..|chain| - 1];
      assert IsChain(s, before, x, before[|before| - 1]);
      ChainStays(s, p, before, x, before[|before| - 1]);
    }
  }

  /** Two originals end in the same output exactly when a chain of links joins them; the output
      is found through the receipts and starts it collects, so nothing is merged spuriously. */
  lemma SameOutputIffLinked(input: seq<Candidate>, x: Candidate, y: Candidate)
    requires AllFresh(Elems(input)) && x in input && y in input
    ensures Reaches(Elems(input), x, y) <==>
            exists c, p :: OutputPart(input, c, p) && x in p && y in p
  {
    hide Reaches;
    hide OutputPart;
    var s := Elems(input);
    var c, p := ComponentOf(input, x);
    PartReached(input, c, p, x);
    forall c', p' | OutputPart(input, c', p') && x in p' && y in p'
      ensures Reaches(s, x, y)
    {
      PartReached(input, c', p', x);
    }
  }

  /** `c` is an output of the merge and `p` the component it is the hull of. */
  ghost predicate OutputPart(input: seq<Candidate>, c: Candidate, p: set<Candidate>) {
    c in MergeCandidates(input) && IsComponent(Elems(input), p) && IsHull(c, p)
  }

  lemma PartReached(input: seq<Candidate>, c: Candidate, p: set<Candidate>, x: Candidate)
    requires OutputPart(input, c, p) && x in p
    ensures forall y :: y in Elems(input) ==> (y in p <==> Reaches(Elems(input), x, y))
  {
    ComponentIsReachability(Elems(input), p, x);
  }

  /** Every original is accounted for by an output. */
  lemma ComponentOf(input: seq<Candidate>, x: Candidate) returns (c: Candidate, p: set<Candidate>)
    requires AllFresh(Elems(input)) && x in input
    ensures OutputPart(input, c, p) && x in p
  {
    hide Accounts;
    hide Settled;
    hide IsComponentList;
    hide IsComponent;
    hide IsHull;
    hide MergeCandidates;
    hide Part;
    var s := Elems(input);
    FreshAccounts(s, input);
    MergeOfParts(s, input);
    c := Owner(s, MergeCandidates(input), x);
    p := Part(s, c);
    PartIsComponent(s, MergeCandidates(input), c);
  }

  /** The result depends on the *set* of candidates: every permutation and every duplication of
      the input gives the same sequence. */
  lemma MergeIgnoresOrderAndDuplicates(input: seq<Candidate>, other: seq<Candidate>)
    requires AllFresh(Elems(input))
    requires Elems(input) == Elems(other)
    ensures MergeCandidates(input) == MergeCandidates(other)
  {
    MergeComputesComponents(input);
    MergeComputesComponents(other);
    ComponentListUnique(Elems(input), MergeCandidates(input), MergeCandidates(other));
  }

  /** The closure can be computed a batch at a time: merging new candidates into the result of
      an earlier merge, whose hulls are no longer fresh, gives what merging all at once gives. */
  lemma MergeIncrementally(a: seq<Candidate>, b: seq<Candidate>)
    requires AllFresh(Elems(a + b))
    ensures MergeCandidates(MergeCandidates(a) + b) == MergeCandidates(a + b)
  {
    hide IsComponentList;
    hide MergeCandidates;
    var s := Elems(a + b);
    BatchAccounts(a, b);
    MergeOfParts(s, MergeCandidates(a) + b);
    FreshAccounts(s, a + b);
    MergeOfParts(s, a + b);
    ComponentListUnique(s, MergeCandidates(MergeCandidates(a) + b), MergeCandidates(a + b));
  }

  lemma BatchAccounts(a: seq<Candidate>, b: seq<Candidate>)
    requires AllFresh(Elems(a + b))
    ensures Accounts(Elems(a + b), MergeCandidates(a) + b)
  {
    hide MergeCandidates;
    var s, done := Elems(a + b), MergeCandidates(a);
    assert forall x :: x in s <==> x in a || x in b;
    assert AllFresh(Elems(a));
    FreshAccounts(Elems(a), a);
    MergeOfParts(Elems(a), a);
    AccountsAppend(Elems(a), s, done, b);
  }

  lemma AccountsAppend(s: set<Candidate>, t: set<Candidate>, cs: seq<Candidate>, b: seq<Candidate>)
    requires AllFresh(t) && Accounts(s, cs)
    requires forall x :: x in t <==> x in s || x in b
    ensures Accounts(t, cs + b)
  {
    hide StandsFor;
    hide AllFresh;
    forall c, p | StandsFor(s, c, p)
      ensures StandsFor(t, c, p)
    {
      MoreOriginals(s, t, c, p);
    }
    forall x | x in b
      ensures StandsFor(t, x, {x})
    {
      SingletonStandsFor(t, x);
    }
    forall x | x in t
      ensures exists c, p :: c in cs + b && x in p && StandsFor(t, c, p)
    {
      if x in s {
        var c, p :| c in cs && x in p && StandsFor(s, c, p);
        assert c in cs + b;
      } else {
        assert x in cs + b && x in {x};
      }
    }
  }

  lemma MoreOriginals(s: set<Candidate>, t: set<Candidate>, c: Candidate, p: set<Candidate>)
    requires StandsFor(s, c, p) && s <= t
    ensures StandsFor(t, c, p)
  {
  }

  lemma ComponentListUnique(s: set<Candidate>, out: seq<Candidate>, out': seq<Candidate>)
    requires IsComponentList(s, out) && IsComponentList(s, out')
    ensures out == out'
  {
    hide IsComponent;
    hide IsHull;
    hide CandidateLe;
    forall c
      ensures c in out <==> c in out'
    {
      ListMember(s, out, out', c);
      ListMember(s, out', out, c);
    }
    StrictSortedUnique(out, out');
  }

  lemma ListPart(s: set<Candidate>, out: seq<Candidate>, c: Candidate) returns (p: set<Candidate>)
    requires IsComponentList(s, out) && c in out
    ensures IsComponent(s, p) && IsHull(c, p)
  {
    hide IsComponent;
    hide IsHull;
    p :| IsComponent(s, p) && IsHull(c, p);
  }

  lemma ListHull(s: set<Candidate>, out: seq<Candidate>, p: set<Candidate>) returns (c: Candidate)
    requires IsComponentList(s, out) && IsComponent(s, p)
    ensures c in out && IsHull(c, p)
  {
    hide IsComponent;
    hide IsHull;
    c :| c in out && IsHull(c, p);
  }

  lemma ListMember(s: set<Candidate>, out: seq<Candidate>, out': seq<Candidate>, c: Candidate)
    requires IsComponentList(s, out) && IsComponentList(s, out')
    ensures c in out ==> c in out'
  {
    hide IsComponentList;
    hide IsHull;
    if c in out {
      var p := ListPart(s, out, c);
      var d := ListHull(s, out', p);
      HullUnique(c, d, p);
    }
  }

  /** Strictly sorted lists with the same members are equal. */
  lemma StrictSortedUnique(a: seq<Candidate>, b: seq<Candidate>)
    requires Sorted(a, CandidateLe) && TieFree(a, CandidateLe)
    requires Sorted(b, CandidateLe) && TieFree(b, CandidateLe)
    requires forall c :: c in a <==> c in b
    ensures a == b
  {
    CandidateOrder();
    hide CandidateLe;
    NoRepeats(a);
    NoRepeats(b);
    forall c: Candidate
      ensures multiset(a)[c] == multiset(b)[c]
    {
      assert c in multiset(a) <==> c in a;
      assert c in multiset(b) <==> c in b;
    }
    assert multiset(a) == multiset(b);
    assert TiesEqual(a, CandidateLe);
    SortedUnique(a, b, CandidateLe);
  }

  lemma {:induction false} NoRepeats(a: seq<Candidate>)
    requires Preorder(CandidateLe) && TieFree(a, CandidateLe)
    ensures forall c :: multiset(a)[c] <= 1
  {
    hide CandidateLe;
    if a != [] {
      NoRepeats(a[1..]);
      assert a == [a[0]] + a[1..];
      if a[0] in a[1..] {
        assert false;
      }
    }
  }

  /** Merging a merged list changes nothing.  Here the input need not be fresh: a candidate with
      any contributor start at all will do. */
  lemma MergeIdempotent(input: seq<Candidate>)
    requires forall c :: c in input ==> c.starts != {}
    ensures MergeCandidates(MergeCandidates(input)) == MergeCandidates(input)
  {
    var start := Dedup(StableSort(input, CandidateLe));
    CandidateOrder();
    SortSorts(input, CandidateLe);
    DedupSorted(StableSort(input, CandidateLe));
    SameElements(StableSort(input, CandidateLe), input);
    LoopSettles(start);
    var out := MergeLoop(start);
    SortKeepsSorted(out, CandidateLe);
    DedupDistinct(out);
    SettledStays(out);
  }

  lemma {:induction false} LoopSettles(cs: seq<Candidate>)
    requires Sorted(cs, CandidateLe)
    requires forall c :: c in cs ==> c.starts != {}
    ensures Settled(MergeLoop(cs)) && Sorted(MergeLoop(cs), CandidateLe)
    ensures forall c :: c in MergeLoop(cs) ==> c.starts != {}
    decreases |cs|
  {
    var pair := SearchPair(cs);
    if pair.Some? {
      var (left, right) := pair.value;
      MergeLoopStep(cs, left, right);
      MergeAtElements(cs, left, right);
      CandidateOrder();
      SortSorts(Remove(Remove(cs, right), left) + [Merged(cs[left], cs[right])], CandidateLe);
      assert cs[left] in cs;
      LoopSettles(MergeAt(cs, left, right));
    }
  }

  lemma {:induction false} DedupDistinct(cs: seq<Candidate>)
    requires Settled(cs)
    requires forall c :: c in cs ==> c.starts != {}
    ensures Dedup(cs) == cs
  {
    if |cs| >= 2 {
      assert cs[0] in cs;
      var l :| l in cs[0].starts;
      assert Near(l, l);
      assert cs[0] != cs[1];
      DedupDistinct(cs[1..]);
      assert cs == [cs[0]] + cs[1..];
    }
  }

  lemma {:induction false} SettledStays(cs: seq<Candidate>)
    requires Settled(cs)
    ensures MergeLoop(cs) == cs
  {
    var pair := SearchPair(cs);
    assert pair.None?;
  }
}
