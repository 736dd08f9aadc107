/** What an analysed demo says, in its own events, snapshots and receipts
    (crates/openfrag-analysis/src/lib.rs): which rounds there are and which of them count, who won
    the opening duels and the clutches, what is refused, and what goes with the rating. */
module Scoreboard {
  import opened Prelude
  import opened Ordering
  import opened Rating
  import opened Analysis

  // ----- Counting

  /** The places of a sequence where something holds. */
  ghost function Where<T(!new)>(s: seq<T>, holds: T -> bool): set<nat> {
    set i: nat | i < |s| && holds(s[i])
  }

  lemma WhereSplit<T(!new)>(s: seq<T>, holds: T -> bool)
    requires s != []
    ensures |Where(s, holds)| == One(holds(s[0])) + |Where(s[1..], holds)|
  {
    var rest := Where(s[1..], holds);
    var first := if holds(s[0]) then {0 as nat} else {};
    Shifted(rest);
    var moved := set i: nat | i in rest :: i + 1;
    assert Where(s, holds) == first + moved by {
      forall i: nat
        ensures i in Where(s, holds) <==> i in first + moved
      {
        if 0 < i < |s| {
          assert s[1..][i - 1] == s[i];
          assert i - 1 in rest <==> holds(s[i]);
          assert i == (i - 1) + 1;
        }
      }
    }
  }

  lemma {:induction false} Shifted(a: set<nat>)
    ensures |set i: nat | i in a :: i + 1| == |a|
  {
    var moved := set i: nat | i in a :: i + 1;
    if a == {} {
      assert moved == {};
    } else {
      var x :| x in a;
      Shifted(a - {x});
      var rest := set i: nat | i in a - {x} :: i + 1;
      assert moved == rest + {x + 1} by {
        forall j: nat
          ensures j in moved <==> j in rest + {x + 1}
        {
          if j in moved {
            var i: nat :| i in a && i + 1 == j;
            assert i == x || i in a - {x};
          }
        }
      }
      assert x + 1 !in rest;
    }
  }

  /** A filtered sequence has one element for every place where the filter holds. */
  lemma {:induction false} FilterCount<T(!new)>(s: seq<T>, keep: T -> bool)
    ensures |Filter(s, keep)| == |Where(s, keep)|
  {
    if s == [] {
      assert Where(s, keep) == {};
    } else {
      FilterCount(s[1..], keep);
      WhereSplit(s, keep);
    }
  }

  lemma {:induction false} WhereFiltered<T(!new)>(s: seq<T>, keep: T -> bool, holds: T -> bool, both: T -> bool)
    requires forall x :: both(x) <==> keep(x) && holds(x)
    ensures |Where(Filter(s, keep), holds)| == |Where(s, both)|
  {
    if s == [] {
      assert Where(s, both) == {} && Where(Filter(s, keep), holds) == {};
    } else {
      WhereFiltered(s[1..], keep, holds, both);
      WhereSplit(s, both);
      if keep(s[0]) {
        WhereSplit(Filter(s, keep), holds);
        assert Filter(s, keep)[1..] == Filter(s[1..], keep);
      }
    }
  }

  // ----- The state of a player at a tick

  /** The snapshot is the last one of the player up to the tick. */
  ghost predicate Latest(p: ParsedOutput, s: PlayerSnapshot, id: SteamId, tick: int) {
    && s in p.snapshots && s.steamId == id && s.tick <= tick
    && forall other :: other in p.snapshots && other.steamId == id && other.tick <= tick ==>
         other.tick < s.tick || (other.tick == s.tick && other.ordinal <= s.ordinal)
  }

  lemma {:induction false} SnapshotOrder(p: ParsedOutput, i: nat, j: nat)
    requires InOrder(p) && i < j < |p.snapshots|
    ensures p.snapshots[i].ordinal < p.snapshots[j].ordinal
    decreases j
  {
    if i + 1 < j {
      SnapshotOrder(p, i, j - 1);
    }
  }

  /** What the last snapshot says is what the player's team, life and round counter are. */
  lemma {:induction false} StateIs(p: ParsedOutput, id: SteamId, tick: int, s: PlayerSnapshot)
    requires InOrder(p) && Latest(p, s, id, tick)
    ensures SnapshotAt(p.snapshots, id, tick) == Some(s)
    ensures TeamAt(p, id, tick) == s.team && AliveAt(p, id, tick) == s.alive && CounterAt(p, id, tick) == s.roundCounter
  {
    var r := SnapshotAt(p.snapshots, id, tick);
    assert Seen(s, id, tick);
    var i :| 0 <= i < |p.snapshots| && p.snapshots[i] == s;
    var j :| 0 <= j < |p.snapshots| && p.snapshots[j] == r.value;
    if i < j {
      SnapshotOrder(p, i, j);
    } else if j < i {
      SnapshotOrder(p, j, i);
    }
  }

  /** And nothing is known of a player before the first one. */
  lemma {:induction false} UnseenState(p: ParsedOutput, id: SteamId, tick: int)
    requires forall s :: s in p.snapshots && s.steamId == id ==> tick < s.tick
    ensures SnapshotAt(p.snapshots, id, tick).None?
    ensures TeamAt(p, id, tick).None? && AliveAt(p, id, tick).None? && CounterAt(p, id, tick).None?
  {
  }

  // ----- The opening duel of a round

  /** A death between two different players on known, different teams. */
  ghost predicate Fought(p: ParsedOutput, e: ParsedEvent) {
    && e.event.PlayerDeath? && e.event.attacker.Some? && e.event.victim.Some?
    && e.event.attacker.value != e.event.victim.value
    && TeamAt(p, e.event.attacker.value, e.tick).Some? && TeamAt(p, e.event.victim.value, e.tick).Some?
    && TeamAt(p, e.event.attacker.value, e.tick).value != TeamAt(p, e.event.victim.value, e.tick).value
  }

  ghost predicate FoughtIn(p: ParsedOutput, round: RoundLedger, e: ParsedEvent) {
    e in p.events && round.freezeTick <= e.tick <= round.endTick && Fought(p, e)
  }

  /** The first such death of the round. */
  ghost predicate IsOpening(p: ParsedOutput, round: RoundLedger, e: ParsedEvent) {
    && FoughtIn(p, round, e)
    && forall other :: FoughtIn(p, round, other) ==>
         e.tick < other.tick || (e.tick == other.tick && e.ordinal <= other.ordinal)
  }

  ghost predicate WinsOpening(p: ParsedOutput, round: RoundLedger, local: SteamId) {
    exists e :: IsOpening(p, round, e) && e.event.attacker == Some(local)
  }

  ghost predicate LosesOpening(p: ParsedOutput, round: RoundLedger, local: SteamId) {
    exists e :: IsOpening(p, round, e) && e.event.victim == Some(local)
  }

  ghost predicate Ascending(events: seq<ParsedEvent>) {
    forall i, j :: 0 <= i < j < |events| ==> KeyLess(events[i].tick, events[i].ordinal, events[j].tick, events[j].ordinal)
  }

  lemma EventsAscend(p: ParsedOutput)
    requires InOrder(p)
    ensures Ascending(p.events)
  {
    forall i, j | 0 <= i < j < |p.events|
      ensures KeyLess(p.events[i].tick, p.events[i].ordinal, p.events[j].tick, p.events[j].ordinal)
    {
      EventOrder(p, i, j);
    }
  }

  lemma {:induction false} EventOrder(p: ParsedOutput, i: nat, j: nat)
    requires InOrder(p) && i < j < |p.events|
    ensures KeyLess(p.events[i].tick, p.events[i].ordinal, p.events[j].tick, p.events[j].ordinal)
    decreases j
  {
    if i + 1 < j {
      EventOrder(p, i, j - 1);
    }
  }

  lemma {:induction false} FilterAscends(events: seq<ParsedEvent>, keep: ParsedEvent -> bool)
    requires Ascending(events)
    ensures Ascending(Filter(events, keep))
  {
    if events != [] {
      FilterAscends(events[1..], keep);
      var rest := Filter(events[1..], keep);
      forall j | 0 <= j < |rest|
        ensures KeyLess(events[0].tick, events[0].ordinal, rest[j].tick, rest[j].ordinal)
      {
        assert rest[j] in events[1..];
      }
    }
  }

  ghost function FirstFought(p: ParsedOutput, events: seq<ParsedEvent>): (r: Option<ParsedEvent>)
    ensures r.Some? ==> Fought(p, r.value)
  {
    if events == [] then None
    else if Fought(p, events[0]) then Some(events[0])
    else FirstFought(p, events[1..])
  }

  lemma {:induction false} FirstIsEarliest(p: ParsedOutput, events: seq<ParsedEvent>)
    requires Ascending(events)
    ensures var r := FirstFought(p, events);
      && (r.None? ==> forall e :: e in events ==> !Fought(p, e))
      && (r.Some? ==> r.value in events && Fought(p, r.value)
                      && forall e :: e in events && Fought(p, e) ==>
                           e == r.value || KeyLess(r.value.tick, r.value.ordinal, e.tick, e.ordinal))
  {
    hide Fought;
    if events != [] {
      FirstIsEarliest(p, events[1..]);
      assert events == [events[0]] + events[1..];
    }
  }

  lemma {:induction false} OpeningIsFirst(p: ParsedOutput, round: RoundLedger, e: ParsedEvent)
    requires InOrder(p)
    ensures IsOpening(p, round, e) <==> FirstFought(p, Filter(p.events, InRound(round))) == Some(e)
  {
    hide Fought;
    var events := Filter(p.events, InRound(round));
    EventsAscend(p);
    FilterAscends(p.events, InRound(round));
    FirstIsEarliest(p, events);
    assert forall x :: x in events && Fought(p, x) <==> FoughtIn(p, round, x);
    var r := FirstFought(p, events);
    if IsOpening(p, round, e) {
      assert r.Some? && FoughtIn(p, round, r.value);
    }
  }

  lemma OpeningScored(p: ParsedOutput, local: SteamId, s: Scan, e: ParsedEvent)
    requires ScoreEvent(p, local, s, e).Ok?
    ensures var t := ScoreEvent(p, local, s, e).value;
      var opens := !s.openingSeen && Fought(p, e);
      && t.openingSeen == (s.openingSeen || opens)
      && t.m.openingWins == WrapU32(s.m.openingWins + One(opens && e.event.attacker == Some(local)))
      && t.m.openingLosses == WrapU32(s.m.openingLosses + One(opens && e.event.victim == Some(local)))
  {
    hide TeamAt;
    hide WrapU32;
    WrapSmall(s.m.openingWins);
    WrapSmall(s.m.openingLosses);
  }

  lemma {:induction false} OpeningsScanned(p: ParsedOutput, local: SteamId, s: Scan, events: seq<ParsedEvent>)
    requires ScoreEvents(p, local, s, events).Ok?
    ensures var m := ScoreEvents(p, local, s, events).value.m;
      var first := FirstFought(p, events);
      var opens := !s.openingSeen && first.Some?;
      && m.openingWins == WrapU32(s.m.openingWins + One(opens && first.value.event.attacker == Some(local)))
      && m.openingLosses == WrapU32(s.m.openingLosses + One(opens && first.value.event.victim == Some(local)))
    decreases |events|
  {
    hide ScoreEvent;
    hide WrapU32;
    hide Fought;
    WrapSmall(s.m.openingWins);
    WrapSmall(s.m.openingLosses);
    if events != [] {
      OpeningScored(p, local, s, events[0]);
      var next := ScoreEvent(p, local, s, events[0]).value;
      OpeningsScanned(p, local, next, events[1..]);
      WrapSmall(next.m.openingWins);
      WrapSmall(next.m.openingLosses);
    }
  }

  /** A scored round counts its opening duel once: won if the local player was the attacker of the
      first death between different teams, lost if he was its victim. */
  lemma RoundOpening(p: ParsedOutput, round: RoundLedger, local: SteamId, tickRate: u32, m: RatingMetrics)
    requires InOrder(p) && ScoreRound(p, round, local, tickRate, m).Ok?
    ensures var r := ScoreRound(p, round, local, tickRate, m).value;
      && r.openingWins == WrapU32(m.openingWins + One(WinsOpening(p, round, local)))
      && r.openingLosses == WrapU32(m.openingLosses + One(LosesOpening(p, round, local)))
  {
    hide WrapU32;
    hide Filter;
    hide InRound;
    hide ScoreEvents;
    hide ScoreTrades;
    hide FindClutch;
    hide IsOpening;
    var events := Filter(p.events, InRound(round));
    var deaths := Filter(events, (e: ParsedEvent) => e.event.PlayerDeath?);
    var kills := Filter(deaths, (e: ParsedEvent) => e.event.PlayerDeath? && e.event.attacker == Some(local));
    var scanned := ScoreEvents(p, local, Scan(m, false), events).value.m;
    OpeningsScanned(p, local, Scan(m, false), events);
    TradesKeep(p, round, TradeWindow(tickRate), deaths, kills, scanned);
    forall e
      ensures IsOpening(p, round, e) <==> FirstFought(p, events) == Some(e)
    {
      OpeningIsFirst(p, round, e);
    }
    if FirstFought(p, events).Some? {
      assert IsOpening(p, round, FirstFought(p, events).value);
    }
  }

  // ----- The clutch of a round

  ghost predicate LivingMate(p: ParsedOutput, round: RoundLedger, local: SteamId, tick: int, x: Participant) {
    x in p.participants && x.steamId != local && x.team == Some(round.localTeam) && AliveAt(p, x.steamId, tick) == Some(true)
  }

  ghost predicate LivingEnemy(p: ParsedOutput, round: RoundLedger, tick: int, x: Participant) {
    && x in p.participants && (x.team == Some(2) || x.team == Some(3)) && x.team != Some(round.localTeam)
    && AliveAt(p, x.steamId, tick) == Some(true)
  }

  /** The local player is alive, with no living teammate and a living enemy. */
  ghost predicate AloneAt(p: ParsedOutput, round: RoundLedger, local: SteamId, tick: int) {
    && AliveAt(p, local, tick) == Some(true)
    && (forall x :: !LivingMate(p, round, local, tick, x))
    && exists x :: LivingEnemy(p, round, tick, x)
  }

  /** A snapshot inside the round leaves him so. */
  ghost predicate FacesClutch(p: ParsedOutput, round: RoundLedger, local: SteamId) {
    exists s :: s in p.snapshots && round.freezeTick <= s.tick <= round.endTick && AloneAt(p, round, local, s.tick)
  }

  lemma AloneIff(p: ParsedOutput, round: RoundLedger, local: SteamId, tick: int)
    ensures AloneAt(p, round, local, tick) <==>
            AliveAt(p, local, tick) == Some(true) && LivingTeammates(p, round, local, tick) == 0 && LivingEnemies(p, round, tick) > 0
  {
    hide AliveAt;
    var mate := (x: Participant) =>
      x.steamId != local && x.team == Some(round.localTeam) && AliveAt(p, x.steamId, tick) == Some(true);
    var enemy := (x: Participant) =>
      (x.team == Some(2) || x.team == Some(3)) && x.team != Some(round.localTeam) && AliveAt(p, x.steamId, tick) == Some(true);
    var mates, enemies := Filter(p.participants, mate), Filter(p.participants, enemy);
    assert forall x :: LivingMate(p, round, local, tick, x) <==> x in mates;
    assert forall x :: LivingEnemy(p, round, tick, x) <==> x in enemies;
    assert mates != [] ==> mates[0] in mates;
    assert enemies != [] ==> enemies[0] in enemies;
  }

  lemma {:induction false} ClutchFound(p: ParsedOutput, round: RoundLedger, local: SteamId, ticks: seq<i32>)
    requires FindClutch(p, round, local, ticks).Ok?
    ensures FindClutch(p, round, local, ticks).value <==> exists tick :: tick in ticks && AloneAt(p, round, local, tick)
    decreases |ticks|
  {
    hide AliveAt;
    hide AloneAt;
    hide LivingTeammates;
    hide LivingEnemies;
    if ticks != [] {
      AloneIff(p, round, local, ticks[0]);
      if !AloneAt(p, round, local, ticks[0]) {
        ClutchFound(p, round, local, ticks[1..]);
        assert ticks == [ticks[0]] + ticks[1..];
      }
    }
  }

  lemma TransitionTicksAre(p: ParsedOutput, round: RoundLedger, tick: i32)
    ensures tick in TransitionTicks(p, round) <==>
            round.freezeTick <= tick <= round.endTick && exists s :: s in p.snapshots && s.tick == tick
  {
    var inside := (s: PlayerSnapshot) => round.freezeTick <= s.tick <= round.endTick;
    var ss := Filter(p.snapshots, inside);
    if s :| s in p.snapshots && s.tick == tick && inside(s) {
      assert s in ss;
      var i :| 0 <= i < |ss| && ss[i] == s;
      assert TransitionTicks(p, round)[i] == tick;
    }
    if tick in TransitionTicks(p, round) {
      var i :| 0 <= i < |ss| && TransitionTicks(p, round)[i] == tick;
      assert ss[i] in ss;
    }
  }

  /** A scored round counts one clutch opportunity exactly when some snapshot of it leaves the local
      player alone against a living enemy, and one won clutch exactly when his team also won it. */
  lemma RoundClutch(p: ParsedOutput, round: RoundLedger, local: SteamId, tickRate: u32, m: RatingMetrics)
    requires ScoreRound(p, round, local, tickRate, m).Ok?
    ensures var r := ScoreRound(p, round, local, tickRate, m).value;
      var faced := FacesClutch(p, round, local);
      && r.clutchOpportunities == WrapU32(m.clutchOpportunities + One(faced))
      && r.clutchWins == WrapU32(m.clutchWins + One(faced && round.localTeam == round.winner))
  {
    hide WrapU32;
    hide Filter;
    hide InRound;
    hide ScoreEvents;
    hide ScoreTrades;
    hide FindClutch;
    hide AloneAt;
    hide TransitionTicks;
    WrapSmall(m.clutchOpportunities);
    WrapSmall(m.clutchWins);
    var events := Filter(p.events, InRound(round));
    var deaths := Filter(events, (e: ParsedEvent) => e.event.PlayerDeath?);
    var kills := Filter(deaths, (e: ParsedEvent) => e.event.PlayerDeath? && e.event.attacker == Some(local));
    var scanned := ScoreEvents(p, local, Scan(m, false), events).value.m;
    ScanKeepsClutches(p, local, Scan(m, false), events);
    TradesKeep(p, round, TradeWindow(tickRate), deaths, kills, scanned);
    var ticks := TransitionTicks(p, round);
    ClutchFound(p, round, local, ticks);
    FacesClutchIff(p, round, local);
  }

  lemma FacesClutchIff(p: ParsedOutput, round: RoundLedger, local: SteamId)
    ensures FacesClutch(p, round, local) <==>
            exists tick :: tick in TransitionTicks(p, round) && AloneAt(p, round, local, tick)
  {
    hide AloneAt;
    hide TransitionTicks;
    if s :| s in p.snapshots && round.freezeTick <= s.tick <= round.endTick && AloneAt(p, round, local, s.tick) {
      TransitionTicksAre(p, round, s.tick);
      assert s.tick in TransitionTicks(p, round);
    }
    if tick :| tick in TransitionTicks(p, round) && AloneAt(p, round, local, tick) {
      TransitionTicksAre(p, round, tick);
      var s :| s in p.snapshots && s.tick == tick;
      assert FacesClutch(p, round, local);
    }
  }

  lemma {:induction false} ScanKeepsClutches(p: ParsedOutput, local: SteamId, s: Scan, events: seq<ParsedEvent>)
    requires ScoreEvents(p, local, s, events).Ok?
    ensures SameClutches(s.m, ScoreEvents(p, local, s, events).value.m)
    decreases |events|
  {
    hide TeamAt;
    hide WrapU32;
    if events != [] {
      ScanKeepsClutches(p, local, ScoreEvent(p, local, s, events[0]).value, events[1..]);
    }
  }

  // ----- Over the demo

  datatype Feat = OpeningWon | OpeningLost | ClutchFaced | ClutchWon

  function FeatCount(m: RatingMetrics, f: Feat): u32 {
    match f
    case OpeningWon => m.openingWins
    case OpeningLost => m.openingLosses
    case ClutchFaced => m.clutchOpportunities
    case ClutchWon => m.clutchWins
  }

  ghost predicate Achieved(p: ParsedOutput, local: SteamId, f: Feat, round: RoundLedger) {
    match f
    case OpeningWon => WinsOpening(p, round, local)
    case OpeningLost => LosesOpening(p, round, local)
    case ClutchFaced => FacesClutch(p, round, local)
    case ClutchWon => FacesClutch(p, round, local) && round.localTeam == round.winner
  }

  ghost function Achieving(p: ParsedOutput, local: SteamId, f: Feat): RoundLedger -> bool {
    (round: RoundLedger) => Achieved(p, local, f, round)
  }

  ghost function AchievingEligible(p: ParsedOutput, local: SteamId, f: Feat): RoundLedger -> bool {
    (round: RoundLedger) => round.eligible && Achieved(p, local, f, round)
  }

  lemma {:induction false} RoundsFeat(p: ParsedOutput, rounds: seq<RoundLedger>, local: SteamId, tickRate: u32, m: RatingMetrics, f: Feat)
    requires InOrder(p) && ScoreRounds(p, rounds, local, tickRate, m).Ok?
    ensures FeatCount(ScoreRounds(p, rounds, local, tickRate, m).value, f) ==
            WrapU32(FeatCount(m, f) + |Where(rounds, Achieving(p, local, f))|)
    decreases |rounds|
  {
    hide InOrder;
    hide ScoreRound;
    hide WrapU32;
    hide WinsOpening;
    hide LosesOpening;
    hide FacesClutch;
    var does := Achieving(p, local, f);
    if rounds == [] {
      assert Where(rounds, does) == {};
      WrapSmall(FeatCount(m, f));
    } else {
      var next := ScoreRound(p, rounds[0], local, tickRate, m).value;
      RoundOpening(p, rounds[0], local, tickRate, m);
      RoundClutch(p, rounds[0], local, tickRate, m);
      RoundsFeat(p, rounds[1..], local, tickRate, next, f);
      WhereSplit(rounds, does);
      WrapTwice(FeatCount(m, f), One(does(rounds[0])), |Where(rounds[1..], does)|);
    }
  }

  lemma WhereBounded<T(!new)>(s: seq<T>, holds: T -> bool)
    ensures |Where(s, holds)| <= |s|
  {
    SubsetSize(Where(s, holds), Below(|s|));
  }

  lemma AnalysisFeat(p: ParsedOutput, local: SteamId, f: Feat)
    requires Analyze(p, local).Ok?
    ensures var r := Analyze(p, local).value;
      FeatCount(r.ratingInput.metrics, f) == |Where(r.rounds, AchievingEligible(p, local, f))|
  {
    hide BuildRounds;
    hide ScoreRounds;
    hide EvidenceOf;
    hide IrregularitiesOf;
    hide CalculateRating;
    hide InOrder;
    hide HasStream;
    hide Achieved;
    hide Where;
    var r := Analyze(p, local).value;
    var eligible := (round: RoundLedger) => round.eligible;
    RoundsFeat(p, Eligible(r.rounds), local, p.tickRate.value, NoMetrics(|Eligible(r.rounds)|), f);
    WhereBounded(Eligible(r.rounds), Achieving(p, local, f));
    WhereFiltered(r.rounds, eligible, Achieving(p, local, f), AchievingEligible(p, local, f));
  }

  /** Over a demo: the opening duels won and lost, the clutches faced and won, are the numbers of the
      eligible rounds where the local player did so, and none of these counters wraps. */
  lemma OpeningsAndClutches(p: ParsedOutput, local: SteamId)
    requires Analyze(p, local).Ok?
    ensures var rounds, m := Analyze(p, local).value.rounds, Analyze(p, local).value.ratingInput.metrics;
      && m.openingWins == |set i: nat | i < |rounds| && rounds[i].eligible && WinsOpening(p, rounds[i], local)|
      && m.openingLosses == |set i: nat | i < |rounds| && rounds[i].eligible && LosesOpening(p, rounds[i], local)|
      && m.clutchOpportunities == |set i: nat | i < |rounds| && rounds[i].eligible && FacesClutch(p, rounds[i], local)|
      && m.clutchWins == |set i: nat | i < |rounds| && rounds[i].eligible && FacesClutch(p, rounds[i], local)
                                       && rounds[i].localTeam == rounds[i].winner|
  {
    hide Analyze;
    hide WinsOpening;
    hide LosesOpening;
    hide FacesClutch;
    AnalysisFeat(p, local, OpeningWon);
    AnalysisFeat(p, local, OpeningLost);
    AnalysisFeat(p, local, ClutchFaced);
    AnalysisFeat(p, local, ClutchWon);
    var rounds := Analyze(p, local).value.rounds;
    assert Where(rounds, AchievingEligible(p, local, OpeningWon)) ==
           set i: nat | i < |rounds| && rounds[i].eligible && WinsOpening(p, rounds[i], local);
    assert Where(rounds, AchievingEligible(p, local, OpeningLost)) ==
           set i: nat | i < |rounds| && rounds[i].eligible && LosesOpening(p, rounds[i], local);
    assert Where(rounds, AchievingEligible(p, local, ClutchFaced)) ==
           set i: nat | i < |rounds| && rounds[i].eligible && FacesClutch(p, rounds[i], local);
    assert Where(rounds, AchievingEligible(p, local, ClutchWon)) ==
           set i: nat | i < |rounds| && rounds[i].eligible && FacesClutch(p, rounds[i], local)
                        && rounds[i].localTeam == rounds[i].winner;
  }
}
