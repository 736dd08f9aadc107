/** Trade kills against kills (crates/openfrag-analysis/src/lib.rs:418-442).  The trade loop does not
    compare the teams of killer and victim, so avenging a teammate by killing another teammate is a
    trade kill and no kill. */
module TradeKills {
  import opened Prelude
  import opened Ordering
  import opened Rating
  import opened Analysis

  /** The event avenges a teammate of the round, and its victim was on the local player's own team. */
  predicate FriendlyTradeIn(p: ParsedOutput, local: SteamId, window: int, round: RoundLedger, e: ParsedEvent) {
    && InRound(round)(e) && IsTrade(p, local, window, round, e)
    && TeamAt(p, local, e.tick) == TeamAt(p, e.event.victim.value, e.tick)
  }

  /** The event is a kill of an enemy and avenges nobody of the round. */
  predicate UnavengingKillIn(p: ParsedOutput, local: SteamId, window: int, round: RoundLedger, e: ParsedEvent) {
    InRound(round)(e) && IsLocalKill(p, local, e.tick, e.event) && !IsTrade(p, local, window, round, e)
  }

  predicate IsFriendlyTrade(p: ParsedOutput, local: SteamId, window: int, rounds: seq<RoundLedger>, e: ParsedEvent) {
    exists i :: 0 <= i < |rounds| && FriendlyTradeIn(p, local, window, rounds[i], e)
  }

  predicate IsUnavengingKill(p: ParsedOutput, local: SteamId, window: int, rounds: seq<RoundLedger>, e: ParsedEvent) {
    exists i :: 0 <= i < |rounds| && UnavengingKillIn(p, local, window, rounds[i], e)
  }

  function FriendlyTrades(p: ParsedOutput, local: SteamId, window: int, rounds: seq<RoundLedger>): ParsedEvent -> nat {
    (e: ParsedEvent) => One(IsFriendlyTrade(p, local, window, rounds, e))
  }

  function UnavengingKills(p: ParsedOutput, local: SteamId, window: int, rounds: seq<RoundLedger>): ParsedEvent -> nat {
    (e: ParsedEvent) => One(IsUnavengingKill(p, local, window, rounds, e))
  }

  /** These are the only two ways in which trades and kills differ, event by event. */
  lemma {:induction false} TradeOrKill(p: ParsedOutput, local: SteamId, window: int, rounds: seq<RoundLedger>, e: ParsedEvent)
    requires DisjointRounds(rounds)
    ensures RoundCredit(p, local, window, rounds, Trades, e) + One(IsUnavengingKill(p, local, window, rounds, e)) ==
            RoundCredit(p, local, window, rounds, Kills, e) + One(IsFriendlyTrade(p, local, window, rounds, e))
  {
    hide TeamAt;
    hide Avenges;
    if rounds != [] {
      var rest := rounds[1..];
      assert forall i :: 0 <= i < |rest| ==> rest[i] == rounds[i + 1];
      if InRound(rounds[0])(e) {
        assert forall i :: 0 < i < |rounds| ==> !InRound(rounds[i])(e);
      } else {
        TradeOrKill(p, local, window, rest, e);
        FirstApart(p, local, window, rounds, e);
      }
    }
  }

  lemma FirstApart(p: ParsedOutput, local: SteamId, window: int, rounds: seq<RoundLedger>, e: ParsedEvent)
    requires rounds != [] && !InRound(rounds[0])(e)
    ensures IsFriendlyTrade(p, local, window, rounds, e) <==> IsFriendlyTrade(p, local, window, rounds[1..], e)
    ensures IsUnavengingKill(p, local, window, rounds, e) <==> IsUnavengingKill(p, local, window, rounds[1..], e)
  {
    var rest := rounds[1..];
    assert !FriendlyTradeIn(p, local, window, rounds[0], e) && !UnavengingKillIn(p, local, window, rounds[0], e);
    hide FriendlyTradeIn;
    hide UnavengingKillIn;
    forall i | 0 < i < |rounds| ensures rest[i - 1] == rounds[i] {
    }
    if i :| 0 <= i < |rounds| && FriendlyTradeIn(p, local, window, rounds[i], e) {
      assert FriendlyTradeIn(p, local, window, rest[i - 1], e);
    }
    if i :| 0 <= i < |rounds| && UnavengingKillIn(p, local, window, rounds[i], e) {
      assert UnavengingKillIn(p, local, window, rest[i - 1], e);
    }
  }

  lemma {:induction false} SumExchange(events: seq<ParsedEvent>, a: ParsedEvent -> nat, b: ParsedEvent -> nat,
                                       c: ParsedEvent -> nat, d: ParsedEvent -> nat)
    requires forall e :: a(e) + b(e) == c(e) + d(e)
    ensures Sum(events, a) + Sum(events, b) == Sum(events, c) + Sum(events, d)
  {
    if events != [] {
      SumExchange(events[1..], a, b, c, d);
    }
  }

  lemma ExchangeTrades(p: ParsedOutput, local: SteamId, window: int, rounds: seq<RoundLedger>)
    requires DisjointRounds(rounds)
    ensures Sum(p.events, RoundCredits(p, local, window, rounds, Trades)) +
            Sum(p.events, UnavengingKills(p, local, window, rounds)) ==
            Sum(p.events, RoundCredits(p, local, window, rounds, Kills)) +
            Sum(p.events, FriendlyTrades(p, local, window, rounds))
  {
    hide Sum;
    hide RoundCredit;
    hide IsFriendlyTrade;
    hide IsUnavengingKill;
    forall e
      ensures RoundCredit(p, local, window, rounds, Trades, e) + One(IsUnavengingKill(p, local, window, rounds, e)) ==
              RoundCredit(p, local, window, rounds, Kills, e) + One(IsFriendlyTrade(p, local, window, rounds, e))
    {
      TradeOrKill(p, local, window, rounds, e);
    }
    SumExchange(p.events, RoundCredits(p, local, window, rounds, Trades), UnavengingKills(p, local, window, rounds),
                RoundCredits(p, local, window, rounds, Kills), FriendlyTrades(p, local, window, rounds));
  }

  /** Trade kills stay within kills exactly when the avenging kills of own-team victims are no more
      than the enemy kills that avenge nobody, over the eligible rounds of the demo; the counters are
      assumed not to wrap. */
  lemma TradesWithinKillsIff(p: ParsedOutput, local: SteamId)
    requires Analyze(p, local).Ok? && p.tickRate.Some? && BuildRounds(p, local).Ok?
    requires var window, rounds := 5 * p.tickRate.value, Eligible(BuildRounds(p, local).value);
      Sum(p.events, RoundCredits(p, local, window, rounds, Trades)) <= U32_MAX
      && Sum(p.events, RoundCredits(p, local, window, rounds, Kills)) <= U32_MAX
    ensures var m := Analyze(p, local).value.ratingInput.metrics;
      var window, rounds := 5 * p.tickRate.value, Eligible(BuildRounds(p, local).value);
      m.tradeKills <= m.kills <==>
      Sum(p.events, FriendlyTrades(p, local, window, rounds)) <= Sum(p.events, UnavengingKills(p, local, window, rounds))
  {
    hide Analyze;
    hide BuildRounds;
    hide Eligible;
    hide DisjointRounds;
    hide WrapU32;
    hide Sum;
    hide RoundCredits;
    hide FriendlyTrades;
    hide UnavengingKills;
    AnalyzedRounds(p, local);
    BuiltDisjoint(p, local);
    AnalysisCountsEachEventOnce(p, local, Trades);
    AnalysisCountsEachEventOnce(p, local, Kills);
    var window, rounds := 5 * p.tickRate.value, Eligible(BuildRounds(p, local).value);
    EligibleDisjoint(BuildRounds(p, local).value);
    ExchangeTrades(p, local, window, rounds);
    WrapSmall(Sum(p.events, RoundCredits(p, local, window, rounds, Trades)));
    WrapSmall(Sum(p.events, RoundCredits(p, local, window, rounds, Kills)));
  }

  lemma AnalyzedRounds(p: ParsedOutput, local: SteamId)
    requires Analyze(p, local).Ok?
    ensures BuildRounds(p, local) == Ok(Analyze(p, local).value.rounds)
  {
    hide Precheck;
    hide BuildRounds;
    hide InputOf;
    hide CalculateRating;
  }

  // ----- A demo with more trade kills than kills

  const FREEZE := ParsedEvent(1, 0, RoundFreezeEnd(false))
  const HURT := ParsedEvent(5, 1, PlayerHurt(Some(2), Some(3), Some(100), None))
  const FIRST_DEATH := ParsedEvent(10, 2, PlayerDeath(Some(2), Some(3), None, false))
  const SECOND_DEATH := ParsedEvent(11, 3, PlayerDeath(Some(1), Some(2), None, false))
  const END := ParsedEvent(20, 4, RoundEnd(Some(2)))

  /** One round of three teammates: player 2 kills player 3 and player 1 then kills player 2. */
  const TEAM_KILL := ParsedOutput(
    Some(64), Some("build"), [Participant(1, Some(2)), Participant(2, Some(2)), Participant(3, Some(2))],
    [FREEZE, HURT, FIRST_DEATH, SECOND_DEATH, END], [EventReceipt(1, 0, "freeze")],
    [PlayerSnapshot(1, 0, 1, Some(2), Some(100), Some(true), Some(0)),
     PlayerSnapshot(1, 1, 2, Some(2), Some(100), Some(true), Some(0)),
     PlayerSnapshot(1, 2, 3, Some(2), Some(100), Some(true), Some(0)),
     PlayerSnapshot(20, 3, 1, Some(2), Some(100), Some(true), Some(1))],
    "demo")

  function Pick<T>(x: T, keep: T -> bool): seq<T> {
    if keep(x) then [x] else []
  }

  lemma FilterFive<T(!new)>(a: T, b: T, c: T, d: T, e: T, keep: T -> bool)
    ensures Filter([a, b, c, d, e], keep) == Pick(a, keep) + Pick(b, keep) + Pick(c, keep) + Pick(d, keep) + Pick(e, keep)
  {
    assert [a, b, c, d, e] == [a] + [b] + [c] + [d] + [e];
    FilterConcat([a] + [b] + [c] + [d], [e], keep);
    FilterConcat([a] + [b] + [c], [d], keep);
    FilterConcat([a] + [b], [c], keep);
    FilterConcat([a], [b], keep);
    FilterOne(a, keep);
    FilterOne(b, keep);
    FilterOne(c, keep);
    FilterOne(d, keep);
    FilterOne(e, keep);
  }

  lemma FilterOne<T(!new)>(x: T, keep: T -> bool)
    ensures Filter([x], keep) == Pick(x, keep)
  {
    assert [x][1..] == [];
  }

  /** Everyone is alive on team 2 from the freeze on. */
  lemma Teammates(id: SteamId, tick: int)
    requires id in {1, 2, 3} && tick >= 1
    ensures TeamAt(TEAM_KILL, id, tick) == Some(2) && AliveAt(TEAM_KILL, id, tick) == Some(true)
  {
    var snapshots := TEAM_KILL.snapshots;
    var s := SnapshotAt(snapshots, id, tick);
    assert snapshots[0] in snapshots && snapshots[1] in snapshots && snapshots[2] in snapshots;
    assert Seen(snapshots[id - 1], id, tick);
  }

  /** The round counter of the local player goes from 0 to 1. */
  lemma LocalSnapshots()
    ensures SnapshotAt(TEAM_KILL.snapshots, 1, 1) == Some(TEAM_KILL.snapshots[0])
    ensures SnapshotAt(TEAM_KILL.snapshots, 1, 20) == Some(TEAM_KILL.snapshots[3])
  {
    var snapshots := TEAM_KILL.snapshots;
    assert snapshots[0] in snapshots && snapshots[3] in snapshots;
    assert Seen(snapshots[0], 1, 1) && Seen(snapshots[3], 1, 20);
  }

  const TEAM_ROUND := RoundLedger(1, 1, 20, 2, 2, true, None, HashesBetween(TEAM_KILL, 1, 20))

  lemma TeamFreezes()
    ensures FreezesOf(TEAM_KILL) == [FREEZE] && EndsOf(TEAM_KILL) == [END]
  {
    FilterFive(FREEZE, HURT, FIRST_DEATH, SECOND_DEATH, END, (e: ParsedEvent) => e.event.RoundFreezeEnd?);
    FilterFive(FREEZE, HURT, FIRST_DEATH, SECOND_DEATH, END, (e: ParsedEvent) => e.event.RoundEnd?);
  }

  lemma TeamRoundBuilt()
    ensures BuildRound(TEAM_KILL, 1, [FREEZE], [END], 0) == Ok(TEAM_ROUND)
  {
    hide SnapshotAt;
    hide HashesBetween;
    LocalSnapshots();
    FilterOne(END, Between(1, I32_MAX));
  }

  lemma TeamRounds()
    ensures BuildRounds(TEAM_KILL, 1) == Ok([TEAM_ROUND])
  {
    hide HashesBetween;
    hide FreezesOf;
    hide EndsOf;
    var p := TEAM_KILL;
    TeamFreezes();
    TeamRoundBuilt();
    hide BuildRound;
    assert RoundsUpTo(p, 1, [FREEZE], [END], 0) == Ok([]) && [] + [TEAM_ROUND] == [TEAM_ROUND];
    assert RoundsUpTo(p, 1, [FREEZE], [END], 1) == Ok([TEAM_ROUND]);
  }

  lemma {:induction false} TeamScan(s: Scan)
    ensures ScoreEvents(TEAM_KILL, 1, s, TEAM_KILL.events) == Ok(s)
  {
    hide SnapshotAt;
    hide TeamAt;
    var p := TEAM_KILL;
    Teammates(1, 11);
    Teammates(2, 11);
    Teammates(2, 10);
    Teammates(3, 10);
    Teammates(1, 10);
    assert ScoreEvent(p, 1, s, FREEZE) == Ok(s) && ScoreEvent(p, 1, s, END) == Ok(s) && ScoreEvent(p, 1, s, HURT) == Ok(s);
    assert ScoreDeath(p, 1, s, 10, FIRST_DEATH.event) == Ok(s) && ScoreDeath(p, 1, s, 11, SECOND_DEATH.event) == Ok(s);
    assert ScoreEvent(p, 1, s, FIRST_DEATH) == Ok(s) && ScoreEvent(p, 1, s, SECOND_DEATH) == Ok(s);
    hide ScoreEvent;
    var e4, e3, e2, e1 := [END], [SECOND_DEATH, END], [FIRST_DEATH, SECOND_DEATH, END], [HURT, FIRST_DEATH, SECOND_DEATH, END];
    assert e4[1..] == [] && e3[1..] == e4 && e2[1..] == e3 && e1[1..] == e2 && p.events[1..] == e1;
    assert ScoreEvents(p, 1, s, e4) == Ok(s);
    assert ScoreEvents(p, 1, s, e3) == Ok(s);
    assert ScoreEvents(p, 1, s, e2) == Ok(s);
    assert ScoreEvents(p, 1, s, e1) == Ok(s);
  }

  lemma {:induction false} TeamTrades(m: RatingMetrics)
    ensures ScoreTrades(TEAM_KILL, TEAM_ROUND, TradeWindow(64), [FIRST_DEATH, SECOND_DEATH], [SECOND_DEATH], m) ==
            Ok(m.(tradeKills := Bump(m.tradeKills, 1)))
  {
    hide SnapshotAt;
    hide TeamAt;
    Teammates(3, 10);
    assert FIRST_DEATH in [FIRST_DEATH, SECOND_DEATH];
    assert Avenges(TEAM_KILL, TEAM_ROUND, TradeWindow(64), SECOND_DEATH, 2, FIRST_DEATH);
    assert [SECOND_DEATH][1..] == [];
  }

  /** No enemies live, so there is no clutch. */
  lemma {:induction false} TeamNoClutch(ticks: seq<i32>)
    requires forall i :: 0 <= i < |ticks| ==> ticks[i] >= 1
    ensures FindClutch(TEAM_KILL, TEAM_ROUND, 1, ticks) == Ok(false)
    decreases |ticks|
  {
    hide LivingTeammates;
    hide AliveAt;
    if ticks != [] {
      Teammates(1, ticks[0]);
      FilterNone(TEAM_KILL.participants, (x: Participant) =>
        (x.team == Some(2) || x.team == Some(3)) && x.team != Some(TEAM_ROUND.localTeam)
        && AliveAt(TEAM_KILL, x.steamId, ticks[0]) == Some(true));
      assert LivingEnemies(TEAM_KILL, TEAM_ROUND, ticks[0]) == 0;
      TeamNoClutch(ticks[1..]);
    }
  }

  lemma TeamEvents()
    ensures Filter(TEAM_KILL.events, InRound(TEAM_ROUND)) == TEAM_KILL.events
  {
    hide Filter;
    hide HashesBetween;
    var inRound := InRound(TEAM_ROUND);
    assert inRound(FREEZE) && inRound(HURT) && inRound(FIRST_DEATH) && inRound(SECOND_DEATH) && inRound(END);
    FilterAll([FREEZE, HURT, FIRST_DEATH, SECOND_DEATH, END], inRound);
  }

  lemma TeamDeaths()
    ensures Filter(TEAM_KILL.events, (e: ParsedEvent) => e.event.PlayerDeath?) == [FIRST_DEATH, SECOND_DEATH]
  {
    FilterFive(FREEZE, HURT, FIRST_DEATH, SECOND_DEATH, END, (e: ParsedEvent) => e.event.PlayerDeath?);
  }

  lemma TeamKills()
    ensures Filter([FIRST_DEATH, SECOND_DEATH], (e: ParsedEvent) => e.event.PlayerDeath? && e.event.attacker == Some(1)) ==
            [SECOND_DEATH]
  {
    var isKill := (e: ParsedEvent) => e.event.PlayerDeath? && e.event.attacker == Some(1);
    FilterConcat([FIRST_DEATH], [SECOND_DEATH], isKill);
    FilterOne(FIRST_DEATH, isKill);
    FilterOne(SECOND_DEATH, isKill);
    assert [FIRST_DEATH, SECOND_DEATH] == [FIRST_DEATH] + [SECOND_DEATH];
  }

  lemma TeamTicks()
    ensures forall i :: 0 <= i < |TransitionTicks(TEAM_KILL, TEAM_ROUND)| ==> TransitionTicks(TEAM_KILL, TEAM_ROUND)[i] >= 1
  {
    var ss := Filter(TEAM_KILL.snapshots, (s: PlayerSnapshot) => TEAM_ROUND.freezeTick <= s.tick <= TEAM_ROUND.endTick);
    hide Filter;
    forall i | 0 <= i < |ss|
      ensures ss[i].tick >= 1
    {
      assert ss[i] in ss;
    }
  }

  lemma TeamScore(m: RatingMetrics)
    ensures ScoreRound(TEAM_KILL, TEAM_ROUND, 1, 64, m) == Ok(m.(tradeKills := Bump(m.tradeKills, 1)))
  {
    hide ScoreEvents;
    hide ScoreTrades;
    hide FindClutch;
    hide Filter;
    hide Bump;
    hide TransitionTicks;
    hide HashesBetween;
    TeamEvents();
    TeamDeaths();
    TeamKills();
    TeamScan(Scan(m, false));
    TeamTrades(m);
    TeamTicks();
    TeamNoClutch(TransitionTicks(TEAM_KILL, TEAM_ROUND));
  }

  lemma TeamPrecheck()
    ensures Precheck(TEAM_KILL, 1).None?
  {
    var p := TEAM_KILL;
    assert Participant(1, Some(2)) in p.participants;
    assert FREEZE in p.events && HURT in p.events && FIRST_DEATH in p.events && END in p.events;
  }

  lemma TeamInput()
    ensures InputOf(TEAM_KILL, 1, [TEAM_ROUND]).Ok?
    ensures InputOf(TEAM_KILL, 1, [TEAM_ROUND]).value.metrics == NoMetrics(1).(tradeKills := 1)
  {
    hide ScoreRound;
    hide EvidenceOf;
    hide IrregularitiesOf;
    hide Filter;
    var p := TEAM_KILL;
    FilterOne(TEAM_ROUND, (r: RoundLedger) => r.eligible);
    TeamScore(NoMetrics(1));
    WrapSmall(1);
    assert [TEAM_ROUND][1..] == [];
    assert ScoreRounds(p, [], 1, 64, NoMetrics(1).(tradeKills := 1)) == Ok(NoMetrics(1).(tradeKills := 1));
  }

  /** A demo that is analysed, with one trade kill and no kill: player 1 avenged player 3 on their
      common teammate. */
  lemma TradeKillsExceedKills()
    ensures Analyze(TEAM_KILL, 1).Ok?
    ensures var m := Analyze(TEAM_KILL, 1).value.ratingInput.metrics; m.tradeKills == 1 && m.kills == 0
  {
    hide Precheck;
    hide BuildRounds;
    hide InputOf;
    hide CalculateRating;
    TeamPrecheck();
    TeamRounds();
    TeamInput();
    CalculateRatingTotal(InputOf(TEAM_KILL, 1, [TEAM_ROUND]).value);
  }
}
