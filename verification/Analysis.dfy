/** From an ordered demo to a rating (crates/openfrag-analysis/src/lib.rs).

    The counters are `u32`s that wrap, as in a release build.  Whatever they do, a demo whose
    rounds pair up is always rated: the pairing makes the rounds disjoint, a round contributes at
    most one opening duel and one clutch, and that is all the rating formula asks for. */
module Analysis {
  import opened Prelude
  import opened Ordering
  import opened Rating

  const I32_MAX: int := 0x7FFF_FFFF
  const I32_MIN: int := -0x8000_0000

  type i32 = x: int | I32_MIN <= x <= I32_MAX

  type SteamId = u64

  datatype Event =
    | RoundFreezeEnd(warmup: bool)
    | RoundEnd(winner: Option<i32>)
    | PlayerHurt(attacker: Option<SteamId>, victim: Option<SteamId>, damageHealth: Option<int>, weapon: Option<string>)
    | PlayerDeath(attacker: Option<SteamId>, victim: Option<SteamId>, assister: Option<SteamId>, assistedFlash: bool)
    | PlayerDisconnect(player: Option<SteamId>)

  datatype ParsedEvent = ParsedEvent(tick: i32, ordinal: u64, event: Event)

  datatype EventReceipt = EventReceipt(tick: i32, ordinal: u64, hash: string)

  datatype PlayerSnapshot = PlayerSnapshot(
    tick: i32, ordinal: u64, steamId: SteamId, team: Option<i32>, health: Option<i32>,
    alive: Option<bool>, roundCounter: Option<i32>)

  datatype Participant = Participant(steamId: SteamId, team: Option<i32>)

  datatype ParsedOutput = ParsedOutput(
    tickRate: Option<u32>, patchBuild: Option<string>, participants: seq<Participant>,
    events: seq<ParsedEvent>, receipts: seq<EventReceipt>, snapshots: seq<PlayerSnapshot>, sourceHash: string)

  datatype AnalysisUnavailable =
    | MissingTickRate
    | MissingGameBuild
    | MissingStream(name: string)
    | MissingLocalParticipant
    | MissingIdentity
    | MissingTeamOrLiveness
    | MalformedOrdering
    | MalformedEvidence
    | Domain(error: RatingInputError)

  datatype RoundExclusion = Warmup | MissingFreezeState | LocalPlayerNotAlive | InvalidTeam | MissingCanonicalEnd

  datatype RoundLedger = RoundLedger(
    number: nat, freezeTick: i32, endTick: i32, winner: i32, localTeam: i32, eligible: bool,
    exclusion: Option<RoundExclusion>, evidenceHashes: seq<string>)

  datatype AnalysisReceipt = AnalysisReceipt(
    rounds: seq<RoundLedger>, ratingInput: RatingInput, ratingReceipt: RatingReceipt)

  // ----- Order and snapshots

  predicate KeyLess(tick: int, ordinal: int, tick': int, ordinal': int) {
    tick < tick' || (tick == tick' && ordinal < ordinal')
  }

  predicate InOrder(p: ParsedOutput) {
    && (forall i :: 0 < i < |p.events| ==>
          KeyLess(p.events[i - 1].tick, p.events[i - 1].ordinal, p.events[i].tick, p.events[i].ordinal))
    && (forall i :: 0 < i < |p.receipts| ==> p.receipts[i - 1].ordinal < p.receipts[i].ordinal)
    && (forall i :: 0 < i < |p.snapshots| ==> p.snapshots[i - 1].ordinal < p.snapshots[i].ordinal)
  }

  predicate Seen(s: PlayerSnapshot, id: SteamId, tick: int) {
    s.steamId == id && s.tick <= tick
  }

  /** The latest snapshot of a player at or before a tick. */
  function SnapshotAt(snapshots: seq<PlayerSnapshot>, id: SteamId, tick: int): (r: Option<PlayerSnapshot>)
    ensures r.None? <==> forall s :: s in snapshots ==> !Seen(s, id, tick)
    ensures r.Some? ==> r.value in snapshots && Seen(r.value, id, tick)
    ensures r.Some? ==> forall s :: s in snapshots && Seen(s, id, tick) ==>
              !KeyLess(r.value.tick, r.value.ordinal, s.tick, s.ordinal)
  {
    if snapshots == [] then None
    else
      var n := |snapshots| - 1;
      var before := SnapshotAt(snapshots[..n], id, tick);
      var s := snapshots[n];
      assert forall x :: x in snapshots <==> x in snapshots[..n] || x == s by {
        assert snapshots == snapshots[..n] + [s];
      }
      if !Seen(s, id, tick) then before
      else if before.Some? && KeyLess(s.tick, s.ordinal, before.value.tick, before.value.ordinal) then before
      else Some(s)
  }

  function TeamAt(p: ParsedOutput, id: SteamId, tick: int): Option<i32> {
    var s := SnapshotAt(p.snapshots, id, tick);
    if s.Some? then s.value.team else None
  }

  function AliveAt(p: ParsedOutput, id: SteamId, tick: int): Option<bool> {
    var s := SnapshotAt(p.snapshots, id, tick);
    if s.Some? then s.value.alive else None
  }

  // ----- Rounds

  function FreezesOf(p: ParsedOutput): seq<ParsedEvent> {
    Filter(p.events, (e: ParsedEvent) => e.event.RoundFreezeEnd?)
  }

  function EndsOf(p: ParsedOutput): seq<ParsedEvent> {
    Filter(p.events, (e: ParsedEvent) => e.event.RoundEnd?)
  }

  /** The freeze tick that closes the window of round `i`. */
  function NextFreezeTick(freezes: seq<ParsedEvent>, i: nat): i32 {
    if i + 1 < |freezes| then freezes[i + 1].tick else I32_MAX
  }

  function Between(lo: int, hi: int): ParsedEvent -> bool {
    (e: ParsedEvent) => lo < e.tick < hi
  }

  function WrapI32(x: int): i32 {
    (x + 0x8000_0000) % 0x1_0000_0000 - 0x8000_0000
  }

  /** The state of the local player at the freeze: team, liveness and exclusion. */
  function FreezeState(warmup: bool, state: Option<PlayerSnapshot>)
    : (r: Result<(i32, bool, Option<RoundExclusion>), AnalysisUnavailable>)
    ensures r.Err? ==> !r.error.Domain?
  {
    if warmup then Ok((0, false, Some(Warmup)))
    else if state.None? then Err(MissingTeamOrLiveness)
    else
      var s := state.value;
      var team := if s.team.Some? then s.team.value else 0;
      if s.alive != Some(true) then Ok((team, false, Some(LocalPlayerNotAlive)))
      else if s.team != Some(2) && s.team != Some(3) then Ok((team, true, Some(InvalidTeam)))
      else Ok((team, true, None))
  }

  function CounterAt(p: ParsedOutput, local: SteamId, tick: int): Option<i32> {
    var s := SnapshotAt(p.snapshots, local, tick);
    if s.Some? then s.value.roundCounter else None
  }

  /** The round counter must advance by exactly one over an eligible round. */
  function CounterCheck(p: ParsedOutput, local: SteamId, start: Option<i32>, endTick: int): (r: Option<AnalysisUnavailable>)
    ensures r.Some? ==> !r.value.Domain?
  {
    if start.None? then Some(MissingTeamOrLiveness)
    else if CounterAt(p, local, endTick).None? then Some(MissingTeamOrLiveness)
    else if CounterAt(p, local, endTick).value != WrapI32(start.value + 1) then Some(MalformedEvidence)
    else None
  }

  function HashesBetween(p: ParsedOutput, lo: int, hi: int): seq<string> {
    var rs := Filter(p.receipts, (r: EventReceipt) => lo <= r.tick <= hi);
    seq(|rs|, i requires 0 <= i < |rs| => rs[i].hash)
  }

  /** One pass of the loop in `build_rounds`. */
  function BuildRound(p: ParsedOutput, local: SteamId, freezes: seq<ParsedEvent>, ends: seq<ParsedEvent>, i: nat)
    : (r: Result<RoundLedger, AnalysisUnavailable>)
    requires i < |freezes|
    ensures r.Err? ==> !r.error.Domain?
  {
    var freeze := freezes[i];
    var matching := Filter(ends, Between(freeze.tick, NextFreezeTick(freezes, i)));
    if |matching| != 1 then Err(MalformedEvidence)
    else
      var end := matching[0];
      var snapshot := SnapshotAt(p.snapshots, local, freeze.tick);
      var state := if snapshot.Some? && snapshot.value.tick == freeze.tick then snapshot else None;
      if !freeze.event.RoundFreezeEnd? then Err(MalformedEvidence)
      else
        var (team, alive, exclusion) :- FreezeState(freeze.event.warmup, state);
        var failure :=
          if exclusion.Some? then None
          else CounterCheck(p, local, if state.Some? then state.value.roundCounter else None, end.tick);
        if failure.Some? then Err(failure.value)
        else if !end.event.RoundEnd? || end.event.winner.None? then Err(MalformedEvidence)
        else Ok(RoundLedger(i + 1, freeze.tick, end.tick, end.event.winner.value, team,
                            alive && exclusion.None?, exclusion, HashesBetween(p, freeze.tick, end.tick)))
  }

  function RoundsUpTo(p: ParsedOutput, local: SteamId, freezes: seq<ParsedEvent>, ends: seq<ParsedEvent>, n: nat)
    : (r: Result<seq<RoundLedger>, AnalysisUnavailable>)
    requires n <= |freezes|
    ensures r.Err? ==> !r.error.Domain?
    ensures r.Ok? ==> |r.value| == n
    ensures r.Ok? ==> forall i :: 0 <= i < n ==> BuildRound(p, local, freezes, ends, i) == Ok(r.value[i])
  {
    if n == 0 then Ok([])
    else
      var before :- RoundsUpTo(p, local, freezes, ends, n - 1);
      var round :- BuildRound(p, local, freezes, ends, n - 1);
      Ok(before + [round])
  }

  function BuildRounds(p: ParsedOutput, local: SteamId): (r: Result<seq<RoundLedger>, AnalysisUnavailable>)
    ensures r.Err? ==> !r.error.Domain?
  {
    var freezes, ends := FreezesOf(p), EndsOf(p);
    var rounds :- RoundsUpTo(p, local, freezes, ends, |freezes|);
    if |ends| != |rounds| then Err(MalformedEvidence)
    else if rounds == [] then Err(MissingStream("eligible round ledger"))
    else Ok(rounds)
  }

  method BuildRoundLedgers(p: ParsedOutput, local: SteamId) returns (r: Result<seq<RoundLedger>, AnalysisUnavailable>)
    ensures r == BuildRounds(p, local)
  {
    var freezes, ends := FreezesOf(p), EndsOf(p);
    hide BuildRound;
    var rounds := [];
    var index := 0;
    while index < |freezes|
      invariant 0 <= index <= |freezes|
      invariant RoundsUpTo(p, local, freezes, ends, index) == Ok(rounds)
    {
      var round := BuildRound(p, local, freezes, ends, index);
      if round.Err? {
        RoundsFail(p, local, freezes, ends, index, |freezes|);
        return Err(round.error);
      }
      rounds := rounds + [round.value];
      index := index + 1;
    }
    if |ends| != |rounds| {
      return Err(MalformedEvidence);
    }
    if rounds == [] {
      return Err(MissingStream("eligible round ledger"));
    }
    return Ok(rounds);
  }

  lemma {:induction false} RoundsFail(p: ParsedOutput, local: SteamId, freezes: seq<ParsedEvent>, ends: seq<ParsedEvent>, k: nat, n: nat)
    requires k < n <= |freezes|
    requires RoundsUpTo(p, local, freezes, ends, k).Ok?
    requires BuildRound(p, local, freezes, ends, k).Err?
    ensures RoundsUpTo(p, local, freezes, ends, n) == Err(BuildRound(p, local, freezes, ends, k).error)
  {
    hide BuildRound;
    if n > k + 1 {
      RoundsFail(p, local, freezes, ends, k, n - 1);
    }
  }

  // ----- Rounds are disjoint and pair up with the round ends

  /** Round `i` owns the one end inside its window. */
  lemma RoundWindow(p: ParsedOutput, local: SteamId, i: nat) returns (k: nat)
    requires BuildRounds(p, local).Ok? && i < |BuildRounds(p, local).value|
    ensures var round := BuildRounds(p, local).value[i]; var freezes, ends := FreezesOf(p), EndsOf(p);
      && i < |freezes| && k < |ends|
      && round.freezeTick == freezes[i].tick && round.endTick == ends[k].tick
      && freezes[i].tick < ends[k].tick < NextFreezeTick(freezes, i)
  {
    var freezes, ends := FreezesOf(p), EndsOf(p);
    var round := BuildRounds(p, local).value[i];
    assert BuildRound(p, local, freezes, ends, i) == Ok(round);
    var matching := Filter(ends, Between(freezes[i].tick, NextFreezeTick(freezes, i)));
    assert matching[0] in matching;
    assert matching[0] in ends;
    k :| 0 <= k < |ends| && ends[k] == matching[0];
  }

  /** Tick ranges of different rounds are disjoint, in order. */
  lemma {:induction false} RoundsDisjoint(p: ParsedOutput, local: SteamId, i: nat, j: nat)
    requires BuildRounds(p, local).Ok? && i < j < |BuildRounds(p, local).value|
    ensures var rounds := BuildRounds(p, local).value;
      rounds[i].freezeTick < rounds[i].endTick < rounds[j].freezeTick < rounds[j].endTick
    decreases j - i
  {
    hide BuildRounds;
    var a := RoundWindow(p, local, i);
    var b := RoundWindow(p, local, j);
    if i + 1 < j {
      RoundsDisjoint(p, local, i + 1, j);
      var c := RoundWindow(p, local, i + 1);
    }
  }

  /** The numbers below `n`. */
  ghost function Below(n: nat): (r: set<nat>)
    ensures |r| == n && forall x: nat :: x in r <==> x < n
  {
    if n == 0 then {} else Below(n - 1) + {n - 1}
  }

  lemma {:induction false} SubsetSize(a: set<nat>, b: set<nat>)
    requires a <= b
    ensures |a| <= |b|
  {
    if a != {} {
      var x :| x in a;
      SubsetSize(a - {x}, b - {x});
    }
  }

  /** An injection of the first `n` numbers into themselves is onto. */
  lemma Onto(n: nat, owned: seq<nat>, k: nat) returns (i: nat)
    requires |owned| == n && k < n
    requires forall a :: 0 <= a < n ==> owned[a] < n
    requires forall a, b :: 0 <= a < b < n ==> owned[a] != owned[b]
    ensures i < n && owned[i] == k
  {
    DistinctSize(owned);
    if k !in Elems(owned) {
      SubsetSize(Elems(owned), Below(n) - {k});
    }
    i :| 0 <= i < n && owned[i] == k;
  }

  /** Every round end closes a round: none lies outside. */
  lemma RoundEndClosesRound(p: ParsedOutput, local: SteamId, k: nat) returns (i: nat)
    requires BuildRounds(p, local).Ok? && k < |EndsOf(p)|
    ensures |BuildRounds(p, local).value| == |EndsOf(p)| && i < |EndsOf(p)|
    ensures BuildRounds(p, local).value[i].endTick == EndsOf(p)[k].tick
  {
    var owned := Owners(p, local, |BuildRounds(p, local).value|);
    OwnersDistinct(p, local, owned);
    hide BuildRounds;
    hide EndsOf;
    i := Onto(|owned|, owned, k);
  }

  lemma OwnersDistinct(p: ParsedOutput, local: SteamId, owned: seq<nat>)
    requires OwnedEnds(p, local, owned)
    ensures forall a, b :: 0 <= a < b < |owned| ==> owned[a] != owned[b]
  {
    hide BuildRounds;
    hide EndsOf;
    forall a, b | 0 <= a < b < |owned|
      ensures owned[a] != owned[b]
    {
      RoundsDisjoint(p, local, a, b);
    }
  }

  /** And no round holds two: ends have different ticks. */
  lemma RoundEndsDiffer(p: ParsedOutput, local: SteamId, k: nat, k': nat)
    requires BuildRounds(p, local).Ok? && k < k' < |EndsOf(p)|
    ensures EndsOf(p)[k].tick != EndsOf(p)[k'].tick
  {
    var owned := Owners(p, local, |BuildRounds(p, local).value|);
    OwnersDistinct(p, local, owned);
    hide BuildRounds;
    hide EndsOf;
    var i := Onto(|owned|, owned, k);
    var i' := Onto(|owned|, owned, k');
    if i < i' {
      RoundsDisjoint(p, local, i, i');
    } else {
      RoundsDisjoint(p, local, i', i);
    }
  }

  ghost predicate OwnedEnds(p: ParsedOutput, local: SteamId, owned: seq<nat>) {
    && BuildRounds(p, local).Ok? && |owned| <= |BuildRounds(p, local).value| == |EndsOf(p)|
    && forall i :: 0 <= i < |owned| ==>
         owned[i] < |EndsOf(p)| && EndsOf(p)[owned[i]].tick == BuildRounds(p, local).value[i].endTick
  }

  /** The index of the end each of the first `n` rounds owns. */
  lemma {:induction false} Owners(p: ParsedOutput, local: SteamId, n: nat) returns (owned: seq<nat>)
    requires BuildRounds(p, local).Ok? && n <= |BuildRounds(p, local).value|
    ensures |owned| == n && OwnedEnds(p, local, owned)
  {
    if n == 0 {
      owned := [];
    } else {
      owned := Owners(p, local, n - 1);
      var k := RoundWindow(p, local, n - 1);
      owned := owned + [k];
    }
  }

  // ----- Scoring one round

  /** `+=` on a `u32` counter, wrapping. */
  function Bump(x: u32, amount: u32): u32 {
    WrapU32(x + amount)
  }

  function WrapU32(x: nat): u32 {
    x % 0x1_0000_0000
  }

  predicate IsUtility(weapon: Option<string>) {
    weapon == Some("hegrenade") || weapon == Some("inferno") || weapon == Some("molotov") || weapon == Some("incgrenade")
  }

  function ScoreHurt(p: ParsedOutput, local: SteamId, m: RatingMetrics, tick: i32, hurt: Event): (r: Result<RatingMetrics, AnalysisUnavailable>)
    requires hurt.PlayerHurt?
    ensures r.Err? ==> !r.error.Domain?
  {
    if hurt.attacker != Some(local) then Ok(m)
    else if hurt.victim.None? then Err(MissingIdentity)
    else
      var victim := hurt.victim.value;
      var attackerTeam, victimTeam := TeamAt(p, local, tick), TeamAt(p, victim, tick);
      if attackerTeam.None? || victimTeam.None? then Err(MissingTeamOrLiveness)
      else if attackerTeam == victimTeam || victim == local then Ok(m)
      else if hurt.damageHealth.None? || !(0 <= hurt.damageHealth.value <= U32_MAX) then Err(MalformedEvidence)
      else
        var state := SnapshotAt(p.snapshots, victim, tick);
        if state.None? || state.value.health.None? then Err(MissingTeamOrLiveness)
        else if state.value.health.value < 0 then Err(MalformedEvidence)
        else
          var scored := Min(hurt.damageHealth.value, state.value.health.value);
          Ok(if IsUtility(hurt.weapon) then m.(utilityDamage := Bump(m.utilityDamage, scored))
             else m.(directDamage := Bump(m.directDamage, scored)))
  }

  /** The metrics while scanning a round, and whether its opening duel has been seen. */
  datatype Scan = Scan(m: RatingMetrics, openingSeen: bool)

  predicate IsLocalDeath(local: SteamId, e: Event) {
    e.PlayerDeath? && e.victim == Some(local)
  }

  predicate IsLocalKill(p: ParsedOutput, local: SteamId, tick: int, e: Event) {
    && e.PlayerDeath? && e.victim.Some? && e.attacker == Some(local)
    && TeamAt(p, local, tick) != TeamAt(p, e.victim.value, tick)
  }

  /** A death that can be an opening duel: attacker and victim differ and were on known, different teams. */
  predicate IsDuel(p: ParsedOutput, tick: int, e: Event) {
    && e.PlayerDeath? && e.victim.Some? && e.attacker.Some? && e.attacker != e.victim
    && TeamAt(p, e.attacker.value, tick).Some? && TeamAt(p, e.victim.value, tick).Some?
    && TeamAt(p, e.attacker.value, tick) != TeamAt(p, e.victim.value, tick)
  }

  function ScoreDeath(p: ParsedOutput, local: SteamId, s: Scan, tick: i32, e: Event): (r: Result<Scan, AnalysisUnavailable>)
    requires e.PlayerDeath?
    ensures r.Err? ==> !r.error.Domain?
  {
    if e.victim.None? then Err(MissingIdentity)
    else
      var m1 := if IsLocalDeath(local, e) then s.m.(deaths := Bump(s.m.deaths, 1)) else s.m;
      var m2 := if IsLocalKill(p, local, tick, e) then m1.(kills := Bump(m1.kills, 1)) else m1;
      var opening := !s.openingSeen && IsDuel(p, tick, e);
      var m3 := if opening && e.attacker == Some(local) then m2.(openingWins := Bump(m2.openingWins, 1)) else m2;
      var m4 := if opening && e.victim == Some(local) then m3.(openingLosses := Bump(m3.openingLosses, 1)) else m3;
      var next := Scan(m4, s.openingSeen || opening);
      if !(e.assistedFlash && e.assister == Some(local)) then Ok(next)
      else if e.attacker.None? then Err(MissingIdentity)
      else if TeamAt(p, e.attacker.value, tick) != TeamAt(p, local, tick) then Err(MalformedEvidence)
      else Ok(next.(m := next.m.(flashAssists := Bump(next.m.flashAssists, 1))))
  }

  function ScoreEvent(p: ParsedOutput, local: SteamId, s: Scan, e: ParsedEvent): (r: Result<Scan, AnalysisUnavailable>)
    ensures r.Err? ==> !r.error.Domain?
  {
    match e.event
    case PlayerHurt(_, _, _, _) =>
      var m :- ScoreHurt(p, local, s.m, e.tick, e.event);
      Ok(s.(m := m))
    case PlayerDeath(_, _, _, _) => ScoreDeath(p, local, s, e.tick, e.event)
    case _ => Ok(s)
  }

  function ScoreEvents(p: ParsedOutput, local: SteamId, s: Scan, events: seq<ParsedEvent>): (r: Result<Scan, AnalysisUnavailable>)
    decreases |events|
    ensures r.Err? ==> !r.error.Domain?
  {
    if events == [] then Ok(s)
    else
      var next :- ScoreEvent(p, local, s, events[0]);
      ScoreEvents(p, local, next, events[1..])
  }

  function InRound(round: RoundLedger): ParsedEvent -> bool {
    (e: ParsedEvent) => round.freezeTick <= e.tick <= round.endTick
  }

  /** A teammate of the local player died to `victim` within the window before the kill. */
  predicate Avenges(p: ParsedOutput, round: RoundLedger, window: int, kill: ParsedEvent, victim: SteamId, prior: ParsedEvent) {
    && prior.event.PlayerDeath?
    && prior.tick <= kill.tick && WrapI32(kill.tick - prior.tick) <= window
    && prior.event.attacker == Some(victim)
    && prior.event.victim.Some? && TeamAt(p, prior.event.victim.value, prior.tick) == Some(round.localTeam)
  }

  function ScoreTrades(p: ParsedOutput, round: RoundLedger, window: int, deaths: seq<ParsedEvent>,
                       kills: seq<ParsedEvent>, m: RatingMetrics): (r: Result<RatingMetrics, AnalysisUnavailable>)
    decreases |kills|
    ensures r.Err? ==> !r.error.Domain?
  {
    if kills == [] then Ok(m)
    else
      var kill := kills[0];
      if !kill.event.PlayerDeath? then Err(MalformedEvidence)
      else if kill.event.victim.None? then Err(MissingIdentity)
      else
        var trade := exists prior :: prior in deaths && Avenges(p, round, window, kill, kill.event.victim.value, prior);
        ScoreTrades(p, round, window, deaths, kills[1..],
                    if trade then m.(tradeKills := Bump(m.tradeKills, 1)) else m)
  }

  function LivingTeammates(p: ParsedOutput, round: RoundLedger, local: SteamId, tick: int): nat {
    |Filter(p.participants, (x: Participant) =>
        x.steamId != local && x.team == Some(round.localTeam) && AliveAt(p, x.steamId, tick) == Some(true))|
  }

  function LivingEnemies(p: ParsedOutput, round: RoundLedger, tick: int): nat {
    |Filter(p.participants, (x: Participant) =>
        (x.team == Some(2) || x.team == Some(3)) && x.team != Some(round.localTeam) && AliveAt(p, x.steamId, tick) == Some(true))|
  }

  /** Whether some transition of the round leaves the local player alone against living enemies. */
  function FindClutch(p: ParsedOutput, round: RoundLedger, local: SteamId, ticks: seq<i32>): (r: Result<bool, AnalysisUnavailable>)
    decreases |ticks|
    ensures r.Err? ==> !r.error.Domain?
  {
    if ticks == [] then Ok(false)
    else if AliveAt(p, local, ticks[0]).None? then Err(MissingTeamOrLiveness)
    else if AliveAt(p, local, ticks[0]).value && LivingTeammates(p, round, local, ticks[0]) == 0
            && LivingEnemies(p, round, ticks[0]) > 0 then Ok(true)
    else FindClutch(p, round, local, ticks[1..])
  }

  function TransitionTicks(p: ParsedOutput, round: RoundLedger): seq<i32> {
    var ss := Filter(p.snapshots, (s: PlayerSnapshot) => round.freezeTick <= s.tick <= round.endTick);
    seq(|ss|, i requires 0 <= i < |ss| => ss[i].tick)
  }

  function ScoreClutch(p: ParsedOutput, round: RoundLedger, local: SteamId, m: RatingMetrics): (r: Result<RatingMetrics, AnalysisUnavailable>)
    ensures r.Err? ==> !r.error.Domain?
  {
    var found :- FindClutch(p, round, local, TransitionTicks(p, round));
    if !found then Ok(m)
    else
      var m' := m.(clutchOpportunities := Bump(m.clutchOpportunities, 1));
      Ok(if round.localTeam == round.winner then m'.(clutchWins := Bump(m'.clutchWins, 1)) else m')
  }

  /** Five seconds of ticks, saturating. */
  function TradeWindow(tickRate: u32): int {
    Min(tickRate * 5, U32_MAX)
  }

  function ScoreRound(p: ParsedOutput, round: RoundLedger, local: SteamId, tickRate: u32, m: RatingMetrics)
    : (r: Result<RatingMetrics, AnalysisUnavailable>)
    ensures r.Err? ==> !r.error.Domain?
  {
    var events := Filter(p.events, InRound(round));
    var deaths := Filter(events, (e: ParsedEvent) => e.event.PlayerDeath?);
    var scanned :- ScoreEvents(p, local, Scan(m, false), events);
    var window := TradeWindow(tickRate);
    if window > I32_MAX then Err(MalformedEvidence)
    else
      var kills := Filter(deaths, (e: ParsedEvent) => e.event.PlayerDeath? && e.event.attacker == Some(local));
      var traded :- ScoreTrades(p, round, window, deaths, kills, scanned.m);
      ScoreClutch(p, round, local, traded)
  }

  function ScoreRounds(p: ParsedOutput, rounds: seq<RoundLedger>, local: SteamId, tickRate: u32, m: RatingMetrics)
    : (r: Result<RatingMetrics, AnalysisUnavailable>)
    decreases |rounds|
    ensures r.Err? ==> !r.error.Domain?
  {
    if rounds == [] then Ok(m)
    else
      var next :- ScoreRound(p, rounds[0], local, tickRate, m);
      ScoreRounds(p, rounds[1..], local, tickRate, next)
  }

  // ----- The whole analysis

  function Eligible(rounds: seq<RoundLedger>): seq<RoundLedger> {
    Filter(rounds, (r: RoundLedger) => r.eligible)
  }

  function NoMetrics(rounds: u32): RatingMetrics {
    RatingMetrics(rounds, 0, 0, 0, 0, 0, 0, 0, 0, 0, 0)
  }

  function Hashes(rounds: seq<RoundLedger>): seq<string> {
    if rounds == [] then [] else rounds[0].evidenceHashes + Hashes(rounds[1..])
  }

  function EvidenceOf(p: ParsedOutput, rounds: seq<RoundLedger>): RatingEvidenceBundle {
    var excluded := Hashes(Filter(rounds, (r: RoundLedger) => !r.eligible));
    var all := seq(|p.receipts|, i requires 0 <= i < |p.receipts| => p.receipts[i].hash);
    RatingEvidenceBundle(Hashes(Eligible(rounds)), if excluded == [] then ["none:" + p.sourceHash] else excluded,
                         all, all, all, all, all, all)
  }

  function LivingAtFreeze(p: ParsedOutput, round: RoundLedger, team: i32): nat {
    |Filter(p.participants, (x: Participant) => x.team == Some(team) && AliveAt(p, x.steamId, round.freezeTick) == Some(true))|
  }

  /** A team starts the round with fewer than five living participants. */
  predicate ShortRoster(p: ParsedOutput, round: RoundLedger) {
    LivingAtFreeze(p, round, 2) < 5 || LivingAtFreeze(p, round, 3) < 5
  }

  function IrregularitiesOf(p: ParsedOutput, rounds: seq<RoundLedger>, m: RatingMetrics): MatchIrregularities {
    MatchIrregularities(
      exists r :: r in rounds && r.exclusion == Some(MissingFreezeState),
      |Filter(Eligible(rounds), (r: RoundLedger) => ShortRoster(p, r))| > 1,
      false, false, m.eligibleRounds > 24)
  }

  predicate HasStream(p: ParsedOutput, kind: Event -> bool) {
    exists e :: e in p.events && kind(e.event)
  }

  /** The checks before any scoring, in order. */
  function Precheck(p: ParsedOutput, local: SteamId): (r: Option<AnalysisUnavailable>)
    ensures r.Some? ==> !r.value.Domain?
  {
    if p.tickRate.None? || p.tickRate == Some(0) then Some(MissingTickRate)
    else if p.patchBuild.None? then Some(MissingGameBuild)
    else if !exists x :: x in p.participants && x.steamId == local then Some(MissingLocalParticipant)
    else if !InOrder(p) then Some(MalformedOrdering)
    else if !HasStream(p, (e: Event) => e.RoundFreezeEnd?) then Some(MissingStream("round_freeze_end"))
    else if !HasStream(p, (e: Event) => e.RoundEnd?) then Some(MissingStream("round_end"))
    else if !HasStream(p, (e: Event) => e.PlayerHurt?) then Some(MissingStream("player_hurt"))
    else if !HasStream(p, (e: Event) => e.PlayerDeath?) then Some(MissingStream("player_death"))
    else None
  }

  /** The rating input computed from the rounds. */
  function InputOf(p: ParsedOutput, local: SteamId, rounds: seq<RoundLedger>): (r: Result<RatingInput, AnalysisUnavailable>)
    requires p.tickRate.Some?
    ensures r.Err? ==> !r.error.Domain?
  {
    var eligible := Eligible(rounds);
    if |eligible| > U32_MAX then Err(MalformedEvidence)
    else
      var m :- ScoreRounds(p, eligible, local, p.tickRate.value, NoMetrics(|eligible|));
      Ok(RatingInput(m, IrregularitiesOf(p, rounds, m), None, EvidenceOf(p, rounds)))
  }

  function Analyze(p: ParsedOutput, local: SteamId): Result<AnalysisReceipt, AnalysisUnavailable> {
    var failure := Precheck(p, local);
    if failure.Some? then Err(failure.value)
    else
      var rounds :- BuildRounds(p, local);
      var input :- InputOf(p, local, rounds);
      match CalculateRating(input)
      case Err(e) => Err(Domain(e))
      case Ok(receipt) => Ok(AnalysisReceipt(rounds, input, receipt))
  }

  // ----- The program's loops

  method ScoreEventLoop(p: ParsedOutput, local: SteamId, m: RatingMetrics, events: seq<ParsedEvent>)
    returns (r: Result<Scan, AnalysisUnavailable>)
    ensures r == ScoreEvents(p, local, Scan(m, false), events)
  {
    hide ScoreEvent;
    var s := Scan(m, false);
    var i := 0;
    while i < |events|
      invariant 0 <= i <= |events|
      invariant ScoreEvents(p, local, Scan(m, false), events) == ScoreEvents(p, local, s, events[i..])
    {
      assert events[i..][0] == events[i] && events[i..][1..] == events[i + 1..];
      var next := ScoreEvent(p, local, s, events[i]);
      if next.Err? {
        return Err(next.error);
      }
      s := next.value;
      i := i + 1;
    }
    return Ok(s);
  }

  method ScoreTradeLoop(p: ParsedOutput, round: RoundLedger, window: int, deaths: seq<ParsedEvent>,
                        kills: seq<ParsedEvent>, m: RatingMetrics) returns (r: Result<RatingMetrics, AnalysisUnavailable>)
    ensures r == ScoreTrades(p, round, window, deaths, kills, m)
  {
    hide Avenges;
    var metrics := m;
    var i := 0;
    while i < |kills|
      invariant 0 <= i <= |kills|
      invariant ScoreTrades(p, round, window, deaths, kills, m) ==
                ScoreTrades(p, round, window, deaths, kills[i..], metrics)
    {
      var kill := kills[i];
      assert kills[i..][0] == kill && kills[i..][1..] == kills[i + 1..];
      if !kill.event.PlayerDeath? {
        return Err(MalformedEvidence);
      }
      if kill.event.victim.None? {
        return Err(MissingIdentity);
      }
      var victim := kill.event.victim.value;
      var j := |deaths|;
      while j > 0 && !Avenges(p, round, window, kill, victim, deaths[j - 1])
        invariant 0 <= j <= |deaths|
        invariant forall k :: j <= k < |deaths| ==> !Avenges(p, round, window, kill, victim, deaths[k])
      {
        j := j - 1;
      }
      if j > 0 {
        assert deaths[j - 1] in deaths;
        metrics := metrics.(tradeKills := Bump(metrics.tradeKills, 1));
      }
      i := i + 1;
    }
    return Ok(metrics);
  }

  method FindClutchLoop(p: ParsedOutput, round: RoundLedger, local: SteamId, ticks: seq<i32>)
    returns (r: Result<bool, AnalysisUnavailable>)
    ensures r == FindClutch(p, round, local, ticks)
  {
    hide AliveAt;
    hide LivingTeammates;
    hide LivingEnemies;
    var i := 0;
    while i < |ticks|
      invariant 0 <= i <= |ticks|
      invariant FindClutch(p, round, local, ticks) == FindClutch(p, round, local, ticks[i..])
    {
      var tick := ticks[i];
      assert ticks[i..][0] == tick && ticks[i..][1..] == ticks[i + 1..];
      var localAlive := AliveAt(p, local, tick);
      if localAlive.None? {
        return Err(MissingTeamOrLiveness);
      }
      if localAlive.value && LivingTeammates(p, round, local, tick) == 0 && LivingEnemies(p, round, tick) > 0 {
        return Ok(true);
      }
      i := i + 1;
    }
    return Ok(false);
  }

  method ScoreRoundInto(p: ParsedOutput, round: RoundLedger, local: SteamId, tickRate: u32, m: RatingMetrics)
    returns (r: Result<RatingMetrics, AnalysisUnavailable>)
    ensures r == ScoreRound(p, round, local, tickRate, m)
  {
    hide ScoreEvents;
    hide ScoreTrades;
    hide FindClutch;
    var events := Filter(p.events, InRound(round));
    var deaths := Filter(events, (e: ParsedEvent) => e.event.PlayerDeath?);
    var scanned := ScoreEventLoop(p, local, m, events);
    if scanned.Err? {
      return Err(scanned.error);
    }
    var window := Min(tickRate * 5, U32_MAX);
    if window > I32_MAX {
      return Err(MalformedEvidence);
    }
    var kills := Filter(deaths, (e: ParsedEvent) => e.event.PlayerDeath? && e.event.attacker == Some(local));
    var traded := ScoreTradeLoop(p, round, window, deaths, kills, scanned.value.m);
    if traded.Err? {
      return Err(traded.error);
    }
    var clutch := FindClutchLoop(p, round, local, TransitionTicks(p, round));
    if clutch.Err? {
      return Err(clutch.error);
    }
    var metrics := traded.value;
    if clutch.value {
      metrics := metrics.(clutchOpportunities := Bump(metrics.clutchOpportunities, 1));
      if round.localTeam == round.winner {
        metrics := metrics.(clutchWins := Bump(metrics.clutchWins, 1));
      }
    }
    return Ok(metrics);
  }

  method AnalyzeDemo(p: ParsedOutput, local: SteamId) returns (r: Result<AnalysisReceipt, AnalysisUnavailable>)
    ensures r == Analyze(p, local)
  {
    hide Precheck;
    hide BuildRounds;
    hide ScoreRound;
    hide CalculateRating;
    hide EvidenceOf;
    hide IrregularitiesOf;
    var failure := Precheck(p, local);
    if failure.Some? {
      return Err(failure.value);
    }
    PrecheckTickRate(p, local);
    var rounds := BuildRoundLedgers(p, local);
    if rounds.Err? {
      return Err(rounds.error);
    }
    var eligible := Eligible(rounds.value);
    if |eligible| > U32_MAX {
      return Err(MalformedEvidence);
    }
    var metrics := NoMetrics(|eligible|);
    var i := 0;
    while i < |eligible|
      invariant 0 <= i <= |eligible|
      invariant ScoreRounds(p, eligible, local, p.tickRate.value, NoMetrics(|eligible|)) ==
                ScoreRounds(p, eligible[i..], local, p.tickRate.value, metrics)
    {
      assert eligible[i..][0] == eligible[i] && eligible[i..][1..] == eligible[i + 1..];
      var next := ScoreRoundInto(p, eligible[i], local, p.tickRate.value, metrics);
      if next.Err? {
        return Err(next.error);
      }
      metrics := next.value;
      i := i + 1;
    }
    var input := RatingInput(metrics, IrregularitiesOf(p, rounds.value, metrics), None, EvidenceOf(p, rounds.value));
    var receipt := CalculateRating(input);
    if receipt.Err? {
      return Err(Domain(receipt.error));
    }
    return Ok(AnalysisReceipt(rounds.value, input, receipt.value));
  }

  lemma PrecheckTickRate(p: ParsedOutput, local: SteamId)
    requires Precheck(p, local).None?
    ensures p.tickRate.Some? && p.tickRate.value > 0
  {
  }

  // ----- A round contributes at most one opening duel and one clutch

  /** The counters the rating formula constrains, after `n` scored rounds. */
  ghost predicate Bounded(m: RatingMetrics, n: nat) {
    m.openingWins + m.openingLosses <= n && m.clutchWins <= m.clutchOpportunities <= n
  }

  ghost predicate SameClutches(m: RatingMetrics, m': RatingMetrics) {
    && m'.clutchWins == m.clutchWins && m'.clutchOpportunities == m.clutchOpportunities
    && m'.eligibleRounds == m.eligibleRounds
  }

  ghost predicate SameOpenings(m: RatingMetrics, m': RatingMetrics) {
    m'.openingWins == m.openingWins && m'.openingLosses == m.openingLosses
  }

  /** One event adds at most one opening duel, and none once the opening has been seen. */
  lemma EventOpenings(p: ParsedOutput, local: SteamId, s: Scan, e: ParsedEvent)
    requires ScoreEvent(p, local, s, e).Ok? && s.m.openingWins + s.m.openingLosses < U32_MAX
    ensures var t := ScoreEvent(p, local, s, e).value;
      && SameClutches(s.m, t.m)
      && (s.openingSeen ==> t.openingSeen)
      && (if !s.openingSeen && t.openingSeen
          then t.m.openingWins + t.m.openingLosses <= s.m.openingWins + s.m.openingLosses + 1
          else SameOpenings(s.m, t.m))
  {
    hide TeamAt;
  }

  lemma {:induction false} ScanOpenings(p: ParsedOutput, local: SteamId, s: Scan, events: seq<ParsedEvent>)
    requires ScoreEvents(p, local, s, events).Ok? && s.m.openingWins + s.m.openingLosses < U32_MAX
    ensures var t := ScoreEvents(p, local, s, events).value;
      && SameClutches(s.m, t.m)
      && (s.openingSeen ==> SameOpenings(s.m, t.m))
      && t.m.openingWins + t.m.openingLosses <= s.m.openingWins + s.m.openingLosses + 1
    decreases |events|
  {
    if events != [] {
      EventOpenings(p, local, s, events[0]);
      var next := ScoreEvent(p, local, s, events[0]).value;
      hide ScoreEvent;
      if next.m.openingWins + next.m.openingLosses < U32_MAX {
        ScanOpenings(p, local, next, events[1..]);
      } else {
        ScanAfterOpening(p, local, next, events[1..]);
      }
    }
  }

  /** After the opening the duels stay as they are, whatever their number. */
  lemma {:induction false} ScanAfterOpening(p: ParsedOutput, local: SteamId, s: Scan, events: seq<ParsedEvent>)
    requires s.openingSeen && ScoreEvents(p, local, s, events).Ok?
    ensures SameClutches(s.m, ScoreEvents(p, local, s, events).value.m)
    ensures SameOpenings(s.m, ScoreEvents(p, local, s, events).value.m)
    decreases |events|
  {
    hide TeamAt;
    if events != [] {
      ScanAfterOpening(p, local, ScoreEvent(p, local, s, events[0]).value, events[1..]);
    }
  }

  lemma {:induction false} TradesKeep(p: ParsedOutput, round: RoundLedger, window: int, deaths: seq<ParsedEvent>,
                                      kills: seq<ParsedEvent>, m: RatingMetrics)
    requires ScoreTrades(p, round, window, deaths, kills, m).Ok?
    ensures var t := ScoreTrades(p, round, window, deaths, kills, m).value; t == m.(tradeKills := t.tradeKills)
    decreases |kills|
  {
    hide Avenges;
    if kills != [] {
      var trade := exists prior :: prior in deaths && Avenges(p, round, window, kills[0], kills[0].event.victim.value, prior);
      TradesKeep(p, round, window, deaths, kills[1..], if trade then m.(tradeKills := Bump(m.tradeKills, 1)) else m);
    }
  }

  lemma RoundBounded(p: ParsedOutput, round: RoundLedger, local: SteamId, tickRate: u32, m: RatingMetrics, n: nat)
    requires Bounded(m, n) && n < U32_MAX && ScoreRound(p, round, local, tickRate, m).Ok?
    ensures Bounded(ScoreRound(p, round, local, tickRate, m).value, n + 1)
    ensures ScoreRound(p, round, local, tickRate, m).value.eligibleRounds == m.eligibleRounds
  {
    hide ScoreEvents;
    hide ScoreTrades;
    hide FindClutch;
    var events := Filter(p.events, InRound(round));
    var deaths := Filter(events, (e: ParsedEvent) => e.event.PlayerDeath?);
    var kills := Filter(deaths, (e: ParsedEvent) => e.event.PlayerDeath? && e.event.attacker == Some(local));
    ScanOpenings(p, local, Scan(m, false), events);
    var scanned := ScoreEvents(p, local, Scan(m, false), events).value;
    TradesKeep(p, round, TradeWindow(tickRate), deaths, kills, scanned.m);
  }

  lemma {:induction false} RoundsBounded(p: ParsedOutput, rounds: seq<RoundLedger>, local: SteamId, tickRate: u32, m: RatingMetrics, n: nat)
    requires Bounded(m, n) && n + |rounds| <= U32_MAX && ScoreRounds(p, rounds, local, tickRate, m).Ok?
    ensures Bounded(ScoreRounds(p, rounds, local, tickRate, m).value, n + |rounds|)
    ensures ScoreRounds(p, rounds, local, tickRate, m).value.eligibleRounds == m.eligibleRounds
    decreases |rounds|
  {
    hide ScoreRound;
    if rounds != [] {
      RoundBounded(p, rounds[0], local, tickRate, m, n);
      RoundsBounded(p, rounds[1..], local, tickRate, ScoreRound(p, rounds[0], local, tickRate, m).value, n + 1);
    }
  }

  /** The metrics of any analysed demo meet what the rating asks of them. */
  lemma InputBounded(p: ParsedOutput, local: SteamId, rounds: seq<RoundLedger>)
    requires p.tickRate.Some? && InputOf(p, local, rounds).Ok?
    ensures var m := InputOf(p, local, rounds).value.metrics;
      m.eligibleRounds == |Eligible(rounds)| && Bounded(m, m.eligibleRounds)
  {
    hide ScoreRounds;
    hide EvidenceOf;
    hide IrregularitiesOf;
    RoundsBounded(p, Eligible(rounds), local, p.tickRate.value, NoMetrics(|Eligible(rounds)|), 0);
  }

  /** End to end: a demo with at most 2000 rounds is never refused by the rating domain. */
  lemma AnalyzeNeverDomainError(p: ParsedOutput, local: SteamId)
    requires |FreezesOf(p)| <= 2000
    ensures Analyze(p, local).Err? ==> !Analyze(p, local).error.Domain?
  {
    hide Precheck;
    hide InputOf;
    hide CalculateRating;
    if Precheck(p, local).None? && BuildRounds(p, local).Ok? {
      PrecheckTickRate(p, local);
      var rounds := BuildRounds(p, local).value;
      if InputOf(p, local, rounds).Ok? {
        InputBounded(p, local, rounds);
        CalculateRatingTotal(InputOf(p, local, rounds).value);
      }
    }
  }

  // ----- Every event is scored once: what each counter tallies

  datatype Tally = Deaths | Kills | FlashAssists | Damage | UtilityDamage | Trades

  function CounterOf(m: RatingMetrics, t: Tally): u32 {
    match t
    case Deaths => m.deaths
    case Kills => m.kills
    case FlashAssists => m.flashAssists
    case Damage => m.directDamage
    case UtilityDamage => m.utilityDamage
    case Trades => m.tradeKills
  }

  /** The damage the local player did to an enemy, at most the health the enemy had. */
  function EnemyDamage(p: ParsedOutput, local: SteamId, tick: int, e: Event): nat {
    if e.PlayerHurt? && e.attacker == Some(local) && e.victim.Some? && e.victim != Some(local)
       && TeamAt(p, local, tick) != TeamAt(p, e.victim.value, tick)
       && e.damageHealth.Some? && e.damageHealth.value >= 0
    then
      var victim := SnapshotAt(p.snapshots, e.victim.value, tick);
      if victim.Some? && victim.value.health.Some? && victim.value.health.value >= 0
      then Min(e.damageHealth.value, victim.value.health.value)
      else 0
    else 0
  }

  /** A death the local player caused, of a player who had killed a teammate of the round at most
      `window` ticks before, or so long before that the difference of the ticks wraps. */
  predicate IsTrade(p: ParsedOutput, local: SteamId, window: int, round: RoundLedger, e: ParsedEvent) {
    && e.event.PlayerDeath? && e.event.attacker == Some(local) && e.event.victim.Some?
    && exists prior ::
         && prior in p.events && round.freezeTick <= prior.tick <= round.endTick
         && prior.event.PlayerDeath? && prior.event.attacker == e.event.victim
         && prior.tick <= e.tick && (e.tick - prior.tick <= window || I32_MAX < e.tick - prior.tick)
         && prior.event.victim.Some?
         && TeamAt(p, prior.event.victim.value, prior.tick) == Some(round.localTeam)
  }

  /** The grenades and fires whose damage is counted apart. */
  predicate IsGrenade(weapon: Option<string>) {
    weapon.Some? && weapon.value in {"hegrenade", "inferno", "molotov", "incgrenade"}
  }

  function One(b: bool): nat {
    if b then 1 else 0
  }

  /** What an event of the round is worth for a counter. */
  function Credit(p: ParsedOutput, local: SteamId, window: int, round: RoundLedger, t: Tally, e: ParsedEvent): nat {
    match t
    case Deaths => One(e.event.PlayerDeath? && e.event.victim == Some(local))
    case Kills => One(e.event.PlayerDeath? && e.event.attacker == Some(local) && e.event.victim.Some?
                      && TeamAt(p, local, e.tick) != TeamAt(p, e.event.victim.value, e.tick))
    case FlashAssists => One(e.event.PlayerDeath? && e.event.assistedFlash && e.event.assister == Some(local))
    case Damage => if e.event.PlayerHurt? && !IsGrenade(e.event.weapon) then EnemyDamage(p, local, e.tick, e.event) else 0
    case UtilityDamage => if e.event.PlayerHurt? && IsGrenade(e.event.weapon) then EnemyDamage(p, local, e.tick, e.event) else 0
    case Trades => One(IsTrade(p, local, window, round, e))
  }

  function Credits(p: ParsedOutput, local: SteamId, window: int, round: RoundLedger, t: Tally): ParsedEvent -> nat {
    (e: ParsedEvent) => Credit(p, local, window, round, t, e)
  }

  function Sum(events: seq<ParsedEvent>, worth: ParsedEvent -> nat): nat {
    if events == [] then 0 else worth(events[0]) + Sum(events[1..], worth)
  }

  lemma WrapTwice(x: nat, a: nat, b: nat)
    ensures WrapU32(WrapU32(x + a) + b) == WrapU32(x + (a + b))
  {
  }

  lemma WrapSmall(x: u32)
    ensures WrapU32(x) == x
  {
  }

  // ----- One round

  lemma UtilityIsGrenade(weapon: Option<string>)
    ensures IsUtility(weapon) <==> IsGrenade(weapon)
  {
  }

  lemma HurtTally(p: ParsedOutput, local: SteamId, window: int, round: RoundLedger, t: Tally, m: RatingMetrics, e: ParsedEvent)
    requires e.event.PlayerHurt? && !t.Trades? && ScoreHurt(p, local, m, e.tick, e.event).Ok?
    ensures CounterOf(ScoreHurt(p, local, m, e.tick, e.event).value, t) ==
            Bump(CounterOf(m, t), Credit(p, local, window, round, t, e))
  {
    hide TeamAt;
    hide SnapshotAt;
    hide IsUtility;
    hide IsGrenade;
    hide WrapU32;
    WrapSmall(CounterOf(m, t));
    UtilityIsGrenade(e.event.weapon);
  }

  lemma DeathTally(p: ParsedOutput, local: SteamId, window: int, round: RoundLedger, t: Tally, s: Scan, e: ParsedEvent)
    requires e.event.PlayerDeath? && !t.Trades? && ScoreDeath(p, local, s, e.tick, e.event).Ok?
    ensures CounterOf(ScoreDeath(p, local, s, e.tick, e.event).value.m, t) ==
            Bump(CounterOf(s.m, t), Credit(p, local, window, round, t, e))
  {
    hide TeamAt;
    hide IsDuel;
    hide WrapU32;
    WrapSmall(CounterOf(s.m, t));
  }

  lemma EventTally(p: ParsedOutput, local: SteamId, window: int, round: RoundLedger, t: Tally, s: Scan, e: ParsedEvent)
    requires !t.Trades? && ScoreEvent(p, local, s, e).Ok?
    ensures CounterOf(ScoreEvent(p, local, s, e).value.m, t) == Bump(CounterOf(s.m, t), Credit(p, local, window, round, t, e))
  {
    hide ScoreHurt;
    hide ScoreDeath;
    hide WrapU32;
    WrapSmall(CounterOf(s.m, t));
    if e.event.PlayerHurt? {
      HurtTally(p, local, window, round, t, s.m, e);
    } else if e.event.PlayerDeath? {
      DeathTally(p, local, window, round, t, s, e);
    }
  }

  lemma {:induction false} ScanTally(p: ParsedOutput, local: SteamId, window: int, round: RoundLedger, t: Tally, s: Scan,
                                     events: seq<ParsedEvent>)
    requires !t.Trades? && ScoreEvents(p, local, s, events).Ok?
    ensures CounterOf(ScoreEvents(p, local, s, events).value.m, t) ==
            WrapU32(CounterOf(s.m, t) + Sum(events, Credits(p, local, window, round, t)))
    decreases |events|
  {
    hide ScoreEvent;
    hide Credit;
    hide CounterOf;
    hide WrapU32;
    if events == [] {
      WrapSmall(CounterOf(s.m, t));
    } else {
      var e, worth := events[0], Credits(p, local, window, round, t);
      EventTally(p, local, window, round, t, s, e);
      ScanTally(p, local, window, round, t, ScoreEvent(p, local, s, e).value, events[1..]);
      WrapTwice(CounterOf(s.m, t), worth(e), Sum(events[1..], worth));
    }
  }

  lemma {:induction false} ScanKeepsTrades(p: ParsedOutput, local: SteamId, s: Scan, events: seq<ParsedEvent>)
    requires ScoreEvents(p, local, s, events).Ok?
    ensures ScoreEvents(p, local, s, events).value.m.tradeKills == s.m.tradeKills
    decreases |events|
  {
    hide TeamAt;
    hide WrapU32;
    if events != [] {
      ScanKeepsTrades(p, local, ScoreEvent(p, local, s, events[0]).value, events[1..]);
    }
  }

  /** `deaths` are the deaths of the round. */
  ghost predicate DeathsOf(p: ParsedOutput, round: RoundLedger, deaths: seq<ParsedEvent>) {
    forall e :: e in deaths <==> e in p.events && InRound(round)(e) && e.event.PlayerDeath?
  }

  lemma TradeIff(p: ParsedOutput, local: SteamId, window: int, round: RoundLedger, deaths: seq<ParsedEvent>, e: ParsedEvent)
    requires DeathsOf(p, round, deaths) && window >= 0
    requires e.event.PlayerDeath? && e.event.attacker == Some(local) && e.event.victim.Some?
    ensures (exists prior :: prior in deaths && Avenges(p, round, window, e, e.event.victim.value, prior)) <==>
            IsTrade(p, local, window, round, e)
  {
    hide TeamAt;
    forall prior
      ensures prior in deaths && Avenges(p, round, window, e, e.event.victim.value, prior) <==>
              && prior in p.events && round.freezeTick <= prior.tick <= round.endTick
              && prior.event.PlayerDeath? && prior.event.attacker == e.event.victim
              && prior.tick <= e.tick && (e.tick - prior.tick <= window || I32_MAX < e.tick - prior.tick)
              && prior.event.victim.Some?
              && TeamAt(p, prior.event.victim.value, prior.tick) == Some(round.localTeam)
    {
    }
  }

  lemma {:induction false} TradeTally(p: ParsedOutput, local: SteamId, window: int, round: RoundLedger, deaths: seq<ParsedEvent>,
                                      kills: seq<ParsedEvent>, m: RatingMetrics)
    requires DeathsOf(p, round, deaths) && window >= 0 && ScoreTrades(p, round, window, deaths, kills, m).Ok?
    requires forall e :: e in kills ==> e.event.PlayerDeath? && e.event.attacker == Some(local)
    ensures ScoreTrades(p, round, window, deaths, kills, m).value.tradeKills ==
            WrapU32(m.tradeKills + Sum(kills, Credits(p, local, window, round, Trades)))
    decreases |kills|
  {
    hide Avenges;
    hide IsTrade;
    hide WrapU32;
    hide DeathsOf;
    if kills == [] {
      WrapSmall(m.tradeKills);
    } else {
      var kill, worth := kills[0], Credits(p, local, window, round, Trades);
      assert kill in kills;
      TradeIff(p, local, window, round, deaths, kill);
      var trade := exists prior :: prior in deaths && Avenges(p, round, window, kill, kill.event.victim.value, prior);
      var next := if trade then m.(tradeKills := Bump(m.tradeKills, 1)) else m;
      TradeTally(p, local, window, round, deaths, kills[1..], next);
      WrapSmall(m.tradeKills);
      WrapTwice(m.tradeKills, One(trade), Sum(kills[1..], worth));
    }
  }

  /** What is worth nothing may be filtered out. */
  lemma {:induction false} SumFilter(events: seq<ParsedEvent>, keep: ParsedEvent -> bool, worth: ParsedEvent -> nat)
    requires forall e :: worth(e) > 0 ==> keep(e)
    ensures Sum(Filter(events, keep), worth) == Sum(events, worth)
  {
    if events != [] {
      SumFilter(events[1..], keep, worth);
      if keep(events[0]) {
        assert Filter(events, keep)[1..] == Filter(events[1..], keep);
      }
    }
  }

  /** Each counter of a round grows by what the events of the round are worth. */
  lemma RoundTally(p: ParsedOutput, round: RoundLedger, local: SteamId, tickRate: u32, m: RatingMetrics, t: Tally)
    requires ScoreRound(p, round, local, tickRate, m).Ok?
    ensures CounterOf(ScoreRound(p, round, local, tickRate, m).value, t) ==
            WrapU32(CounterOf(m, t) + Sum(Filter(p.events, InRound(round)), Credits(p, local, 5 * tickRate, round, t)))
  {
    hide WrapU32;
    hide Bump;
    hide Filter;
    hide InRound;
    hide Credit;
    hide Sum;
    hide ScoreEvents;
    hide ScoreTrades;
    hide FindClutch;
    var events := Filter(p.events, InRound(round));
    var isDeath := (e: ParsedEvent) => e.event.PlayerDeath?;
    var isKill := (e: ParsedEvent) => e.event.PlayerDeath? && e.event.attacker == Some(local);
    var deaths := Filter(events, isDeath);
    var kills := Filter(deaths, isKill);
    var window := 5 * tickRate;
    assert TradeWindow(tickRate) == window;
    var scanned := ScoreEvents(p, local, Scan(m, false), events).value.m;
    if t.Trades? {
      ScanKeepsTrades(p, local, Scan(m, false), events);
      TradeTally(p, local, window, round, deaths, kills, scanned);
      TradesAreKills(p, local, window, round, events);
    } else {
      ScanTally(p, local, window, round, t, Scan(m, false), events);
      TradesKeep(p, round, window, deaths, kills, scanned);
    }
  }

  lemma TradesAreKills(p: ParsedOutput, local: SteamId, window: int, round: RoundLedger, events: seq<ParsedEvent>)
    ensures var isDeath := (e: ParsedEvent) => e.event.PlayerDeath?;
      var isKill := (e: ParsedEvent) => e.event.PlayerDeath? && e.event.attacker == Some(local);
      var worth := Credits(p, local, window, round, Trades);
      Sum(Filter(Filter(events, isDeath), isKill), worth) == Sum(events, worth)
  {
    var isDeath := (e: ParsedEvent) => e.event.PlayerDeath?;
    var isKill := (e: ParsedEvent) => e.event.PlayerDeath? && e.event.attacker == Some(local);
    var worth := Credits(p, local, window, round, Trades);
    SumFilter(events, isDeath, worth);
    SumFilter(Filter(events, isDeath), isKill, worth);
  }

  // ----- All rounds

  /** What an event is worth in the round it lies in, and nothing outside all rounds. */
  function RoundCredit(p: ParsedOutput, local: SteamId, window: int, rounds: seq<RoundLedger>, t: Tally, e: ParsedEvent): nat {
    if rounds == [] then 0
    else if rounds[0].freezeTick <= e.tick <= rounds[0].endTick then Credit(p, local, window, rounds[0], t, e)
    else RoundCredit(p, local, window, rounds[1..], t, e)
  }

  function RoundCredits(p: ParsedOutput, local: SteamId, window: int, rounds: seq<RoundLedger>, t: Tally): ParsedEvent -> nat {
    (e: ParsedEvent) => RoundCredit(p, local, window, rounds, t, e)
  }

  ghost predicate DisjointRounds(rounds: seq<RoundLedger>) {
    && (forall i :: 0 <= i < |rounds| ==> rounds[i].freezeTick <= rounds[i].endTick)
    && (forall i, j :: 0 <= i < j < |rounds| ==> rounds[i].endTick < rounds[j].freezeTick)
  }

  /** An event in none of the rounds is worth nothing there. */
  lemma {:induction false} Outside(p: ParsedOutput, local: SteamId, window: int, rounds: seq<RoundLedger>, t: Tally, e: ParsedEvent)
    requires forall i :: 0 <= i < |rounds| ==> !InRound(rounds[i])(e)
    ensures RoundCredit(p, local, window, rounds, t, e) == 0
  {
    hide Credit;
    if rounds != [] {
      forall i | 0 <= i < |rounds[1..]| ensures !InRound(rounds[1..][i])(e) {
        assert rounds[1..][i] == rounds[i + 1];
      }
      Outside(p, local, window, rounds[1..], t, e);
    }
  }

  /** Summing over the first round apart counts nothing twice. */
  lemma {:induction false} SumSplits(p: ParsedOutput, local: SteamId, window: int, rounds: seq<RoundLedger>, t: Tally,
                                     events: seq<ParsedEvent>)
    requires rounds != [] && DisjointRounds(rounds)
    ensures Sum(events, RoundCredits(p, local, window, rounds, t)) ==
            Sum(Filter(events, InRound(rounds[0])), Credits(p, local, window, rounds[0], t)) +
            Sum(events, RoundCredits(p, local, window, rounds[1..], t))
    decreases |events|
  {
    hide Credit;
    if events != [] {
      var e, inFirst := events[0], InRound(rounds[0]);
      SumSplits(p, local, window, rounds, t, events[1..]);
      if inFirst(e) {
        assert ([e] + Filter(events[1..], inFirst))[1..] == Filter(events[1..], inFirst);
        forall i | 0 <= i < |rounds[1..]| ensures !InRound(rounds[1..][i])(e) {
          assert rounds[1..][i] == rounds[i + 1] && rounds[0].endTick < rounds[i + 1].freezeTick;
        }
        Outside(p, local, window, rounds[1..], t, e);
      }
    }
  }

  lemma {:induction false} SumNothing(p: ParsedOutput, local: SteamId, window: int, t: Tally, events: seq<ParsedEvent>)
    ensures Sum(events, RoundCredits(p, local, window, [], t)) == 0
  {
    if events != [] {
      SumNothing(p, local, window, t, events[1..]);
    }
  }

  lemma {:induction false} RoundsTally(p: ParsedOutput, rounds: seq<RoundLedger>, local: SteamId, tickRate: u32, m: RatingMetrics, t: Tally)
    requires DisjointRounds(rounds) && ScoreRounds(p, rounds, local, tickRate, m).Ok?
    ensures CounterOf(ScoreRounds(p, rounds, local, tickRate, m).value, t) ==
            WrapU32(CounterOf(m, t) + Sum(p.events, RoundCredits(p, local, 5 * tickRate, rounds, t)))
    decreases |rounds|
  {
    hide ScoreRound;
    hide Filter;
    hide Sum;
    hide RoundCredits;
    hide Credits;
    hide CounterOf;
    hide WrapU32;
    var window := 5 * tickRate;
    if rounds == [] {
      WrapSmall(CounterOf(m, t));
      SumNothing(p, local, window, t, p.events);
    } else {
      var next := ScoreRound(p, rounds[0], local, tickRate, m).value;
      var rest := rounds[1..];
      assert DisjointRounds(rest);
      RoundTally(p, rounds[0], local, tickRate, m, t);
      SumSplits(p, local, window, rounds, t, p.events);
      RoundsTally(p, rest, local, tickRate, next, t);
      WrapTwice(CounterOf(m, t), Sum(Filter(p.events, InRound(rounds[0])), Credits(p, local, window, rounds[0], t)),
                Sum(p.events, RoundCredits(p, local, window, rest, t)));
    }
  }

  lemma {:induction false} EligibleDisjoint(rounds: seq<RoundLedger>)
    requires DisjointRounds(rounds)
    ensures DisjointRounds(Eligible(rounds))
  {
    if rounds != [] {
      EligibleDisjoint(rounds[1..]);
      var rest := Eligible(rounds[1..]);
      forall j | 0 <= j < |rest|
        ensures rounds[0].endTick < rest[j].freezeTick
      {
        assert rest[j] in rounds[1..];
      }
    }
  }

  lemma BuiltDisjoint(p: ParsedOutput, local: SteamId)
    requires BuildRounds(p, local).Ok?
    ensures DisjointRounds(BuildRounds(p, local).value)
  {
    var rounds := BuildRounds(p, local).value;
    hide BuildRounds;
    forall i | 0 <= i < |rounds|
      ensures rounds[i].freezeTick <= rounds[i].endTick
    {
      var k := RoundWindow(p, local, i);
    }
    forall i, j | 0 <= i < j < |rounds|
      ensures rounds[i].endTick < rounds[j].freezeTick
    {
      RoundsDisjoint(p, local, i, j);
    }
  }

  /** Deaths, enemy kills, flash assists, both damages and trade kills are what all events of the
      demo are worth, each in the eligible round it lies in and so once (modulo the counter width). */
  lemma AnalysisCountsEachEventOnce(p: ParsedOutput, local: SteamId, t: Tally)
    requires Analyze(p, local).Ok?
    ensures p.tickRate.Some?
    ensures var r := Analyze(p, local).value;
      CounterOf(r.ratingInput.metrics, t) ==
      WrapU32(Sum(p.events, RoundCredits(p, local, 5 * p.tickRate.value, Eligible(r.rounds), t)))
  {
    hide Precheck;
    hide BuildRounds;
    hide ScoreRounds;
    hide EvidenceOf;
    hide IrregularitiesOf;
    hide CalculateRating;
    hide RoundCredits;
    hide WrapU32;
    PrecheckTickRate(p, local);
    var rounds := BuildRounds(p, local).value;
    BuiltDisjoint(p, local);
    EligibleDisjoint(rounds);
    RoundsTally(p, Eligible(rounds), local, p.tickRate.value, NoMetrics(|Eligible(rounds)|), t);
  }
}
