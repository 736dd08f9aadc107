/** Which demos are analysed, what is refused, and what goes with the rating
    (crates/openfrag-analysis/src/lib.rs), in the demo's own events, snapshots and receipts. */
module DemoFacts {
  import opened Prelude
  import opened Ordering
  import opened Rating
  import opened Analysis
  import opened Scoreboard

  // ----- One round

  /** The snapshot of the local player taken at the very tick of the freeze, if there is one. */
  ghost predicate AtFreeze(p: ParsedOutput, local: SteamId, freeze: ParsedEvent, s: Option<PlayerSnapshot>) {
    if s.Some? then Latest(p, s.value, local, freeze.tick) && s.value.tick == freeze.tick
    else forall x :: x in p.snapshots && x.steamId == local ==> x.tick != freeze.tick
  }

  /** The round counts: not a warmup, and the local player is alive on one of the two teams. */
  ghost predicate Playable(freeze: ParsedEvent, s: Option<PlayerSnapshot>)
    requires freeze.event.RoundFreezeEnd?
  {
    !freeze.event.warmup && s.Some? && s.value.alive == Some(true) && (s.value.team == Some(2) || s.value.team == Some(3))
  }

  ghost function EndsBetween(lo: int, hi: int): ParsedEvent -> bool {
    (e: ParsedEvent) => e.event.RoundEnd? && lo < e.tick < hi
  }

  /** The hashes of the receipts inside a tick range, in their order. */
  ghost function HashesIn(receipts: seq<EventReceipt>, lo: int, hi: int): seq<string> {
    if receipts == [] then []
    else
      var rest := HashesIn(receipts[1..], lo, hi);
      if lo <= receipts[0].tick <= hi then [receipts[0].hash] + rest else rest
  }

  /** What the ledger of a round says, from its freeze, its end and the snapshot at the freeze. */
  ghost predicate Reads(p: ParsedOutput, freeze: ParsedEvent, end: ParsedEvent, s: Option<PlayerSnapshot>, round: RoundLedger)
    requires freeze.event.RoundFreezeEnd? && end.event.RoundEnd?
    requires freeze.event.warmup || s.Some?
  {
    && round.freezeTick == freeze.tick && round.endTick == end.tick && end.event.winner == Some(round.winner)
    && round.localTeam == (if freeze.event.warmup || s.value.team.None? then 0 else s.value.team.value)
    && (round.eligible <==> Playable(freeze, s)) && (round.eligible <==> round.exclusion.None?)
    && (round.exclusion == Some(Warmup) <==> freeze.event.warmup)
    && (round.exclusion == Some(LocalPlayerNotAlive) <==> !freeze.event.warmup && s.value.alive != Some(true))
    && (round.exclusion == Some(InvalidTeam) <==>
        !freeze.event.warmup && s.value.alive == Some(true) && s.value.team != Some(2) && s.value.team != Some(3))
    && round.evidenceHashes == HashesIn(p.receipts, freeze.tick, end.tick)
  }

  lemma {:induction false} HashesInIs(receipts: seq<EventReceipt>, lo: int, hi: int)
    ensures var rs := Filter(receipts, (r: EventReceipt) => lo <= r.tick <= hi);
      HashesIn(receipts, lo, hi) == seq(|rs|, i requires 0 <= i < |rs| => rs[i].hash)
  {
    if receipts != [] {
      HashesInIs(receipts[1..], lo, hi);
      var inside := (r: EventReceipt) => lo <= r.tick <= hi;
      assert Filter(receipts, inside) ==
             (if inside(receipts[0]) then [receipts[0]] else []) + Filter(receipts[1..], inside);
    }
  }

  lemma OnlyEnd(p: ParsedOutput, lo: int, hi: int)
    ensures |Filter(EndsOf(p), Between(lo, hi))| == |Where(p.events, EndsBetween(lo, hi))|
    ensures forall e :: e in Filter(EndsOf(p), Between(lo, hi)) <==> e in p.events && EndsBetween(lo, hi)(e)
  {
    FilterCount(EndsOf(p), Between(lo, hi));
    var isEnd := (e: ParsedEvent) => e.event.RoundEnd?;
    WhereFiltered(p.events, isEnd, Between(lo, hi), EndsBetween(lo, hi));
  }

  ghost function NextFreeze(rounds: seq<RoundLedger>, i: nat): int {
    if i + 1 < |rounds| then rounds[i + 1].freezeTick else I32_MAX
  }

  ghost function Successor(x: i32): i32 {
    if x == I32_MAX then I32_MIN else x + 1
  }

  /** The ends inside a window are just this one. */
  ghost predicate SoleEnd(p: ParsedOutput, lo: int, hi: int, end: ParsedEvent) {
    forall e :: e in p.events && e.event.RoundEnd? && lo < e.tick < hi <==> e == end
  }

  /** The round counter of the local player goes up by one. */
  ghost predicate CountsUp(p: ParsedOutput, local: SteamId, s: PlayerSnapshot, endTick: int) {
    s.roundCounter.Some? && CounterAt(p, local, endTick) == Some(Successor(s.roundCounter.value))
  }

  lemma BuiltRound(p: ParsedOutput, local: SteamId, freezes: seq<ParsedEvent>, ends: seq<ParsedEvent>, i: nat, s: Option<PlayerSnapshot>)
    returns (end: ParsedEvent)
    requires i < |freezes| && BuildRound(p, local, freezes, ends, i).Ok?
    requires var snapshot := SnapshotAt(p.snapshots, local, freezes[i].tick);
      s == if snapshot.Some? && snapshot.value.tick == freezes[i].tick then snapshot else None
    ensures Filter(ends, Between(freezes[i].tick, NextFreezeTick(freezes, i))) == [end]
    ensures freezes[i].event.RoundFreezeEnd? && end.event.RoundEnd? && (freezes[i].event.warmup || s.Some?)
    ensures var round := BuildRound(p, local, freezes, ends, i).value;
      && round.number == i + 1 && Reads(p, freezes[i], end, s, round)
      && (round.eligible ==> CountsUp(p, local, s.value, end.tick))
  {
    hide Filter;
    hide SnapshotAt;
    hide HashesIn;
    hide NextFreezeTick;
    var matching := Filter(ends, Between(freezes[i].tick, NextFreezeTick(freezes, i)));
    end := matching[0];
    HashesInIs(p.receipts, freezes[i].tick, end.tick);
  }

  lemma OnlyThat(p: ParsedOutput, lo: int, hi: int, end: ParsedEvent)
    requires Filter(EndsOf(p), Between(lo, hi)) == [end]
    ensures end in p.events && SoleEnd(p, lo, hi, end)
  {
    OnlyEnd(p, lo, hi);
    forall e
      ensures e in p.events && e.event.RoundEnd? && lo < e.tick < hi <==> e == end
    {
      assert e in [end] <==> e in p.events && EndsBetween(lo, hi)(e);
    }
    assert end in [end];
  }

  lemma NextFreezeIs(p: ParsedOutput, local: SteamId, i: nat)
    requires BuildRounds(p, local).Ok? && i < |BuildRounds(p, local).value|
    ensures |FreezesOf(p)| == |BuildRounds(p, local).value|
    ensures BuildRound(p, local, FreezesOf(p), EndsOf(p), i) == Ok(BuildRounds(p, local).value[i])
    ensures NextFreezeTick(FreezesOf(p), i) == NextFreeze(BuildRounds(p, local).value, i)
  {
    hide BuildRound;
    hide Filter;
    if i + 1 < |FreezesOf(p)| {
      var k := RoundWindow(p, local, i + 1);
    }
  }

  /** Every round of an analysed demo is that of one freeze and of the only round end before the
      next freeze, and over an eligible round the round counter goes up by one. */
  lemma RoundIs(p: ParsedOutput, local: SteamId, i: nat)
    returns (freeze: ParsedEvent, end: ParsedEvent, s: Option<PlayerSnapshot>)
    requires InOrder(p) && BuildRounds(p, local).Ok? && i < |BuildRounds(p, local).value|
    ensures freeze in p.events && freeze.event.RoundFreezeEnd? && end in p.events && end.event.RoundEnd?
    ensures AtFreeze(p, local, freeze, s) && (freeze.event.warmup || s.Some?)
    ensures var rounds := BuildRounds(p, local).value; var round := rounds[i];
      && round.number == i + 1 && Reads(p, freeze, end, s, round)
      && SoleEnd(p, freeze.tick, NextFreeze(rounds, i), end)
      && (round.eligible ==> CountsUp(p, local, s.value, end.tick))
  {
    hide InOrder;
    hide BuildRounds;
    hide BuildRound;
    hide Reads;
    hide SoleEnd;
    hide CountsUp;
    hide AtFreeze;
    NextFreezeIs(p, local, i);
    freeze := FreezesOf(p)[i];
    assert freeze in FreezesOf(p);
    s := StateAtFreeze(p, local, freeze);
    end := BuiltRound(p, local, FreezesOf(p), EndsOf(p), i, s);
    OnlyThat(p, freeze.tick, NextFreeze(BuildRounds(p, local).value, i), end);
  }

  lemma StateAtFreeze(p: ParsedOutput, local: SteamId, freeze: ParsedEvent) returns (s: Option<PlayerSnapshot>)
    requires InOrder(p)
    ensures AtFreeze(p, local, freeze, s)
    ensures var snapshot := SnapshotAt(p.snapshots, local, freeze.tick);
      s == if snapshot.Some? && snapshot.value.tick == freeze.tick then snapshot else None
  {
    var snapshot := SnapshotAt(p.snapshots, local, freeze.tick);
    s := if snapshot.Some? && snapshot.value.tick == freeze.tick then snapshot else None;
    forall x | x in p.snapshots && x.steamId == local && x.tick <= freeze.tick
      ensures snapshot.Some? && !KeyLess(snapshot.value.tick, snapshot.value.ordinal, x.tick, x.ordinal)
    {
      assert Seen(x, local, freeze.tick);
    }
  }

  /** There are as many rounds as freezes and as round ends. */
  lemma RoundsCount(p: ParsedOutput, local: SteamId)
    requires BuildRounds(p, local).Ok?
    ensures var rounds := BuildRounds(p, local).value;
      && 0 < |rounds| == |set i: nat | i < |p.events| && p.events[i].event.RoundFreezeEnd?|
      && |rounds| == |set i: nat | i < |p.events| && p.events[i].event.RoundEnd?|
  {
    var isFreeze := (e: ParsedEvent) => e.event.RoundFreezeEnd?;
    var isEnd := (e: ParsedEvent) => e.event.RoundEnd?;
    FilterCount(p.events, isFreeze);
    FilterCount(p.events, isEnd);
    assert Where(p.events, isFreeze) == set i: nat | i < |p.events| && p.events[i].event.RoundFreezeEnd?;
    assert Where(p.events, isEnd) == set i: nat | i < |p.events| && p.events[i].event.RoundEnd?;
  }

  // ----- What is refused

  /** A freeze is refused unless exactly one round end lies before the next freeze. */
  lemma RoundUnpaired(p: ParsedOutput, local: SteamId, i: nat)
    requires i < |FreezesOf(p)|
    ensures var freezes := FreezesOf(p); var lo, hi := freezes[i].tick, NextFreezeTick(freezes, i);
      |Where(p.events, EndsBetween(lo, hi))| != 1 ==> BuildRound(p, local, freezes, EndsOf(p), i) == Err(MalformedEvidence)
  {
    OnlyEnd(p, FreezesOf(p)[i].tick, NextFreezeTick(FreezesOf(p), i));
  }

  /** Something the round of this freeze needs is not known: the state of the local player, or, if he
      plays the round, his round counter at either side. */
  ghost predicate Unknown(p: ParsedOutput, local: SteamId, freeze: ParsedEvent, end: ParsedEvent, s: Option<PlayerSnapshot>)
    requires freeze.event.RoundFreezeEnd?
  {
    && !freeze.event.warmup
    && (s.None? || (Playable(freeze, s) && (s.value.roundCounter.None? || CounterAt(p, local, end.tick).None?)))
  }

  /** Something about it is wrong: nobody won, or the counter of a played round does not go up by one. */
  ghost predicate Wrong(p: ParsedOutput, local: SteamId, freeze: ParsedEvent, end: ParsedEvent, s: Option<PlayerSnapshot>)
    requires freeze.event.RoundFreezeEnd? && end.event.RoundEnd?
  {
    end.event.winner.None? || (Playable(freeze, s) && !CountsUp(p, local, s.value, end.tick))
  }

  /** With that one end, the round is refused exactly if something is unknown or wrong, in this order. */
  lemma RoundRefusals(p: ParsedOutput, local: SteamId, i: nat, s: Option<PlayerSnapshot>, end: ParsedEvent)
    requires InOrder(p) && i < |FreezesOf(p)| && AtFreeze(p, local, FreezesOf(p)[i], s)
    requires var freezes := FreezesOf(p); var lo, hi := freezes[i].tick, NextFreezeTick(freezes, i);
      SoleEnd(p, lo, hi, end) && |Where(p.events, EndsBetween(lo, hi))| == 1
    ensures var freezes := FreezesOf(p); var freeze, r := freezes[i], BuildRound(p, local, freezes, EndsOf(p), i);
      && freeze.event.RoundFreezeEnd? && end.event.RoundEnd?
      && (Unknown(p, local, freeze, end, s) ==> r == Err(MissingTeamOrLiveness))
      && (!Unknown(p, local, freeze, end, s) && Wrong(p, local, freeze, end, s) ==> r == Err(MalformedEvidence))
      && (!Unknown(p, local, freeze, end, s) && !Wrong(p, local, freeze, end, s) ==> r.Ok?)
  {
    hide InOrder;
    hide Where;
    hide SoleEnd;
    hide AtFreeze;
    hide EndsBetween;
    hide FreezesOf;
    hide EndsOf;
    hide BuildRound;
    hide Unknown;
    hide Wrong;
    var freezes := FreezesOf(p);
    var freeze := freezes[i];
    assert freeze in freezes;
    FreezesAre(p, freeze);
    var t := StateAtFreeze(p, local, freeze);
    SameState(p, local, freeze, s, t);
    SoleIsOnly(p, freeze.tick, NextFreezeTick(freezes, i), end);
    BuildRoundIs(p, local, freezes, EndsOf(p), i, s, end);
  }

  lemma FreezesAre(p: ParsedOutput, e: ParsedEvent)
    ensures e in FreezesOf(p) <==> e in p.events && e.event.RoundFreezeEnd?
  {
  }

  lemma {:induction false} BuildRoundIs(p: ParsedOutput, local: SteamId, freezes: seq<ParsedEvent>, ends: seq<ParsedEvent>, i: nat,
                     s: Option<PlayerSnapshot>, end: ParsedEvent)
    requires i < |freezes| && freezes[i].event.RoundFreezeEnd? && end.event.RoundEnd?
    requires Filter(ends, Between(freezes[i].tick, NextFreezeTick(freezes, i))) == [end]
    requires var snapshot := SnapshotAt(p.snapshots, local, freezes[i].tick);
      s == if snapshot.Some? && snapshot.value.tick == freezes[i].tick then snapshot else None
    ensures var freeze, r := freezes[i], BuildRound(p, local, freezes, ends, i);
      && (Unknown(p, local, freeze, end, s) ==> r == Err(MissingTeamOrLiveness))
      && (!Unknown(p, local, freeze, end, s) && Wrong(p, local, freeze, end, s) ==> r == Err(MalformedEvidence))
      && (!Unknown(p, local, freeze, end, s) && !Wrong(p, local, freeze, end, s) ==> r.Ok?)
  {
    hide Filter;
    hide SnapshotAt;
    hide HashesBetween;
    hide NextFreezeTick;
  }

  lemma SameState(p: ParsedOutput, local: SteamId, freeze: ParsedEvent, s: Option<PlayerSnapshot>, t: Option<PlayerSnapshot>)
    requires InOrder(p) && AtFreeze(p, local, freeze, s) && AtFreeze(p, local, freeze, t)
    ensures s == t
  {
    if s.Some? && t.Some? {
      StateIs(p, local, freeze.tick, s.value);
      StateIs(p, local, freeze.tick, t.value);
    }
  }

  lemma SoleIsOnly(p: ParsedOutput, lo: int, hi: int, end: ParsedEvent)
    requires SoleEnd(p, lo, hi, end) && |Where(p.events, EndsBetween(lo, hi))| == 1
    ensures Filter(EndsOf(p), Between(lo, hi)) == [end] && end.event.RoundEnd?
  {
    OnlyEnd(p, lo, hi);
    var matching := Filter(EndsOf(p), Between(lo, hi));
    assert matching[0] in matching;
    assert EndsBetween(lo, hi)(matching[0]);
    assert matching[0] == end;
  }

  /** The rounds are refused for their first refused freeze, or for not being as many as the ends. */
  lemma RoundsRefused(p: ParsedOutput, local: SteamId)
    ensures var freezes, ends := FreezesOf(p), EndsOf(p);
      && (forall k :: 0 <= k < |freezes| && BuildRound(p, local, freezes, ends, k).Err?
                      && (forall i :: 0 <= i < k ==> BuildRound(p, local, freezes, ends, i).Ok?) ==>
            BuildRounds(p, local) == Err(BuildRound(p, local, freezes, ends, k).error))
      && ((forall i :: 0 <= i < |freezes| ==> BuildRound(p, local, freezes, ends, i).Ok?) ==>
            && (BuildRounds(p, local).Ok? <==> 0 < |freezes| == |ends|)
            && (|freezes| != |ends| ==> BuildRounds(p, local) == Err(MalformedEvidence)))
  {
    hide BuildRound;
    hide FreezesOf;
    hide EndsOf;
    var freezes, ends := FreezesOf(p), EndsOf(p);
    forall n: nat | n <= |freezes| && (forall i :: 0 <= i < n ==> BuildRound(p, local, freezes, ends, i).Ok?)
      ensures RoundsUpTo(p, local, freezes, ends, n).Ok?
    {
      RoundsBuilt(p, local, freezes, ends, n);
    }
    forall k: nat | k < |freezes| && BuildRound(p, local, freezes, ends, k).Err?
                    && (forall i :: 0 <= i < k ==> BuildRound(p, local, freezes, ends, i).Ok?)
      ensures BuildRounds(p, local) == Err(BuildRound(p, local, freezes, ends, k).error)
    {
      RoundsFail(p, local, freezes, ends, k, |freezes|);
    }
  }

  lemma {:induction false} RoundsBuilt(p: ParsedOutput, local: SteamId, freezes: seq<ParsedEvent>, ends: seq<ParsedEvent>, n: nat)
    requires n <= |freezes| && forall i :: 0 <= i < n ==> BuildRound(p, local, freezes, ends, i).Ok?
    ensures RoundsUpTo(p, local, freezes, ends, n).Ok?
  {
    hide BuildRound;
    if n > 0 {
      RoundsBuilt(p, local, freezes, ends, n - 1);
    }
  }

  /** Why an event of an eligible round cannot be scored, if it cannot. */
  ghost function Refusal(p: ParsedOutput, local: SteamId, e: ParsedEvent): Option<AnalysisUnavailable> {
    var known := (id: SteamId) => TeamAt(p, id, e.tick).Some?;
    match e.event
    case PlayerHurt(attacker, victim, damage, _) =>
      if attacker != Some(local) then None
      else if victim.None? then Some(MissingIdentity)
      else if !known(local) || !known(victim.value) then Some(MissingTeamOrLiveness)
      else if victim.value == local || TeamAt(p, local, e.tick) == TeamAt(p, victim.value, e.tick) then None
      else if damage.None? || damage.value < 0 || damage.value > U32_MAX then Some(MalformedEvidence)
      else
        var target := SnapshotAt(p.snapshots, victim.value, e.tick).value;
        if target.health.None? then Some(MissingTeamOrLiveness)
        else if target.health.value < 0 then Some(MalformedEvidence)
        else None
    case PlayerDeath(attacker, victim, assister, flash) =>
      if victim.None? then Some(MissingIdentity)
      else if !flash || assister != Some(local) then None
      else if attacker.None? then Some(MissingIdentity)
      else if TeamAt(p, attacker.value, e.tick) != TeamAt(p, local, e.tick) then Some(MalformedEvidence)
      else None
    case _ => None
  }

  lemma EventRefusal(p: ParsedOutput, local: SteamId, s: Scan, e: ParsedEvent)
    ensures ScoreEvent(p, local, s, e).Err? <==> Refusal(p, local, e).Some?
    ensures Refusal(p, local, e).Some? ==> ScoreEvent(p, local, s, e).error == Refusal(p, local, e).value
  {
    hide SnapshotAt;
    hide IsUtility;
    hide WrapU32;
  }

  /** The events of a round are scored unless one is refused; the first such one says why. */
  lemma {:induction false} ScanRefused(p: ParsedOutput, local: SteamId, s: Scan, events: seq<ParsedEvent>)
    ensures ScoreEvents(p, local, s, events).Ok? <==> forall e :: e in events ==> Refusal(p, local, e).None?
    ensures forall k :: 0 <= k < |events| && Refusal(p, local, events[k]).Some?
                        && (forall i :: 0 <= i < k ==> Refusal(p, local, events[i]).None?) ==>
              ScoreEvents(p, local, s, events) == Err(Refusal(p, local, events[k]).value)
    decreases |events|
  {
    hide Refusal;
    hide ScoreEvent;
    if events != [] {
      EventRefusal(p, local, s, events[0]);
      assert events == [events[0]] + events[1..];
      if Refusal(p, local, events[0]).None? {
        var rest := events[1..];
        ScanRefused(p, local, ScoreEvent(p, local, s, events[0]).value, rest);
        forall k | 0 <= k < |events| && Refusal(p, local, events[k]).Some?
                   && (forall i :: 0 <= i < k ==> Refusal(p, local, events[i]).None?)
          ensures ScoreEvents(p, local, s, events) == Err(Refusal(p, local, events[k]).value)
        {
          assert rest[k - 1] == events[k];
          assert forall i :: 0 <= i < k - 1 ==> rest[i] == events[i + 1];
        }
      }
    }
  }

  /** The life of the local player is known at the snapshots of the round up to the first that leaves
      him alone. */
  ghost predicate LifeKnown(p: ParsedOutput, round: RoundLedger, local: SteamId, snapshots: seq<PlayerSnapshot>) {
    forall j :: 0 <= j < |snapshots| && round.freezeTick <= snapshots[j].tick <= round.endTick
                && AliveAt(p, local, snapshots[j].tick).None? ==>
      exists i :: 0 <= i < j && round.freezeTick <= snapshots[i].tick <= round.endTick && AloneAt(p, round, local, snapshots[i].tick)
  }

  ghost function TicksIn(round: RoundLedger, snapshots: seq<PlayerSnapshot>): seq<i32> {
    if snapshots == [] then []
    else
      var rest := TicksIn(round, snapshots[1..]);
      if round.freezeTick <= snapshots[0].tick <= round.endTick then [snapshots[0].tick] + rest else rest
  }

  lemma {:induction false} TicksInIs(round: RoundLedger, snapshots: seq<PlayerSnapshot>)
    ensures var ss := Filter(snapshots, (s: PlayerSnapshot) => round.freezeTick <= s.tick <= round.endTick);
      TicksIn(round, snapshots) == seq(|ss|, i requires 0 <= i < |ss| => ss[i].tick)
  {
    if snapshots != [] {
      TicksInIs(round, snapshots[1..]);
    }
  }

  lemma LifeKnownStep(p: ParsedOutput, round: RoundLedger, local: SteamId, snapshots: seq<PlayerSnapshot>)
    requires snapshots != []
    ensures var tick := snapshots[0].tick; var rest := LifeKnown(p, round, local, snapshots[1..]);
      LifeKnown(p, round, local, snapshots) <==>
      if !(round.freezeTick <= tick <= round.endTick) then rest
      else AliveAt(p, local, tick).Some? && (AloneAt(p, round, local, tick) || rest)
  {
    hide AloneAt;
    hide AliveAt;
    var tick, rest := snapshots[0].tick, snapshots[1..];
    assert forall i :: 0 < i < |snapshots| ==> snapshots[i] == rest[i - 1];
    var inside := round.freezeTick <= tick <= round.endTick;
    if LifeKnown(p, round, local, snapshots) && !(inside && AloneAt(p, round, local, tick)) {
      forall j | 0 <= j < |rest| && round.freezeTick <= rest[j].tick <= round.endTick && AliveAt(p, local, rest[j].tick).None?
        ensures exists i :: 0 <= i < j && round.freezeTick <= rest[i].tick <= round.endTick && AloneAt(p, round, local, rest[i].tick)
      {
        assert snapshots[j + 1] == rest[j];
        var i :| 0 <= i < j + 1 && round.freezeTick <= snapshots[i].tick <= round.endTick && AloneAt(p, round, local, snapshots[i].tick);
        assert snapshots[i] == rest[i - 1];
      }
    }
    if (!inside || AliveAt(p, local, tick).Some?) && LifeKnown(p, round, local, rest) {
      forall j | 0 <= j < |snapshots| && round.freezeTick <= snapshots[j].tick <= round.endTick
                 && AliveAt(p, local, snapshots[j].tick).None?
        ensures exists i :: 0 <= i < j && round.freezeTick <= snapshots[i].tick <= round.endTick && AloneAt(p, round, local, snapshots[i].tick)
      {
        var i :| 0 <= i < j - 1 && round.freezeTick <= rest[i].tick <= round.endTick && AloneAt(p, round, local, rest[i].tick);
        assert snapshots[i + 1] == rest[i];
      }
    }
  }

  lemma {:induction false} ClutchRefused(p: ParsedOutput, round: RoundLedger, local: SteamId, snapshots: seq<PlayerSnapshot>)
    ensures FindClutch(p, round, local, TicksIn(round, snapshots)).Ok? <==> LifeKnown(p, round, local, snapshots)
    ensures FindClutch(p, round, local, TicksIn(round, snapshots)).Err? ==>
              FindClutch(p, round, local, TicksIn(round, snapshots)).error == MissingTeamOrLiveness
    decreases |snapshots|
  {
    hide AliveAt;
    hide AloneAt;
    hide LivingTeammates;
    hide LivingEnemies;
    if snapshots != [] {
      var first, rest := snapshots[0], snapshots[1..];
      ClutchRefused(p, round, local, rest);
      AloneIff(p, round, local, first.tick);
      LifeKnownStep(p, round, local, snapshots);
      if round.freezeTick <= first.tick <= round.endTick {
        assert TicksIn(round, snapshots)[1..] == TicksIn(round, rest);
      }
    }
  }

  /** The round can be scored: no event of it is refused, five seconds of ticks fit an `i32`, and the
      life of the local player is known as far as it is looked at. */
  ghost predicate Scorable(p: ParsedOutput, round: RoundLedger, local: SteamId, tickRate: u32) {
    && (forall e :: e in p.events && round.freezeTick <= e.tick <= round.endTick ==> Refusal(p, local, e).None?)
    && 5 * tickRate <= I32_MAX && LifeKnown(p, round, local, p.snapshots)
  }

  lemma FilteredAt<T(!new)>(s: seq<T>, keep: T -> bool, k: nat) returns (at: nat)
    requires k < |s| && keep(s[k])
    ensures at < |Filter(s, keep)| && Filter(s, keep)[at] == s[k]
    ensures forall i :: 0 <= i < at ==> Filter(s, keep)[i] in s[..k]
  {
    var before, after := Filter(s[..k], keep), Filter(s[k..], keep);
    FilterConcat(s[..k], s[k..], keep);
    assert s[..k] + s[k..] == s;
    at := |before|;
    assert after[0] == s[k];
    forall i | 0 <= i < at
      ensures Filter(s, keep)[i] in s[..k]
    {
      assert Filter(s, keep)[i] == before[i];
      assert before[i] in before;
    }
  }

  lemma {:induction false} TradesScored(p: ParsedOutput, round: RoundLedger, window: int, deaths: seq<ParsedEvent>,
                                        kills: seq<ParsedEvent>, m: RatingMetrics)
    requires forall e :: e in kills ==> e.event.PlayerDeath? && e.event.victim.Some?
    ensures ScoreTrades(p, round, window, deaths, kills, m).Ok?
    decreases |kills|
  {
    hide Avenges;
    if kills != [] {
      assert kills[0] in kills;
      var trade := exists prior :: prior in deaths && Avenges(p, round, window, kills[0], kills[0].event.victim.value, prior);
      TradesScored(p, round, window, deaths, kills[1..], if trade then m.(tradeKills := Bump(m.tradeKills, 1)) else m);
    }
  }

  lemma {:induction false} FirstRefused(p: ParsedOutput, round: RoundLedger, local: SteamId, s: Scan, k: nat)
    requires k < |p.events| && InRound(round)(p.events[k]) && Refusal(p, local, p.events[k]).Some?
    requires forall e :: e in p.events[..k] && InRound(round)(e) ==> Refusal(p, local, e).None?
    ensures ScoreEvents(p, local, s, Filter(p.events, InRound(round))) == Err(Refusal(p, local, p.events[k]).value)
  {
    hide ScoreEvents;
    hide Refusal;
    var events := Filter(p.events, InRound(round));
    var at := FilteredAt(p.events, InRound(round), k);
    ScanRefused(p, local, s, events);
    forall i | 0 <= i < at
      ensures Refusal(p, local, events[i]).None?
    {
      assert events[i] in events;
    }
  }

  /** A round is scored exactly if it can be; its first refused event says why not. */
  lemma RoundScoredIff(p: ParsedOutput, round: RoundLedger, local: SteamId, tickRate: u32, m: RatingMetrics)
    ensures ScoreRound(p, round, local, tickRate, m).Ok? <==> Scorable(p, round, local, tickRate)
    ensures forall k :: 0 <= k < |p.events| && InRound(round)(p.events[k]) && Refusal(p, local, p.events[k]).Some?
                        && (forall e :: e in p.events[..k] && InRound(round)(e) ==> Refusal(p, local, e).None?) ==>
              ScoreRound(p, round, local, tickRate, m) == Err(Refusal(p, local, p.events[k]).value)
  {
    hide Filter;
    hide ScoreEvents;
    hide ScoreTrades;
    hide FindClutch;
    hide Refusal;
    hide LifeKnown;
    var events := Filter(p.events, InRound(round));
    var deaths := Filter(events, (e: ParsedEvent) => e.event.PlayerDeath?);
    var kills := Filter(deaths, (e: ParsedEvent) => e.event.PlayerDeath? && e.event.attacker == Some(local));
    ScanRefused(p, local, Scan(m, false), events);
    ClutchRefused(p, round, local, p.snapshots);
    TicksInIs(round, p.snapshots);
    if forall e :: e in events ==> Refusal(p, local, e).None? {
      forall e | e in kills
        ensures e.event.PlayerDeath? && e.event.victim.Some?
      {
        DeathsHaveVictims(p, local, e);
      }
      TradesScored(p, round, TradeWindow(tickRate), deaths, kills, ScoreEvents(p, local, Scan(m, false), events).value.m);
    }
    forall k | 0 <= k < |p.events| && InRound(round)(p.events[k]) && Refusal(p, local, p.events[k]).Some?
               && (forall e :: e in p.events[..k] && InRound(round)(e) ==> Refusal(p, local, e).None?)
      ensures ScoreRound(p, round, local, tickRate, m) == Err(Refusal(p, local, p.events[k]).value)
    {
      FirstRefused(p, round, local, Scan(m, false), k);
    }
  }

  lemma DeathsHaveVictims(p: ParsedOutput, local: SteamId, e: ParsedEvent)
    requires e.event.PlayerDeath? && Refusal(p, local, e).None?
    ensures e.event.victim.Some?
  {
  }

  lemma {:induction false} RoundsScoredIff(p: ParsedOutput, rounds: seq<RoundLedger>, local: SteamId, tickRate: u32, m: RatingMetrics)
    ensures ScoreRounds(p, rounds, local, tickRate, m).Ok? <==> forall r :: r in rounds ==> Scorable(p, r, local, tickRate)
    decreases |rounds|
  {
    hide ScoreRound;
    hide Scorable;
    if rounds != [] {
      RoundScoredIff(p, rounds[0], local, tickRate, m);
      assert rounds == [rounds[0]] + rounds[1..];
      if ScoreRound(p, rounds[0], local, tickRate, m).Ok? {
        RoundsScoredIff(p, rounds[1..], local, tickRate, ScoreRound(p, rounds[0], local, tickRate, m).value);
      }
    }
  }

  // ----- Which demos are analysed

  /** Events in the order of tick and number, receipts and snapshots in the order of their numbers. */
  ghost predicate Ordered(p: ParsedOutput) {
    && (forall i, j :: 0 <= i < j < |p.events| ==>
          p.events[i].tick < p.events[j].tick
          || (p.events[i].tick == p.events[j].tick && p.events[i].ordinal < p.events[j].ordinal))
    && (forall i, j :: 0 <= i < j < |p.receipts| ==> p.receipts[i].ordinal < p.receipts[j].ordinal)
    && (forall i, j :: 0 <= i < j < |p.snapshots| ==> p.snapshots[i].ordinal < p.snapshots[j].ordinal)
  }

  lemma {:induction false} ReceiptOrder(p: ParsedOutput, i: nat, j: nat)
    requires InOrder(p) && i < j < |p.receipts|
    ensures p.receipts[i].ordinal < p.receipts[j].ordinal
    decreases j
  {
    if i + 1 < j {
      ReceiptOrder(p, i, j - 1);
    }
  }

  lemma InOrderIff(p: ParsedOutput)
    ensures InOrder(p) <==> Ordered(p)
  {
    if InOrder(p) {
      forall i: nat, j: nat | i < j < |p.events|
        ensures KeyLess(p.events[i].tick, p.events[i].ordinal, p.events[j].tick, p.events[j].ordinal)
      {
        EventOrder(p, i, j);
      }
      forall i: nat, j: nat | i < j < |p.receipts|
        ensures p.receipts[i].ordinal < p.receipts[j].ordinal
      {
        ReceiptOrder(p, i, j);
      }
      forall i: nat, j: nat | i < j < |p.snapshots|
        ensures p.snapshots[i].ordinal < p.snapshots[j].ordinal
      {
        SnapshotOrder(p, i, j);
      }
    }
  }

  /** What a demo must have before its rounds are looked at. */
  datatype Need = TickRate | Build | LocalPlayer | Order | FreezeEvents | EndEvents | HurtEvents | DeathEvents

  ghost predicate Meets(p: ParsedOutput, local: SteamId, n: Need) {
    match n
    case TickRate => p.tickRate.Some? && p.tickRate.value > 0
    case Build => p.patchBuild.Some?
    case LocalPlayer => exists x :: x in p.participants && x.steamId == local
    case Order => Ordered(p)
    case FreezeEvents => exists e :: e in p.events && e.event.RoundFreezeEnd?
    case EndEvents => exists e :: e in p.events && e.event.RoundEnd?
    case HurtEvents => exists e :: e in p.events && e.event.PlayerHurt?
    case DeathEvents => exists e :: e in p.events && e.event.PlayerDeath?
  }

  ghost function Complaint(n: Need): AnalysisUnavailable {
    match n
    case TickRate => MissingTickRate
    case Build => MissingGameBuild
    case LocalPlayer => MissingLocalParticipant
    case Order => MalformedOrdering
    case FreezeEvents => MissingStream("round_freeze_end")
    case EndEvents => MissingStream("round_end")
    case HurtEvents => MissingStream("player_hurt")
    case DeathEvents => MissingStream("player_death")
  }

  /** The order in which they are asked for. */
  ghost function Rank(n: Need): nat {
    match n
    case TickRate => 0
    case Build => 1
    case LocalPlayer => 2
    case Order => 3
    case FreezeEvents => 4
    case EndEvents => 5
    case HurtEvents => 6
    case DeathEvents => 7
  }

  lemma AllNeeds(p: ParsedOutput, local: SteamId)
    ensures (forall n :: Meets(p, local, n)) <==>
            && Meets(p, local, TickRate) && Meets(p, local, Build) && Meets(p, local, LocalPlayer) && Meets(p, local, Order)
            && Meets(p, local, FreezeEvents) && Meets(p, local, EndEvents) && Meets(p, local, HurtEvents) && Meets(p, local, DeathEvents)
  {
    hide Meets;
    if && Meets(p, local, TickRate) && Meets(p, local, Build) && Meets(p, local, LocalPlayer) && Meets(p, local, Order)
       && Meets(p, local, FreezeEvents) && Meets(p, local, EndEvents) && Meets(p, local, HurtEvents) && Meets(p, local, DeathEvents) {
      forall n
        ensures Meets(p, local, n)
      {
        match n
        case TickRate =>
        case Build =>
        case LocalPlayer =>
        case Order =>
        case FreezeEvents =>
        case EndEvents =>
        case HurtEvents =>
        case DeathEvents =>
      }
    }
  }

  lemma PrecheckIff(p: ParsedOutput, local: SteamId)
    ensures Precheck(p, local).None? <==> forall n :: Meets(p, local, n)
  {
    hide InOrder;
    hide Ordered;
    InOrderIff(p);
    AllNeeds(p, local);
  }

  lemma FirstComplaint(p: ParsedOutput, local: SteamId, n: Need)
    requires !Meets(p, local, n) && forall m :: Rank(m) < Rank(n) ==> Meets(p, local, m)
    ensures Precheck(p, local) == Some(Complaint(n))
  {
    hide InOrder;
    hide Ordered;
    InOrderIff(p);
    assert Rank(TickRate) < Rank(n) ==> Meets(p, local, TickRate);
    assert Rank(Build) < Rank(n) ==> Meets(p, local, Build);
    assert Rank(LocalPlayer) < Rank(n) ==> Meets(p, local, LocalPlayer);
    assert Rank(Order) < Rank(n) ==> Meets(p, local, Order);
    assert Rank(FreezeEvents) < Rank(n) ==> Meets(p, local, FreezeEvents);
    assert Rank(EndEvents) < Rank(n) ==> Meets(p, local, EndEvents);
    assert Rank(HurtEvents) < Rank(n) ==> Meets(p, local, HurtEvents);
    match n
    case TickRate =>
    case Build =>
    case LocalPlayer =>
    case Order =>
    case FreezeEvents =>
    case EndEvents =>
    case HurtEvents =>
    case DeathEvents =>
  }

  /** A demo that lacks something is refused for the first thing it lacks. */
  lemma RefusedForFirstNeed(p: ParsedOutput, local: SteamId, n: Need)
    requires !Meets(p, local, n) && forall m :: Rank(m) < Rank(n) ==> Meets(p, local, m)
    ensures Analyze(p, local) == Err(Complaint(n))
  {
    hide Precheck;
    FirstComplaint(p, local, n);
  }

  /** A demo with at most 2000 freezes is analysed exactly if it has everything asked for, its rounds
      pair up, and each eligible one can be scored. */
  lemma AnalysedIff(p: ParsedOutput, local: SteamId)
    requires |FreezesOf(p)| <= 2000
    ensures Analyze(p, local).Ok? <==>
            && Meets(p, local, TickRate) && (forall n :: Meets(p, local, n)) && BuildRounds(p, local).Ok?
            && forall round :: round in BuildRounds(p, local).value && round.eligible ==>
                 Scorable(p, round, local, p.tickRate.value)
    ensures Analyze(p, local).Ok? ==> Analyze(p, local).value.rounds == BuildRounds(p, local).value
  {
    hide Precheck;
    hide Meets;
    hide CalculateRating;
    hide Scorable;
    hide EvidenceOf;
    hide IrregularitiesOf;
    PrecheckIff(p, local);
    if Precheck(p, local).None? && BuildRounds(p, local).Ok? {
      var rounds := BuildRounds(p, local).value;
      NeedsTickRate(p, local);
      RoundsScoredIff(p, Eligible(rounds), local, p.tickRate.value, NoMetrics(|Eligible(rounds)|));
      if InputOf(p, local, rounds).Ok? {
        InputBounded(p, local, rounds);
        CalculateRatingTotal(InputOf(p, local, rounds).value);
      }
    }
  }

  lemma NeedsTickRate(p: ParsedOutput, local: SteamId)
    requires Precheck(p, local).None?
    ensures p.tickRate.Some? && p.tickRate.value > 0
  {
  }

  // ----- What goes with the rating

  /** Fewer than five living participants of this team at the freeze. */
  ghost predicate Few(p: ParsedOutput, round: RoundLedger, team: i32) {
    |set i: nat | i < |p.participants| && p.participants[i].team == Some(team)
                  && AliveAt(p, p.participants[i].steamId, round.freezeTick) == Some(true)| < 5
  }

  ghost predicate Short(p: ParsedOutput, round: RoundLedger) {
    round.eligible && (Few(p, round, 2) || Few(p, round, 3))
  }

  ghost function Shorts(p: ParsedOutput): RoundLedger -> bool {
    (round: RoundLedger) => Short(p, round)
  }

  lemma FewIff(p: ParsedOutput, round: RoundLedger, team: i32)
    ensures Few(p, round, team) <==> LivingAtFreeze(p, round, team) < 5
  {
    hide AliveAt;
    var living := (x: Participant) => x.team == Some(team) && AliveAt(p, x.steamId, round.freezeTick) == Some(true);
    FilterCount(p.participants, living);
    assert Where(p.participants, living) ==
           set i: nat | i < |p.participants| && p.participants[i].team == Some(team)
                        && AliveAt(p, p.participants[i].steamId, round.freezeTick) == Some(true);
  }

  /** The match is irregular in two ways only: its roster is imbalanced exactly if more than one
      eligible round starts with fewer than five living participants of a team, and it went into
      overtime exactly if more than 24 rounds are eligible.  No missed round is ever reported. */
  lemma IrregularitiesAre(p: ParsedOutput, local: SteamId)
    requires Analyze(p, local).Ok?
    ensures var rounds, input := Analyze(p, local).value.rounds, Analyze(p, local).value.ratingInput;
      var irregular := input.irregularities;
      && (irregular.rosterImbalanced <==> 1 < |set i: nat | i < |rounds| && Short(p, rounds[i])|)
      && (irregular.overtime <==> 24 < |set i: nat | i < |rounds| && rounds[i].eligible|)
      && !irregular.missedLiveRound && !irregular.surrender && !irregular.forfeitWithoutCanonicalWinner
      && input.metrics.eligibleRounds == |set i: nat | i < |rounds| && rounds[i].eligible|
      && input.evidenceFailure.None?
  {
    hide Precheck;
    hide BuildRounds;
    hide ScoreRounds;
    hide EvidenceOf;
    hide CalculateRating;
    hide Short;
    hide ShortRoster;
    hide Eligible;
    PrecheckTickRate(p, local);
    var rounds := Analyze(p, local).value.rounds;
    InputBounded(p, local, rounds);
    EligibleCount(rounds);
    ShortCount(p, rounds);
    forall r | r in rounds
      ensures r.exclusion != Some(MissingFreezeState)
    {
      NeverMissing(p, local, r);
    }
  }

  lemma EligibleCount(rounds: seq<RoundLedger>)
    ensures |Eligible(rounds)| == |set i: nat | i < |rounds| && rounds[i].eligible|
  {
    var isEligible := (r: RoundLedger) => r.eligible;
    FilterCount(rounds, isEligible);
    assert Where(rounds, isEligible) == set i: nat | i < |rounds| && rounds[i].eligible;
  }

  lemma ShortCount(p: ParsedOutput, rounds: seq<RoundLedger>)
    ensures |Filter(Eligible(rounds), (r: RoundLedger) => ShortRoster(p, r))| == |set i: nat | i < |rounds| && Short(p, rounds[i])|
  {
    hide Short;
    hide ShortRoster;
    var isEligible := (r: RoundLedger) => r.eligible;
    var isShort := (r: RoundLedger) => ShortRoster(p, r);
    forall r
      ensures Shorts(p)(r) <==> isEligible(r) && isShort(r)
    {
      ShortIff(p, r);
    }
    FilterCount(Eligible(rounds), isShort);
    WhereFiltered(rounds, isEligible, isShort, Shorts(p));
    assert Where(rounds, Shorts(p)) == set i: nat | i < |rounds| && Short(p, rounds[i]);
  }

  lemma ShortIff(p: ParsedOutput, round: RoundLedger)
    ensures Short(p, round) <==> round.eligible && ShortRoster(p, round)
  {
    FewIff(p, round, 2);
    FewIff(p, round, 3);
  }

  lemma NeverMissing(p: ParsedOutput, local: SteamId, round: RoundLedger)
    requires BuildRounds(p, local).Ok? && round in BuildRounds(p, local).value
    ensures round.exclusion != Some(MissingFreezeState)
  {
    hide Filter;
    hide SnapshotAt;
    var rounds := BuildRounds(p, local).value;
    var i :| 0 <= i < |rounds| && rounds[i] == round;
    assert BuildRound(p, local, FreezesOf(p), EndsOf(p), i) == Ok(round);
  }

  /** The evidence of the rounds that count, or of those that do not, in order. */
  ghost function Gathered(rounds: seq<RoundLedger>, eligible: bool): seq<string> {
    if rounds == [] then []
    else (if rounds[0].eligible == eligible then rounds[0].evidenceHashes else []) + Gathered(rounds[1..], eligible)
  }

  lemma {:induction false} GatheredIs(rounds: seq<RoundLedger>)
    ensures Hashes(Eligible(rounds)) == Gathered(rounds, true)
    ensures Hashes(Filter(rounds, (r: RoundLedger) => !r.eligible)) == Gathered(rounds, false)
  {
    if rounds != [] {
      GatheredIs(rounds[1..]);
      assert Eligible(rounds) == if rounds[0].eligible then [rounds[0]] + Eligible(rounds[1..]) else Eligible(rounds[1..]);
    }
  }

  /** The evidence of a rating: that of the eligible rounds, that of the others or a word for none,
      and the receipts of the whole demo for each component. */
  ghost predicate Carries(p: ParsedOutput, rounds: seq<RoundLedger>, evidence: RatingEvidenceBundle) {
    && evidence.eligibleRoundLedger == Gathered(rounds, true)
    && evidence.excludedRoundLedger == (if Gathered(rounds, false) == [] then ["none:" + p.sourceHash] else Gathered(rounds, false))
    && forall kind :: OfReceipts(p, evidence.Component(kind))
  }

  ghost predicate OfReceipts(p: ParsedOutput, hashes: seq<string>) {
    |hashes| == |p.receipts| && forall i :: 0 <= i < |p.receipts| ==> hashes[i] == p.receipts[i].hash
  }

  lemma EvidenceCarries(p: ParsedOutput, rounds: seq<RoundLedger>)
    ensures Carries(p, rounds, EvidenceOf(p, rounds))
  {
    GatheredIs(rounds);
    hide Gathered;
    hide Filter;
    hide Hashes;
    var evidence := EvidenceOf(p, rounds);
    assert OfReceipts(p, evidence.directDamage);
  }

  /** The receipt of an analysed demo is the rating of an input that carries this evidence. */
  lemma EvidenceIs(p: ParsedOutput, local: SteamId)
    requires Analyze(p, local).Ok?
    ensures var r := Analyze(p, local).value;
      CalculateRating(r.ratingInput) == Ok(r.ratingReceipt) && Carries(p, r.rounds, r.ratingInput.evidence)
  {
    hide Precheck;
    hide BuildRounds;
    hide ScoreRounds;
    hide IrregularitiesOf;
    hide CalculateRating;
    hide Carries;
    hide EvidenceOf;
    PrecheckTickRate(p, local);
    EvidenceCarries(p, Analyze(p, local).value.rounds);
  }
}
