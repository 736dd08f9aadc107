/** The live evidence engine behind the GSI endpoint (crates/openfrag-gsi/src/lib.rs), after a
    request has been authenticated and decoded.  The clock and the sink are the environment: every
    step is told the time and whether the sink accepts a receipt. */
module Gsi {
  import opened Prelude

  // Durations are whole nanoseconds.
  const DUPLICATE_WINDOW: nat := 2_000_000_000
  const MAX_STALE_AFTER: nat := 90_000_000_000

  datatype Presence = Presence(bits: seq<bool>)

  datatype TrustedSnapshot = TrustedSnapshot(
    sessionHash: Option<string>, mapHash: Option<string>, round: Option<nat>, providerTimestamp: Option<int>,
    kills: Option<int>, deaths: Option<int>, roundKills: Option<int>, health: Option<int>)

  datatype EvidenceContext = EvidenceContext(
    mapHash: Option<string>, observedRound: Option<nat>, providerTimestamp: Option<int>,
    roundKills: Option<int>, health: Option<int>)

  datatype StateOutput = Seeded | Healthy | Stale | Recovered | SessionReset

  datatype TransitionFact =
    | CumulativeKillDelta(previous: int, current: int, delta: int)
    | CumulativeDeathDelta(previous: int, current: int, delta: int)
    | RoundKillDelta(previous: int, current: int, delta: int)
    | HealthDepleted(previous: int, current: int)
    | RoundEnd(completed: nat, next: nat)

  datatype EvidenceReceipt = EvidenceReceipt(
    sequence: nat, receivedAt: nat, payloadHash: string, presence: Presence, context: EvidenceContext,
    output: StateOutput, facts: seq<TransitionFact>)

  /** An authenticated request of the configured player. */
  datatype Payload = Payload(hash: string, presence: Presence, snapshot: TrustedSnapshot)

  datatype Response = Accepted | Duplicate | SinkFailure

  datatype PollOutcome = NoChange | BecameStale | PollSinkFailure

  // ----- Transitions between snapshots

  predicate Decreased(previous: Option<int>, current: Option<int>) {
    previous.Some? && current.Some? && current.value < previous.value
  }

  predicate IsSessionReset(previous: TrustedSnapshot, current: TrustedSnapshot) {
    || (previous.sessionHash.Some? && current.sessionHash.Some? && previous.sessionHash != current.sessionHash)
    || Decreased(previous.round, current.round)
    || Decreased(previous.kills, current.kills)
    || Decreased(previous.deaths, current.deaths)
    || Decreased(previous.providerTimestamp, current.providerTimestamp)
  }

  predicate Increased(previous: Option<int>, current: Option<int>) {
    previous.Some? && current.Some? && previous.value >= 0 && current.value > previous.value
  }

  function RoundEnds(previous: nat, current: nat): (r: seq<TransitionFact>)
    ensures previous <= current ==> |r| == current - previous
    ensures previous <= current ==> forall i :: 0 <= i < |r| ==> r[i] == RoundEnd(previous + i, previous + i + 1)
    decreases current - previous
  {
    if previous >= current then [] else [RoundEnd(previous, previous + 1)] + RoundEnds(previous + 1, current)
  }

  predicate SameRound(previous: TrustedSnapshot, current: TrustedSnapshot) {
    previous.round.Some? && previous.round == current.round
  }

  function DeltaFacts(previous: TrustedSnapshot, current: TrustedSnapshot): seq<TransitionFact> {
    (if Increased(previous.kills, current.kills)
     then [CumulativeKillDelta(previous.kills.value, current.kills.value, current.kills.value - previous.kills.value)]
     else []) +
    (if Increased(previous.deaths, current.deaths)
     then [CumulativeDeathDelta(previous.deaths.value, current.deaths.value, current.deaths.value - previous.deaths.value)]
     else []) +
    (if SameRound(previous, current) && Increased(previous.roundKills, current.roundKills)
     then [RoundKillDelta(previous.roundKills.value, current.roundKills.value,
                          current.roundKills.value - previous.roundKills.value)]
     else []) +
    (if SameRound(previous, current) && previous.health.Some? && current.health.Some?
        && previous.health.value > 0 && current.health.value <= 0
     then [HealthDepleted(previous.health.value, current.health.value)]
     else [])
  }

  function DeriveTransition(previous: TrustedSnapshot, current: TrustedSnapshot): (StateOutput, seq<TransitionFact>) {
    if IsSessionReset(previous, current) then (SessionReset, [])
    else
      (Healthy, DeltaFacts(previous, current) +
        (if previous.round.Some? && current.round.Some? then RoundEnds(previous.round.value, current.round.value) else []))
  }

  method DeriveFacts(previous: TrustedSnapshot, current: TrustedSnapshot) returns (output: StateOutput, facts: seq<TransitionFact>)
    ensures (output, facts) == DeriveTransition(previous, current)
  {
    if IsSessionReset(previous, current) {
      return SessionReset, [];
    }
    facts := [];
    if Increased(previous.kills, current.kills) {
      facts := facts + [CumulativeKillDelta(previous.kills.value, current.kills.value,
                                            current.kills.value - previous.kills.value)];
    }
    if Increased(previous.deaths, current.deaths) {
      facts := facts + [CumulativeDeathDelta(previous.deaths.value, current.deaths.value,
                                             current.deaths.value - previous.deaths.value)];
    }
    var sameRound := SameRound(previous, current);
    if sameRound && Increased(previous.roundKills, current.roundKills) {
      facts := facts + [RoundKillDelta(previous.roundKills.value, current.roundKills.value,
                                       current.roundKills.value - previous.roundKills.value)];
    }
    if sameRound && previous.health.Some? && current.health.Some?
       && previous.health.value > 0 && current.health.value <= 0 {
      facts := facts + [HealthDepleted(previous.health.value, current.health.value)];
    }
    assert facts == DeltaFacts(previous, current);
    if previous.round.Some? && current.round.Some? {
      var completed := previous.round.value;
      ghost var deltas := facts;
      while completed < current.round.value
        invariant previous.round.value <= completed <= Max(previous.round.value, current.round.value)
        invariant deltas + RoundEnds(previous.round.value, current.round.value) ==
                  facts + RoundEnds(completed, current.round.value)
      {
        facts := facts + [RoundEnd(completed, completed + 1)];
        completed := completed + 1;
      }
      assert facts + [] == facts;
    } else {
      assert facts + [] == facts;
    }
    return Healthy, facts;
  }

  function ContextOf(s: TrustedSnapshot): EvidenceContext {
    EvidenceContext(s.mapHash, s.round, s.providerTimestamp, s.roundKills, s.health)
  }

  // ----- The engine as a state machine

  datatype EngineState = EngineState(
    sequence: nat, snapshot: Option<TrustedSnapshot>, recentHashes: map<string, nat>,
    lastHash: Option<string>, lastPresence: Option<Presence>, lastContext: Option<EvidenceContext>,
    lastReceivedAt: Option<nat>, stale: bool)

  const INITIAL := EngineState(0, None, map[], None, None, None, None, false)

  function Clear(e: EngineState): EngineState {
    EngineState(e.sequence, None, map[], None, None, None, None, false)
  }

  function Elapsed(now: nat, since: nat): nat {
    if now >= since then now - since else 0
  }

  function Prune(recent: map<string, nat>, now: nat): map<string, nat> {
    map h | h in recent && Elapsed(now, recent[h]) <= DUPLICATE_WINDOW :: recent[h]
  }

  function TransitionOf(e: EngineState, current: TrustedSnapshot): (StateOutput, seq<TransitionFact>) {
    if e.stale then (Recovered, [])
    else if e.snapshot.None? then (Seeded, [])
    else DeriveTransition(e.snapshot.value, current)
  }

  function ReceiptFor(e: EngineState, now: nat, p: Payload): EvidenceReceipt {
    var (output, facts) := TransitionOf(e, p.snapshot);
    EvidenceReceipt(e.sequence + 1, now, p.hash, p.presence, ContextOf(p.snapshot), output, facts)
  }

  /** The state after the sink has taken the receipt. */
  function Commit(e: EngineState, r: EvidenceReceipt, p: Payload): EngineState {
    var base := if r.output == SessionReset then Clear(e) else e;
    EngineState(r.sequence, Some(p.snapshot), base.recentHashes[p.hash := r.receivedAt], Some(p.hash),
                Some(p.presence), Some(r.context), Some(r.receivedAt), false)
  }

  /** The result of one step: the new state, and the receipt if one was emitted. */
  datatype Outcome = Outcome(state: EngineState, emitted: Option<EvidenceReceipt>)

  function Post(e: EngineState, now: nat, p: Payload, sinkOk: bool): (Outcome, Response) {
    var pruned := e.(recentHashes := Prune(e.recentHashes, now));
    if p.hash in pruned.recentHashes then (Outcome(pruned, None), Duplicate)
    else
      var r := ReceiptFor(pruned, now, p);
      if !sinkOk then (Outcome(pruned, None), SinkFailure)
      else (Outcome(Commit(pruned, r, p), Some(r)), Accepted)
  }

  function StaleAfter(heartbeat: nat): nat {
    Min(heartbeat * 3, MAX_STALE_AFTER)
  }

  function StaleReceipt(e: EngineState, now: nat): EvidenceReceipt
    requires e.lastHash.Some? && e.lastPresence.Some? && e.lastContext.Some?
  {
    EvidenceReceipt(e.sequence + 1, now, e.lastHash.value, e.lastPresence.value, e.lastContext.value, Stale, [])
  }

  function Poll(e: EngineState, heartbeat: nat, now: nat, sinkOk: bool): (Outcome, PollOutcome) {
    if e.lastReceivedAt.None? || e.stale || Elapsed(now, e.lastReceivedAt.value) < StaleAfter(heartbeat)
    then (Outcome(e, None), NoChange)
    else if e.lastHash.None? || e.lastPresence.None? || e.lastContext.None? then (Outcome(e, None), NoChange)
    else if !sinkOk then (Outcome(e, None), PollSinkFailure)
    else
      var r := StaleReceipt(e, now);
      (Outcome(e.(sequence := r.sequence, stale := true, snapshot := None, recentHashes := map[]), Some(r)), BecameStale)
  }

  /** The service's engine, updated in place. */
  class Engine {
    var sequence: nat
    var snapshot: Option<TrustedSnapshot>
    var recentHashes: map<string, nat>
    var lastHash: Option<string>
    var lastPresence: Option<Presence>
    var lastContext: Option<EvidenceContext>
    var lastReceivedAt: Option<nat>
    var stale: bool

    ghost function State(): EngineState
      reads this
    {
      EngineState(sequence, snapshot, recentHashes, lastHash, lastPresence, lastContext, lastReceivedAt, stale)
    }

    constructor ()
      ensures State() == INITIAL
    {
      sequence, snapshot, recentHashes := 0, None, map[];
      lastHash, lastPresence, lastContext, lastReceivedAt, stale := None, None, None, None, false;
    }

    method ClearTransitionBaselines()
      modifies this
      ensures State() == Clear(old(State()))
    {
      snapshot, recentHashes := None, map[];
      lastHash, lastPresence, lastContext, lastReceivedAt, stale := None, None, None, None, false;
    }

    /** `route_post` once the request is known to come from the configured player. */
    method RoutePost(now: nat, p: Payload, sinkOk: bool) returns (response: Response, emitted: Option<EvidenceReceipt>)
      modifies this
      ensures (Outcome(State(), emitted), response) == Post(old(State()), now, p, sinkOk)
    {
      recentHashes := Prune(recentHashes, now);
      if p.hash in recentHashes {
        return Duplicate, None;
      }
      var output, facts := Recovered, [];
      if !stale {
        if snapshot.None? {
          output := Seeded;
        } else {
          output, facts := DeriveFacts(snapshot.value, p.snapshot);
        }
      }
      var context := ContextOf(p.snapshot);
      var receipt := EvidenceReceipt(sequence + 1, now, p.hash, p.presence, context, output, facts);
      if !sinkOk {
        return SinkFailure, None;
      }
      if output == SessionReset {
        ClearTransitionBaselines();
      }
      sequence := receipt.sequence;
      recentHashes := recentHashes[p.hash := now];
      lastHash, lastPresence, lastContext := Some(p.hash), Some(p.presence), Some(context);
      lastReceivedAt, snapshot, stale := Some(now), Some(p.snapshot), false;
      return Accepted, Some(receipt);
    }

    method PollStale(heartbeat: nat, now: nat, sinkOk: bool) returns (outcome: PollOutcome, emitted: Option<EvidenceReceipt>)
      modifies this
      ensures (Outcome(State(), emitted), outcome) == Poll(old(State()), heartbeat, now, sinkOk)
    {
      if lastReceivedAt.None? {
        return NoChange, None;
      }
      if stale || Elapsed(now, lastReceivedAt.value) < StaleAfter(heartbeat) {
        return NoChange, None;
      }
      if lastHash.None? || lastPresence.None? || lastContext.None? {
        return NoChange, None;
      }
      var receipt := EvidenceReceipt(sequence + 1, now, lastHash.value, lastPresence.value, lastContext.value, Stale, []);
      if !sinkOk {
        return PollSinkFailure, None;
      }
      sequence := receipt.sequence;
      stale, snapshot, recentHashes := true, None, map[];
      return BecameStale, Some(receipt);
    }
  }

  // ----- Runs

  /** What can happen to the engine.  `Mismatch` is an authenticated request of another player. */
  datatype Step =
    | DoPost(now: nat, payload: Payload, sinkOk: bool)
    | DoPoll(now: nat, sinkOk: bool)
    | Mismatch(now: nat)

  /** What a run leaves behind: the receipts the sink took, and the clears by mismatch. */
  datatype Entry = Emitted(receipt: EvidenceReceipt) | Cleared

  function Apply(heartbeat: nat, e: EngineState, step: Step): (EngineState, seq<Entry>) {
    match step
    case DoPost(now, payload, sinkOk) =>
      var (o, _) := Post(e, now, payload, sinkOk);
      (o.state, if o.emitted.Some? then [Emitted(o.emitted.value)] else [])
    case DoPoll(now, sinkOk) =>
      var (o, _) := Poll(e, heartbeat, now, sinkOk);
      (o.state, if o.emitted.Some? then [Emitted(o.emitted.value)] else [])
    case Mismatch(_) => (Clear(e), [Cleared])
  }

  function Run(heartbeat: nat, steps: seq<Step>): (EngineState, seq<Entry>) {
    if steps == [] then (INITIAL, [])
    else
      var (e, trace) := Run(heartbeat, steps[..|steps| - 1]);
      var (e', entries) := Apply(heartbeat, e, steps[|steps| - 1]);
      (e', trace + entries)
  }

  function Receipts(trace: seq<Entry>): seq<EvidenceReceipt> {
    if trace == [] then []
    else
      var before := Receipts(trace[..|trace| - 1]);
      match trace[|trace| - 1]
      case Emitted(r) => before + [r]
      case Cleared => before
  }

  lemma {:induction false} ReceiptsPush(trace: seq<Entry>, entry: Entry)
    ensures Receipts(trace + [entry]) ==
            if entry.Emitted? then Receipts(trace) + [entry.receipt] else Receipts(trace)
  {
    assert (trace + [entry])[..|trace|] == trace;
  }

  ghost predicate Numbered(rs: seq<EvidenceReceipt>) {
    forall k :: 0 <= k < |rs| ==> rs[k].sequence == k + 1
  }

  /** No two stale receipts are neighbours. */
  ghost predicate StaleSeparated(rs: seq<EvidenceReceipt>) {
    forall k :: 0 < k < |rs| ==> !(rs[k - 1].output == Stale && rs[k].output == Stale)
  }

  /** The engine agrees with what it has emitted. */
  ghost predicate Tracks(e: EngineState, rs: seq<EvidenceReceipt>) {
    && e.sequence == |rs|
    && (rs != [] && rs[|rs| - 1].output == Stale ==> e.stale || e.lastReceivedAt.None?)
  }

  lemma NumberedPush(rs: seq<EvidenceReceipt>, r: EvidenceReceipt)
    requires Numbered(rs) && StaleSeparated(rs) && r.sequence == |rs| + 1
    requires r.output == Stale && rs != [] ==> rs[|rs| - 1].output != Stale
    ensures Numbered(rs + [r]) && StaleSeparated(rs + [r])
  {
  }

  /** What a step emits: one receipt with the next number, stale only when the engine was not. */
  lemma StepEmits(heartbeat: nat, e: EngineState, step: Step)
    ensures var (e', entries) := Apply(heartbeat, e, step);
      || (entries == [] && e' == e.(recentHashes := e'.recentHashes))
      || (entries == [Cleared] && e' == Clear(e))
      || (|entries| == 1 && entries[0].Emitted? && e'.sequence == entries[0].receipt.sequence == e.sequence + 1
          && (entries[0].receipt.output == Stale ==> e'.stale && !e.stale && e.lastReceivedAt.Some?))
  {
    hide DeriveTransition;
    hide Prune;
    if step.DoPost? {
      NeverStale(e.(recentHashes := Prune(e.recentHashes, step.now)), step.payload.snapshot);
    }
  }

  lemma NeverStale(e: EngineState, current: TrustedSnapshot)
    ensures TransitionOf(e, current).0 != Stale
  {
  }

  lemma {:induction false} StepNumbered(heartbeat: nat, e: EngineState, trace: seq<Entry>, step: Step)
    requires Numbered(Receipts(trace)) && StaleSeparated(Receipts(trace)) && Tracks(e, Receipts(trace))
    ensures var (e', entries) := Apply(heartbeat, e, step); var rs := Receipts(trace + entries);
      Numbered(rs) && StaleSeparated(rs) && Tracks(e', rs)
  {
    hide Apply;
    hide Receipts;
    hide Numbered;
    hide StaleSeparated;
    var (e', entries) := Apply(heartbeat, e, step);
    StepEmits(heartbeat, e, step);
    if entries == [] {
      assert trace + entries == trace;
    } else {
      ReceiptsPush(trace, entries[0]);
      assert entries == [entries[0]];
      if entries[0].Emitted? {
        NumberedPush(Receipts(trace), entries[0].receipt);
      }
    }
  }

  /** In every run the emitted sequence numbers are 1, 2, 3, ... without gaps, and between two
      stale receipts some payload was accepted. */
  lemma {:induction false} RunNumbered(heartbeat: nat, steps: seq<Step>)
    ensures var (e, trace) := Run(heartbeat, steps);
      Numbered(Receipts(trace)) && StaleSeparated(Receipts(trace)) && Tracks(e, Receipts(trace))
  {
    if steps != [] {
      var before := steps[..|steps| - 1];
      RunNumbered(heartbeat, before);
      var (e, trace) := Run(heartbeat, before);
      StepNumbered(heartbeat, e, trace, steps[|steps| - 1]);
    }
  }

  lemma {:induction false} StaleNeedsAcceptance(heartbeat: nat, steps: seq<Step>, i: nat, j: nat)
    requires var rs := Receipts(Run(heartbeat, steps).1);
      i < j < |rs| && rs[i].output == Stale && rs[j].output == Stale
    ensures var rs := Receipts(Run(heartbeat, steps).1);
      exists k :: i < k < j && rs[k].output != Stale
  {
    RunNumbered(heartbeat, steps);
    var rs := Receipts(Run(heartbeat, steps).1);
    assert !(rs[i].output == Stale && rs[i + 1].output == Stale);
    assert i < i + 1 < j && rs[i + 1].output != Stale;
  }

  // ----- Duplicates

  ghost predicate Accepts(entry: Entry) {
    entry.Emitted? && entry.receipt.output != Stale
  }

  /** The entry wipes the remembered hashes; a session reset keeps only its own. */
  ghost predicate Clears(entry: Entry) {
    entry.Cleared? || entry.receipt.output in {Stale, SessionReset}
  }

  ghost predicate Live(trace: seq<Entry>, i: nat) {
    i < |trace| && Accepts(trace[i]) && forall m :: i < m < |trace| ==> !Clears(trace[m])
  }

  /** A live acceptance of this payload no more than two seconds old. */
  ghost predicate RecentlyAccepted(trace: seq<Entry>, hash: string, now: nat) {
    exists i: nat :: Live(trace, i) && trace[i].receipt.payloadHash == hash
                && now - trace[i].receipt.receivedAt <= DUPLICATE_WINDOW
  }

  ghost predicate Stamped(trace: seq<Entry>, last: nat) {
    forall i :: 0 <= i < |trace| && trace[i].Emitted? ==> trace[i].receipt.receivedAt <= last
  }

  ghost predicate Keeps(recent: map<string, nat>, trace: seq<Entry>, last: nat) {
    forall i: nat :: Live(trace, i) ==>
      || last - trace[i].receipt.receivedAt > DUPLICATE_WINDOW
      || (trace[i].receipt.payloadHash in recent
          && trace[i].receipt.receivedAt <= recent[trace[i].receipt.payloadHash])
  }

  ghost predicate Justified(recent: map<string, nat>, trace: seq<Entry>) {
    forall h :: h in recent ==>
      exists i: nat :: Live(trace, i) && trace[i].receipt.payloadHash == h && trace[i].receipt.receivedAt == recent[h]
  }

  /** The remembered hashes are the live acceptances, up to what has aged out. */
  ghost predicate Remembers(recent: map<string, nat>, trace: seq<Entry>, last: nat) {
    Stamped(trace, last) && Keeps(recent, trace, last) && Justified(recent, trace)
  }

  ghost predicate Ordered(steps: seq<Step>) {
    forall i, j :: 0 <= i < j < |steps| ==> steps[i].now <= steps[j].now
  }

  lemma LaterRemembers(recent: map<string, nat>, trace: seq<Entry>, last: nat, now: nat)
    requires Remembers(recent, trace, last) && last <= now
    ensures Remembers(recent, trace, now) && Stamped(trace, now)
  {
  }

  lemma PruneRemembers(recent: map<string, nat>, trace: seq<Entry>, last: nat, now: nat)
    requires Remembers(recent, trace, last) && last <= now
    ensures Remembers(Prune(recent, now), trace, now)
  {
    forall i: nat | Live(trace, i)
      ensures now - trace[i].receipt.receivedAt > DUPLICATE_WINDOW
              || (trace[i].receipt.payloadHash in Prune(recent, now)
                  && trace[i].receipt.receivedAt <= Prune(recent, now)[trace[i].receipt.payloadHash])
    {
      assert trace[i].receipt.receivedAt <= last;
    }
  }

  lemma DuplicateIffRemembered(recent: map<string, nat>, trace: seq<Entry>, last: nat, now: nat, hash: string)
    requires Remembers(recent, trace, last) && last <= now
    ensures hash in Prune(recent, now) <==> RecentlyAccepted(trace, hash, now)
  {
    if hash in Prune(recent, now) {
      var i: nat :| Live(trace, i) && trace[i].receipt.payloadHash == hash && trace[i].receipt.receivedAt == recent[hash];
      assert now - trace[i].receipt.receivedAt <= DUPLICATE_WINDOW;
    }
    if RecentlyAccepted(trace, hash, now) {
      var i: nat :| Live(trace, i) && trace[i].receipt.payloadHash == hash
               && now - trace[i].receipt.receivedAt <= DUPLICATE_WINDOW;
      assert trace[i].receipt.receivedAt <= last;
    }
  }

  lemma LivePush(trace: seq<Entry>, entry: Entry, i: nat)
    ensures Live(trace + [entry], i) <==>
            (i == |trace| && Accepts(entry)) || (Live(trace, i) && !Clears(entry))
  {
    var longer := trace + [entry];
    assert longer[|trace|] == entry;
    if i < |trace| {
      assert longer[i] == trace[i];
      if Live(longer, i) {
        forall m | i < m < |trace| ensures !Clears(trace[m]) {
          assert longer[m] == trace[m];
        }
      }
    }
  }

  /** Taking in an acceptance: the old memory, or none after a reset, plus the new hash. */
  lemma AcceptRemembers(recent: map<string, nat>, trace: seq<Entry>, r: EvidenceReceipt)
    requires Remembers(recent, trace, r.receivedAt) && r.output != Stale
    ensures var base: map<string, nat> := if r.output == SessionReset then map[] else recent;
      Remembers(base[r.payloadHash := r.receivedAt], trace + [Emitted(r)], r.receivedAt)
  {
    var entry := Emitted(r);
    var longer := trace + [entry];
    var base: map<string, nat> := if r.output == SessionReset then map[] else recent;
    var after := base[r.payloadHash := r.receivedAt];
    assert Stamped(longer, r.receivedAt);
    forall i: nat | Live(longer, i)
      ensures r.receivedAt - longer[i].receipt.receivedAt > DUPLICATE_WINDOW
              || (longer[i].receipt.payloadHash in after
                  && longer[i].receipt.receivedAt <= after[longer[i].receipt.payloadHash])
    {
      LivePush(trace, entry, i);
    }
    forall h | h in after
      ensures exists i: nat :: Live(longer, i) && longer[i].receipt.payloadHash == h && longer[i].receipt.receivedAt == after[h]
    {
      if h == r.payloadHash {
        LivePush(trace, entry, |trace|);
        assert Live(longer, |trace|) && longer[|trace|] == entry;
      } else {
        var i: nat :| Live(trace, i) && trace[i].receipt.payloadHash == h && trace[i].receipt.receivedAt == recent[h];
        LivePush(trace, entry, i);
        assert Live(longer, i) && longer[i] == trace[i];
      }
    }
  }

  /** After a stale receipt or a mismatch nothing is live and nothing is remembered. */
  lemma ClearRemembers(trace: seq<Entry>, entry: Entry, last: nat)
    requires Stamped(trace, last) && Clears(entry) && !Accepts(entry)
    requires entry.Emitted? ==> entry.receipt.receivedAt <= last
    ensures Remembers(map[], trace + [entry], last)
  {
    forall i: nat | Live(trace + [entry], i) ensures false {
      LivePush(trace, entry, i);
    }
  }

  lemma StepRemembers(heartbeat: nat, e: EngineState, trace: seq<Entry>, step: Step, last: nat)
    requires Remembers(e.recentHashes, trace, last) && last <= step.now
    ensures var (e', entries) := Apply(heartbeat, e, step); Remembers(e'.recentHashes, trace + entries, step.now)
  {
    hide DeriveTransition;
    hide Remembers;
    var (e', entries) := Apply(heartbeat, e, step);
    assert trace + [] == trace;
    LaterRemembers(e.recentHashes, trace, last, step.now);
    if step.DoPost? {
      PruneRemembers(e.recentHashes, trace, last, step.now);
      if entries != [] {
        NeverStale(e.(recentHashes := Prune(e.recentHashes, step.now)), step.payload.snapshot);
        AcceptRemembers(Prune(e.recentHashes, step.now), trace, entries[0].receipt);
      }
    } else if entries != [] {
      ClearRemembers(trace, entries[0], step.now);
    }
  }

  function LastTime(steps: seq<Step>): nat {
    if steps == [] then 0 else steps[|steps| - 1].now
  }

  lemma {:induction false} RunRemembers(heartbeat: nat, steps: seq<Step>)
    requires Ordered(steps)
    ensures var (e, trace) := Run(heartbeat, steps); Remembers(e.recentHashes, trace, LastTime(steps))
  {
    if steps != [] {
      var before := steps[..|steps| - 1];
      assert Ordered(before);
      RunRemembers(heartbeat, before);
      var (e, trace) := Run(heartbeat, before);
      StepRemembers(heartbeat, e, trace, steps[|steps| - 1], LastTime(before));
    }
  }

  /** Under a clock that never runs backwards a payload is answered as a duplicate exactly when
      the same payload was accepted at most two seconds ago with no clear since. */
  lemma {:induction false} DuplicateIffRecentlyAccepted(heartbeat: nat, steps: seq<Step>, now: nat, p: Payload, sinkOk: bool)
    requires Ordered(steps) && LastTime(steps) <= now
    ensures var (e, trace) := Run(heartbeat, steps);
      Post(e, now, p, sinkOk).1 == Duplicate <==> RecentlyAccepted(trace, p.hash, now)
  {
    RunRemembers(heartbeat, steps);
    var (e, trace) := Run(heartbeat, steps);
    DuplicateIffRemembered(e.recentHashes, trace, LastTime(steps), now, p.hash);
  }

  /** No entry strictly between i and j wipes the remembered hashes. */
  ghost predicate UnclearedBetween(trace: seq<Entry>, i: nat, j: nat) {
    i < j < |trace| && forall m :: i < m < j ==> !Clears(trace[m])
  }

  ghost predicate Spaced(trace: seq<Entry>) {
    forall i: nat, j: nat :: UnclearedBetween(trace, i, j) && Accepts(trace[i]) && Accepts(trace[j])
      && trace[i].receipt.payloadHash == trace[j].receipt.payloadHash
      ==> trace[j].receipt.receivedAt - trace[i].receipt.receivedAt > DUPLICATE_WINDOW
  }

  lemma SpacedPush(trace: seq<Entry>, entry: Entry)
    requires Spaced(trace)
    requires Accepts(entry) ==> !RecentlyAccepted(trace, entry.receipt.payloadHash, entry.receipt.receivedAt)
    ensures Spaced(trace + [entry])
  {
    var longer := trace + [entry];
    forall i: nat, j: nat | UnclearedBetween(longer, i, j) && Accepts(longer[i]) && Accepts(longer[j])
                            && longer[i].receipt.payloadHash == longer[j].receipt.payloadHash
      ensures longer[j].receipt.receivedAt - longer[i].receipt.receivedAt > DUPLICATE_WINDOW
    {
      assert longer[i] == trace[i];
      forall m | i < m < Min(j, |trace|) ensures !Clears(trace[m]) {
        assert longer[m] == trace[m];
      }
      if j < |trace| {
        assert longer[j] == trace[j] && UnclearedBetween(trace, i, j);
      } else {
        assert Live(trace, i) && longer[j] == entry;
      }
    }
  }

  /** Two acceptances of one payload with no clear between them are more than two seconds apart. */
  lemma {:induction false} RunSpacesDuplicates(heartbeat: nat, steps: seq<Step>)
    requires Ordered(steps)
    ensures Spaced(Run(heartbeat, steps).1)
  {
    hide DeriveTransition;
    if steps != [] {
      var before, step := steps[..|steps| - 1], steps[|steps| - 1];
      assert Ordered(before);
      RunSpacesDuplicates(heartbeat, before);
      var (e, trace) := Run(heartbeat, before);
      var (e', entries) := Apply(heartbeat, e, step);
      if step.DoPost? {
        DuplicateIffRecentlyAccepted(heartbeat, before, step.now, step.payload, step.sinkOk);
      }
      if entries == [] {
        assert trace + entries == trace;
      } else {
        SpacedPush(trace, entries[0]);
        assert entries == [entries[0]];
      }
    }
  }

  // ----- Facts over a healthy segment

  /** The payload names a round and a nonnegative kill counter. */
  ghost predicate Complete(s: TrustedSnapshot) {
    s.round.Some? && s.kills.Some? && s.kills.value >= 0
  }

  /** From `e` on, every receipt is healthy and built from a complete payload.  Duplicates, refused
      receipts and polls without effect may come in between. */
  ghost predicate HealthySegment(heartbeat: nat, e: EngineState, steps: seq<Step>)
    decreases |steps|
  {
    steps == [] ||
    var (e', entries) := Apply(heartbeat, e, steps[0]);
    && !steps[0].Mismatch?
    && (entries != [] ==> entries[0].receipt.output == Healthy && steps[0].DoPost? && Complete(steps[0].payload.snapshot))
    && HealthySegment(heartbeat, e', steps[1..])
  }

  ghost function FactsOf(entries: seq<Entry>): seq<TransitionFact> {
    if entries == [] || entries[0].Cleared? then [] else entries[0].receipt.facts
  }

  /** The end state and all facts emitted by `steps` from `e`. */
  ghost function Segment(heartbeat: nat, e: EngineState, steps: seq<Step>): (EngineState, seq<TransitionFact>)
    decreases |steps|
  {
    if steps == [] then (e, [])
    else
      var (e', entries) := Apply(heartbeat, e, steps[0]);
      var (last, rest) := Segment(heartbeat, e', steps[1..]);
      (last, FactsOf(entries) + rest)
  }

  ghost function RoundEndsIn(facts: seq<TransitionFact>): seq<TransitionFact> {
    if facts == [] then []
    else (if facts[0].RoundEnd? then [facts[0]] else []) + RoundEndsIn(facts[1..])
  }

  ghost function KillsIn(facts: seq<TransitionFact>): int {
    if facts == [] then 0
    else (if facts[0].CumulativeKillDelta? then facts[0].delta else 0) + KillsIn(facts[1..])
  }

  lemma {:induction false} FactsConcat(a: seq<TransitionFact>, b: seq<TransitionFact>)
    ensures RoundEndsIn(a + b) == RoundEndsIn(a) + RoundEndsIn(b)
    ensures KillsIn(a + b) == KillsIn(a) + KillsIn(b)
  {
    if a == [] {
      assert a + b == b;
    } else {
      FactsConcat(a[1..], b);
      var joined := a + b;
      assert joined != [] && joined[0] == a[0] && joined[1..] == a[1..] + b;
      var head := if a[0].RoundEnd? then [a[0]] else [];
      var left, right := RoundEndsIn(a[1..]), RoundEndsIn(b);
      assert RoundEndsIn(joined) == head + (left + right);
      assert head + (left + right) == (head + left) + right;
    }
  }

  lemma {:induction false} RoundEndsAreThemselves(previous: nat, current: nat)
    ensures RoundEndsIn(RoundEnds(previous, current)) == RoundEnds(previous, current)
    ensures KillsIn(RoundEnds(previous, current)) == 0
    decreases current - previous
  {
    if previous < current {
      RoundEndsAreThemselves(previous + 1, current);
      assert RoundEnds(previous, current)[1..] == RoundEnds(previous + 1, current);
    }
  }

  lemma {:induction false} RoundEndsJoin(a: nat, b: nat, c: nat)
    requires a <= b <= c
    ensures RoundEnds(a, b) + RoundEnds(b, c) == RoundEnds(a, c)
    decreases b - a
  {
    if a < b {
      RoundEndsJoin(a + 1, b, c);
    }
  }

  /** A healthy transition reports each round it leaves once, and the kills gained. */
  lemma TransitionReports(previous: TrustedSnapshot, current: TrustedSnapshot)
    requires Complete(previous) && Complete(current) && !IsSessionReset(previous, current)
    ensures previous.round.value <= current.round.value && previous.kills.value <= current.kills.value
    ensures var facts := DeriveTransition(previous, current).1;
      && RoundEndsIn(facts) == RoundEnds(previous.round.value, current.round.value)
      && KillsIn(facts) == current.kills.value - previous.kills.value
  {
    var ends := RoundEnds(previous.round.value, current.round.value);
    var deltas := DeltaFacts(previous, current);
    FactsConcat(deltas, ends);
    RoundEndsAreThemselves(previous.round.value, current.round.value);
    assert RoundEndsIn(deltas) == [] && KillsIn(deltas) == current.kills.value - previous.kills.value by {
      DeltasReportKills(previous, current);
    }
    assert [] + ends == ends;
  }

  lemma DeltasReportKills(previous: TrustedSnapshot, current: TrustedSnapshot)
    requires Complete(previous) && Complete(current) && !IsSessionReset(previous, current)
    ensures RoundEndsIn(DeltaFacts(previous, current)) == []
    ensures KillsIn(DeltaFacts(previous, current)) == current.kills.value - previous.kills.value
  {
    hide RoundEndsIn;
    hide KillsIn;
    var kills := if Increased(previous.kills, current.kills)
      then [CumulativeKillDelta(previous.kills.value, current.kills.value, current.kills.value - previous.kills.value)]
      else [];
    var rest := DeltaFacts(previous, current)[|kills|..];
    assert DeltaFacts(previous, current) == kills + rest;
    FactsConcat(kills, rest);
    Silent(rest);
    KillsAlone(previous, current, kills);
  }

  lemma {:induction false} KillsAlone(previous: TrustedSnapshot, current: TrustedSnapshot, kills: seq<TransitionFact>)
    requires Complete(previous) && Complete(current) && !IsSessionReset(previous, current)
    requires kills == if Increased(previous.kills, current.kills)
      then [CumulativeKillDelta(previous.kills.value, current.kills.value, current.kills.value - previous.kills.value)]
      else []
    ensures RoundEndsIn(kills) == [] && KillsIn(kills) == current.kills.value - previous.kills.value
  {
  }

  lemma {:induction false} Silent(facts: seq<TransitionFact>)
    requires forall f :: f in facts ==> !f.RoundEnd? && !f.CumulativeKillDelta?
    ensures RoundEndsIn(facts) == [] && KillsIn(facts) == 0
  {
    if facts != [] {
      Silent(facts[1..]);
    }
  }

  lemma {:induction false} HealthyStep(heartbeat: nat, e: EngineState, step: Step)
    requires !e.stale && e.snapshot.Some? && Complete(e.snapshot.value)
    requires HealthySegment(heartbeat, e, [step])
    ensures var (e', entries) := Apply(heartbeat, e, step); var facts := FactsOf(entries);
      && !e'.stale && e'.snapshot.Some? && Complete(e'.snapshot.value)
      && e.snapshot.value.round.value <= e'.snapshot.value.round.value
      && RoundEndsIn(facts) == RoundEnds(e.snapshot.value.round.value, e'.snapshot.value.round.value)
      && KillsIn(facts) == e'.snapshot.value.kills.value - e.snapshot.value.kills.value
  {
    hide DeriveTransition;
    hide RoundEnds;
    var (e', entries) := Apply(heartbeat, e, step);
    if entries == [] {
      RoundEndsJoin(e.snapshot.value.round.value, e.snapshot.value.round.value, e.snapshot.value.round.value);
    } else {
      HealthyIsNoReset(e.snapshot.value, step.payload.snapshot);
      TransitionReports(e.snapshot.value, step.payload.snapshot);
    }
  }

  lemma HealthyIsNoReset(previous: TrustedSnapshot, current: TrustedSnapshot)
    ensures DeriveTransition(previous, current).0 == Healthy <==> !IsSessionReset(previous, current)
  {
  }

  /** Over a healthy segment the facts list every round left exactly once, in order, and the kill
      deltas add up to the kills gained, whatever was duplicated or refused in between. */
  lemma {:induction false} SegmentConserves(heartbeat: nat, e: EngineState, steps: seq<Step>)
    requires !e.stale && e.snapshot.Some? && Complete(e.snapshot.value)
    requires HealthySegment(heartbeat, e, steps)
    ensures var (last, facts) := Segment(heartbeat, e, steps);
      && last.snapshot.Some? && Complete(last.snapshot.value)
      && e.snapshot.value.round.value <= last.snapshot.value.round.value
      && RoundEndsIn(facts) == RoundEnds(e.snapshot.value.round.value, last.snapshot.value.round.value)
      && KillsIn(facts) == last.snapshot.value.kills.value - e.snapshot.value.kills.value
    decreases |steps|
  {
    hide Apply;
    hide RoundEnds;
    if steps == [] {
      NoRounds(e.snapshot.value.round.value);
    } else {
      var (e', entries) := Apply(heartbeat, e, steps[0]);
      assert HealthySegment(heartbeat, e, [steps[0]]);
      HealthyStep(heartbeat, e, steps[0]);
      SegmentConserves(heartbeat, e', steps[1..]);
      var (last, rest) := Segment(heartbeat, e', steps[1..]);
      FactsConcat(FactsOf(entries), rest);
      RoundEndsJoin(e.snapshot.value.round.value, e'.snapshot.value.round.value, last.snapshot.value.round.value);
    }
  }

  lemma {:induction false} NoRounds(round: nat)
    ensures RoundEnds(round, round) == []
  {
  }

  // ----- What a step says, field by field

  /** Both session hashes are known and differ, or a known round, kill count, death count or provider
      timestamp has fallen. */
  predicate NewSession(previous: TrustedSnapshot, current: TrustedSnapshot) {
    || (previous.sessionHash.Some? && current.sessionHash.Some? && previous.sessionHash.value != current.sessionHash.value)
    || (previous.round.Some? && current.round.Some? && previous.round.value > current.round.value)
    || (previous.kills.Some? && current.kills.Some? && previous.kills.value > current.kills.value)
    || (previous.deaths.Some? && current.deaths.Some? && previous.deaths.value > current.deaths.value)
    || (previous.providerTimestamp.Some? && current.providerTimestamp.Some?
        && previous.providerTimestamp.value > current.providerTimestamp.value)
  }

  /** The payload is remembered from at most two seconds ago. */
  predicate Recent(e: EngineState, hash: string, now: nat) {
    hash in e.recentHashes && now - e.recentHashes[hash] <= 2_000_000_000
  }

  /** The three answers to a post, and that only an acceptance emits a receipt or changes more than
      the memory of hashes. */
  lemma ResponseIff(e: EngineState, now: nat, p: Payload, sinkOk: bool)
    ensures var (o, response) := Post(e, now, p, sinkOk);
      && (response == Duplicate <==> Recent(e, p.hash, now))
      && (response == SinkFailure <==> !Recent(e, p.hash, now) && !sinkOk)
      && (response == Accepted <==> !Recent(e, p.hash, now) && sinkOk)
      && (o.emitted.Some? <==> response == Accepted)
      && (response != Accepted ==> o.state == e.(recentHashes := o.state.recentHashes))
      && (response != Accepted ==> forall h :: h in o.state.recentHashes <==> Recent(e, h, now))
      && (response != Accepted ==> forall h :: h in o.state.recentHashes ==> o.state.recentHashes[h] == e.recentHashes[h])
  {
    hide DeriveTransition;
  }

  /** How an accepted payload is classified. */
  lemma OutputIff(e: EngineState, now: nat, p: Payload)
    requires Post(e, now, p, true).1 == Accepted
    ensures var r := Post(e, now, p, true).0.emitted.value;
      && (r.output == Recovered <==> e.stale)
      && (r.output == Seeded <==> !e.stale && e.snapshot.None?)
      && (r.output == SessionReset <==> !e.stale && e.snapshot.Some? && NewSession(e.snapshot.value, p.snapshot))
      && (r.output == Healthy <==> !e.stale && e.snapshot.Some? && !NewSession(e.snapshot.value, p.snapshot))
      && (r.output != Healthy ==> r.facts == [])
  {
    hide DeltaFacts;
    hide RoundEnds;
    hide Prune;
  }

  /** What an accepted receipt carries over from the payload, and what the engine remembers of it. */
  lemma AcceptedReceipt(e: EngineState, now: nat, p: Payload)
    requires Post(e, now, p, true).1 == Accepted
    ensures var o := Post(e, now, p, true).0; var r, e', s := o.emitted.value, o.state, p.snapshot;
      && r.sequence == e.sequence + 1 && r.receivedAt == now && r.payloadHash == p.hash && r.presence == p.presence
      && r.context.mapHash == s.mapHash && r.context.observedRound == s.round
      && r.context.providerTimestamp == s.providerTimestamp
      && r.context.roundKills == s.roundKills && r.context.health == s.health
      && e'.sequence == r.sequence && e'.snapshot == Some(s) && !e'.stale
      && e'.lastHash == Some(p.hash) && e'.lastPresence == Some(p.presence) && e'.lastContext == Some(r.context)
      && e'.lastReceivedAt == Some(now)
      && (forall h :: h in e'.recentHashes <==> h == p.hash || (r.output != SessionReset && Recent(e, h, now)))
      && (forall h :: h in e'.recentHashes ==> e'.recentHashes[h] == if h == p.hash then now else e.recentHashes[h])
  {
    hide DeriveTransition;
  }

  /** When a fact is true of two snapshots. */
  predicate FactHolds(previous: TrustedSnapshot, current: TrustedSnapshot, f: TransitionFact) {
    match f
    case CumulativeKillDelta(a, b, delta) =>
      previous.kills == Some(a) && current.kills == Some(b) && 0 <= a < b && delta == b - a
    case CumulativeDeathDelta(a, b, delta) =>
      previous.deaths == Some(a) && current.deaths == Some(b) && 0 <= a < b && delta == b - a
    case RoundKillDelta(a, b, delta) =>
      && previous.round.Some? && current.round.Some? && previous.round.value == current.round.value
      && previous.roundKills == Some(a) && current.roundKills == Some(b) && 0 <= a < b && delta == b - a
    case HealthDepleted(a, b) =>
      && previous.round.Some? && current.round.Some? && previous.round.value == current.round.value
      && previous.health == Some(a) && current.health == Some(b) && b <= 0 < a
    case RoundEnd(completed, next) =>
      && previous.round.Some? && current.round.Some?
      && previous.round.value <= completed < current.round.value && next == completed + 1
  }

  /** The order of facts: kills, deaths, round kills, health, then the rounds left, in order. */
  predicate FactBefore(f: TransitionFact, g: TransitionFact) {
    match f
    case CumulativeKillDelta(_, _, _) => !g.CumulativeKillDelta?
    case CumulativeDeathDelta(_, _, _) => g.RoundKillDelta? || g.HealthDepleted? || g.RoundEnd?
    case RoundKillDelta(_, _, _) => g.HealthDepleted? || g.RoundEnd?
    case HealthDepleted(_, _) => g.RoundEnd?
    case RoundEnd(completed, _) => g.RoundEnd? && completed < g.completed
  }

  /** A healthy receipt carries exactly the facts that hold between the baseline and the payload,
      each once and in order. */
  lemma FactsIff(e: EngineState, now: nat, p: Payload)
    requires Post(e, now, p, true).1 == Accepted && Post(e, now, p, true).0.emitted.value.output == Healthy
    ensures e.snapshot.Some?
    ensures var facts := Post(e, now, p, true).0.emitted.value.facts;
      && (forall f :: f in facts <==> FactHolds(e.snapshot.value, p.snapshot, f))
      && (forall i, j :: 0 <= i < j < |facts| ==> FactBefore(facts[i], facts[j]))
  {
    OutputIff(e, now, p);
    hide Prune;
    hide DeltaFacts;
    hide RoundEnds;
    hide FactHolds;
    hide FactBefore;
    TransitionFacts(e.snapshot.value, p.snapshot);
  }

  lemma TransitionFacts(previous: TrustedSnapshot, current: TrustedSnapshot)
    requires !NewSession(previous, current)
    ensures var facts := DeriveTransition(previous, current).1;
      && (forall f :: f in facts <==> FactHolds(previous, current, f))
      && (forall i, j :: 0 <= i < j < |facts| ==> FactBefore(facts[i], facts[j]))
  {
    hide RoundEnds;
    var deltas := DeltaFacts(previous, current);
    DeltasHold(previous, current);
    hide DeltaFacts;
    if previous.round.Some? && current.round.Some? {
      var ends := RoundEnds(previous.round.value, current.round.value);
      EndsHold(previous.round.value, current.round.value);
      assert forall f :: f in deltas + ends <==> f in deltas || f in ends;
    } else {
      assert deltas + [] == deltas;
    }
  }

  lemma DeltasHold(previous: TrustedSnapshot, current: TrustedSnapshot)
    ensures var deltas := DeltaFacts(previous, current);
      && (forall f :: f in deltas <==> !f.RoundEnd? && FactHolds(previous, current, f))
      && (forall i, j :: 0 <= i < j < |deltas| ==> FactBefore(deltas[i], deltas[j]))
  {
  }

  lemma {:induction false} EndsHold(previous: nat, current: nat)
    requires previous <= current
    ensures forall f :: f in RoundEnds(previous, current) <==>
              f.RoundEnd? && previous <= f.completed < current && f.next == f.completed + 1
  {
    var ends := RoundEnds(previous, current);
    forall f: TransitionFact | f.RoundEnd? && previous <= f.completed < current && f.next == f.completed + 1
      ensures f in ends
    {
      assert ends[f.completed - previous] == f;
    }
  }

  /** A poll marks the engine stale exactly when something was accepted, nothing has been heard for
      three heartbeats or ninety seconds, and the sink takes the receipt, which repeats what was
      accepted last and carries no facts. */
  lemma PollIff(e: EngineState, heartbeat: nat, now: nat, sinkOk: bool)
    ensures var (o, outcome) := Poll(e, heartbeat, now, sinkOk);
      var known := e.lastReceivedAt.Some? && e.lastHash.Some? && e.lastPresence.Some? && e.lastContext.Some?;
      var silent := known && !e.stale
        && (heartbeat == 0 || now - e.lastReceivedAt.value >= 3 * heartbeat || now - e.lastReceivedAt.value >= 90_000_000_000);
      && (outcome == BecameStale <==> silent && sinkOk)
      && (outcome == PollSinkFailure <==> silent && !sinkOk)
      && (o.emitted.Some? <==> outcome == BecameStale)
      && (outcome != BecameStale ==> o.state == e)
      && (outcome == BecameStale ==>
            var r, e' := o.emitted.value, o.state;
            && r.sequence == e.sequence + 1 && r.receivedAt == now && r.output == Stale && r.facts == []
            && r.payloadHash == e.lastHash.value && r.presence == e.lastPresence.value && r.context == e.lastContext.value
            && e'.sequence == r.sequence && e'.stale && e'.snapshot.None? && e'.recentHashes == map[]
            && e'.lastHash == e.lastHash && e'.lastPresence == e.lastPresence && e'.lastContext == e.lastContext
            && e'.lastReceivedAt == e.lastReceivedAt)
  {
  }

  /** A clear forgets everything but the number of the last receipt. */
  lemma ClearForgets(heartbeat: nat, e: EngineState, now: nat)
    ensures var (e', entries) := Apply(heartbeat, e, Mismatch(now));
      && entries == [Cleared] && e'.sequence == e.sequence && e'.snapshot.None? && e'.recentHashes == map[] && !e'.stale
      && e'.lastHash.None? && e'.lastPresence.None? && e'.lastContext.None? && e'.lastReceivedAt.None?
  {
  }
}
