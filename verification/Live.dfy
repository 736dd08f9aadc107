/** The live capture coordinator (crates/openfrag-live/src/lib.rs:204-584).

    Store, scheduler, recorder and clock are the environment.  Each call to the store or the
    scheduler consumes one answer (true: it succeeded) of a stream, and what the scheduler accepts
    goes on a channel; the recorder's answers and the clock readings are arguments.  `order` is the order in which the captures map is iterated. */
module Live {
  import opened Prelude
  import opened Ordering
  import opened Text
  import opened Highlight
  import Deadlines
  import Gsi
  import Supervisor

  const AUTO_POST_ROLL_MS: u64 := 10_000
  const REPLAY_BUFFER_MS: u64 := 60_000
  const DESIRED_PRE_ROLL_MS: u64 := 15_000

  type Receipt = Gsi.EvidenceReceipt

  datatype CaptureKind = AutoRoundEnd | ManualFlag

  datatype CancelReason = BecauseStale | BecauseReset

  datatype SaveOutcome = SaveOutcome(id: string, disposition: Supervisor.Disposition)

  datatype CaptureStatus =
    | Scheduled | Requesting | SaveRequested(outcome: SaveOutcome) | Retryable(message: string)
    | Cancelled(reason: CancelReason)

  datatype CaptureWindow = CaptureWindow(
    requestedAt: u64, desired: TimeRange, available: TimeRange, preRollTruncated: bool)

  datatype Capture = Capture(
    id: string, kind: CaptureKind, round: Option<string>, provenance: Supervisor.Provenance,
    sources: set<string>, candidate: Option<Candidate>, roundEnd: Option<u64>, deadline: Option<u64>,
    timer: Option<string>, window: Option<CaptureWindow>, coverage: Option<TimeRange>, status: CaptureStatus)

  datatype Diagnostic =
    | Persistence | SchedulerFailed | RecorderFailed(message: string) | MissingCapture(id: string) | InvalidDomain

  datatype IngestOutcome = IngestOutcome(created: nat, scheduled: nat, cancelled: nat)

  datatype TimerOutcome = NotDue | SaveAsked | AlreadyHandled

  /** The recorder was asked for a save; `stored` says whether the answer was also stored. */
  datatype Asked = Asked(id: string, at: u64, accepted: bool, stored: bool)

  datatype State = State(
    session: string, processed: set<string>, candidates: map<string, Candidate>, captures: map<string, Capture>,
    timers: map<string, string>, manualOrdinal: u64, asked: seq<Asked>)

  function Initial(session: string): State {
    State(session, {}, map[], map[], map[], 0, [])
  }

  /** What the store and the scheduler will answer, call by call, and the commands the scheduler has
      put on its channel. */
  datatype Environment = Environment(answers: seq<bool>, channel: seq<Deadlines.Command>)

  datatype Reply<+T> = Reply(st: State, r: Result<T, Diagnostic>, rest: Environment)

  /** The next call succeeds; a call beyond the last answer fails. */
  predicate Granted(env: Environment) {
    env.answers != [] && env.answers[0]
  }

  function Remaining(env: Environment): Environment {
    env.(answers := if env.answers == [] then [] else env.answers[1..])
  }

  /** A granted scheduler call: its command is on the channel. */
  function Sending(env: Environment, c: Deadlines.Command): Environment {
    Remaining(env).(channel := env.channel + [c])
  }

  // ----- Identifiers and times

  function ReceiptId(r: Receipt): string {
    r.payloadHash + ":" + Decimal(r.sequence)
  }

  function RoundId(mapHash: string, round: nat): string {
    mapHash + ":" + Decimal(round)
  }

  function AutoId(round: string): string {
    "auto:" + round
  }

  function TimerFor(captureId: string): string {
    "timer:" + captureId
  }

  function ManualId(now: u64, ordinal: u64): string {
    "manual:" + Decimal(now) + ":" + Decimal(ordinal)
  }

  /** Receipts are stamped in nanoseconds. */
  function Millis(r: Receipt): u64 {
    Min(r.receivedAt / 1_000_000, U64_MAX)
  }

  // ----- Capture windows (crates/openfrag-domain/src/highlight.rs:180-237)

  function AutoWindow(candidateStart: u64, roundEnd: u64, availableFrom: u64): CaptureWindow {
    var requestedAt := SatAdd(roundEnd, AUTO_POST_ROLL_MS);
    var desired := TimeRange(SatSub(candidateStart, DESIRED_PRE_ROLL_MS), requestedAt);
    var start := Max(Max(desired.start, SatSub(requestedAt, REPLAY_BUFFER_MS)), availableFrom);
    CaptureWindow(requestedAt, desired, TimeRange(start, requestedAt), start > desired.start)
  }

  function ManualWindow(flag: u64, availableFrom: u64): CaptureWindow {
    var desired := TimeRange(SatSub(flag, DESIRED_PRE_ROLL_MS), flag);
    var start := Max(desired.start, availableFrom);
    CaptureWindow(flag, desired, TimeRange(start, flag), start > desired.start)
  }

  function RawCoverage(requestedAt: u64, availableFrom: u64): TimeRange {
    TimeRange(Max(SatSub(requestedAt, REPLAY_BUFFER_MS), availableFrom), requestedAt)
  }

  // ----- create_candidate

  /** The round a kill milestone of `current` kills belongs to, if the receipt supports one. */
  function MilestoneRound(r: Receipt, current: int): Option<string> {
    if r.context.mapHash.None? || r.context.observedRound.None? || r.context.roundKills.None? then None
    else if r.context.roundKills.value != current then None
    else if !(0 <= current <= 255) then None
    else if current < 3 then None
    else Some(RoundId(r.context.mapHash.value, r.context.observedRound.value))
  }

  function MilestoneCandidate(session: string, round: string, r: Receipt): Candidate {
    NewCandidate(session, round, TimeRange(Millis(r), Millis(r)), KillMilestone, ReceiptId(r)).value
  }

  function CreateCandidate(st: State, r: Receipt, current: int, env: Environment): Reply<bool> {
    var round := MilestoneRound(r, current);
    if round.None? || round.value in st.candidates then Reply(st, Ok(false), env)
    else if !Granted(env) then Reply(st, Err(Persistence), Remaining(env))
    else
      var c := MilestoneCandidate(st.session, round.value, r);
      Reply(st.(candidates := st.candidates[round.value := c]), Ok(true), Remaining(env))
  }

  // ----- schedule_round_capture

  function EndedRound(r: Receipt, completed: nat): Option<string> {
    if r.context.mapHash.None? || r.context.observedRound.None? then None
    else Some(RoundId(r.context.mapHash.value, completed))
  }

  function OfficialCandidate(session: string, round: string, r: Receipt): Candidate {
    NewCandidate(session, round, TimeRange(Millis(r), Millis(r)), OfficialRoundEndCapture, ReceiptId(r)).value
  }

  function Extended(c: Candidate, end: u64): Candidate {
    c.(range := c.range.(end := Max(end, c.range.end)))
  }

  /** The candidate of the scheduled capture: the first of the merged ones. */
  ghost function CapturedCandidate(st: State, round: string, r: Receipt): Option<Candidate> {
    var official := OfficialCandidate(st.session, round, r);
    if round !in st.candidates then Some(official)
    else
      var merged := MergeCandidates([Extended(st.candidates[round], Millis(r)), official]);
      if merged == [] then None else Some(merged[0])
  }

  function AutoCapture(round: string, candidate: Candidate, end: u64): Capture {
    Capture(AutoId(round), AutoRoundEnd, Some(round), Supervisor.AutoRoundEnd, candidate.receipts, Some(candidate),
            Some(end), Some(SatAdd(end, AUTO_POST_ROLL_MS)), Some(TimerFor(AutoId(round))), None, None, Scheduled)
  }

  function WithCapture(st: State, c: Capture): State {
    st.(captures := st.captures[c.id := c])
  }

  function ScheduleSent(env: Environment, round: string, r: Receipt): Environment {
    Sending(env, Deadlines.Schedule(TimerFor(AutoId(round)), SatAdd(Millis(r), AUTO_POST_ROLL_MS)))
  }

  /** The schedule is taken back; whether the scheduler grants that is ignored. */
  function TakenBack(env: Environment, timer: string): Environment {
    if Granted(env) then Sending(env, Deadlines.Cancel(timer)) else Remaining(env)
  }

  ghost function ScheduleCapture(st: State, r: Receipt, completed: nat, env: Environment): Reply<bool> {
    var round := EndedRound(r, completed);
    if round.None? || AutoId(round.value) in st.captures then Reply(st, Ok(false), env)
    else
      var candidate := CapturedCandidate(st, round.value, r);
      if candidate.None? then Reply(st, Err(InvalidDomain), env)
      else if !Granted(env) then Reply(st, Err(SchedulerFailed), Remaining(env))
      else if !Granted(Remaining(env)) then
        Reply(st, Err(Persistence), TakenBack(Remaining(ScheduleSent(env, round.value, r)), TimerFor(AutoId(round.value))))
      else
        var capture := AutoCapture(round.value, candidate.value, Millis(r));
        Reply(WithCapture(st, capture).(timers := st.timers[TimerFor(capture.id) := capture.id]), Ok(true),
              Remaining(ScheduleSent(env, round.value, r)))
  }

  // ----- cancel_unsaved

  predicate Unsaved(c: Capture) {
    c.kind == AutoRoundEnd && (c.status.Scheduled? || c.status.Retryable?)
  }

  /** `order` lists every capture once. */
  ghost predicate IsOrder(order: seq<string>, captures: map<string, Capture>) {
    && (forall id :: id in order <==> id in captures)
    && (forall i, j :: 0 <= i < j < |order| ==> order[i] != order[j])
  }

  function UnsavedIn(order: seq<string>, captures: map<string, Capture>): (ids: seq<string>)
    ensures forall id :: id in ids <==> id in order && id in captures && Unsaved(captures[id])
  {
    if order == [] then []
    else
      (if order[0] in captures && Unsaved(captures[order[0]]) then [order[0]] else []) + UnsavedIn(order[1..], captures)
  }

  function CancelOne(st: State, id: string, reason: CancelReason, env: Environment): Reply<()> {
    if id !in st.captures then Reply(st, Err(MissingCapture(id)), env)
    else
      var c := st.captures[id];
      if c.timer.Some? && !Granted(env) then Reply(st, Err(SchedulerFailed), Remaining(env))
      else
        var left := if c.timer.Some? then Sending(env, Deadlines.Cancel(c.timer.value)) else env;
        if !Granted(left) then Reply(st, Err(Persistence), Remaining(left))
        else Reply(st.(captures := st.captures[id := c.(status := Cancelled(reason))]), Ok(()), Remaining(left))
  }

  function CancelAll(st: State, ids: seq<string>, reason: CancelReason, env: Environment): Reply<()>
    decreases |ids|
  {
    if ids == [] then Reply(st, Ok(()), env)
    else
      var one := CancelOne(st, ids[0], reason, env);
      if one.r.Err? then one else CancelAll(one.st, ids[1..], reason, one.rest)
  }

  function CancelUnsaved(st: State, order: seq<string>, reason: CancelReason, env: Environment): Reply<nat> {
    var ids := UnsavedIn(order, st.captures);
    var reply := CancelAll(st, ids, reason, env);
    Reply(reply.st, if reply.r.Ok? then Ok(|ids|) else Err(reply.r.error), reply.rest)
  }

  // ----- ingest

  predicate IsMilestone(f: Gsi.TransitionFact) {
    f.RoundKillDelta? && f.previous >= 0 && f.delta > 0 && f.current >= 3
  }

  ghost function ApplyFact(st: State, r: Receipt, f: Gsi.TransitionFact, env: Environment): Reply<IngestOutcome> {
    if IsMilestone(f) then
      var reply := CreateCandidate(st, r, f.current, env);
      Reply(reply.st, if reply.r.Err? then Err(reply.r.error) else Ok(IngestOutcome(if reply.r.value then 1 else 0, 0, 0)),
            reply.rest)
    else if f.RoundEnd? then
      var reply := ScheduleCapture(st, r, f.completed, env);
      Reply(reply.st, if reply.r.Err? then Err(reply.r.error) else Ok(IngestOutcome(0, if reply.r.value then 1 else 0, 0)),
            reply.rest)
    else Reply(st, Ok(IngestOutcome(0, 0, 0)), env)
  }

  function AddOutcomes(a: IngestOutcome, b: IngestOutcome): IngestOutcome {
    IngestOutcome(a.created + b.created, a.scheduled + b.scheduled, a.cancelled + b.cancelled)
  }

  ghost function ApplyFacts(st: State, r: Receipt, facts: seq<Gsi.TransitionFact>, so: IngestOutcome, env: Environment)
    : Reply<IngestOutcome>
    decreases |facts|
  {
    if facts == [] then Reply(st, Ok(so), env)
    else
      var first := ApplyFact(st, r, facts[0], env);
      if first.r.Err? then first
      else ApplyFacts(first.st, r, facts[1..], AddOutcomes(so, first.r.value), first.rest)
  }

  function ReasonOf(r: Receipt): Option<CancelReason> {
    match r.output
    case Stale => Some(BecauseStale)
    case SessionReset => Some(BecauseReset)
    case _ => None
  }

  ghost function Cancelling(st: State, r: Receipt, order: seq<string>, env: Environment): Reply<nat> {
    if ReasonOf(r).None? then Reply(st, Ok(0), env) else CancelUnsaved(st, order, ReasonOf(r).value, env)
  }

  ghost function AfterIngest(st: State, r: Receipt, order: seq<string>, env: Environment): Reply<IngestOutcome> {
    if !Granted(env) then Reply(st, Err(Persistence), Remaining(env))
    else if ReceiptId(r) in st.processed then Reply(st, Ok(IngestOutcome(0, 0, 0)), Remaining(env))
    else
      var cancelled := Cancelling(st, r, order, Remaining(env));
      if cancelled.r.Err? then Reply(cancelled.st, Err(cancelled.r.error), cancelled.rest)
      else
        var applied := ApplyFacts(cancelled.st, r, r.facts, IngestOutcome(0, 0, cancelled.r.value), cancelled.rest);
        if applied.r.Err? then applied
        else applied.(st := applied.st.(processed := applied.st.processed + {ReceiptId(r)}))
  }

  // ----- request_capture_save and its callers

  datatype RecorderAnswer = RecorderAnswer(now: u64, windowFrom: u64, coverageFrom: u64, save: Result<SaveOutcome, string>)

  function Windowed(c: Capture, a: RecorderAnswer): Option<Capture> {
    if c.kind == ManualFlag then Some(c)
    else if c.candidate.None? || c.roundEnd.None? then None
    else
      Some(c.(window := Some(AutoWindow(c.candidate.value.range.start, c.roundEnd.value, a.windowFrom)),
              coverage := Some(RawCoverage(a.now, a.coverageFrom))))
  }

  function AfterRequest(st: State, id: string, a: RecorderAnswer, env: Environment): Reply<TimerOutcome> {
    if id !in st.captures then Reply(st, Err(MissingCapture(id)), env)
    else
      var windowed := Windowed(st.captures[id], a);
      if windowed.None? then Reply(st, Err(InvalidDomain), env)
      else
        var c := windowed.value.(status := if a.save.Ok? then SaveRequested(a.save.value) else Retryable(a.save.error));
        var stored := Granted(env);
        var st' := st.(asked := st.asked + [Asked(id, a.now, a.save.Ok?, stored)]);
        if !stored then Reply(st', Err(Persistence), Remaining(env))
        else
          Reply(st'.(captures := st.captures[id := c]),
                if a.save.Ok? then Ok(SaveAsked) else Err(RecorderFailed(a.save.error)), Remaining(env))
  }

  function AfterTimer(st: State, timer: string, now: u64, a: RecorderAnswer, env: Environment): Reply<TimerOutcome> {
    if timer !in st.timers then Reply(st, Err(MissingCapture(timer)), env)
    else
      var id := st.timers[timer];
      if id !in st.captures then Reply(st, Err(MissingCapture(id)), env)
      else
        var c := st.captures[id];
        if c.deadline.None? then Reply(st, Ok(AlreadyHandled), env)
        else if now < c.deadline.value then Reply(st, Ok(NotDue), env)
        else if c.status != Scheduled then Reply(st, Ok(AlreadyHandled), env)
        else AfterRequest(st, id, a, env)
  }

  function AfterRetry(st: State, id: string, a: RecorderAnswer, env: Environment): Reply<TimerOutcome> {
    if id !in st.captures then Reply(st, Err(MissingCapture(id)), env)
    else if !st.captures[id].status.Retryable? then Reply(st, Ok(AlreadyHandled), env)
    else AfterRequest(st, id, a, env)
  }

  function ManualCapture(id: string, now: u64, windowFrom: u64, coverageFrom: u64): Capture {
    Capture(id, ManualFlag, None, Supervisor.ManualFlag, {}, None, None, None, None,
            Some(ManualWindow(now, windowFrom)), Some(RawCoverage(now, coverageFrom)), Requesting)
  }

  function AfterManual(st: State, now: u64, windowFrom: u64, coverageFrom: u64, a: RecorderAnswer, env: Environment)
    : Reply<string>
  {
    var ordinal := SatAdd(st.manualOrdinal, 1);
    var id := ManualId(now, ordinal);
    var counted := st.(manualOrdinal := ordinal);
    if !Granted(env) then Reply(counted, Err(Persistence), Remaining(env))
    else
      var reply := AfterRequest(WithCapture(counted, ManualCapture(id, now, windowFrom, coverageFrom)), id, a, Remaining(env));
      Reply(reply.st, if reply.r.Err? then Err(reply.r.error) else Ok(id), reply.rest)
  }

  // ----- What always holds of the state

  ghost predicate AutoShape(c: Capture) {
    && c.round.Some? && c.id == AutoId(c.round.value)
    && c.candidate.Some? && c.roundEnd.Some?
    && c.deadline == Some(SatAdd(c.roundEnd.value, AUTO_POST_ROLL_MS))
    && c.timer == Some(TimerFor(c.id))
    && !c.status.Requesting?
  }

  ghost predicate ManualShape(c: Capture, bound: u64) {
    && c.deadline.None? && c.timer.None? && !c.status.Cancelled? && !c.status.Scheduled?
    && exists now: u64, ordinal: u64 :: ordinal <= bound && c.id == ManualId(now, ordinal)
  }

  ghost predicate CapturesShaped(st: State) {
    forall id :: id in st.captures ==>
      && st.captures[id].id == id
      && if st.captures[id].kind == AutoRoundEnd then AutoShape(st.captures[id])
         else ManualShape(st.captures[id], st.manualOrdinal)
  }

  ghost predicate TimersShaped(st: State) {
    forall t :: t in st.timers ==>
      t == TimerFor(st.timers[t]) && st.timers[t] in st.captures && st.captures[st.timers[t]].kind == AutoRoundEnd
  }

  ghost predicate CandidatesShaped(st: State) {
    forall round :: round in st.candidates ==>
      var c := st.candidates[round];
      Fresh(c) && c.session == st.session && c.round == round && c.rule == RULE_VERSION && c.triggers == {KillMilestone}
  }

  predicate AskedBefore(c: Capture) {
    c.kind == AutoRoundEnd && (c.status.Retryable? || c.status.SaveRequested?)
  }

  /** Neither asked nor waiting for a retry before the deadline. */
  ghost predicate Timely(st: State, last: u64) {
    && (forall id :: id in st.captures && AskedBefore(st.captures[id]) ==>
          st.captures[id].deadline.Some? && st.captures[id].deadline.value <= last)
    && (forall k :: 0 <= k < |st.asked| ==> st.asked[k].id in st.captures)
    && (forall k :: 0 <= k < |st.asked| && st.captures[st.asked[k].id].kind == AutoRoundEnd ==>
          st.captures[st.asked[k].id].deadline.Some? && st.captures[st.asked[k].id].deadline.value <= st.asked[k].at)
  }

  /** A save that was accepted and stored stays requested and is never asked for again. */
  ghost predicate AskedOnce(st: State) {
    forall j :: 0 <= j < |st.asked| && st.asked[j].accepted && st.asked[j].stored ==>
      && st.asked[j].id in st.captures && st.captures[st.asked[j].id].status.SaveRequested?
      && forall k :: j < k < |st.asked| ==> st.asked[k].id != st.asked[j].id
  }

  ghost predicate Valid(st: State, last: u64) {
    CapturesShaped(st) && TimersShaped(st) && CandidatesShaped(st) && Timely(st, last) && AskedOnce(st)
  }

  predicate Final(s: CaptureStatus) {
    s.SaveRequested? || s.Cancelled?
  }

  /** The identity, the candidate and the deadline are fixed; final statuses are absorbing; nothing
      goes back to `Scheduled` or `Requesting`; a manual request is never cancelled. */
  ghost predicate CaptureEvolves(c: Capture, c': Capture) {
    && c' == c.(status := c'.status, window := c'.window, coverage := c'.coverage)
    && (Final(c.status) ==> c' == c)
    && (c'.status.Scheduled? || c'.status.Requesting? ==> c' == c)
    && (c'.status.Cancelled? ==> c' == c || c.kind == AutoRoundEnd)
  }

  ghost predicate Evolves(st: State, st': State) {
    forall id :: id in st.captures ==> id in st'.captures && CaptureEvolves(st.captures[id], st'.captures[id])
  }

  lemma EvolvesTransitive(a: State, b: State, c: State)
    requires Evolves(a, b) && Evolves(b, c)
    ensures Evolves(a, c)
  {
    forall id | id in a.captures ensures id in c.captures && CaptureEvolves(a.captures[id], c.captures[id]) {
      assert CaptureEvolves(a.captures[id], b.captures[id]) && CaptureEvolves(b.captures[id], c.captures[id]);
    }
  }

  // ----- Small steps

  lemma CandidateStep(st: State, last: u64, round: string, c: Candidate)
    requires Valid(st, last)
    requires Fresh(c) && c.session == st.session && c.round == round && c.rule == RULE_VERSION && c.triggers == {KillMilestone}
    ensures Valid(st.(candidates := st.candidates[round := c]), last)
    ensures Evolves(st, st.(candidates := st.candidates[round := c]))
  {
  }

  lemma AutoStep(st: State, last: u64, round: string, candidate: Candidate, end: u64)
    requires Valid(st, last) && AutoId(round) !in st.captures
    ensures var c := AutoCapture(round, candidate, end);
      var st' := WithCapture(st, c).(timers := st.timers[TimerFor(c.id) := c.id]);
      Valid(st', last) && Evolves(st, st')
  {
    hide AutoId;
    hide TimerFor;
    hide ManualId;
    var c := AutoCapture(round, candidate, end);
    var timers := st.timers[TimerFor(c.id) := c.id];
    AddedShaped(st, c, timers);
    AddedTimely(st, last, c, timers);
  }

  lemma AddedShaped(st: State, c: Capture, timers: map<string, string>)
    requires CapturesShaped(st) && c.id !in st.captures
    requires if c.kind == AutoRoundEnd then AutoShape(c) else ManualShape(c, st.manualOrdinal)
    ensures CapturesShaped(WithCapture(st, c).(timers := timers))
    ensures Evolves(st, WithCapture(st, c).(timers := timers))
  {
    hide AutoShape;
    hide ManualShape;
  }

  lemma AddedTimely(st: State, last: u64, c: Capture, timers: map<string, string>)
    requires Timely(st, last) && AskedOnce(st) && c.id !in st.captures && !AskedBefore(c)
    ensures Timely(WithCapture(st, c).(timers := timers), last)
    ensures AskedOnce(WithCapture(st, c).(timers := timers))
  {
    var st' := WithCapture(st, c).(timers := timers);
    assert forall k :: 0 <= k < |st.asked| ==> st.asked[k].id != c.id;
  }

  /** Replacing one capture by what it may evolve to. */
  lemma UpdateStep(st: State, last: u64, id: string, c': Capture)
    requires Valid(st, last) && id in st.captures && CaptureEvolves(st.captures[id], c')
    requires AskedBefore(c') ==> c'.deadline.Some? && c'.deadline.value <= last
    ensures var st' := st.(captures := st.captures[id := c']); Valid(st', last) && Evolves(st, st')
  {
    hide AutoId;
    hide TimerFor;
    hide AutoShape;
    hide ManualShape;
    hide AskedOnce;
    hide Timely;
    hide CapturesShaped;
    hide ManualId;
    var st' := st.(captures := st.captures[id := c']);
    UpdateShaped(st, id, c');
    UpdateAskedOnce(st, id, c');
    UpdateTimely(st, last, id, c');
  }

  lemma UpdateTimely(st: State, last: u64, id: string, c': Capture)
    requires Timely(st, last) && id in st.captures && CaptureEvolves(st.captures[id], c')
    requires AskedBefore(c') ==> c'.deadline.Some? && c'.deadline.value <= last
    ensures Timely(st.(captures := st.captures[id := c']), last)
  {
  }

  lemma UpdateShaped(st: State, id: string, c': Capture)
    requires CapturesShaped(st) && id in st.captures && CaptureEvolves(st.captures[id], c')
    ensures CapturesShaped(st.(captures := st.captures[id := c']))
  {
    hide AutoId;
    hide TimerFor;
    hide ManualId;
  }

  lemma UpdateAskedOnce(st: State, id: string, c': Capture)
    requires AskedOnce(st) && id in st.captures && CaptureEvolves(st.captures[id], c')
    ensures AskedOnce(st.(captures := st.captures[id := c']))
  {
  }

  // ----- ingest keeps everything

  lemma FactStep(st: State, last: u64, r: Receipt, f: Gsi.TransitionFact, env: Environment)
    requires Valid(st, last)
    ensures var st' := ApplyFact(st, r, f, env).st; Valid(st', last) && Evolves(st, st')
  {
    hide Valid;
    hide Evolves;
    hide CapturedCandidate;
    Unchanged(st);
    if IsMilestone(f) {
      var round := MilestoneRound(r, f.current);
      if round.Some? {
        CandidateStep(st, last, round.value, MilestoneCandidate(st.session, round.value, r));
      }
    } else if f.RoundEnd? {
      var round := EndedRound(r, f.completed);
      if round.Some? && AutoId(round.value) !in st.captures {
        var candidate := CapturedCandidate(st, round.value, r);
        if candidate.Some? {
          AutoStep(st, last, round.value, candidate.value, Millis(r));
        }
      }
    }
  }

  lemma Unchanged(st: State)
    ensures Evolves(st, st)
  {
  }

  lemma {:induction false} FactsStep(st: State, last: u64, r: Receipt, facts: seq<Gsi.TransitionFact>, so: IngestOutcome,
                                     env: Environment)
    requires Valid(st, last)
    ensures var st' := ApplyFacts(st, r, facts, so, env).st; Valid(st', last) && Evolves(st, st')
    decreases |facts|
  {
    hide Valid;
    hide Evolves;
    hide ApplyFact;
    if facts == [] {
      Unchanged(st);
    } else {
      FactStep(st, last, r, facts[0], env);
      var first := ApplyFact(st, r, facts[0], env);
      if first.r.Ok? {
        var so' := AddOutcomes(so, first.r.value);
        FactsStep(first.st, last, r, facts[1..], so', first.rest);
        EvolvesTransitive(st, first.st, ApplyFacts(first.st, r, facts[1..], so', first.rest).st);
      }
    }
  }

  ghost predicate AllUnsaved(ids: seq<string>, captures: map<string, Capture>) {
    forall id :: id in ids ==> id in captures && Unsaved(captures[id])
  }

  lemma RestUnsaved(ids: seq<string>, captures: map<string, Capture>, c: Capture)
    requires ids != [] && Distinct(ids) && AllUnsaved(ids, captures)
    ensures Distinct(ids[1..]) && AllUnsaved(ids[1..], captures[ids[0] := c])
  {
    forall id | id in ids[1..] ensures id in captures[ids[0] := c] && Unsaved(captures[ids[0] := c][id]) {
      var j :| 0 <= j < |ids[1..]| && ids[1..][j] == id;
      assert ids[0] != ids[j + 1];
    }
  }

  lemma {:induction false} UnsavedDistinct(order: seq<string>, captures: map<string, Capture>)
    requires Distinct(order)
    ensures Distinct(UnsavedIn(order, captures)) && AllUnsaved(UnsavedIn(order, captures), captures)
  {
    if order != [] {
      var rest := order[1..];
      UnsavedDistinct(rest, captures);
      assert order[0] !in rest;
    }
  }

  lemma {:induction false} CancelStep(st: State, last: u64, ids: seq<string>, reason: CancelReason, env: Environment)
    requires Valid(st, last) && Distinct(ids) && AllUnsaved(ids, st.captures)
    ensures var st' := CancelAll(st, ids, reason, env).st; Valid(st', last) && Evolves(st, st')
    decreases |ids|
  {
    hide Valid;
    hide Evolves;
    hide Distinct;
    Unchanged(st);
    if ids != [] {
      assert ids[0] in ids;
      var c := st.captures[ids[0]];
      var c' := c.(status := Cancelled(reason));
      UpdateStep(st, last, ids[0], c');
      RestUnsaved(ids, st.captures, c');
      var st1 := st.(captures := st.captures[ids[0] := c']);
      var left := if c.timer.Some? then Sending(env, Deadlines.Cancel(c.timer.value)) else env;
      CancelStep(st1, last, ids[1..], reason, Remaining(left));
      EvolvesTransitive(st, st1, CancelAll(st1, ids[1..], reason, Remaining(left)).st);
    }
  }

  lemma ProcessedStep(st: State, last: u64, processed: set<string>)
    requires Valid(st, last)
    ensures Valid(st.(processed := processed), last) && Evolves(st, st.(processed := processed))
  {
    hide AutoShape;
    hide ManualShape;
  }

  lemma IngestValid(st: State, last: u64, r: Receipt, order: seq<string>, env: Environment)
    requires Valid(st, last) && IsOrder(order, st.captures)
    ensures var st' := AfterIngest(st, r, order, env).st; Valid(st', last) && Evolves(st, st')
  {
    hide Valid;
    hide Evolves;
    hide ApplyFacts;
    hide CancelAll;
    Unchanged(st);
    if Granted(env) && ReceiptId(r) !in st.processed {
      if ReasonOf(r).Some? {
        UnsavedDistinct(order, st.captures);
        CancelStep(st, last, UnsavedIn(order, st.captures), ReasonOf(r).value, Remaining(env));
      }
      var cancelled := Cancelling(st, r, order, Remaining(env));
      if cancelled.r.Ok? {
        var so := IngestOutcome(0, 0, cancelled.r.value);
        FactsStep(cancelled.st, last, r, r.facts, so, cancelled.rest);
        var applied := ApplyFacts(cancelled.st, r, r.facts, so, cancelled.rest);
        EvolvesTransitive(st, cancelled.st, applied.st);
        if applied.r.Ok? {
          ProcessedStep(applied.st, last, applied.st.processed + {ReceiptId(r)});
          EvolvesTransitive(st, applied.st, applied.st.(processed := applied.st.processed + {ReceiptId(r)}));
        }
      }
    }
  }

  // ----- Requests keep everything

  lemma LaterValid(st: State, last: u64, later: u64)
    requires Valid(st, last) && last <= later
    ensures Valid(st, later)
  {
  }

  predicate Askable(s: CaptureStatus) {
    s.Scheduled? || s.Requesting? || s.Retryable?
  }

  lemma AskStep(st: State, last: u64, id: string, c': Capture, asked: Asked)
    requires Valid(st, last) && id in st.captures && Askable(st.captures[id].status)
    requires asked.id == id && last <= asked.at
    requires st.captures[id].kind == AutoRoundEnd ==> st.captures[id].deadline.value <= asked.at
    requires CaptureEvolves(st.captures[id], c')
    requires asked.accepted ==> c'.status.SaveRequested?
    ensures var st' := st.(asked := st.asked + [asked],
                           captures := if asked.stored then st.captures[id := c'] else st.captures);
      Valid(st', asked.at) && Evolves(st, st')
  {
    hide AutoShape;
    hide ManualShape;
    LaterValid(st, last, asked.at);
    DeadlineKnown(st, id);
    var captures := if asked.stored then st.captures[id := c'] else st.captures;
    UpdateShaped(st, id, c');
    AskedTimely(st, id, captures, asked);
    AskedOnceMore(st, id, captures, asked);
  }

  lemma DeadlineKnown(st: State, id: string)
    requires CapturesShaped(st) && id in st.captures
    ensures st.captures[id].kind == AutoRoundEnd ==> st.captures[id].deadline.Some?
  {
  }

  lemma AskedTimely(st: State, id: string, captures: map<string, Capture>, asked: Asked)
    requires Timely(st, asked.at) && id in st.captures && asked.id == id
    requires st.captures[id].kind == AutoRoundEnd ==>
      st.captures[id].deadline.Some? && st.captures[id].deadline.value <= asked.at
    requires captures.Keys == st.captures.Keys
    requires forall i :: i in captures ==> CaptureEvolves(st.captures[i], captures[i])
    requires forall i :: i in captures && i != id ==> captures[i] == st.captures[i]
    ensures Timely(st.(asked := st.asked + [asked], captures := captures), asked.at)
  {
  }

  lemma AskedOnceMore(st: State, id: string, captures: map<string, Capture>, asked: Asked)
    requires AskedOnce(st) && id in st.captures && Askable(st.captures[id].status) && asked.id == id
    requires captures.Keys == st.captures.Keys
    requires forall i :: i in captures && i != id ==> captures[i] == st.captures[i]
    requires asked.accepted && asked.stored ==> captures[id].status.SaveRequested?
    ensures AskedOnce(st.(asked := st.asked + [asked], captures := captures))
  {
    var longer := st.asked + [asked];
    forall j | 0 <= j < |longer| && longer[j].accepted && longer[j].stored
      ensures longer[j].id in captures && captures[longer[j].id].status.SaveRequested?
      ensures forall k :: j < k < |longer| ==> longer[k].id != longer[j].id
    {
      if j < |st.asked| {
        assert longer[j] == st.asked[j];
      }
    }
  }

  lemma RequestValid(st: State, last: u64, id: string, a: RecorderAnswer, env: Environment)
    requires Valid(st, last) && id in st.captures && Askable(st.captures[id].status) && last <= a.now
    requires st.captures[id].kind == AutoRoundEnd ==> st.captures[id].deadline.Some? && st.captures[id].deadline.value <= a.now
    ensures var reply := AfterRequest(st, id, a, env); Valid(reply.st, a.now) && Evolves(st, reply.st)
    ensures AfterRequest(st, id, a, env).r != Err(InvalidDomain)
  {
    var windowed := Windowed(st.captures[id], a);
    assert windowed.Some?;
    var c := windowed.value.(status := if a.save.Ok? then SaveRequested(a.save.value) else Retryable(a.save.error));
    assert CaptureEvolves(st.captures[id], c);
    hide Valid;
    hide Evolves;
    hide CaptureEvolves;
    AskStep(st, last, id, c, Asked(id, a.now, a.save.Ok?, Granted(env)));
  }

  lemma TimerValid(st: State, last: u64, timer: string, now: u64, a: RecorderAnswer, env: Environment)
    requires Valid(st, last) && last <= now <= a.now
    ensures var st' := AfterTimer(st, timer, now, a, env).st; Valid(st', a.now) && Evolves(st, st')
  {
    hide AfterRequest;
    hide Evolves;
    hide AutoShape;
    hide ManualShape;
    Unchanged(st);
    LaterValid(st, last, a.now);
    if timer in st.timers && st.timers[timer] in st.captures {
      var id := st.timers[timer];
      var c := st.captures[id];
      if c.deadline.Some? && now >= c.deadline.value && c.status == Scheduled {
        RequestValid(st, last, id, a, env);
      }
    }
  }

  lemma RetryValid(st: State, last: u64, id: string, a: RecorderAnswer, env: Environment)
    requires Valid(st, last) && last <= a.now
    ensures var st' := AfterRetry(st, id, a, env).st; Valid(st', a.now) && Evolves(st, st')
  {
    hide AfterRequest;
    hide Evolves;
    hide AutoShape;
    hide ManualShape;
    Unchanged(st);
    LaterValid(st, last, a.now);
    if id in st.captures && st.captures[id].status.Retryable? {
      RequestValid(st, last, id, a, env);
    }
  }

  /** A manual flag gets an identifier no capture has. */
  lemma ManualIdFresh(st: State, now: u64)
    requires CapturesShaped(st) && st.manualOrdinal < U64_MAX
    ensures ManualId(now, st.manualOrdinal + 1) !in st.captures
  {
    var id := ManualId(now, st.manualOrdinal + 1);
    if id in st.captures {
      var c := st.captures[id];
      if c.kind == AutoRoundEnd {
        AutoIsNotManual(c.round.value, now, st.manualOrdinal + 1);
      } else {
        var n: u64, o: u64 :| o <= st.manualOrdinal && c.id == ManualId(n, o);
        NumberedIsInjective("manual:" + Decimal(now), st.manualOrdinal + 1, "manual:" + Decimal(n), o);
      }
    }
  }

  lemma AutoIsNotManual(round: string, now: u64, ordinal: u64)
    ensures AutoId(round) != ManualId(now, ordinal)
  {
    assert AutoId(round)[0] == 'a' && ManualId(now, ordinal)[0] == 'm';
  }

  lemma CountedValid(st: State, last: u64, ordinal: u64)
    requires Valid(st, last) && st.manualOrdinal <= ordinal
    ensures Valid(st.(manualOrdinal := ordinal), last) && Evolves(st, st.(manualOrdinal := ordinal))
  {
    hide AutoShape;
    var st' := st.(manualOrdinal := ordinal);
    forall id | id in st.captures && st.captures[id].kind == ManualFlag
      ensures ManualShape(st.captures[id], ordinal)
    {
      assert ManualShape(st.captures[id], st.manualOrdinal);
    }
  }

  lemma ManualStep(st: State, last: u64, c: Capture)
    requires Valid(st, last) && c.id !in st.captures && c.kind == ManualFlag && ManualShape(c, st.manualOrdinal)
    ensures Valid(WithCapture(st, c), last) && Evolves(st, WithCapture(st, c))
  {
    hide AutoShape;
    hide ManualShape;
    AddedShaped(st, c, st.timers);
    AddedTimely(st, last, c, st.timers);
    assert WithCapture(st, c).(timers := st.timers) == WithCapture(st, c);
  }

  lemma ManualValid(st: State, last: u64, now: u64, windowFrom: u64, coverageFrom: u64, a: RecorderAnswer, env: Environment)
    requires Valid(st, last) && last <= now <= a.now && st.manualOrdinal < U64_MAX
    ensures var st' := AfterManual(st, now, windowFrom, coverageFrom, a, env).st; Valid(st', a.now) && Evolves(st, st')
  {
    hide Valid;
    hide Evolves;
    hide AfterRequest;
    hide ManualId;
    var ordinal: u64 := st.manualOrdinal + 1;
    var counted := st.(manualOrdinal := ordinal);
    CountedValid(st, last, ordinal);
    LaterValid(counted, last, a.now);
    if Granted(env) {
      var id := ManualId(now, ordinal);
      var c := ManualCapture(id, now, windowFrom, coverageFrom);
      Shaped(st, last);
      ManualIdFresh(st, now);
      ManualStep(counted, last, c);
      var added := WithCapture(counted, c);
      EvolvesTransitive(st, counted, added);
      RequestValid(added, last, id, a, Remaining(env));
      EvolvesTransitive(st, added, AfterRequest(added, id, a, Remaining(env)).st);
    }
  }

  lemma Shaped(st: State, last: u64)
    requires Valid(st, last)
    ensures CapturesShaped(st)
  {
  }

  // ----- Runs

  datatype Op =
    | DoIngest(receipt: Receipt, order: seq<string>, env: Environment)
    | DoTimer(timer: string, now: u64, recorder: RecorderAnswer, env: Environment)
    | DoRetry(id: string, recorder: RecorderAnswer, env: Environment)
    | DoManual(now: u64, windowFrom: u64, coverageFrom: u64, recorder: RecorderAnswer, env: Environment)

  ghost function Perform(st: State, op: Op): State {
    match op
    case DoIngest(receipt, order, env) => AfterIngest(st, receipt, order, env).st
    case DoTimer(timer, now, recorder, env) => AfterTimer(st, timer, now, recorder, env).st
    case DoRetry(id, recorder, env) => AfterRetry(st, id, recorder, env).st
    case DoManual(now, windowFrom, coverageFrom, recorder, env) =>
      AfterManual(st, now, windowFrom, coverageFrom, recorder, env).st
  }

  /** The last clock reading. */
  function Clock(ops: seq<Op>): u64 {
    if ops == [] then 0
    else
      match ops[|ops| - 1]
      case DoIngest(_, _, _) => Clock(ops[..|ops| - 1])
      case DoTimer(_, _, recorder, _) => recorder.now
      case DoRetry(_, recorder, _) => recorder.now
      case DoManual(_, _, _, recorder, _) => recorder.now
  }

  ghost function Run(session: string, ops: seq<Op>): State {
    if ops == [] then Initial(session) else Perform(Run(session, ops[..|ops| - 1]), ops[|ops| - 1])
  }

  /** The map is iterated completely, the clock does not run backwards, and the flag counter is not
      exhausted. */
  ghost predicate Possible(st: State, last: u64, op: Op) {
    match op
    case DoIngest(_, order, _) => IsOrder(order, st.captures)
    case DoTimer(_, now, recorder, _) => last <= now <= recorder.now
    case DoRetry(_, recorder, _) => last <= recorder.now
    case DoManual(now, _, _, recorder, _) => last <= now <= recorder.now && st.manualOrdinal < U64_MAX
  }

  ghost predicate PossibleRun(session: string, ops: seq<Op>) {
    forall k :: 0 <= k < |ops| ==> Possible(Run(session, ops[..k]), Clock(ops[..k]), ops[k])
  }

  lemma StepValid(st: State, last: u64, op: Op)
    requires Valid(st, last) && Possible(st, last, op)
    ensures var later := (match op
        case DoIngest(_, _, _) => last
        case DoTimer(_, _, recorder, _) => recorder.now
        case DoRetry(_, recorder, _) => recorder.now
        case DoManual(_, _, _, recorder, _) => recorder.now);
      Valid(Perform(st, op), later) && Evolves(st, Perform(st, op))
  {
    hide Valid;
    hide Evolves;
    hide AfterIngest;
    hide AfterTimer;
    hide AfterRetry;
    hide AfterManual;
    match op {
      case DoIngest(receipt, order, env) => IngestValid(st, last, receipt, order, env);
      case DoTimer(timer, now, recorder, env) => TimerValid(st, last, timer, now, recorder, env);
      case DoRetry(id, recorder, env) => RetryValid(st, last, id, recorder, env);
      case DoManual(now, windowFrom, coverageFrom, recorder, env) =>
        ManualValid(st, last, now, windowFrom, coverageFrom, recorder, env);
    }
  }

  lemma InitiallyValid(session: string)
    ensures Valid(Initial(session), 0)
  {
  }

  lemma {:induction false} Prefix(session: string, ops: seq<Op>)
    requires ops != [] && PossibleRun(session, ops)
    ensures var before := ops[..|ops| - 1];
      PossibleRun(session, before) && Possible(Run(session, before), Clock(before), ops[|ops| - 1])
  {
    hide Possible;
    hide Run;
    hide Clock;
    var before := ops[..|ops| - 1];
    forall k | 0 <= k < |before| ensures Possible(Run(session, before[..k]), Clock(before[..k]), before[k]) {
      assert before[..k] == ops[..k];
    }
  }

  /** Whatever the environment answers: captures keep their shape, every auto save is asked for at
      or after its deadline, and a stored acceptance is never asked for again. */
  lemma {:induction false} RunValid(session: string, ops: seq<Op>)
    requires PossibleRun(session, ops)
    ensures Valid(Run(session, ops), Clock(ops))
  {
    hide Valid;
    hide Perform;
    hide Possible;
    hide PossibleRun;
    if ops == [] {
      InitiallyValid(session);
    } else {
      Prefix(session, ops);
      var before := ops[..|ops| - 1];
      RunValid(session, before);
      StepValid(Run(session, before), Clock(before), ops[|ops| - 1]);
    }
  }

  /** Over the rest of any run a capture keeps its identity, candidate and deadline, and a final
      status is never left. */
  lemma {:induction false} RunEvolves(session: string, ops: seq<Op>, k: nat)
    requires PossibleRun(session, ops) && k <= |ops|
    ensures Evolves(Run(session, ops[..k]), Run(session, ops))
    decreases |ops|
  {
    hide Evolves;
    hide Valid;
    hide Perform;
    hide Possible;
    hide PossibleRun;
    if k == |ops| {
      assert ops[..k] == ops;
      Unchanged(Run(session, ops));
    } else {
      Prefix(session, ops);
      var before := ops[..|ops| - 1];
      RunEvolves(session, before, k);
      assert before[..k] == ops[..k];
      RunValid(session, before);
      StepValid(Run(session, before), Clock(before), ops[|ops| - 1]);
      EvolvesTransitive(Run(session, ops[..k]), Run(session, before), Run(session, ops));
    }
  }

  /** No auto save is asked for before ten seconds after the end of its round. */
  lemma {:induction false} NoEarlySave(session: string, ops: seq<Op>, k: nat)
    requires PossibleRun(session, ops) && k < |Run(session, ops).asked|
    ensures var st := Run(session, ops); var asked := st.asked[k];
      && asked.id in st.captures
      && (st.captures[asked.id].kind == AutoRoundEnd ==>
            st.captures[asked.id].roundEnd.Some?
            && SatAdd(st.captures[asked.id].roundEnd.value, AUTO_POST_ROLL_MS) <= asked.at)
  {
    hide Run;
    hide PossibleRun;
    hide Clock;
    RunValid(session, ops);
    var st := Run(session, ops);
    assert st.asked[k].id in st.captures;
  }

  /** One auto capture per map and round. */
  lemma {:induction false} OneAutoPerRound(session: string, ops: seq<Op>, a: string, b: string)
    requires PossibleRun(session, ops)
    requires a in Run(session, ops).captures && Run(session, ops).captures[a].kind == AutoRoundEnd
    requires b in Run(session, ops).captures && Run(session, ops).captures[b].kind == AutoRoundEnd
    requires Run(session, ops).captures[a].round == Run(session, ops).captures[b].round
    ensures a == b
  {
    hide Run;
    hide PossibleRun;
    hide Clock;
    RunValid(session, ops);
  }

  /** Different maps or rounds never share an identifier, even if a map name contains colons. */
  lemma RoundIdsDiffer(map1: string, round1: nat, map2: string, round2: nat)
    ensures AutoId(RoundId(map1, round1)) == AutoId(RoundId(map2, round2)) <==> map1 == map2 && round1 == round2
  {
    var a, b := RoundId(map1, round1), RoundId(map2, round2);
    assert AutoId(a)[5..] == a && AutoId(b)[5..] == b;
    if a == b {
      NumberedIsInjective(map1, round1, map2, round2);
    }
  }

  /** The recorder accepted but the store failed: the caller sees an error and every capture is as
      before, so the same timer, if it is dispatched again, asks the recorder again. */
  lemma AcceptedButNotStored(st: State, last: u64, timer: string, now: u64, a: RecorderAnswer, env: Environment,
                             again: RecorderAnswer, later: Environment)
    requires Valid(st, last) && last <= now <= a.now && a.now <= again.now
    requires timer in st.timers && st.captures[st.timers[timer]].status == Scheduled
    requires st.captures[st.timers[timer]].deadline.value <= now
    requires a.save.Ok? && !Granted(env)
    ensures var reply := AfterTimer(st, timer, now, a, env);
      && reply.r == Err(Persistence) && reply.st.captures == st.captures
      && |AfterTimer(reply.st, timer, a.now, again, later).st.asked| == |st.asked| + 2
  {
    hide AskedOnce;
    hide Timely;
  }

  // ----- Retrying an ingest

  function Cancelled1(c: Capture, reason: CancelReason): Capture {
    if Unsaved(c) then c.(status := Cancelled(reason)) else c
  }

  function AllCancelled(captures: map<string, Capture>, reason: CancelReason): map<string, Capture> {
    map id | id in captures :: Cancelled1(captures[id], reason)
  }

  /** A fact applied with every environment call succeeding. */
  ghost function FactEffect(st: State, r: Receipt, f: Gsi.TransitionFact): State {
    ApplyFact(st, r, f, Environment([true, true], [])).st
  }

  ghost function Effect(st: State, r: Receipt, facts: seq<Gsi.TransitionFact>): State
    decreases |facts|
  {
    if facts == [] then st else Effect(FactEffect(st, r, facts[0]), r, facts[1..])
  }

  ghost function AfterCancelling(st: State, r: Receipt): State {
    if ReasonOf(r).None? then st else st.(captures := AllCancelled(st.captures, ReasonOf(r).value))
  }

  /** The state an ingest reaches when nothing fails. */
  ghost function Success(st: State, r: Receipt): State {
    if ReceiptId(r) in st.processed then st
    else
      var applied := Effect(AfterCancelling(st, r), r, r.facts);
      applied.(processed := applied.processed + {ReceiptId(r)})
  }

  /** The fact has nothing left to do. */
  ghost predicate Done(st: State, r: Receipt, f: Gsi.TransitionFact) {
    if IsMilestone(f) then
      MilestoneRound(r, f.current).Some? ==> MilestoneRound(r, f.current).value in st.candidates
    else if f.RoundEnd? then
      EndedRound(r, f.completed).Some? ==> AutoId(EndedRound(r, f.completed).value) in st.captures
    else true
  }

  lemma {:induction false} MergeKeepsSome(cs: seq<Candidate>)
    requires cs != []
    ensures MergeLoop(cs) != []
    decreases |cs|
  {
    var pair := SearchPair(cs);
    if pair.Some? {
      MergeLoopStep(cs, pair.value.0, pair.value.1);
      MergeKeepsSome(MergeAt(cs, pair.value.0, pair.value.1));
    } else {
      SettledStays(cs);
    }
  }

  lemma CandidateAlwaysCaptured(st: State, round: string, r: Receipt)
    ensures CapturedCandidate(st, round, r).Some?
  {
    if round in st.candidates {
      var input := [Extended(st.candidates[round], Millis(r)), OfficialCandidate(st.session, round, r)];
      var sorted := StableSort(input, CandidateLe);
      assert sorted[0] in sorted && sorted[0] in Dedup(sorted);
      MergeKeepsSome(Dedup(sorted));
    }
  }

  /** A fact either has its full effect or, when the environment refuses, none. */
  lemma FactAllOrNothing(st: State, r: Receipt, f: Gsi.TransitionFact, env: Environment)
    ensures var reply := ApplyFact(st, r, f, env);
      reply.st == if reply.r.Ok? then FactEffect(st, r, f) else st
    ensures Done(FactEffect(st, r, f), r, f)
    ensures Done(st, r, f) ==> FactEffect(st, r, f) == st && ApplyFact(st, r, f, env).r.Ok?
    ensures !Done(st, r, f) && !Granted(env) ==> ApplyFact(st, r, f, env).r.Err?
  {
    hide CapturedCandidate;
    if f.RoundEnd? && EndedRound(r, f.completed).Some? {
      CandidateAlwaysCaptured(st, EndedRound(r, f.completed).value, r);
    }
    var all := Environment([true, true], []);
    assert Granted(all) && Granted(Remaining(all));
  }

  /** Existing candidates and captures are kept as they are; what is new is scheduled. */
  ghost predicate Grows(st: State, st': State) {
    && (forall round :: round in st.candidates ==> round in st'.candidates)
    && (forall id :: id in st.captures ==> id in st'.captures && st'.captures[id] == st.captures[id])
    && (forall id :: id in st'.captures && id !in st.captures ==>
          st'.captures[id].kind == AutoRoundEnd && st'.captures[id].status.Scheduled?)
    && st'.processed == st.processed
  }

  lemma FactGrows(st: State, r: Receipt, f: Gsi.TransitionFact)
    ensures Grows(st, FactEffect(st, r, f))
  {
    hide CapturedCandidate;
  }

  lemma DoneStays(st: State, st': State, r: Receipt, f: Gsi.TransitionFact)
    requires Done(st, r, f) && Grows(st, st')
    ensures Done(st', r, f)
  {
  }

  lemma {:induction false} EffectGrows(st: State, r: Receipt, facts: seq<Gsi.TransitionFact>)
    ensures Grows(st, Effect(st, r, facts))
    ensures forall f :: f in facts ==> Done(Effect(st, r, facts), r, f)
    decreases |facts|
  {
    hide Done;
    hide FactEffect;
    if facts == [] {
    } else {
      var st1 := FactEffect(st, r, facts[0]);
      FactGrows(st, r, facts[0]);
      FactAllOrNothing(st, r, facts[0], Environment([], []));
      EffectGrows(st1, r, facts[1..]);
      var end := Effect(st1, r, facts[1..]);
      DoneStays(st1, end, r, facts[0]);
      assert forall f :: f in facts ==> f == facts[0] || f in facts[1..];
    }
  }

  lemma {:induction false} EffectOfDone(st: State, r: Receipt, facts: seq<Gsi.TransitionFact>)
    requires forall f :: f in facts ==> Done(st, r, f)
    ensures Effect(st, r, facts) == st
    decreases |facts|
  {
    hide Done;
    hide FactEffect;
    if facts != [] {
      FactAllOrNothing(st, r, facts[0], Environment([], []));
      EffectOfDone(st, r, facts[1..]);
    }
  }

  lemma {:induction false} EffectConcat(st: State, r: Receipt, a: seq<Gsi.TransitionFact>, b: seq<Gsi.TransitionFact>)
    ensures Effect(st, r, a + b) == Effect(Effect(st, r, a), r, b)
    decreases |a|
  {
    hide FactEffect;
    if a == [] {
      assert a + b == b;
    } else {
      assert (a + b)[0] == a[0] && (a + b)[1..] == a[1..] + b;
      EffectConcat(FactEffect(st, r, a[0]), r, a[1..], b);
    }
  }

  /** Applying the facts stops after some prefix, before a fact that has something left to do;
      success means it got through all of them. */
  lemma {:induction false} FactsPrefix(st: State, r: Receipt, facts: seq<Gsi.TransitionFact>, so: IngestOutcome, env: Environment)
    returns (k: nat)
    ensures k <= |facts|
    ensures var reply := ApplyFacts(st, r, facts, so, env);
      && reply.st == Effect(st, r, facts[..k])
      && (reply.r.Ok? ==> k == |facts|)
      && (reply.r.Err? ==> k < |facts| && !Done(reply.st, r, facts[k]))
    decreases |facts|
  {
    hide ApplyFact;
    hide FactEffect;
    if facts == [] {
      k := 0;
    } else {
      FactAllOrNothing(st, r, facts[0], env);
      var first := ApplyFact(st, r, facts[0], env);
      if first.r.Err? {
        k := 0;
      } else {
        var j := FactsPrefix(first.st, r, facts[1..], AddOutcomes(so, first.r.value), first.rest);
        k := j + 1;
        assert facts[..k][0] == facts[0] && facts[..k][1..] == facts[1..][..j];
      }
    }
  }

  /** Repeating a started list of facts finishes it. */
  lemma {:induction false} EffectResumes(st: State, r: Receipt, facts: seq<Gsi.TransitionFact>, k: nat)
    requires k <= |facts|
    ensures Effect(Effect(st, r, facts[..k]), r, facts) == Effect(st, r, facts)
  {
    var started := Effect(st, r, facts[..k]);
    assert facts == facts[..k] + facts[k..];
    EffectGrows(st, r, facts[..k]);
    EffectOfDone(started, r, facts[..k]);
    EffectConcat(started, r, facts[..k], facts[k..]);
    EffectConcat(st, r, facts[..k], facts[k..]);
  }

  /** Some of `ids` are cancelled, all of them if `all`, and nothing else has changed. */
  ghost predicate PartlyCancelled(m: map<string, Capture>, m': map<string, Capture>, ids: seq<string>,
                                  reason: CancelReason, all: bool) {
    && m'.Keys == m.Keys
    && (forall id :: id in m ==> m'[id] == m[id] || (id in ids && m'[id] == Cancelled1(m[id], reason)))
    && (all ==> forall id :: id in ids && id in m ==> m'[id] == Cancelled1(m[id], reason))
  }

  lemma OneCancelled(st: State, id: string, reason: CancelReason, env: Environment)
    requires id in st.captures && Unsaved(st.captures[id])
    ensures var one := CancelOne(st, id, reason, env);
      one.st == if one.r.Ok? then st.(captures := st.captures[id := Cancelled1(st.captures[id], reason)]) else st
  {
  }

  lemma PartlyCons(m: map<string, Capture>, m': map<string, Capture>, ids: seq<string>, reason: CancelReason, all: bool)
    requires ids != [] && Distinct(ids) && ids[0] in m
    requires PartlyCancelled(m[ids[0] := Cancelled1(m[ids[0]], reason)], m', ids[1..], reason, all)
    ensures PartlyCancelled(m, m', ids, reason, all)
  {
    var m1 := m[ids[0] := Cancelled1(m[ids[0]], reason)];
    assert ids[0] !in ids[1..];
    assert forall id :: id in ids <==> id == ids[0] || id in ids[1..];
    assert m1.Keys == m.Keys;
  }

  /** Cancelling stops after some of the captures; success means it got through all of `ids`. */
  lemma {:induction false} CancelProgress(st: State, ids: seq<string>, reason: CancelReason, env: Environment)
    requires Distinct(ids) && AllUnsaved(ids, st.captures)
    ensures var reply := CancelAll(st, ids, reason, env);
      && reply.st == st.(captures := reply.st.captures)
      && PartlyCancelled(st.captures, reply.st.captures, ids, reason, reply.r.Ok?)
    decreases |ids|
  {
    hide CancelOne;
    hide Distinct;
    if ids != [] {
      hide PartlyCancelled;
      assert ids[0] in ids;
      NoneCancelled(st.captures, ids, reason);
      OneCancelled(st, ids[0], reason, env);
      var one := CancelOne(st, ids[0], reason, env);
      if one.r.Ok? {
        RestUnsaved(ids, st.captures, Cancelled1(st.captures[ids[0]], reason));
        CancelProgress(one.st, ids[1..], reason, one.rest);
        var reply := CancelAll(one.st, ids[1..], reason, one.rest);
        PartlyCons(st.captures, reply.st.captures, ids, reason, reply.r.Ok?);
      }
    }
  }

  lemma NoneCancelled(m: map<string, Capture>, ids: seq<string>, reason: CancelReason)
    ensures PartlyCancelled(m, m, ids, reason, false)
  {
  }

  lemma OrderDistinct(order: seq<string>, captures: map<string, Capture>)
    requires IsOrder(order, captures)
    ensures Distinct(order)
  {
  }

  lemma {:induction false} OrderCovers(order: seq<string>, captures: map<string, Capture>)
    requires IsOrder(order, captures)
    ensures forall id :: id in UnsavedIn(order, captures) <==> id in captures && Unsaved(captures[id])
  {
  }

  lemma PartlyThenAll(m: map<string, Capture>, m': map<string, Capture>, ids: seq<string>, reason: CancelReason, all: bool)
    requires PartlyCancelled(m, m', ids, reason, all)
    requires forall id :: id in ids <==> id in m && Unsaved(m[id])
    ensures AllCancelled(m', reason) == AllCancelled(m, reason)
    ensures all ==> m' == AllCancelled(m, reason)
  {
    assert AllCancelled(m', reason).Keys == AllCancelled(m, reason).Keys;
  }

  /** However far cancelling got, cancelling everything afterwards gives the same captures. */
  lemma CancellingProgress(st: State, r: Receipt, order: seq<string>, env: Environment)
    requires IsOrder(order, st.captures)
    ensures var reply := Cancelling(st, r, order, env);
      && reply.st == st.(captures := reply.st.captures)
      && AfterCancelling(reply.st, r) == AfterCancelling(st, r)
      && (reply.r.Ok? ==> reply.st == AfterCancelling(st, r))
      && reply.st.captures.Keys == st.captures.Keys
  {
    hide CancelAll;
    hide AllCancelled;
    hide IsOrder;
    hide UnsavedIn;
    if ReasonOf(r).Some? {
      var reason := ReasonOf(r).value;
      OrderDistinct(order, st.captures);
      UnsavedDistinct(order, st.captures);
      var ids := UnsavedIn(order, st.captures);
      CancelProgress(st, ids, reason, env);
      var reply := CancelAll(st, ids, reason, env);
      OrderCovers(order, st.captures);
      PartlyThenAll(st.captures, reply.st.captures, ids, reason, reply.r.Ok?);
    }
  }

  /** What an attempt leaves behind: a partial cancellation, or all of it and a prefix of the facts. */
  lemma IngestProgress(st: State, r: Receipt, order: seq<string>, env: Environment) returns (k: nat)
    requires IsOrder(order, st.captures)
    ensures k <= |r.facts|
    ensures var reply := AfterIngest(st, r, order, env);
      && (reply.r.Ok? ==> reply.st == Success(st, r))
      && (reply.r.Err? && ReceiptId(r) !in st.processed ==>
            || (AfterCancelling(reply.st, r) == AfterCancelling(st, r) && reply.st == st.(captures := reply.st.captures)
                && reply.st.captures.Keys == st.captures.Keys)
            || (reply.st == Effect(AfterCancelling(st, r), r, r.facts[..k])
                && k < |r.facts| && !Done(reply.st, r, r.facts[k])))
      && (reply.r.Err? && ReceiptId(r) in st.processed ==> reply.st == st)
  {
    hide AfterCancelling;
    hide Cancelling;
    hide Effect;
    hide ApplyFacts;
    k := 0;
    if Granted(env) && ReceiptId(r) !in st.processed {
      CancellingProgress(st, r, order, Remaining(env));
      var cancelled := Cancelling(st, r, order, Remaining(env));
      if cancelled.r.Ok? {
        k := FactsPrefix(cancelled.st, r, r.facts, IngestOutcome(0, 0, cancelled.r.value), cancelled.rest);
        assert r.facts[..|r.facts|] == r.facts;
      }
    }
  }

  /** A failed attempt is harmless unless a stale or reset receipt had scheduled a capture before it
      failed: the next attempt would then cancel that capture.  In every other case the state a
      successful attempt would reach is unchanged. */
  lemma FailedAttemptHarmless(st: State, r: Receipt, order: seq<string>, env: Environment)
    requires IsOrder(order, st.captures) && AfterIngest(st, r, order, env).r.Err?
    ensures var st' := AfterIngest(st, r, order, env).st;
      Success(st', r) == Success(st, r) <==> ReasonOf(r).None? || st'.captures.Keys == st.captures.Keys
  {
    hide AfterIngest;
    hide Effect;
    var st' := AfterIngest(st, r, order, env).st;
    var k := IngestProgress(st, r, order, env);
    if ReceiptId(r) !in st.processed {
      var start := AfterCancelling(st, r);
      if st' == Effect(start, r, r.facts[..k]) {
        EffectGrows(start, r, r.facts[..k]);
        EffectResumes(start, r, r.facts, k);
        if ReasonOf(r).Some? {
          if st'.captures.Keys == st.captures.Keys {
            NothingToCancel(st, st', r);
          } else {
            NewlyCancelled(st, st', r, k);
          }
        }
      } else if AfterCancelling(st', r) == start {
        assert st'.processed == st.processed;
        assert st'.captures.Keys == st.captures.Keys;
      }
    }
  }

  lemma NothingToCancel(st: State, st': State, r: Receipt)
    requires ReasonOf(r).Some? && Grows(AfterCancelling(st, r), st') && st'.captures.Keys == st.captures.Keys
    ensures AfterCancelling(st', r) == st'
  {
    var reason := ReasonOf(r).value;
    forall id | id in st'.captures ensures !Unsaved(st'.captures[id]) {
      assert id in AfterCancelling(st, r).captures;
      assert st'.captures[id] == Cancelled1(st.captures[id], reason);
    }
    assert AllCancelled(st'.captures, reason) == st'.captures;
  }

  lemma {:induction false} NewlyCancelled(st: State, st': State, r: Receipt, k: nat)
    requires ReasonOf(r).Some? && ReceiptId(r) !in st.processed && k <= |r.facts|
    requires st' == Effect(AfterCancelling(st, r), r, r.facts[..k])
    requires st'.captures.Keys != st.captures.Keys
    ensures Success(st', r) != Success(st, r)
  {
    hide Effect;
    var start := AfterCancelling(st, r);
    EffectGrows(start, r, r.facts[..k]);
    assert start.captures.Keys == st.captures.Keys;
    var id :| id in st'.captures && id !in start.captures;
    EffectResumes(start, r, r.facts, k);
    EffectGrows(st', r, r.facts);
    assert Success(st, r).captures[id].status.Scheduled?;
    EffectGrows(AfterCancelling(st', r), r, r.facts);
    assert AfterCancelling(st', r).captures[id].status.Cancelled?;
    assert Success(st', r).captures[id].status.Cancelled?;
  }

  // ----- The hazard, seen before the attempt

  ghost predicate AddsCapture(st: State, r: Receipt, f: Gsi.TransitionFact) {
    FactEffect(st, r, f).captures.Keys != st.captures.Keys
  }

  /** A stale or reset receipt, not ingested yet, with a fact that adds a capture and a later fact
      that still has something to do when it is reached. */
  ghost predicate Hazard(st: State, r: Receipt) {
    && ReasonOf(r).Some? && ReceiptId(r) !in st.processed
    && exists i, j :: 0 <= i < j < |r.facts|
         && AddsCapture(Effect(AfterCancelling(st, r), r, r.facts[..i]), r, r.facts[i])
         && !Done(Effect(AfterCancelling(st, r), r, r.facts[..j]), r, r.facts[j])
  }

  lemma {:induction false} EffectNext(st: State, r: Receipt, facts: seq<Gsi.TransitionFact>, i: nat)
    requires i < |facts|
    ensures Effect(st, r, facts[..i + 1]) == FactEffect(Effect(st, r, facts[..i]), r, facts[i])
  {
    hide FactEffect;
    assert facts[..i + 1] == facts[..i] + [facts[i]];
    EffectConcat(st, r, facts[..i], [facts[i]]);
    assert [facts[i]][1..] == [];
  }

  /** If a prefix of the facts adds captures, one of its facts does. */
  lemma {:induction false} SomeFactAdds(st: State, r: Receipt, facts: seq<Gsi.TransitionFact>, k: nat) returns (i: nat)
    requires k <= |facts| && Effect(st, r, facts[..k]).captures.Keys != st.captures.Keys
    ensures i < k && AddsCapture(Effect(st, r, facts[..i]), r, facts[i])
  {
    hide FactEffect;
    if k == 0 {
      assert false;
    } else {
      EffectNext(st, r, facts, k - 1);
      if Effect(st, r, facts[..k - 1]).captures.Keys != st.captures.Keys {
        i := SomeFactAdds(st, r, facts, k - 1);
      } else {
        i := k - 1;
      }
    }
  }

  /** What one of the facts adds is still there later. */
  lemma {:induction false} AddedStays(st: State, r: Receipt, facts: seq<Gsi.TransitionFact>, i: nat, j: nat)
    requires i < j <= |facts| && AddsCapture(Effect(st, r, facts[..i]), r, facts[i])
    ensures Effect(st, r, facts[..j]).captures.Keys != st.captures.Keys
  {
    hide FactEffect;
    hide Done;
    var before := Effect(st, r, facts[..i]);
    EffectGrows(st, r, facts[..i]);
    FactGrows(before, r, facts[i]);
    EffectNext(st, r, facts, i);
    assert facts[..j] == facts[..i + 1] + facts[i + 1..j];
    EffectConcat(st, r, facts[..i + 1], facts[i + 1..j]);
    EffectGrows(Effect(st, r, facts[..i + 1]), r, facts[i + 1..j]);
    NewKeyStays(st, before, FactEffect(before, r, facts[i]), Effect(st, r, facts[..j]));
  }

  lemma NewKeyStays(a: State, b: State, c: State, d: State)
    requires Grows(a, b) && Grows(b, c) && Grows(c, d) && b.captures.Keys != c.captures.Keys
    ensures a.captures.Keys != d.captures.Keys
  {
    var id :| id in c.captures && id !in b.captures;
    assert id in d.captures && id !in a.captures;
  }

  /** A harmful failure is a hazard. */
  lemma HarmIsHazard(st: State, r: Receipt, order: seq<string>, env: Environment)
    requires IsOrder(order, st.captures) && AfterIngest(st, r, order, env).r.Err?
    requires Success(AfterIngest(st, r, order, env).st, r) != Success(st, r)
    ensures Hazard(st, r)
  {
    hide AfterIngest;
    hide Success;
    hide FactEffect;
    hide Effect;
    hide Done;
    FailedAttemptHarmless(st, r, order, env);
    var k := IngestProgress(st, r, order, env);
    var start := AfterCancelling(st, r);
    assert start.captures.Keys == st.captures.Keys;
    var i := SomeFactAdds(start, r, r.facts, k);
  }

  // Answers that let everything up to a chosen point succeed, and leave `more` for what follows.

  ghost predicate LetsCancel(st: State, ids: seq<string>, reason: CancelReason, answers: seq<bool>, more: seq<bool>) {
    forall channel: seq<Deadlines.Command> ::
      var all := CancelAll(st, ids, reason, Environment(answers, channel));
      all.r.Ok? && all.rest.answers == more
  }

  lemma OneGranted(st: State, id: string, reason: CancelReason, more: seq<bool>) returns (answers: seq<bool>)
    requires id in st.captures
    ensures forall channel :: var one := CancelOne(st, id, reason, Environment(answers, channel));
      && one.r.Ok? && one.rest.answers == more
      && one.st == st.(captures := st.captures[id := st.captures[id].(status := Cancelled(reason))])
  {
    answers := if st.captures[id].timer.Some? then [true, true] + more else [true] + more;
    assert answers[1..] == if st.captures[id].timer.Some? then [true] + more else more;
    assert ([true] + more)[1..] == more;
  }

  lemma {:induction false} CancelGranted(st: State, ids: seq<string>, reason: CancelReason, more: seq<bool>)
    returns (answers: seq<bool>)
    requires forall id :: id in ids ==> id in st.captures
    ensures LetsCancel(st, ids, reason, answers, more)
    decreases |ids|
  {
    hide CancelOne;
    if ids == [] {
      answers := more;
    } else {
      assert ids[0] in ids;
      var next := st.(captures := st.captures[ids[0] := st.captures[ids[0]].(status := Cancelled(reason))]);
      var rest := CancelGranted(next, ids[1..], reason, more);
      answers := OneGranted(st, ids[0], reason, rest);
      forall channel: seq<Deadlines.Command>
        ensures var all := CancelAll(st, ids, reason, Environment(answers, channel)); all.r.Ok? && all.rest.answers == more
      {
        var one := CancelOne(st, ids[0], reason, Environment(answers, channel));
        assert one.rest == Environment(rest, one.rest.channel);
      }
    }
  }

  ghost predicate LetsApply(st: State, r: Receipt, facts: seq<Gsi.TransitionFact>, answers: seq<bool>, more: seq<bool>) {
    forall so: IngestOutcome, channel: seq<Deadlines.Command> ::
      var all := ApplyFacts(st, r, facts, so, Environment(answers, channel));
      all.r.Ok? && all.rest.answers == more
  }

  lemma FactGranted(st: State, r: Receipt, f: Gsi.TransitionFact, more: seq<bool>) returns (answers: seq<bool>)
    ensures forall channel :: var one := ApplyFact(st, r, f, Environment(answers, channel));
      one.r.Ok? && one.rest.answers == more
  {
    hide CapturedCandidate;
    if Done(st, r, f) {
      answers := more;
    } else if IsMilestone(f) {
      answers := [true] + more;
      assert answers[1..] == more;
    } else {
      CandidateAlwaysCaptured(st, EndedRound(r, f.completed).value, r);
      answers := [true, true] + more;
      assert answers[1..] == [true] + more && answers[1..][1..] == more;
    }
  }

  lemma {:induction false} FactsGranted(st: State, r: Receipt, facts: seq<Gsi.TransitionFact>, more: seq<bool>)
    returns (answers: seq<bool>)
    ensures LetsApply(st, r, facts, answers, more)
    decreases |facts|
  {
    hide ApplyFact;
    hide FactEffect;
    if facts == [] {
      answers := more;
    } else {
      var rest := FactsGranted(FactEffect(st, r, facts[0]), r, facts[1..], more);
      answers := FactGranted(st, r, facts[0], rest);
      forall so: IngestOutcome, channel: seq<Deadlines.Command>
        ensures var all := ApplyFacts(st, r, facts, so, Environment(answers, channel)); all.r.Ok? && all.rest.answers == more
      {
        var one := ApplyFact(st, r, facts[0], Environment(answers, channel));
        FactAllOrNothing(st, r, facts[0], Environment(answers, channel));
        assert one.rest == Environment(rest, one.rest.channel);
      }
    }
  }

  /** A list of facts that gets through its first part goes on with the second. */
  lemma {:induction false} ApplyConcat(st: State, r: Receipt, a: seq<Gsi.TransitionFact>, b: seq<Gsi.TransitionFact>,
                                       so: IngestOutcome, env: Environment)
    requires ApplyFacts(st, r, a, so, env).r.Ok?
    ensures var first := ApplyFacts(st, r, a, so, env);
      ApplyFacts(st, r, a + b, so, env) == ApplyFacts(first.st, r, b, first.r.value, first.rest)
    decreases |a|
  {
    hide ApplyFact;
    if a == [] {
      assert a + b == b;
    } else {
      assert (a + b)[0] == a[0] && (a + b)[1..] == a[1..] + b;
      var one := ApplyFact(st, r, a[0], env);
      ApplyConcat(one.st, r, a[1..], b, AddOutcomes(so, one.r.value), one.rest);
    }
  }

  /** The facts up to `j` succeed, and then the answers run out. */
  lemma {:induction false} StopAt(st: State, r: Receipt, facts: seq<Gsi.TransitionFact>, j: nat, so: IngestOutcome, answers: seq<bool>,
               channel: seq<Deadlines.Command>)
    requires j < |facts| && LetsApply(st, r, facts[..j], answers, []) && !Done(Effect(st, r, facts[..j]), r, facts[j])
    ensures var reply := ApplyFacts(st, r, facts, so, Environment(answers, channel));
      reply.r.Err? && reply.st == Effect(st, r, facts[..j])
  {
    hide ApplyFact;
    hide FactEffect;
    hide Done;
    var env := Environment(answers, channel);
    var first := ApplyFacts(st, r, facts[..j], so, env);
    assert first.r.Ok? && first.rest.answers == [];
    var k := FactsPrefix(st, r, facts[..j], so, env);
    assert facts[..j][..k] == facts[..j];
    assert facts == facts[..j] + facts[j..];
    ApplyConcat(st, r, facts[..j], facts[j..], so, env);
    FactAllOrNothing(first.st, r, facts[j], first.rest);
    assert facts[j..][0] == facts[j];
  }

  /** A hazard can strike: some answers make the attempt fail between the two facts. */
  lemma HazardStrikes(st: State, r: Receipt, order: seq<string>) returns (env: Environment)
    requires IsOrder(order, st.captures) && Hazard(st, r)
    ensures AfterIngest(st, r, order, env).r.Err?
    ensures Success(AfterIngest(st, r, order, env).st, r) != Success(st, r)
  {
    hide FactEffect;
    hide Effect;
    hide Done;
    hide ApplyFacts;
    hide CancelAll;
    hide Success;
    var start := AfterCancelling(st, r);
    var i, j :| 0 <= i < j < |r.facts| && AddsCapture(Effect(start, r, r.facts[..i]), r, r.facts[i])
                && !Done(Effect(start, r, r.facts[..j]), r, r.facts[j]);
    var forFacts := FactsGranted(start, r, r.facts[..j], []);
    var forCancel := CancelGranted(st, UnsavedIn(order, st.captures), ReasonOf(r).value, forFacts);
    env := Environment([true] + forCancel, []);
    assert Granted(env) && Remaining(env) == Environment(forCancel, []);
    CancellingProgress(st, r, order, Remaining(env));
    var cancelled := Cancelling(st, r, order, Remaining(env));
    CancelledLets(st, r, order, forCancel, forFacts);
    StopAt(start, r, r.facts, j, IngestOutcome(0, 0, cancelled.r.value), forFacts, cancelled.rest.channel);
    AddedStays(start, r, r.facts, i, j);
    FailedAttemptHarmless(st, r, order, env);
  }

  lemma {:induction false} CancelledLets(st: State, r: Receipt, order: seq<string>, answers: seq<bool>, more: seq<bool>)
    requires ReasonOf(r).Some? && LetsCancel(st, UnsavedIn(order, st.captures), ReasonOf(r).value, answers, more)
    ensures var cancelled := Cancelling(st, r, order, Environment(answers, []));
      cancelled.r.Ok? && cancelled.rest == Environment(more, cancelled.rest.channel)
  {
    hide CancelAll;
  }

  /** Exactly when a failed attempt can change what a later success reaches, said before the call. */
  lemma RetryHarmIff(st: State, r: Receipt, order: seq<string>)
    requires IsOrder(order, st.captures)
    ensures Hazard(st, r) <==>
            exists env :: AfterIngest(st, r, order, env).r.Err? && Success(AfterIngest(st, r, order, env).st, r) != Success(st, r)
  {
    hide AfterIngest;
    hide Success;
    hide Hazard;
    if Hazard(st, r) {
      var env := HazardStrikes(st, r, order);
    }
    forall env | AfterIngest(st, r, order, env).r.Err? && Success(AfterIngest(st, r, order, env).st, r) != Success(st, r)
      ensures Hazard(st, r)
    {
      HarmIsHazard(st, r, order, env);
    }
  }

  lemma SameStart(st: State, st': State, r: Receipt)
    requires AfterCancelling(st', r) == AfterCancelling(st, r) && st'.processed == st.processed
    ensures Hazard(st', r) <==> Hazard(st, r)
  {
  }

  lemma {:induction false} NoHazardResumed(st: State, st': State, r: Receipt, k: nat)
    requires ReasonOf(r).Some? && ReceiptId(r) !in st.processed && !Hazard(st, r) && k <= |r.facts|
    requires st' == Effect(AfterCancelling(st, r), r, r.facts[..k]) && st'.captures.Keys == st.captures.Keys
    ensures !Hazard(st', r)
  {
    hide FactEffect;
    hide Effect;
    hide Done;
    hide ApplyFact;
    var start := AfterCancelling(st, r);
    EffectGrows(start, r, r.facts[..k]);
    NothingToCancel(st, st', r);
    forall i, j | 0 <= i < j < |r.facts| && AddsCapture(Effect(st', r, r.facts[..i]), r, r.facts[i])
                  && !Done(Effect(st', r, r.facts[..j]), r, r.facts[j])
      ensures AddsCapture(Effect(start, r, r.facts[..i]), r, r.facts[i])
      ensures !Done(Effect(start, r, r.facts[..j]), r, r.facts[j])
    {
      EffectFrom(start, r, r.facts, k, i);
      EffectFrom(start, r, r.facts, k, j);
      FactAllOrNothing(st', r, r.facts[i], Environment([], []));
    }
  }

  /** A failed attempt that was no hazard leaves none. */
  lemma HazardStays(st: State, r: Receipt, order: seq<string>, env: Environment)
    requires IsOrder(order, st.captures) && !Hazard(st, r) && AfterIngest(st, r, order, env).r.Err?
    ensures !Hazard(AfterIngest(st, r, order, env).st, r)
  {
    hide AfterIngest;
    hide AfterCancelling;
    hide FactEffect;
    hide Effect;
    hide Done;
    var st' := AfterIngest(st, r, order, env).st;
    var k := IngestProgress(st, r, order, env);
    if ReasonOf(r).Some? && ReceiptId(r) !in st.processed {
      var start := AfterCancelling(st, r);
      if st' == Effect(start, r, r.facts[..k]) {
        SameKeys(st, r);
        if st'.captures.Keys != st.captures.Keys {
          var i := SomeFactAdds(start, r, r.facts, k);
        }
        NoHazardResumed(st, st', r, k);
      } else {
        SameStart(st, st', r);
      }
    }
  }

  lemma SameKeys(st: State, r: Receipt)
    ensures AfterCancelling(st, r).captures.Keys == st.captures.Keys
  {
  }

  /** Going through the facts again from where a prefix of length `k` has led. */
  lemma {:induction false} EffectFrom(st: State, r: Receipt, facts: seq<Gsi.TransitionFact>, k: nat, i: nat)
    requires k <= |facts| && i < |facts|
    ensures var started := Effect(st, r, facts[..k]);
      && Effect(started, r, facts[..i]) == (if i < k then started else Effect(st, r, facts[..i]))
      && (i < k ==> Done(started, r, facts[i]))
  {
    hide FactEffect;
    hide Done;
    var started := Effect(st, r, facts[..k]);
    EffectGrows(st, r, facts[..k]);
    if i < k {
      assert facts[i] == facts[..k][i];
      assert forall f :: f in facts[..i] ==> f in facts[..k];
      EffectOfDone(started, r, facts[..i]);
    } else {
      assert facts[..i][..k] == facts[..k];
      EffectResumes(st, r, facts[..i], k);
    }
  }

  datatype Attempt = Attempt(order: seq<string>, env: Environment)

  /** All attempts but the last fail and the last succeeds. */
  ghost predicate SucceedsAtLast(st: State, r: Receipt, attempts: seq<Attempt>)
    decreases |attempts|
  {
    && attempts != []
    && IsOrder(attempts[0].order, st.captures)
    && var reply := AfterIngest(st, r, attempts[0].order, attempts[0].env);
    if |attempts| == 1 then reply.r.Ok? else reply.r.Err? && SucceedsAtLast(reply.st, r, attempts[1..])
  }

  ghost function AfterAttempts(st: State, r: Receipt, attempts: seq<Attempt>): State
    decreases |attempts|
  {
    if attempts == [] then st
    else AfterAttempts(AfterIngest(st, r, attempts[0].order, attempts[0].env).st, r, attempts[1..])
  }

  /** Any number of failed attempts followed by a successful one reach the state of a single
      success, unless the first of them was a hazard. */
  lemma {:induction false} RetriesReachSingleSuccess(st: State, r: Receipt, attempts: seq<Attempt>)
    requires SucceedsAtLast(st, r, attempts)
    requires !Hazard(st, r)
    ensures AfterAttempts(st, r, attempts) == Success(st, r)
    decreases |attempts|
  {
    hide AfterIngest;
    hide Success;
    hide Hazard;
    var reply := AfterIngest(st, r, attempts[0].order, attempts[0].env);
    var k := IngestProgress(st, r, attempts[0].order, attempts[0].env);
    if |attempts| == 1 {
      assert attempts[1..] == [];
    } else {
      if Success(reply.st, r) != Success(st, r) {
        HarmIsHazard(st, r, attempts[0].order, attempts[0].env);
      }
      HazardStays(st, r, attempts[0].order, attempts[0].env);
      RetriesReachSingleSuccess(reply.st, r, attempts[1..]);
    }
  }

  /** The engine never puts facts on a stale or reset receipt, so none of its receipts is a hazard. */
  lemma EngineReceiptsAreRetrySafe(e: Gsi.EngineState, heartbeat: nat, step: Gsi.Step, st: State)
    ensures forall entry :: entry in Gsi.Apply(heartbeat, e, step).1 && entry.Emitted? ==>
      (ReasonOf(entry.receipt).None? || entry.receipt.facts == []) && !Hazard(st, entry.receipt)
  {
    hide Gsi.DeltaFacts;
    hide Gsi.RoundEnds;
    hide Gsi.Prune;
  }

  /** With facts it can go wrong: a stale receipt that ends a round schedules the capture, fails to
      store the next candidate, and the retry cancels the capture a single success leaves scheduled. */
  lemma StaleFactsAreNotRetrySafe()
    returns (r: Receipt, first: Environment)
    ensures var st := Initial("s");
      && ReasonOf(r).Some? && AfterIngest(st, r, [], first).r.Err?
      && Success(AfterIngest(st, r, [], first).st, r) != Success(st, r)
  {
    hide CapturedCandidate;
    var context := Gsi.EvidenceContext(Some("m"), Some(2), None, Some(3), None);
    var facts := [Gsi.RoundEnd(1, 2), Gsi.RoundKillDelta(2, 3, 1)];
    r := Gsi.EvidenceReceipt(1, 0, "h", Gsi.Presence([]), context, Gsi.Stale, facts);
    first := Environment([true, true, true, false], []);
    var st := Initial("s");
    CandidateAlwaysCaptured(st, RoundId("m", 1), r);
    assert Remaining(first).answers == [true, true, false] && Remaining(Remaining(first)).answers == [true, false];
    assert Remaining(Remaining(Remaining(first))).answers == [false];
    var cancelled := Cancelling(st, r, [], Remaining(first));
    assert cancelled.st == st && cancelled.r == Ok(0) && cancelled.rest == Remaining(first);
    var ended := ApplyFact(st, r, facts[0], Remaining(first));
    assert ended.r.Ok? && ended.rest.answers == [false];
    assert facts[1..] == [facts[1]];
    var milestone := ApplyFact(ended.st, r, facts[1], ended.rest);
    assert milestone.r.Err? && milestone.st == ended.st;
    assert AutoId(RoundId("m", 1)) in ended.st.captures;
    FailedAttemptHarmless(st, r, [], first);
  }

  // ----- Manual requests

  lemma IngestKeepsManual(st: State, r: Receipt, order: seq<string>, env: Environment, id: string)
    requires IsOrder(order, st.captures) && id in st.captures && st.captures[id].kind == ManualFlag
    ensures var st' := AfterIngest(st, r, order, env).st;
      id in st'.captures && st'.captures[id] == st.captures[id]
  {
    hide Effect;
    hide ApplyFacts;
    hide CancelAll;
    if Granted(env) && ReceiptId(r) !in st.processed {
      var rest := Remaining(env);
      if ReasonOf(r).Some? {
        UnsavedDistinct(order, st.captures);
        CancelProgress(st, UnsavedIn(order, st.captures), ReasonOf(r).value, rest);
      }
      var cancelled := Cancelling(st, r, order, rest);
      assert id in cancelled.st.captures && cancelled.st.captures[id] == st.captures[id];
      if cancelled.r.Ok? {
        var so := IngestOutcome(0, 0, cancelled.r.value);
        var k := FactsPrefix(cancelled.st, r, r.facts, so, cancelled.rest);
        EffectGrows(cancelled.st, r, r.facts[..k]);
      }
    }
  }

  /** A manual capture is left Requesting exactly when its record was stored and the answer to its
      request was not. */
  lemma ManualRequestingIff(st: State, now: u64, windowFrom: u64, coverageFrom: u64, a: RecorderAnswer, env: Environment)
    requires CapturesShaped(st) && st.manualOrdinal < U64_MAX
    ensures var id := ManualId(now, st.manualOrdinal + 1);
      var st' := AfterManual(st, now, windowFrom, coverageFrom, a, env).st;
      id in st'.captures && st'.captures[id].status.Requesting? <==> Granted(env) && !Granted(Remaining(env))
  {
    hide ManualId;
    hide AutoShape;
    hide ManualShape;
    ManualIdFresh(st, now);
  }

  /** Such a capture is reached in one step, although the recorder accepted the save. */
  lemma ManualStuckReachable()
    ensures var answer := RecorderAnswer(5, 0, 0, Ok(SaveOutcome("save", Supervisor.Signalled)));
      var ops := [DoManual(5, 0, 0, answer, Environment([true, false], []))];
      var id := ManualId(5, 1);
      && PossibleRun("s", ops)
      && id in Run("s", ops).captures && Run("s", ops).captures[id].status.Requesting?
      && Run("s", ops).asked == [Asked(id, 5, true, false)]
  {
    hide ManualId;
    var answer := RecorderAnswer(5, 0, 0, Ok(SaveOutcome("save", Supervisor.Signalled)));
    var env := Environment([true, false], []);
    var ops := [DoManual(5, 0, 0, answer, env)];
    assert ops[..0] == [];
    assert Granted(env) && Remaining(env).answers == [false];
  }

  /** A manual flag whose request cannot be stored stays `Requesting`, and no operation moves it:
      it has no timer, is not retryable and is never cancelled. */
  lemma ManualStuckInRequesting(st: State, last: u64, id: string, op: Op)
    requires Valid(st, last) && Possible(st, last, op)
    requires id in st.captures && st.captures[id].status.Requesting?
    ensures id in Perform(st, op).captures && Perform(st, op).captures[id] == st.captures[id]
  {
    hide Valid;
    hide AfterIngest;
    hide AfterRequest;
    hide ManualId;
    RequestingIsManual(st, last, id);
    match op {
      case DoIngest(receipt, order, env) =>
        IngestKeepsManual(st, receipt, order, env, id);
      case DoTimer(timer, now, recorder, env) =>
        if timer in st.timers {
          RequestTouchesOnly(st, st.timers[timer], recorder, env, id);
        }
      case DoRetry(other, recorder, env) =>
        if other != id {
          RequestTouchesOnly(st, other, recorder, env, id);
        }
      case DoManual(now, windowFrom, coverageFrom, recorder, env) =>
        Shaped(st, last);
        ManualIdFresh(st, now);
        var ordinal := SatAdd(st.manualOrdinal, 1);
        var other := ManualId(now, ordinal);
        var added := WithCapture(st.(manualOrdinal := ordinal), ManualCapture(other, now, windowFrom, coverageFrom));
        RequestTouchesOnly(added, other, recorder, Remaining(env), id);
    }
  }

  lemma RequestingIsManual(st: State, last: u64, id: string)
    requires Valid(st, last) && id in st.captures && st.captures[id].status.Requesting?
    ensures st.captures[id].kind == ManualFlag
    ensures forall t :: t in st.timers ==> st.timers[t] != id
  {
    hide AskedOnce;
    hide Timely;
  }

  lemma RequestTouchesOnly(st: State, id: string, a: RecorderAnswer, env: Environment, other: string)
    requires other in st.captures && other != id
    ensures var st' := AfterRequest(st, id, a, env).st;
      other in st'.captures && st'.captures[other] == st.captures[other]
  {
  }

  // ----- The store failing after the recorder accepted

  const ROUND_END := Gsi.EvidenceReceipt(
    1, 0, "h", Gsi.Presence([]), Gsi.EvidenceContext(Some("m"), Some(2), None, None, None), Gsi.Healthy, [Gsi.RoundEnd(1, 2)])

  const FIRST_ROUND := AutoId(RoundId("m", 1))

  /** One automatic capture, due ten seconds after the round end at time zero. */
  ghost predicate FirstRoundScheduled(st: State) {
    && FIRST_ROUND in st.captures
    && st.captures[FIRST_ROUND].kind == AutoRoundEnd && st.captures[FIRST_ROUND].status == Scheduled
    && st.captures[FIRST_ROUND].candidate.Some? && st.captures[FIRST_ROUND].roundEnd == Some(0)
    && st.captures[FIRST_ROUND].deadline == Some(10_000)
    && TimerFor(FIRST_ROUND) in st.timers && st.timers[TimerFor(FIRST_ROUND)] == FIRST_ROUND
  }

  lemma RoundEndFact(env: Environment)
    requires env.answers == [true, true]
    ensures var reply := ApplyFact(Initial("s"), ROUND_END, ROUND_END.facts[0], env);
      reply.r.Ok? && FirstRoundScheduled(reply.st) && reply.st.asked == []
  {
    hide AutoId;
    hide RoundId;
    hide TimerFor;
    hide CapturedCandidate;
    CandidateAlwaysCaptured(Initial("s"), RoundId("m", 1), ROUND_END);
    assert Remaining(env).answers == [true];
  }

  lemma RoundEndIngested(env: Environment)
    requires env.answers == [true, true, true]
    ensures var st := AfterIngest(Initial("s"), ROUND_END, [], env).st; FirstRoundScheduled(st) && st.asked == []
  {
    hide ApplyFact;
    hide AutoId;
    hide RoundId;
    hide TimerFor;
    var st := Initial("s");
    assert Remaining(env).answers == [true, true];
    RoundEndFact(Remaining(env));
    assert ROUND_END.facts[1..] == [];
    assert Cancelling(st, ROUND_END, [], Remaining(env)) == Reply(st, Ok(0), Remaining(env));
  }

  lemma FirstRoundAsked(st: State, a: RecorderAnswer, env: Environment)
    requires FirstRoundScheduled(st) && a.save.Ok? && env.answers == []
    ensures var st' := AfterTimer(st, TimerFor(FIRST_ROUND), 10_000, a, env).st;
      FirstRoundScheduled(st') && st'.asked == st.asked + [Asked(FIRST_ROUND, a.now, true, false)]
  {
    hide AutoId;
    hide RoundId;
    hide TimerFor;
  }

  /** A round ends, its timer is due, the recorder accepts and the store fails: after two steps of a
      run the capture is still scheduled. */
  lemma AcceptedButNotStoredReachable()
    ensures var answer := RecorderAnswer(10_000, 0, 0, Ok(SaveOutcome("save", Supervisor.Signalled)));
      var ops := [DoIngest(ROUND_END, [], Environment([true, true, true], [])),
                  DoTimer(TimerFor(FIRST_ROUND), 10_000, answer, Environment([], []))];
      && PossibleRun("s", ops)
      && Run("s", ops).asked == [Asked(FIRST_ROUND, 10_000, true, false)]
      && FirstRoundScheduled(Run("s", ops))
  {
    hide AfterIngest;
    hide AfterTimer;
    hide FirstRoundScheduled;
    hide TimerFor;
    var answer := RecorderAnswer(10_000, 0, 0, Ok(SaveOutcome("save", Supervisor.Signalled)));
    var env := Environment([true, true, true], []);
    var ops := [DoIngest(ROUND_END, [], env), DoTimer(TimerFor(FIRST_ROUND), 10_000, answer, Environment([], []))];
    RoundEndIngested(env);
    assert ops[..0] == [] && ops[..1] == [ops[0]] && ops[..1][..0] == [] && ops[..2] == ops;
    assert Run("s", ops[..1]) == Perform(Initial("s"), ops[0]);
    FirstRoundAsked(Run("s", ops[..1]), answer, Environment([], []));
    assert Run("s", ops) == Perform(Run("s", ops[..1]), ops[1]);
  }

  // ----- What ingest reports

  lemma NewKey<K, V>(m: map<K, V>, k: K, v: V)
    requires k !in m
    ensures |m[k := v]| == |m| + 1
  {
    assert m[k := v] - {k} == m;
    assert m[k := v].Keys == m.Keys + {k};
  }

  /** A fact is counted exactly when it adds a candidate or a capture. */
  lemma FactReports(st: State, r: Receipt, f: Gsi.TransitionFact, env: Environment)
    ensures var reply := ApplyFact(st, r, f, env);
      reply.r.Ok? ==> reply.r.value == IngestOutcome(|reply.st.candidates| - |st.candidates|, |reply.st.captures| - |st.captures|, 0)
  {
    hide CapturedCandidate;
    if IsMilestone(f) {
      var round := MilestoneRound(r, f.current);
      if round.Some? && round.value !in st.candidates {
        NewKey(st.candidates, round.value, MilestoneCandidate(st.session, round.value, r));
      }
    } else if f.RoundEnd? {
      var round := EndedRound(r, f.completed);
      if round.Some? && AutoId(round.value) !in st.captures {
        CandidateAlwaysCaptured(st, round.value, r);
        NewKey(st.captures, AutoId(round.value),
               AutoCapture(round.value, CapturedCandidate(st, round.value, r).value, Millis(r)));
      }
    }
  }

  lemma {:induction false} FactsReport(st: State, r: Receipt, facts: seq<Gsi.TransitionFact>, so: IngestOutcome, env: Environment)
    ensures var reply := ApplyFacts(st, r, facts, so, env);
      reply.r.Ok? ==>
        && reply.r.value.created == so.created + |reply.st.candidates| - |st.candidates|
        && reply.r.value.scheduled == so.scheduled + |reply.st.captures| - |st.captures|
        && reply.r.value.cancelled == so.cancelled
    decreases |facts|
  {
    hide ApplyFact;
    if facts != [] {
      FactReports(st, r, facts[0], env);
      var first := ApplyFact(st, r, facts[0], env);
      if first.r.Ok? {
        FactsReport(first.st, r, facts[1..], AddOutcomes(so, first.r.value), first.rest);
      }
    }
  }

  ghost function UnsavedIds(captures: map<string, Capture>): set<string> {
    set id | id in captures && Unsaved(captures[id])
  }

  lemma CancellingReports(st: State, r: Receipt, order: seq<string>, env: Environment)
    requires IsOrder(order, st.captures)
    ensures var reply := Cancelling(st, r, order, env);
      reply.r.Ok? ==> reply.r.value == if ReasonOf(r).Some? then |UnsavedIds(st.captures)| else 0
  {
    hide CancelAll;
    OrderDistinct(order, st.captures);
    UnsavedDistinct(order, st.captures);
    OrderCovers(order, st.captures);
    DistinctSize(UnsavedIn(order, st.captures));
    assert Elems(UnsavedIn(order, st.captures)) == UnsavedIds(st.captures);
  }

  /** A successful ingest reports how many candidates and captures it added and how many unsaved
      captures it cancelled; a receipt ingested before adds and cancels nothing. */
  lemma IngestReports(st: State, r: Receipt, order: seq<string>, env: Environment)
    requires IsOrder(order, st.captures) && AfterIngest(st, r, order, env).r.Ok?
    ensures var reply := AfterIngest(st, r, order, env);
      && reply.r.value.created == |reply.st.candidates| - |st.candidates|
      && reply.r.value.scheduled == |reply.st.captures| - |st.captures|
      && reply.r.value.cancelled ==
         if ReasonOf(r).Some? && ReceiptId(r) !in st.processed then |UnsavedIds(st.captures)| else 0
  {
    hide Cancelling;
    hide ApplyFacts;
    hide UnsavedIds;
    if ReceiptId(r) !in st.processed {
      CancellingProgress(st, r, order, Remaining(env));
      CancellingReports(st, r, order, Remaining(env));
      var cancelled := Cancelling(st, r, order, Remaining(env));
      SameSize(cancelled.st.captures, st.captures);
      FactsReport(cancelled.st, r, r.facts, IngestOutcome(0, 0, cancelled.r.value), cancelled.rest);
    }
  }

  lemma SameSize<K, V>(a: map<K, V>, b: map<K, V>)
    requires a.Keys == b.Keys
    ensures |a| == |b|
  {
    assert |a| == |a.Keys| && |b| == |b.Keys|;
  }

  /** A capture window ends when the save is asked for, never claims media from before the recorder
      had any or outside its sixty seconds, and says so when the pre-roll is cut.  It covers a
      candidate that starts no later than its round ends.  It is reversed exactly when the recorder
      had nothing yet when the save was asked for, or the candidate starts more than 25 seconds
      after the round end. */
  lemma AutoWindowSound(candidateStart: u64, roundEnd: u64, availableFrom: u64)
    ensures var w := AutoWindow(candidateStart, roundEnd, availableFrom);
      && w.available.end == w.requestedAt == w.desired.end
      && w.requestedAt - w.available.start <= REPLAY_BUFFER_MS
      && availableFrom <= w.available.start && w.desired.start <= w.available.start
      && w.available.start in {w.desired.start, availableFrom, SatSub(w.requestedAt, REPLAY_BUFFER_MS)}
      && (candidateStart <= roundEnd ==> w.desired.start <= candidateStart <= roundEnd <= w.desired.end)
      && (w.preRollTruncated <==> w.available != w.desired)
      && (w.available.start <= w.available.end <==>
            availableFrom <= w.requestedAt && SatSub(candidateStart, DESIRED_PRE_ROLL_MS) <= w.requestedAt)
      && (candidateStart <= roundEnd ==> (w.available.start <= w.available.end <==> availableFrom <= w.requestedAt))
  {
  }

  // ----- What the scheduled capture covers

  /** The two candidates have the same session, round and rule, so the interval decides. */
  lemma MilestoneMeetsOfficial(c: Candidate, session: string, round: string, r: Receipt)
    requires Fresh(c) && c.session == session && c.round == round && c.rule == RULE_VERSION
    ensures CanMerge(Extended(c, Millis(r)), OfficialCandidate(session, round, r)) <==>
            c.range.start <= SatAdd(Millis(r), CANDIDATE_MERGE_GAP_MS)
  {
    var a, b := Extended(c, Millis(r)), OfficialCandidate(session, round, r);
    assert a.starts == {c.range.start} && b.starts == {Millis(r)};
    if c.range.start <= SatAdd(Millis(r), CANDIDATE_MERGE_GAP_MS) && c.range.start > Millis(r) {
      assert Near(c.range.start, Millis(r));
    }
  }

  lemma PairMerges(a: Candidate, b: Candidate)
    requires a != b && CanMerge(a, b) && CanMerge(b, a)
    ensures MergeCandidates([a, b]) == [if CandidateLe(a, b) then Merged(a, b) else Merged(b, a)]
  {
    hide CanMerge;
    var sorted := if CandidateLe(a, b) then [a, b] else [b, a];
    PairSorted(a, b);
    assert IsFirstPair(sorted, 0, 1);
    MergeLoopStep(sorted, 0, 1);
    assert Remove(Remove(sorted, 1), 0) == [];
    var merged := Merged(sorted[0], sorted[1]);
    assert MergeAt(sorted, 0, 1) == [merged] by {
      assert [] + [merged] == [merged];
    }
    SettledStays([merged]);
  }

  lemma PairSorted(a: Candidate, b: Candidate)
    requires a != b
    ensures Dedup(StableSort([a, b], CandidateLe)) == if CandidateLe(a, b) then [a, b] else [b, a]
  {
    hide CandidateLe;
    assert [a, b][1..] == [b] && [b][1..] == [];
    assert StableSort([b], CandidateLe) == [b];
    assert StableSort([a, b], CandidateLe) == Insert(a, [b], CandidateLe);
  }

  lemma PairStaysApart(a: Candidate, b: Candidate)
    requires a != b && !CanMerge(a, b) && !CanMerge(b, a)
    ensures MergeCandidates([a, b]) == if CandidateLe(a, b) then [a, b] else [b, a]
  {
    hide CanMerge;
    PairSorted(a, b);
    SettledStays(if CandidateLe(a, b) then [a, b] else [b, a]);
  }

  /** Milestone and round end joined. */
  function Joined(c: Candidate, r: Receipt): Candidate {
    c.(range := TimeRange(Min(c.range.start, Millis(r)), Max(c.range.end, Millis(r))),
       starts := {c.range.start, Millis(r)},
       triggers := {KillMilestone, OfficialRoundEndCapture},
       receipts := c.receipts + {ReceiptId(r)})
  }

  lemma MergedIsJoined(c: Candidate, session: string, round: string, r: Receipt)
    requires Fresh(c) && c.session == session && c.round == round && c.rule == RULE_VERSION && c.triggers == {KillMilestone}
    ensures var a, b := Extended(c, Millis(r)), OfficialCandidate(session, round, r);
      Merged(a, b) == Joined(c, r) && Merged(b, a) == Joined(c, r)
  {
    var a, b := Extended(c, Millis(r)), OfficialCandidate(session, round, r);
    var joined := Joined(c, r);
    assert a.starts + b.starts == joined.starts == b.starts + a.starts;
    assert a.triggers + b.triggers == joined.triggers == b.triggers + a.triggers;
    assert a.receipts + b.receipts == joined.receipts == b.receipts + a.receipts;
  }

  /** The capture of a round covers its kill milestone and the round end, and names both receipts.
      Only a milestone stamped more than ten seconds after the round end is left out. */
  lemma CaptureCoversMilestone(st: State, round: string, r: Receipt)
    requires CandidatesShaped(st) && round in st.candidates
    ensures var c := st.candidates[round];
      CapturedCandidate(st, round, r) == Some(
        if c.range.start <= SatAdd(Millis(r), CANDIDATE_MERGE_GAP_MS) then Joined(c, r)
        else OfficialCandidate(st.session, round, r))
  {
    hide CanMerge;
    hide MergeCandidates;
    hide Joined;
    var c := st.candidates[round];
    var a, b := Extended(c, Millis(r)), OfficialCandidate(st.session, round, r);
    assert OfficialRoundEndCapture !in a.triggers && OfficialRoundEndCapture in b.triggers;
    MilestoneMeetsOfficial(c, st.session, round, r);
    if CanMerge(a, b) {
      CanMergeSymmetric(a, b);
      PairMerges(a, b);
      MergedIsJoined(c, st.session, round, r);
    } else {
      if CanMerge(b, a) {
        CanMergeSymmetric(b, a);
      }
      PairStaysApart(a, b);
      assert !CandidateLe(a, b);
    }
  }

  lemma {:induction false} UnsavedNext(order: seq<string>, i: nat, captures: map<string, Capture>)
    requires i < |order|
    ensures UnsavedIn(order[i..], captures) ==
            (if order[i] in captures && Unsaved(captures[order[i]]) then [order[i]] else []) + UnsavedIn(order[i + 1..], captures)
  {
    assert order[i..][0] == order[i] && order[i..][1..] == order[i + 1..];
  }

  lemma {:induction false} UnsavedNone(captures: map<string, Capture>)
    ensures UnsavedIn([], captures) == []
  {
  }

  // ----- The coordinator, updated in place

  class Coordinator {
    const session: string
    var processed: set<string>
    var candidates: map<string, Candidate>
    var captures: map<string, Capture>
    var timers: map<string, string>
    var manualOrdinal: u64
    var answers: seq<bool>                 // what the store and the scheduler will answer
    var channel: seq<Deadlines.Command>    // what the scheduler has sent
    ghost var asked: seq<Asked>

    ghost function Here(): State
      reads this
    {
      State(session, processed, candidates, captures, timers, manualOrdinal, asked)
    }

    function Env(): Environment
      reads this
    {
      Environment(answers, channel)
    }

    constructor (captureSession: string, environment: seq<bool>)
      ensures Here() == Initial(captureSession) && Env() == Environment(environment, [])
    {
      session, answers, channel := captureSession, environment, [];
      processed, candidates, captures, timers, manualOrdinal, asked := {}, map[], map[], map[], 0, [];
    }

    /** One call to the store. */
    method Call() returns (ok: bool)
      modifies this`answers
      ensures ok == Granted(old(Env())) && Env() == Remaining(old(Env()))
    {
      ok := answers != [] && answers[0];
      answers := if answers == [] then [] else answers[1..];
    }

    /** One call to the scheduler. */
    method Send(command: Deadlines.Command) returns (ok: bool)
      modifies this`answers, this`channel
      ensures ok == Granted(old(Env()))
      ensures Env() == if ok then Sending(old(Env()), command) else Remaining(old(Env()))
    {
      ok := Call();
      if ok {
        channel := channel + [command];
      }
    }

    method Ingest(r: Receipt, order: seq<string>) returns (result: Result<IngestOutcome, Diagnostic>)
      modifies this
      ensures Reply(Here(), result, Env()) == AfterIngest(old(Here()), r, order, old(Env()))
    {
      hide ApplyFact;
      hide CancelUnsaved;
      var persisted := Call();
      if !persisted {
        return Err(Persistence);
      }
      var id := ReceiptId(r);
      if id in processed {
        return Ok(IngestOutcome(0, 0, 0));
      }
      var outcome := IngestOutcome(0, 0, 0);
      if r.output == Gsi.Stale || r.output == Gsi.SessionReset {
        var reason := if r.output == Gsi.Stale then BecauseStale else BecauseReset;
        var cancelled := CancelUnsavedCaptures(order, reason);
        if cancelled.Err? {
          return Err(cancelled.error);
        }
        outcome := IngestOutcome(0, 0, cancelled.value);
      }
      var applied := ApplyAll(r, outcome);
      if applied.Err? {
        return Err(applied.error);
      }
      processed := processed + {id};
      return Ok(applied.value);
    }

    method ApplyAll(r: Receipt, so: IngestOutcome) returns (result: Result<IngestOutcome, Diagnostic>)
      modifies this
      ensures Reply(Here(), result, Env()) == ApplyFacts(old(Here()), r, r.facts, so, old(Env()))
    {
      hide ApplyFact;
      var outcome := so;
      var i := 0;
      while i < |r.facts|
        invariant 0 <= i <= |r.facts|
        invariant ApplyFacts(Here(), r, r.facts[i..], outcome, Env()) ==
                  ApplyFacts(old(Here()), r, r.facts, so, old(Env()))
      {
        assert r.facts[i..][0] == r.facts[i] && r.facts[i..][1..] == r.facts[i + 1..];
        var one := ApplyOne(r, r.facts[i]);
        if one.Err? {
          return one;
        }
        outcome := AddOutcomes(outcome, one.value);
        i := i + 1;
      }
      return Ok(outcome);
    }

    method ApplyOne(r: Receipt, f: Gsi.TransitionFact) returns (result: Result<IngestOutcome, Diagnostic>)
      modifies this
      ensures Reply(Here(), result, Env()) == ApplyFact(old(Here()), r, f, old(Env()))
    {
      hide CapturedCandidate;
      if IsMilestone(f) {
        var created := CreateMilestone(r, f.current);
        return if created.Err? then Err(created.error) else Ok(IngestOutcome(if created.value then 1 else 0, 0, 0));
      } else if f.RoundEnd? {
        var scheduled := ScheduleRoundCapture(r, f.completed);
        return if scheduled.Err? then Err(scheduled.error) else Ok(IngestOutcome(0, if scheduled.value then 1 else 0, 0));
      }
      return Ok(IngestOutcome(0, 0, 0));
    }

    method CreateMilestone(r: Receipt, current: int) returns (result: Result<bool, Diagnostic>)
      modifies this
      ensures Reply(Here(), result, Env()) == CreateCandidate(old(Here()), r, current, old(Env()))
    {
      var round := MilestoneRound(r, current);
      if round.None? || round.value in candidates {
        return Ok(false);
      }
      var candidate := MilestoneCandidate(session, round.value, r);
      var stored := Call();
      if !stored {
        return Err(Persistence);
      }
      candidates := candidates[round.value := candidate];
      return Ok(true);
    }

    method ScheduleRoundCapture(r: Receipt, completed: nat) returns (result: Result<bool, Diagnostic>)
      modifies this
      ensures Reply(Here(), result, Env()) == ScheduleCapture(old(Here()), r, completed, old(Env()))
    {
      hide MergeCandidates;
      hide Settled;
      hide EndedRound;
      hide AutoId;
      hide TimerFor;
      var round := EndedRound(r, completed);
      if round.None? || AutoId(round.value) in captures {
        return Ok(false);
      }
      var candidate := OfficialCandidate(session, round.value, r);
      if round.value in candidates {
        var merged := MergeCandidateList([Extended(candidates[round.value], Millis(r)), candidate]);
        if merged == [] {
          return Err(InvalidDomain);
        }
        candidate := merged[0];
      }
      var capture := AutoCapture(round.value, candidate, Millis(r));
      var scheduled := Send(Deadlines.Schedule(capture.timer.value, capture.deadline.value));
      if !scheduled {
        return Err(SchedulerFailed);
      }
      var stored := Call();
      if !stored {
        var ignored := Send(Deadlines.Cancel(capture.timer.value));
        return Err(Persistence);
      }
      timers := timers[capture.timer.value := capture.id];
      captures := captures[capture.id := capture];
      return Ok(true);
    }

    method CancelUnsavedCaptures(order: seq<string>, reason: CancelReason) returns (result: Result<nat, Diagnostic>)
      modifies this
      ensures Reply(Here(), result, Env()) == CancelUnsaved(old(Here()), order, reason, old(Env()))
    {
      hide CancelOne;
      hide UnsavedIn;
      var ids := CollectUnsaved(order);
      var i := 0;
      while i < |ids|
        invariant 0 <= i <= |ids|
        invariant CancelAll(Here(), ids[i..], reason, Env()) == CancelAll(old(Here()), ids, reason, old(Env()))
      {
        assert ids[i..][0] == ids[i] && ids[i..][1..] == ids[i + 1..];
        var one := CancelCapture(ids[i], reason);
        if one.Err? {
          return Err(one.error);
        }
        i := i + 1;
      }
      return Ok(|ids|);
    }

    method CancelCapture(id: string, reason: CancelReason) returns (result: Result<(), Diagnostic>)
      modifies this
      ensures Reply(Here(), result, Env()) == CancelOne(old(Here()), id, reason, old(Env()))
    {
      if id !in captures {
        return Err(MissingCapture(id));
      }
      var capture := captures[id];
      if capture.timer.Some? {
        var cancelled := Send(Deadlines.Cancel(capture.timer.value));
        if !cancelled {
          return Err(SchedulerFailed);
        }
      }
      capture := capture.(status := Cancelled(reason));
      var stored := Call();
      if !stored {
        return Err(Persistence);
      }
      captures := captures[id := capture];
      return Ok(());
    }

    method CollectUnsaved(order: seq<string>) returns (ids: seq<string>)
      ensures ids == UnsavedIn(order, captures)
    {
      hide UnsavedIn;
      ids := [];
      UnsavedNone(captures);
      assert order[0..] == order;
      var i := 0;
      while i < |order|
        invariant 0 <= i <= |order|
        invariant ids + UnsavedIn(order[i..], captures) == UnsavedIn(order, captures)
      {
        UnsavedNext(order, i, captures);
        ghost var rest := UnsavedIn(order[i + 1..], captures);
        assert ids + ([order[i]] + rest) == (ids + [order[i]]) + rest;
        if order[i] in captures && Unsaved(captures[order[i]]) {
          ids := ids + [order[i]];
        }
        i := i + 1;
      }
      assert order[|order|..] == [] && ids + [] == ids;
    }

    method OnTimer(timer: string, now: u64, a: RecorderAnswer) returns (result: Result<TimerOutcome, Diagnostic>)
      modifies this
      ensures Reply(Here(), result, Env()) == AfterTimer(old(Here()), timer, now, a, old(Env()))
    {
      hide AfterRequest;
      if timer !in timers {
        return Err(MissingCapture(timer));
      }
      var id := timers[timer];
      if id !in captures {
        return Err(MissingCapture(id));
      }
      var capture := captures[id];
      if capture.deadline.None? {
        return Ok(AlreadyHandled);
      }
      if now < capture.deadline.value {
        return Ok(NotDue);
      }
      if capture.status != Scheduled {
        return Ok(AlreadyHandled);
      }
      result := RequestCaptureSave(id, a);
    }

    method RetryCapture(id: string, a: RecorderAnswer) returns (result: Result<TimerOutcome, Diagnostic>)
      modifies this
      ensures Reply(Here(), result, Env()) == AfterRetry(old(Here()), id, a, old(Env()))
    {
      hide AfterRequest;
      if id !in captures {
        return Err(MissingCapture(id));
      }
      if !captures[id].status.Retryable? {
        return Ok(AlreadyHandled);
      }
      result := RequestCaptureSave(id, a);
    }

    method FlagManually(now: u64, windowFrom: u64, coverageFrom: u64, a: RecorderAnswer)
      returns (result: Result<string, Diagnostic>)
      modifies this
      ensures Reply(Here(), result, Env()) == AfterManual(old(Here()), now, windowFrom, coverageFrom, a, old(Env()))
    {
      hide AfterRequest;
      manualOrdinal := SatAdd(manualOrdinal, 1);
      var id := ManualId(now, manualOrdinal);
      var capture := ManualCapture(id, now, windowFrom, coverageFrom);
      var stored := Call();
      if !stored {
        return Err(Persistence);
      }
      captures := captures[id := capture];
      var requested := RequestCaptureSave(id, a);
      return if requested.Err? then Err(requested.error) else Ok(id);
    }

    method RequestCaptureSave(id: string, a: RecorderAnswer) returns (result: Result<TimerOutcome, Diagnostic>)
      modifies this
      ensures Reply(Here(), result, Env()) == AfterRequest(old(Here()), id, a, old(Env()))
    {
      if id !in captures {
        return Err(MissingCapture(id));
      }
      var capture := captures[id];
      if capture.kind == AutoRoundEnd {
        if capture.candidate.None? || capture.roundEnd.None? {
          return Err(InvalidDomain);
        }
        var window := AutoWindow(capture.candidate.value.range.start, capture.roundEnd.value, a.windowFrom);
        capture := capture.(window := Some(window), coverage := Some(RawCoverage(a.now, a.coverageFrom)));
      }
      capture := capture.(status := if a.save.Ok? then SaveRequested(a.save.value) else Retryable(a.save.error));
      var stored := Call();
      asked := asked + [Asked(id, a.now, a.save.Ok?, stored)];
      if !stored {
        return Err(Persistence);
      }
      captures := captures[id := capture];
      return if a.save.Ok? then Ok(SaveAsked) else Err(RecorderFailed(a.save.error));
    }
  }
}
