/** What each call of the live coordinator does, field by field
    (crates/openfrag-live/src/lib.rs:250-562): which captures and candidates appear, which commands
    reach the scheduler, what a request for a save leaves behind and which calls change nothing. */
module LiveCalls {
  import opened Prelude
  import opened Ordering
  import opened Text
  import opened Highlight
  import opened Live
  import Deadlines
  import Gsi
  import Supervisor

  // ----- Times and windows

  /** Receipts are stamped in nanoseconds and the coordinator counts whole milliseconds. */
  lemma MillisIs(r: Receipt)
    ensures Millis(r) < U64_MAX ==> Millis(r) * 1_000_000 <= r.receivedAt < (Millis(r) + 1) * 1_000_000
    ensures Millis(r) == U64_MAX ==> U64_MAX * 1_000_000 <= r.receivedAt
  {
  }

  /** A manual save reaches back fifteen seconds from the flag, as far as the recorder has media, and
      says so when that is less; its coverage reaches back sixty seconds. */
  lemma ManualWindowIs(flag: u64, availableFrom: u64)
    ensures var w, full := ManualWindow(flag, availableFrom), if flag < 15_000 then 0 else flag - 15_000;
      && w.requestedAt == w.desired.end == w.available.end == flag && w.desired.start == full
      && w.available.start == (if availableFrom < full then full else availableFrom)
      && (w.preRollTruncated <==> full < availableFrom)
    ensures var c, full := RawCoverage(flag, availableFrom), if flag < 60_000 then 0 else flag - 60_000;
      c.end == flag && c.start == if availableFrom < full then full else availableFrom
  {
  }

  // ----- Asking the recorder

  /** The next call to the store or the scheduler succeeds. */
  ghost predicate Succeeds(env: Environment) {
    0 < |env.answers| && env.answers[0]
  }

  /** One answer is used up, and nothing is sent. */
  ghost predicate OneCall(env: Environment, env': Environment) {
    env'.channel == env.channel && env'.answers == if env.answers == [] then [] else env.answers[1..]
  }

  /** Only this capture may differ. */
  ghost predicate OthersKept(st: State, st': State, id: string) {
    && st'.captures.Keys == st.captures.Keys
    && forall other :: other in st.captures && other != id ==> st'.captures[other] == st.captures[other]
  }

  /** The capture as it is when the recorder has answered: the answer is its status, and an automatic
      one has its window up to ten seconds after the round end and its coverage up to now. */
  ghost predicate Answered(c: Capture, c': Capture, a: RecorderAnswer) {
    && c' == c.(status := c'.status, window := c'.window, coverage := c'.coverage)
    && c'.status == (if a.save.Ok? then SaveRequested(a.save.value) else Retryable(a.save.error))
    && (c.kind == ManualFlag ==> c'.window == c.window && c'.coverage == c.coverage)
    && (c.kind == AutoRoundEnd && c.candidate.Some? && c.roundEnd.Some? ==>
          && c'.window == Some(AutoWindow(c.candidate.value.range.start, c.roundEnd.value, a.windowFrom))
          && c'.coverage == Some(RawCoverage(a.now, a.coverageFrom)))
  }

  /** The recorder was asked for this capture once more. */
  ghost predicate AskedFor(st: State, id: string, a: RecorderAnswer, env: Environment, reply: Reply<TimerOutcome>)
    requires id in st.captures
  {
    && OneCall(env, reply.rest)
    && reply.st.asked == st.asked + [Asked(id, a.now, a.save.Ok?, Succeeds(env))]
    && reply.st == st.(asked := reply.st.asked, captures := reply.st.captures)
    && OthersKept(st, reply.st, id)
    && (if Succeeds(env) then Answered(st.captures[id], reply.st.captures[id], a) else reply.st.captures == st.captures)
    && reply.r == if !Succeeds(env) then Err(Persistence)
                  else if a.save.Ok? then Ok(SaveAsked)
                  else Err(RecorderFailed(a.save.error))
  }

  /** Nothing is asked, stored or changed. */
  ghost predicate Untouched<T>(st: State, env: Environment, reply: Reply<T>, r: Result<T, Diagnostic>) {
    reply.st == st && reply.rest == env && reply.r == r
  }

  /** What a request needs: a round and a candidate, if the capture is automatic. */
  ghost predicate HasWindow(c: Capture) {
    c.kind == ManualFlag || (c.candidate.Some? && c.roundEnd.Some?)
  }

  lemma RequestIs(st: State, id: string, a: RecorderAnswer, env: Environment)
    ensures var reply := AfterRequest(st, id, a, env);
      if id !in st.captures then Untouched(st, env, reply, Err(MissingCapture(id)))
      else if !HasWindow(st.captures[id]) then Untouched(st, env, reply, Err(InvalidDomain))
      else AskedFor(st, id, a, env, reply)
  {
    hide AutoWindow;
    hide RawCoverage;
  }

  /** A capture whose save failed, and only such a one, is asked for again: one more request for it,
      and, once stored, it is requested or failed again as the recorder answered. */
  lemma RetryIs(st: State, last: u64, id: string, a: RecorderAnswer, env: Environment)
    requires Valid(st, last)
    ensures var reply := AfterRetry(st, id, a, env);
      if id !in st.captures then Untouched(st, env, reply, Err(MissingCapture(id)))
      else if !st.captures[id].status.Retryable? then Untouched(st, env, reply, Ok(AlreadyHandled))
      else AskedFor(st, id, a, env, reply)
  {
    hide AfterRequest;
    hide AskedFor;
    RequestIs(st, id, a, env);
    if id in st.captures {
      assert st.captures[id].kind == AutoRoundEnd ==> AutoShape(st.captures[id]);
    }
  }

  /** A timer asks for the capture it stands for exactly if that is still scheduled and due. */
  lemma TimerIs(st: State, last: u64, timer: string, now: u64, a: RecorderAnswer, env: Environment)
    requires Valid(st, last)
    ensures var reply := AfterTimer(st, timer, now, a, env);
      if timer !in st.timers then Untouched(st, env, reply, Err(MissingCapture(timer)))
      else
        var id := st.timers[timer];
        && id in st.captures && st.captures[id].deadline.Some?
        && if now < st.captures[id].deadline.value then Untouched(st, env, reply, Ok(NotDue))
           else if st.captures[id].status != Scheduled then Untouched(st, env, reply, Ok(AlreadyHandled))
           else AskedFor(st, id, a, env, reply)
  {
    hide AfterRequest;
    hide AskedFor;
    hide Untouched;
    if timer in st.timers {
      var id := st.timers[timer];
      RequestIs(st, id, a, env);
      assert st.captures[id].kind == AutoRoundEnd && AutoShape(st.captures[id]);
      TimerUntouched(st, timer, now, a, env);
    } else {
      TimerUntouched(st, timer, now, a, env);
    }
  }

  lemma TimerUntouched(st: State, timer: string, now: u64, a: RecorderAnswer, env: Environment)
    ensures var reply := AfterTimer(st, timer, now, a, env);
      && (timer !in st.timers ==> Untouched(st, env, reply, Err(MissingCapture(timer))))
      && (timer in st.timers && st.timers[timer] in st.captures && st.captures[st.timers[timer]].deadline.Some? ==>
            var c := st.captures[st.timers[timer]];
            && (now < c.deadline.value ==> Untouched(st, env, reply, Ok(NotDue)))
            && (c.deadline.value <= now && c.status != Scheduled ==> Untouched(st, env, reply, Ok(AlreadyHandled))))
  {
    hide AfterRequest;
  }

  /** A manual flag counts itself, stores a capture that reaches back from now, and asks for it; when
      the first store call fails there is nothing but the count. */
  lemma {:induction false} ManualIs(st: State, now: u64, windowFrom: u64, coverageFrom: u64, a: RecorderAnswer, env: Environment)
    ensures var reply := AfterManual(st, now, windowFrom, coverageFrom, a, env);
      var counted := st.(manualOrdinal := if st.manualOrdinal == U64_MAX then U64_MAX else st.manualOrdinal + 1);
      var id := "manual:" + Decimal(now) + ":" + Decimal(counted.manualOrdinal);
      if !Succeeds(env) then reply.st == counted && reply.r == Err(Persistence) && OneCall(env, reply.rest)
      else
        var c := Capture(id, ManualFlag, None, Supervisor.ManualFlag, {}, None, None, None, None,
                         Some(ManualWindow(now, windowFrom)), Some(RawCoverage(now, coverageFrom)), Requesting);
        var added := counted.(captures := st.captures[id := c]);
        exists asked :: AskedFor(added, id, a, Environment(env.answers[1..], env.channel), asked)
                        && reply.st == asked.st && reply.rest == asked.rest
                        && reply.r == if asked.r.Ok? then Ok(id) else Err(asked.r.error)
  {
    hide ManualWindow;
    hide RawCoverage;
    hide AfterRequest;
    hide AskedFor;
    if Succeeds(env) {
      var counted := st.(manualOrdinal := SatAdd(st.manualOrdinal, 1));
      var id := ManualId(now, counted.manualOrdinal);
      var added := WithCapture(counted, ManualCapture(id, now, windowFrom, coverageFrom));
      var rest := Environment(env.answers[1..], env.channel);
      RequestIs(added, id, a, rest);
      assert AskedFor(added, id, a, rest, AfterRequest(added, id, a, rest));
    }
  }

  // ----- One fact of a receipt

  /** The receipt says which map and round it is in. */
  ghost predicate Placed(r: Receipt) {
    r.context.mapHash.Some? && r.context.observedRound.Some?
  }

  ghost function RoundName(r: Receipt, round: nat): string
    requires Placed(r)
  {
    r.context.mapHash.value + ":" + Decimal(round)
  }

  /** The third kill of the round or a later one, as many as the receipt's own context says. */
  ghost predicate Milestone(r: Receipt, f: Gsi.TransitionFact) {
    && f.RoundKillDelta? && 0 <= f.previous && 0 < f.delta && 3 <= f.current <= 255
    && Placed(r) && r.context.roundKills == Some(f.current)
  }

  /** A candidate of one instant, from this receipt alone. */
  ghost function Instant(st: State, r: Receipt, round: string, trigger: Trigger): Candidate {
    Candidate(st.session, round, "highlight-rules-1", TimeRange(Millis(r), Millis(r)), {Millis(r)}, {trigger},
              {r.payloadHash + ":" + Decimal(r.sequence)})
  }

  ghost function NewCandidateFor(st: State, r: Receipt, f: Gsi.TransitionFact): Option<string> {
    if Milestone(r, f) && RoundName(r, r.context.observedRound.value) !in st.candidates
    then Some(RoundName(r, r.context.observedRound.value)) else None
  }

  ghost function NewCaptureFor(st: State, r: Receipt, f: Gsi.TransitionFact): Option<string> {
    if f.RoundEnd? && Placed(r) && "auto:" + RoundName(r, f.completed) !in st.captures
    then Some(RoundName(r, f.completed)) else None
  }

  /** The scheduled capture of a round: it goes off ten seconds after the end. */
  ghost predicate ScheduledFor(c: Capture, round: string, candidate: Candidate, r: Receipt) {
    && c.id == "auto:" + round && c.kind == AutoRoundEnd && c.round == Some(round)
    && c.provenance == Supervisor.AutoRoundEnd && c.status == Scheduled
    && c.candidate == Some(candidate) && c.sources == candidate.receipts
    && c.roundEnd == Some(Millis(r)) && c.deadline == Some(SatAdd(Millis(r), 10_000))
    && c.timer == Some("timer:" + c.id) && c.window.None? && c.coverage.None?
  }

  /** What is captured: the round end, joined with the kill milestone of the round if there is one that
      was not stamped more than ten seconds later. */
  ghost predicate Captured(st: State, r: Receipt, round: string, c: Candidate) {
    var official := Instant(st, r, round, OfficialRoundEndCapture);
    if round in st.candidates && st.candidates[round].range.start <= SatAdd(Millis(r), 10_000) then
      var m := st.candidates[round];
      && c.session == st.session && c.round == round && c.rule == "highlight-rules-1"
      && c.range == TimeRange(Min(m.range.start, Millis(r)), Max(m.range.end, Millis(r)))
      && c.starts == {m.range.start, Millis(r)} && c.triggers == {KillMilestone, OfficialRoundEndCapture}
      && c.receipts == m.receipts + official.receipts
    else c == official
  }

  lemma MilestoneIff(st: State, r: Receipt, f: Gsi.TransitionFact)
    ensures IsMilestone(f) ==>
              MilestoneRound(r, f.current) == if Milestone(r, f) then Some(RoundName(r, r.context.observedRound.value)) else None
    ensures Milestone(r, f) ==> IsMilestone(f)
    ensures f.RoundEnd? ==> EndedRound(r, f.completed) == if Placed(r) then Some(RoundName(r, f.completed)) else None
  {
  }

  /** A kill milestone of a round without one adds a candidate of that instant, if it can be stored. */
  lemma MilestoneIs(st: State, r: Receipt, f: Gsi.TransitionFact, env: Environment)
    requires NewCandidateFor(st, r, f).Some?
    ensures var reply := ApplyFact(st, r, f, env); var round := NewCandidateFor(st, r, f).value;
      && OneCall(env, reply.rest)
      && reply.st == (if Succeeds(env) then st.(candidates := st.candidates[round := Instant(st, r, round, KillMilestone)]) else st)
      && reply.r == if Succeeds(env) then Ok(IngestOutcome(1, 0, 0)) else Err(Persistence)
  {
    MilestoneIff(st, r, f);
  }

  /** Two more answers, and one more command. */
  ghost predicate Drawn(env: Environment, used: nat, sent: seq<Deadlines.Command>, env': Environment) {
    && env'.channel == env.channel + sent
    && env'.answers == if used <= |env.answers| then env.answers[used..] else []
  }

  /** The end of a round without a capture schedules one and stores it; if it cannot be stored the
      schedule is taken back, as far as the scheduler lets that happen, and nothing else changes. */
  lemma RoundEndIs(st: State, r: Receipt, f: Gsi.TransitionFact, env: Environment)
    requires CandidatesShaped(st) && NewCaptureFor(st, r, f).Some?
    ensures var reply := ApplyFact(st, r, f, env); var round := NewCaptureFor(st, r, f).value;
      if !Succeeds(env) then reply.st == st && reply.r == Err(SchedulerFailed) && OneCall(env, reply.rest)
      else if |env.answers| < 2 || !env.answers[1] then TakesBack(st, r, round, env, reply)
      else Schedules(st, r, round, env, reply)
  {
    hide Succeeds;
    hide OneCall;
    MilestoneIff(st, r, f);
    var round := NewCaptureFor(st, r, f).value;
    ScheduleIs(st, r, f.completed, round, env);
    hide ScheduleCapture;
    hide TakesBack;
    hide Schedules;
  }

  ghost predicate TakesBack<T>(st: State, r: Receipt, round: string, env: Environment, reply: Reply<T>) {
    var timer := "timer:" + ("auto:" + round);
    && reply.st == st && reply.r == Err(Persistence)
    && Drawn(env, 3, [Deadlines.Schedule(timer, SatAdd(Millis(r), 10_000))] +
                     if 2 < |env.answers| && env.answers[2] then [Deadlines.Cancel(timer)] else [], reply.rest)
  }

  ghost predicate Schedules(st: State, r: Receipt, round: string, env: Environment, reply: Reply<IngestOutcome>) {
    reply.r == Ok(IngestOutcome(0, 1, 0)) && Adds(st, r, round, env, reply.st, reply.rest)
  }

  ghost predicate Adds(st: State, r: Receipt, round: string, env: Environment, st': State, env': Environment) {
    var id := "auto:" + round; var timer := "timer:" + id;
    && Drawn(env, 2, [Deadlines.Schedule(timer, SatAdd(Millis(r), 10_000))], env')
    && id in st'.captures
    && st' == st.(captures := st.captures[id := st'.captures[id]], timers := st.timers[timer := id])
    && st'.captures[id].candidate.Some? && ScheduledFor(st'.captures[id], round, st'.captures[id].candidate.value, r)
    && Captured(st, r, round, st'.captures[id].candidate.value)
  }

  lemma ScheduleIs(st: State, r: Receipt, completed: nat, round: string, env: Environment)
    requires CandidatesShaped(st) && EndedRound(r, completed) == Some(round) && "auto:" + round !in st.captures
    ensures var reply := ScheduleCapture(st, r, completed, env);
      if !Succeeds(env) then reply.st == st && reply.r == Err(SchedulerFailed) && OneCall(env, reply.rest)
      else if |env.answers| < 2 || !env.answers[1] then TakesBack(st, r, round, env, reply)
      else reply.r == Ok(true) && Adds(st, r, round, env, reply.st, reply.rest)
  {
    hide Captured;
    hide CandidatesShaped;
    hide EndedRound;
    hide Adds;
    hide TakesBack;
    if Succeeds(env) {
      if |env.answers| < 2 || !env.answers[1] {
        ScheduleTakesBack(st, r, completed, round, env);
      } else {
        ScheduleAdds(st, r, completed, round, env);
      }
    } else {
      CapturedIs(st, r, round);
    }
  }

  lemma ScheduleTakesBack(st: State, r: Receipt, completed: nat, round: string, env: Environment)
    requires CandidatesShaped(st) && EndedRound(r, completed) == Some(round) && "auto:" + round !in st.captures
    requires Succeeds(env) && (|env.answers| < 2 || !env.answers[1])
    ensures TakesBack(st, r, round, env, ScheduleCapture(st, r, completed, env))
  {
    hide Captured;
    hide CandidatesShaped;
    hide EndedRound;
    hide CapturedCandidate;
    CapturedIs(st, r, round);
    assert !Granted(Remaining(env));
  }

  lemma ScheduleAdds(st: State, r: Receipt, completed: nat, round: string, env: Environment)
    requires CandidatesShaped(st) && EndedRound(r, completed) == Some(round) && "auto:" + round !in st.captures
    requires 2 <= |env.answers| && env.answers[0] && env.answers[1]
    ensures var reply := ScheduleCapture(st, r, completed, env);
      reply.r == Ok(true) && Adds(st, r, round, env, reply.st, reply.rest)
  {
    hide Captured;
    hide CandidatesShaped;
    hide EndedRound;
    hide CapturedCandidate;
    CapturedIs(st, r, round);
    assert Granted(env) && Granted(Remaining(env));
  }

  lemma CapturedIs(st: State, r: Receipt, round: string)
    requires CandidatesShaped(st)
    ensures CapturedCandidate(st, round, r).Some? && Captured(st, r, round, CapturedCandidate(st, round, r).value)
  {
    if round in st.candidates {
      CaptureCoversMilestone(st, round, r);
    }
  }

  /** Any other fact, or one whose round has its candidate or capture, changes nothing. */
  lemma OtherFactIs(st: State, r: Receipt, f: Gsi.TransitionFact, env: Environment)
    requires NewCandidateFor(st, r, f).None? && NewCaptureFor(st, r, f).None?
    ensures Untouched(st, env, ApplyFact(st, r, f, env), Ok(IngestOutcome(0, 0, 0)))
  {
    hide CapturedCandidate;
    MilestoneIff(st, r, f);
  }

  // ----- Cancelling

  /** An automatic capture that is waiting for its timer or for a retry. */
  ghost predicate Waiting(c: Capture) {
    c.kind == AutoRoundEnd && (c.status == Scheduled || c.status.Retryable?)
  }

  ghost predicate CancelsOne(st: State, st': State, id: string, reason: CancelReason)
    requires id in st.captures
  {
    st' == st.(captures := st.captures[id := st.captures[id].(status := Cancelled(reason))])
  }

  /** A capture with a timer is cancelled by telling the scheduler and then the store; whichever of the
      two refuses, it stays as it is. */
  lemma CancelOneIs(st: State, id: string, reason: CancelReason, env: Environment)
    requires id in st.captures && st.captures[id].timer.Some?
    ensures var reply := CancelOne(st, id, reason, env);
      var told := [Deadlines.Cancel(st.captures[id].timer.value)];
      if !Succeeds(env) then reply.st == st && reply.r == Err(SchedulerFailed) && OneCall(env, reply.rest)
      else if |env.answers| < 2 || !env.answers[1] then
        reply.st == st && reply.r == Err(Persistence) && Drawn(env, 2, told, reply.rest)
      else CancelsOne(st, reply.st, id, reason) && reply.r.Ok? && Drawn(env, 2, told, reply.rest)
  {
  }

  lemma {:induction false} UnsavedAre(order: seq<string>, captures: map<string, Capture>)
    ensures UnsavedIn(order, captures) == Filter(order, (id: string) => id in captures && Waiting(captures[id]))
  {
    if order != [] {
      UnsavedAre(order[1..], captures);
    }
  }

  /** One `Cancel` for each of these captures, in this order. */
  ghost predicate CancelsOf(captures: map<string, Capture>, ids: seq<string>, sent: seq<Deadlines.Command>) {
    && |sent| == |ids|
    && forall i :: 0 <= i < |ids| ==>
         ids[i] in captures && captures[ids[i]].timer.Some? && sent[i] == Deadlines.Cancel(captures[ids[i]].timer.value)
  }

  lemma DrawnTwice(env: Environment, n: nat, a: seq<Deadlines.Command>, mid: Environment, m: nat, b: seq<Deadlines.Command>, end: Environment)
    requires Drawn(env, n, a, mid) && Drawn(mid, m, b, end) && n <= |env.answers| && m <= |mid.answers|
    ensures Drawn(env, n + m, a + b, end)
  {
    assert env.answers[n..][m..] == env.answers[n + m..];
    assert env.channel + a + b == env.channel + (a + b);
  }

  lemma CancelsCons(captures: map<string, Capture>, captures': map<string, Capture>, ids: seq<string>, more: seq<Deadlines.Command>)
    requires ids != [] && ids[0] in captures && captures[ids[0]].timer.Some? && CancelsOf(captures', ids[1..], more)
    requires forall id :: id in captures' ==> id in captures && captures'[id].timer == captures[id].timer
    ensures CancelsOf(captures, ids, [Deadlines.Cancel(captures[ids[0]].timer.value)] + more)
  {
    forall i | 0 < i < |ids|
      ensures ids[i] in captures && captures[ids[i]].timer.Some? && more[i - 1] == Deadlines.Cancel(captures[ids[i]].timer.value)
    {
      assert ids[1..][i - 1] == ids[i];
    }
  }

  /** Getting through all of them takes two calls each and sends a `Cancel` for each. */
  lemma {:induction false} CancelAllSends(st: State, ids: seq<string>, reason: CancelReason, env: Environment)
    returns (sent: seq<Deadlines.Command>)
    requires forall id :: id in ids ==> id in st.captures && st.captures[id].timer.Some?
    requires CancelAll(st, ids, reason, env).r.Ok?
    ensures CancelsOf(st.captures, ids, sent) && Drawn(env, 2 * |ids|, sent, CancelAll(st, ids, reason, env).rest)
    ensures 2 * |ids| <= |env.answers|
    decreases |ids|
  {
    if ids == [] {
      sent := [];
    } else {
      assert ids[0] in ids;
      CancelOneIs(st, ids[0], reason, env);
      hide CancelOne;
      hide CancelsOf;
      hide Drawn;
      hide OneCall;
      var one := CancelOne(st, ids[0], reason, env);
      var told := [Deadlines.Cancel(st.captures[ids[0]].timer.value)];
      DrawnAnswers(env, 2, told, one.rest);
      var more := CancelAllSends(one.st, ids[1..], reason, one.rest);
      sent := told + more;
      CancelsCons(st.captures, one.st.captures, ids, more);
      DrawnTwice(env, 2, told, one.rest, 2 * |ids[1..]|, more, CancelAll(st, ids, reason, env).rest);
    }
  }

  lemma DrawnAnswers(env: Environment, n: nat, sent: seq<Deadlines.Command>, env': Environment)
    requires Drawn(env, n, sent, env') && n <= |env.answers|
    ensures |env'.answers| == |env.answers| - n
  {
  }

  /** Only captures differ, and only those that were waiting, by being cancelled. */
  ghost predicate CancelsSome(st: State, st': State, reason: CancelReason) {
    && st' == st.(captures := st'.captures) && st'.captures.Keys == st.captures.Keys
    && forall id :: id in st.captures && st'.captures[id] != st.captures[id] ==>
         Waiting(st.captures[id]) && st'.captures[id] == st.captures[id].(status := Cancelled(reason))
  }

  /** And all of those. */
  ghost predicate CancelsAll(st: State, st': State, reason: CancelReason) {
    && CancelsSome(st, st', reason)
    && forall id :: id in st.captures && Waiting(st.captures[id]) ==>
         st'.captures[id] == st.captures[id].(status := Cancelled(reason))
  }

  lemma CancelUnsavedIs(st: State, order: seq<string>, reason: CancelReason, env: Environment)
    requires IsOrder(order, st.captures)
    ensures var reply := CancelUnsaved(st, order, reason, env);
      && CancelsSome(st, reply.st, reason) && (reply.r.Ok? ==> CancelsAll(st, reply.st, reason))
  {
    hide CancelAll;
    hide IsOrder;
    hide UnsavedIn;
    OrderDistinct(order, st.captures);
    UnsavedDistinct(order, st.captures);
    var ids := UnsavedIn(order, st.captures);
    OrderCovers(order, st.captures);
    CancelProgress(st, ids, reason, env);
    assert forall id :: id in st.captures ==> (Unsaved(st.captures[id]) <==> Waiting(st.captures[id]));
  }

  // ----- A whole receipt

  /** The effect of a fact that gets through. */
  ghost predicate Took(st: State, st': State, r: Receipt, f: Gsi.TransitionFact) {
    if NewCandidateFor(st, r, f).Some? then
      var round := NewCandidateFor(st, r, f).value;
      st' == st.(candidates := st.candidates[round := Instant(st, r, round, KillMilestone)])
    else if NewCaptureFor(st, r, f).Some? then
      var round := NewCaptureFor(st, r, f).value; var id := "auto:" + round;
      && id in st'.captures && st'.captures[id].candidate.Some?
      && st' == st.(captures := st.captures[id := st'.captures[id]], timers := st.timers["timer:" + id := id])
      && ScheduledFor(st'.captures[id], round, st'.captures[id].candidate.value, r)
      && Captured(st, r, round, st'.captures[id].candidate.value)
    else st' == st
  }

  lemma FactTook(st: State, last: u64, r: Receipt, f: Gsi.TransitionFact, env: Environment)
    requires Valid(st, last)
    ensures var reply := ApplyFact(st, r, f, env);
      && (reply.r.Ok? ==> Took(st, reply.st, r, f) && Valid(reply.st, last)) && (reply.r.Err? ==> reply.st == st)
  {
    FactStep(st, last, r, f, env);
    hide ApplyFact;
    hide Milestone;
    hide Captured;
    hide ScheduledFor;
    hide Drawn;
    if NewCandidateFor(st, r, f).Some? {
      MilestoneIs(st, r, f, env);
    } else if NewCaptureFor(st, r, f).Some? {
      RoundEndIs(st, r, f, env);
    } else {
      OtherFactIs(st, r, f, env);
    }
  }

  /** The states between the facts, from `st` on. */
  ghost predicate TookEach(steps: seq<State>, r: Receipt, facts: seq<Gsi.TransitionFact>) {
    |steps| <= |facts| + 1 && forall i :: 0 <= i < |steps| - 1 ==> Took(steps[i], steps[i + 1], r, facts[i])
  }

  lemma {:induction false} FactsTook(st: State, last: u64, r: Receipt, facts: seq<Gsi.TransitionFact>, so: IngestOutcome, env: Environment)
    returns (steps: seq<State>)
    requires Valid(st, last)
    ensures steps != [] && steps[0] == st && TookEach(steps, r, facts)
    ensures var reply := ApplyFacts(st, r, facts, so, env);
      reply.st == steps[|steps| - 1] && (reply.r.Ok? <==> |steps| == |facts| + 1)
    decreases |facts|
  {
    hide ApplyFact;
    hide Took;
    hide Valid;
    if facts == [] {
      steps := [st];
    } else {
      FactTook(st, last, r, facts[0], env);
      var one := ApplyFact(st, r, facts[0], env);
      if one.r.Err? {
        steps := [st];
      } else {
        var more := FactsTook(one.st, last, r, facts[1..], AddOutcomes(so, one.r.value), one.rest);
        steps := [st] + more;
        forall i | 0 <= i < |steps| - 1
          ensures Took(steps[i], steps[i + 1], r, facts[i])
        {
          if i > 0 {
            assert facts[1..][i - 1] == facts[i];
          }
        }
      }
    }
  }

  /** Why the receipt cancels what is waiting, if it does. */
  ghost function Reason(r: Receipt): Option<CancelReason> {
    if r.output == Gsi.Stale then Some(BecauseStale) else if r.output == Gsi.SessionReset then Some(BecauseReset) else None
  }

  /** A receipt whose record cannot be stored, or that was processed before, changes nothing. */
  lemma IngestIdle(st: State, r: Receipt, order: seq<string>, env: Environment)
    requires !Succeeds(env) || r.payloadHash + ":" + Decimal(r.sequence) in st.processed
    ensures var reply := AfterIngest(st, r, order, env);
      reply.st == st && OneCall(env, reply.rest) && reply.r == if Succeeds(env) then Ok(IngestOutcome(0, 0, 0)) else Err(Persistence)
  {
  }

  /** A new receipt first cancels what is waiting, if it is stale or a reset, then takes its facts one
      by one, and is processed once all of them got through.  A failing call stops it after some of
      the captures or facts, and leaves the receipt to be ingested again. */
  lemma IngestIs(st: State, last: u64, r: Receipt, order: seq<string>, env: Environment) returns (steps: seq<State>)
    requires Valid(st, last) && IsOrder(order, st.captures) && Succeeds(env)
    requires r.payloadHash + ":" + Decimal(r.sequence) !in st.processed
    ensures TookEach(steps, r, r.facts)
    ensures steps != [] ==> if Reason(r).Some? then CancelsAll(st, steps[0], Reason(r).value) else steps[0] == st
    ensures var reply := AfterIngest(st, r, order, env);
      && (reply.r.Ok? <==> |steps| == |r.facts| + 1)
      && (reply.r.Ok? ==> reply.st == steps[|r.facts|].(processed := st.processed + {r.payloadHash + ":" + Decimal(r.sequence)}))
      && (reply.r.Err? && steps != [] ==> reply.st == steps[|steps| - 1])
      && (reply.r.Err? && steps == [] ==> Reason(r).Some? && CancelsSome(st, reply.st, Reason(r).value))
  {
    hide CancelUnsaved;
    hide CancelsAll;
    hide CancelsSome;
    hide ApplyFacts;
    hide Took;
    hide Valid;
    if Reason(r).Some? {
      CancelUnsavedIs(st, order, Reason(r).value, Remaining(env));
    }
    CancelKeepsValid(st, last, r, order, Remaining(env));
    var cancelled := Cancelling(st, r, order, Remaining(env));
    if cancelled.r.Err? {
      steps := [];
    } else {
      steps := FactsTook(cancelled.st, last, r, r.facts, IngestOutcome(0, 0, cancelled.r.value), cancelled.rest);
      TookKeepsProcessed(steps, r, r.facts);
      assert cancelled.st.processed == st.processed by {
        if Reason(r).Some? {
          KeepsProcessed(st, cancelled.st, Reason(r).value);
        }
      }
    }
  }

  lemma KeepsProcessed(st: State, st': State, reason: CancelReason)
    requires CancelsSome(st, st', reason)
    ensures st'.processed == st.processed
  {
  }

  lemma {:induction false} TookKeepsProcessed(steps: seq<State>, r: Receipt, facts: seq<Gsi.TransitionFact>)
    requires steps != [] && TookEach(steps, r, facts)
    ensures steps[|steps| - 1].processed == steps[0].processed
    decreases |steps|
  {
    var n := |steps| - 1;
    if n > 0 {
      TookKeepsProcessed(steps[..n], r, facts);
      assert Took(steps[n - 1], steps[n], r, facts[n - 1]);
    }
  }

  lemma CancelKeepsValid(st: State, last: u64, r: Receipt, order: seq<string>, env: Environment)
    requires Valid(st, last) && IsOrder(order, st.captures)
    ensures Valid(Cancelling(st, r, order, env).st, last)
  {
    hide CancelAll;
    hide Valid;
    if ReasonOf(r).Some? {
      UnsavedDistinct(order, st.captures);
      CancelStep(st, last, UnsavedIn(order, st.captures), ReasonOf(r).value, env);
    }
  }
}
