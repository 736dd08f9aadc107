/** The coordinator and the deadline driver together (crates/openfragd/src/live_runtime.rs:807-846).
    One round of the driver takes every due timer at once and dispatches them in order, stopping at
    the first that fails.  `armed` is the driver's schedule once its queue is drained. */
module LiveRuntime {
  import opened Prelude
  import Deadlines
  import Live

  datatype System = System(live: Live.State, armed: Deadlines.Timers)

  /** One dispatch: the clock at dispatch, the recorder's answer, the store's answers. */
  datatype Dispatch = Dispatch(now: u64, recorder: Live.RecorderAnswer, answers: seq<bool>)

  datatype Step =
    | Ingest(receipt: Live.Receipt, order: seq<string>, answers: seq<bool>)
    | Retry(id: string, recorder: Live.RecorderAnswer, answers: seq<bool>)
    | Flag(now: u64, windowFrom: u64, coverageFrom: u64, recorder: Live.RecorderAnswer, answers: seq<bool>)
    | Drive(now: u64, dispatches: seq<Dispatch>)

  function Env(answers: seq<bool>): Live.Environment {
    Live.Environment(answers, [])
  }

  function Dispatched(st: Live.State, timer: string, d: Dispatch): Live.Reply<Live.TimerOutcome> {
    Live.AfterTimer(st, timer, d.now, d.recorder, Env(d.answers))
  }

  function DispatchAll(st: Live.State, due: seq<string>, ds: seq<Dispatch>): Live.State
    requires |due| <= |ds|
    decreases |due|
  {
    if due == [] then st
    else
      var reply := Dispatched(st, due[0], ds[0]);
      if reply.r.Err? then reply.st else DispatchAll(reply.st, due[1..], ds[1..])
  }

  ghost function Due(sys: System, now: u64): seq<string> {
    Deadlines.DueSequence(sys.armed, now)
  }

  ghost function Perform(sys: System, step: Step): System
    requires step.Drive? ==> |Due(sys, step.now)| <= |step.dispatches|
  {
    match step
    case Ingest(receipt, order, answers) =>
      var reply := Live.AfterIngest(sys.live, receipt, order, Env(answers));
      System(reply.st, Deadlines.AppliedAll(sys.armed, reply.rest.channel))
    case Retry(id, recorder, answers) => sys.(live := Live.AfterRetry(sys.live, id, recorder, Env(answers)).st)
    case Flag(now, windowFrom, coverageFrom, recorder, answers) =>
      sys.(live := Live.AfterManual(sys.live, now, windowFrom, coverageFrom, recorder, Env(answers)).st)
    case Drive(now, dispatches) =>
      System(DispatchAll(sys.live, Due(sys, now), dispatches), sys.armed - Deadlines.DueSet(sys.armed, now))
  }

  // ----- What always holds

  ghost predicate IsAuto(st: Live.State, id: string) {
    id in st.captures && st.captures[id].kind == Live.AutoRoundEnd
  }

  /** Every automatic capture is known under its timer, and an armed timer is armed for its deadline. */
  ghost predicate Wired(sys: System) {
    forall id :: IsAuto(sys.live, id) ==>
      && Live.TimerFor(id) in sys.live.timers && sys.live.timers[Live.TimerFor(id)] == id
      && (Live.TimerFor(id) in sys.armed ==> sys.live.captures[id].deadline == Some(sys.armed[Live.TimerFor(id)]))
  }

  ghost predicate Waits(st: Live.State, id: string) {
    IsAuto(st, id) && st.captures[id].status == Live.Scheduled
  }

  /** Scheduled, and its timer will come. */
  ghost predicate OnTime(sys: System, id: string) {
    Waits(sys.live, id) && Live.TimerFor(id) in sys.armed
  }

  /** Scheduled, but no timer will ever ask for it. */
  ghost predicate Stranded(sys: System, id: string) {
    Waits(sys.live, id) && Live.TimerFor(id) !in sys.armed
  }

  ghost predicate Valid(sys: System, last: u64) {
    Live.Valid(sys.live, last) && Wired(sys)
  }

  lemma TimersDiffer(a: string, b: string)
    ensures Live.TimerFor(a) == Live.TimerFor(b) <==> a == b
  {
    assert Live.TimerFor(a)[6..] == a && Live.TimerFor(b)[6..] == b;
  }

  // ----- What an ingest sends

  lemma {:induction false} AppliedPush(m: Deadlines.Timers, cs: seq<Deadlines.Command>, c: Deadlines.Command)
    ensures Deadlines.AppliedAll(m, cs + [c]) == Deadlines.Applied(Deadlines.AppliedAll(m, cs), c)
    decreases |cs|
  {
    if cs == [] {
      assert [] + [c] == [c] && [c][1..] == [];
    } else {
      assert (cs + [c])[0] == cs[0] && (cs + [c])[1..] == cs[1..] + [c];
      AppliedPush(Deadlines.Applied(m, cs[0]), cs[1..], c);
    }
  }

  /** The system in the middle of an ingest that began with `armed`. */
  function Midway(st: Live.State, armed: Deadlines.Timers, env: Live.Environment): System {
    System(st, Deadlines.AppliedAll(armed, env.channel))
  }

  lemma {:induction false} CancelArmed(armed: Deadlines.Timers, env: Live.Environment, timer: string)
    ensures Deadlines.AppliedAll(armed, Live.Sending(env, Deadlines.Cancel(timer)).channel) ==
            Deadlines.AppliedAll(armed, env.channel) - {timer}
  {
    AppliedPush(armed, env.channel, Deadlines.Cancel(timer));
  }

  /** Cancelling one capture: cancelled, untouched, or stranded when only the store refuses. */
  lemma CancelOneWired(st: Live.State, armed: Deadlines.Timers, id: string, reason: Live.CancelReason, env: Live.Environment)
    requires Wired(Midway(st, armed, env)) && IsAuto(st, id) && st.captures[id].timer == Some(Live.TimerFor(id))
    ensures var reply := Live.CancelOne(st, id, reason, env); var before := Midway(st, armed, env);
      var after := Midway(reply.st, armed, reply.rest);
      && Wired(after)
      && after.live.timers == before.live.timers
      && after.armed == (if Live.Granted(env) then before.armed - {Live.TimerFor(id)} else before.armed)
      && reply.st == (if reply.r.Ok? then st.(captures := st.captures[id := st.captures[id].(status := Live.Cancelled(reason))]) else st)
      && (reply.r.Ok? <==> Live.Granted(env) && Live.Granted(Live.Remaining(env)))
      && (reply.r.Ok? ==> reply.rest.answers == env.answers[2..])
  {
    hide Live.TimerFor;
    hide Deadlines.AppliedAll;
    CancelArmed(armed, env, Live.TimerFor(id));
    var reply := Live.CancelOne(st, id, reason, env);
    var sent := Live.Sending(env, Deadlines.Cancel(Live.TimerFor(id)));
    assert Live.Remaining(sent).channel == sent.channel && Live.Remaining(env).channel == env.channel;
    if reply.r.Ok? {
      assert env.answers[1..][1..] == env.answers[2..];
    }
  }

  predicate Grants(answers: seq<bool>, n: nat) {
    n <= |answers| && forall i :: 0 <= i < n ==> answers[i]
  }

  /** The first `n` calls succeed and the next one does not. */
  predicate FailsAfter(answers: seq<bool>, n: nat) {
    Grants(answers, n) && (n == |answers| || !answers[n])
  }

  /** Captures that can be cancelled: automatic, under their timers. */
  ghost predicate Cancellable(st: Live.State, ids: seq<string>) {
    forall id :: id in ids ==> IsAuto(st, id) && st.captures[id].timer == Some(Live.TimerFor(id))
  }

  lemma CancellableRest(st: Live.State, ids: seq<string>, reason: Live.CancelReason)
    requires ids != [] && IsAuto(st, ids[0]) && Distinct(ids) && Cancellable(st, ids)
    ensures var st' := st.(captures := st.captures[ids[0] := st.captures[ids[0]].(status := Live.Cancelled(reason))]);
      Distinct(ids[1..]) && Cancellable(st', ids[1..]) && ids[0] !in ids[1..]
  {
    assert forall id :: id in ids[1..] ==> id in ids;
    assert forall i :: 0 <= i < |ids[1..]| ==> ids[1..][i] == ids[i + 1];
  }

  /** Whether a capture and its timer are as before. */
  ghost predicate Untouched(before: System, after: System, id: string) {
    && (id in before.live.captures <==> id in after.live.captures)
    && (id in before.live.captures ==> after.live.captures[id] == before.live.captures[id])
    && (Live.TimerFor(id) in before.armed <==> Live.TimerFor(id) in after.armed)
  }

  lemma {:induction false} CancelElsewhere(st: Live.State, armed: Deadlines.Timers, ids: seq<string>, reason: Live.CancelReason,
                                           env: Live.Environment, id: string)
    requires Wired(Midway(st, armed, env)) && Distinct(ids) && Cancellable(st, ids) && id !in ids
    ensures var reply := Live.CancelAll(st, ids, reason, env);
      && Wired(Midway(reply.st, armed, reply.rest)) && reply.st.timers == st.timers
      && Untouched(Midway(st, armed, env), Midway(reply.st, armed, reply.rest), id)
    decreases |ids|
  {
    hide Live.TimerFor;
    hide Live.CancelOne;
    hide Wired;
    hide Distinct;
    hide Deadlines.AppliedAll;
    if ids != [] {
      assert ids[0] in ids;
      CancelOneWired(st, armed, ids[0], reason, env);
      var one := Live.CancelOne(st, ids[0], reason, env);
      TimersDiffer(ids[0], id);
      if one.r.Ok? {
        CancellableRest(st, ids, reason);
        CancelElsewhere(one.st, armed, ids[1..], reason, one.rest, id);
      }
    }
  }

  /** The `k`-th capture to cancel loses its timer but not its status exactly when everything before
      it and its own cancel command succeed and its record does not. */
  lemma {:induction false} CancelHere(st: Live.State, armed: Deadlines.Timers, ids: seq<string>, reason: Live.CancelReason,
                                      env: Live.Environment, k: nat)
    requires Wired(Midway(st, armed, env)) && Distinct(ids) && Cancellable(st, ids)
    requires k < |ids| && OnTime(Midway(st, armed, env), ids[k])
    ensures var reply := Live.CancelAll(st, ids, reason, env); var after := Midway(reply.st, armed, reply.rest);
      && (Stranded(after, ids[k]) <==> FailsAfter(env.answers, 2 * k + 1))
      && (reply.r.Ok? ==> !Waits(reply.st, ids[k]))
    decreases |ids|
  {
    hide Live.TimerFor;
    hide Live.CancelOne;
    hide Wired;
    hide Distinct;
    hide Deadlines.AppliedAll;
    assert ids[0] in ids;
    CancelOneWired(st, armed, ids[0], reason, env);
    var one := Live.CancelOne(st, ids[0], reason, env);
    CancellableRest(st, ids, reason);
    if k == 0 {
      if one.r.Ok? {
        CancelElsewhere(one.st, armed, ids[1..], reason, one.rest, ids[0]);
      }
      GrantedFirst(env);
    } else {
      assert ids[1..][k - 1] == ids[k] && ids[k] != ids[0] by {
        assert ids[1..][k - 1] in ids[1..];
      }
      TimersDiffer(ids[0], ids[k]);
      if one.r.Ok? {
        CancelHere(one.st, armed, ids[1..], reason, one.rest, k - 1);
        ShiftAnswers(env.answers, 2 * k - 1);
      } else {
        NotGrantedSoon(env, 2 * k + 1);
      }
    }
  }

  lemma GrantedFirst(env: Live.Environment)
    ensures Live.Granted(env) && !Live.Granted(Live.Remaining(env)) <==> FailsAfter(env.answers, 1)
  {
  }

  lemma ShiftAnswers(answers: seq<bool>, n: nat)
    requires |answers| >= 2 && answers[0] && answers[1]
    ensures FailsAfter(answers[2..], n) <==> FailsAfter(answers, n + 2)
  {
    if FailsAfter(answers[2..], n) {
      forall i | 0 <= i < n + 2 ensures answers[i] {
        assert i < 2 || answers[2..][i - 2];
      }
    }
    if FailsAfter(answers, n + 2) {
      assert forall i :: 0 <= i < n ==> answers[2..][i] == answers[i + 2];
    }
  }

  lemma NotGrantedSoon(env: Live.Environment, n: nat)
    requires n >= 2 && !(Live.Granted(env) && Live.Granted(Live.Remaining(env)))
    ensures !FailsAfter(env.answers, n)
  {
  }

  // ----- Facts only add captures, on time

  /** Captures that were there are as before; captures that are new are on time. */
  ghost predicate Adds(before: System, after: System) {
    && Wired(after)
    && (forall id :: id in before.live.captures ==> Untouched(before, after, id))
    && (forall id :: id !in before.live.captures && Waits(after.live, id) ==> OnTime(after, id))
  }

  lemma AddsTransitive(a: System, b: System, c: System)
    requires Adds(a, b) && Adds(b, c)
    ensures Adds(a, c)
  {
    forall id | id in a.live.captures ensures Untouched(a, c, id) {
      assert Untouched(a, b, id) && Untouched(b, c, id);
    }
    forall id | id !in a.live.captures && Waits(c.live, id) ensures OnTime(c, id) {
      if id in b.live.captures {
        assert Untouched(b, c, id);
        assert Waits(b.live, id);
      }
    }
  }

  lemma AddsNothing(sys: System)
    requires Wired(sys)
    ensures Adds(sys, sys)
  {
  }

  /** Commands about a capture that does not exist. */
  lemma ArmedElsewhere(before: System, armed: Deadlines.Timers, id: string)
    requires Wired(before) && id !in before.live.captures
    requires forall t :: t != Live.TimerFor(id) ==> (t in armed <==> t in before.armed) && (t in armed ==> armed[t] == before.armed[t])
    ensures Adds(before, before.(armed := armed))
  {
    hide Live.TimerFor;
    forall other | other in before.live.captures ensures Live.TimerFor(other) != Live.TimerFor(id) {
      TimersDiffer(other, id);
    }
  }

  lemma CaptureAdded(before: System, armed: Deadlines.Timers, c: Live.Capture, d: u64)
    requires Wired(before) && c.id !in before.live.captures && c.kind == Live.AutoRoundEnd
    requires c.deadline == Some(d) && armed == before.armed[Live.TimerFor(c.id) := d]
    ensures var st := Live.WithCapture(before.live, c).(timers := before.live.timers[Live.TimerFor(c.id) := c.id]);
      Adds(before, System(st, armed))
  {
    hide Live.TimerFor;
    forall other | other in before.live.captures ensures Live.TimerFor(other) != Live.TimerFor(c.id) {
      TimersDiffer(other, c.id);
    }
  }

  lemma ScheduleWired(st: Live.State, armed: Deadlines.Timers, r: Live.Receipt, completed: nat, env: Live.Environment)
    requires Wired(Midway(st, armed, env))
    ensures var reply := Live.ScheduleCapture(st, r, completed, env);
      Adds(Midway(st, armed, env), Midway(reply.st, armed, reply.rest))
  {
    hide Live.TimerFor;
    hide Live.AutoId;
    hide Live.CapturedCandidate;
    hide Deadlines.AppliedAll;
    hide Wired;
    hide Adds;
    var before := Midway(st, armed, env);
    AddsNothing(before);
    var round := Live.EndedRound(r, completed);
    if round.Some? && Live.AutoId(round.value) !in st.captures {
      var id, d := Live.AutoId(round.value), SatAdd(Live.Millis(r), Live.AUTO_POST_ROLL_MS);
      var timer := Live.TimerFor(id);
      var sent := Live.ScheduleSent(env, round.value, r);
      AppliedPush(armed, env.channel, Deadlines.Schedule(timer, d));
      var left := Live.Remaining(sent);
      assert left.channel == sent.channel && Live.Remaining(left).channel == sent.channel;
      AppliedPush(armed, sent.channel, Deadlines.Cancel(timer));
      ArmedElsewhere(before, before.armed[timer := d], id);
      ArmedElsewhere(before, before.armed[timer := d] - {timer}, id);
      var candidate := Live.CapturedCandidate(st, round.value, r);
      if candidate.Some? {
        CaptureAdded(before, before.armed[timer := d], Live.AutoCapture(round.value, candidate.value, Live.Millis(r)), d);
      }
    }
  }

  lemma FactWired(st: Live.State, armed: Deadlines.Timers, r: Live.Receipt, f: Live.Gsi.TransitionFact, env: Live.Environment)
    requires Wired(Midway(st, armed, env))
    ensures var reply := Live.ApplyFact(st, r, f, env);
      Adds(Midway(st, armed, env), Midway(reply.st, armed, reply.rest))
  {
    hide Live.ScheduleCapture;
    hide Deadlines.AppliedAll;
    if Live.IsMilestone(f) {
    } else if f.RoundEnd? {
      ScheduleWired(st, armed, r, f.completed, env);
    }
  }

  lemma {:induction false} FactsWired(st: Live.State, armed: Deadlines.Timers, r: Live.Receipt, facts: seq<Live.Gsi.TransitionFact>,
                                      so: Live.IngestOutcome, env: Live.Environment)
    requires Wired(Midway(st, armed, env))
    ensures var reply := Live.ApplyFacts(st, r, facts, so, env);
      Adds(Midway(st, armed, env), Midway(reply.st, armed, reply.rest))
    decreases |facts|
  {
    hide Live.ApplyFact;
    hide Deadlines.AppliedAll;
    hide Untouched;
    hide OnTime;
    if facts == [] {
      AddsNothing(Midway(st, armed, env));
    } else {
      FactWired(st, armed, r, facts[0], env);
      var one := Live.ApplyFact(st, r, facts[0], env);
      if one.r.Ok? {
        var so' := Live.AddOutcomes(so, one.r.value);
        FactsWired(one.st, armed, r, facts[1..], so', one.rest);
        var all := Live.ApplyFacts(one.st, r, facts[1..], so', one.rest);
        AddsTransitive(Midway(st, armed, env), Midway(one.st, armed, one.rest), Midway(all.st, armed, all.rest));
      }
    }
  }

  // ----- One ingest

  /** The receipt cancels, everything before the capture's record succeeds, also its own cancel
      command, and storing the record fails. */
  ghost predicate CancelFails(st: Live.State, r: Live.Receipt, order: seq<string>, answers: seq<bool>, id: string) {
    && Live.ReasonOf(r).Some? && Live.ReceiptId(r) !in st.processed
    && var ids := Live.UnsavedIn(order, st.captures);
      exists k :: 0 <= k < |ids| && ids[k] == id && FailsAfter(answers, 2 * k + 2)
  }

  lemma {:induction false} UnsavedCancellable(st: Live.State, order: seq<string>)
    requires Live.CapturesShaped(st) && Live.IsOrder(order, st.captures)
    ensures var ids := Live.UnsavedIn(order, st.captures);
      && Distinct(ids) && Cancellable(st, ids)
      && (forall id :: id in ids <==> id in st.captures && Live.Unsaved(st.captures[id]))
  {
    Live.OrderDistinct(order, st.captures);
    Live.UnsavedDistinct(order, st.captures);
    Live.OrderCovers(order, st.captures);
  }

  /** What the cancelling of an ingest does to one capture. */
  lemma {:induction false} CancellingWired(sys: System, r: Live.Receipt, order: seq<string>, env: Live.Environment, id: string)
    requires Live.CapturesShaped(sys.live) && Wired(sys) && Live.IsOrder(order, sys.live.captures) && env.channel == []
    requires id in sys.live.captures
    ensures var reply := Live.Cancelling(sys.live, r, order, env); var after := Midway(reply.st, sys.armed, reply.rest);
      var ids := Live.UnsavedIn(order, sys.live.captures);
      && Wired(after) && id in after.live.captures
      && (OnTime(sys, id) ==> (Stranded(after, id) <==>
            Live.ReasonOf(r).Some? && exists k :: 0 <= k < |ids| && ids[k] == id && FailsAfter(env.answers, 2 * k + 1)))
      && (Live.ReasonOf(r).None? ==> after == sys)
  {
    hide Live.CancelAll;
    hide Live.UnsavedIn;
    hide Live.CapturesShaped;
    hide Live.IsOrder;
    hide Wired;
    hide Live.TimerFor;
    hide FailsAfter;
    assert Midway(sys.live, sys.armed, env) == sys;
    UnsavedCancellable(sys.live, order);
    Live.CancellingProgress(sys.live, r, order, env);
    var ids := Live.UnsavedIn(order, sys.live.captures);
    if Live.ReasonOf(r).Some? {
      KeepsWired(sys, ids, Live.ReasonOf(r).value, env);
      if OnTime(sys, id) {
        assert id in ids;
        CancelListed(sys, ids, Live.ReasonOf(r).value, env, id);
      }
    }
  }

  lemma {:induction false} CancelListed(sys: System, ids: seq<string>, reason: Live.CancelReason, env: Live.Environment, id: string)
    requires Wired(sys) && env.channel == [] && OnTime(sys, id)
    requires Distinct(ids) && Cancellable(sys.live, ids) && id in ids
    ensures var reply := Live.CancelAll(sys.live, ids, reason, env);
      Stranded(Midway(reply.st, sys.armed, reply.rest), id) <==>
      exists k :: 0 <= k < |ids| && ids[k] == id && FailsAfter(env.answers, 2 * k + 1)
  {
    hide Live.CancelAll;
    hide Wired;
    hide Live.TimerFor;
    hide FailsAfter;
    hide Cancellable;
    assert Midway(sys.live, sys.armed, env) == sys;
    var k :| 0 <= k < |ids| && ids[k] == id;
    forall j | 0 <= j < |ids| && ids[j] == id ensures j == k {
      DistinctPositions(ids, j, k);
    }
    CancelHere(sys.live, sys.armed, ids, reason, env, k);
  }

  lemma DistinctPositions(ids: seq<string>, j: nat, k: nat)
    requires Distinct(ids) && j < |ids| && k < |ids| && ids[j] == ids[k]
    ensures j == k
  {
  }

  lemma {:induction false} KeepsWired(sys: System, ids: seq<string>, reason: Live.CancelReason, env: Live.Environment)
    requires Wired(Midway(sys.live, sys.armed, env)) && Distinct(ids) && Cancellable(sys.live, ids)
    ensures var reply := Live.CancelAll(sys.live, ids, reason, env); Wired(Midway(reply.st, sys.armed, reply.rest))
    decreases |ids|
  {
    hide Live.TimerFor;
    hide Live.CancelOne;
    hide Wired;
    hide Distinct;
    hide Deadlines.AppliedAll;
    if ids != [] {
      assert ids[0] in ids;
      CancelOneWired(sys.live, sys.armed, ids[0], reason, env);
      var one := Live.CancelOne(sys.live, ids[0], reason, env);
      if one.r.Ok? {
        CancellableRest(sys.live, ids, reason);
        KeepsWired(sys.(live := one.st), ids[1..], reason, one.rest);
      }
    }
  }

  lemma PersistFirst(answers: seq<bool>, n: nat)
    requires answers != [] && answers[0]
    ensures FailsAfter(answers[1..], n) <==> FailsAfter(answers, n + 1)
  {
    if FailsAfter(answers[1..], n) {
      forall i | 0 <= i < n + 1 ensures answers[i] {
        assert i < 1 || answers[1..][i - 1];
      }
    }
    if FailsAfter(answers, n + 1) {
      assert forall i :: 0 <= i < n ==> answers[1..][i] == answers[i + 1];
    }
  }

  /** An ingest strands a capture exactly when its cancel command goes out and its record does not. */
  lemma IngestStrandsIff(sys: System, last: u64, r: Live.Receipt, order: seq<string>, answers: seq<bool>, id: string)
    requires Valid(sys, last) && Live.IsOrder(order, sys.live.captures) && OnTime(sys, id)
    ensures Stranded(Perform(sys, Ingest(r, order, answers)), id) <==> CancelFails(sys.live, r, order, answers, id)
  {
    hide Live.Cancelling;
    hide Live.ApplyFacts;
    hide Live.UnsavedIn;
    hide Live.Valid;
    hide Wired;
    hide Live.TimerFor;
    var env := Env(answers);
    ShapedCaptures(sys.live, last);
    if Live.Granted(env) && Live.ReceiptId(r) !in sys.live.processed {
      var rest := Live.Remaining(env);
      assert rest.answers == answers[1..] && rest.channel == [];
      CancellingWired(sys, r, order, rest, id);
      var cancelled := Live.Cancelling(sys.live, r, order, rest);
      var ids := Live.UnsavedIn(order, sys.live.captures);
      forall k | 0 <= k < |ids| ensures FailsAfter(answers[1..], 2 * k + 1) <==> FailsAfter(answers, 2 * k + 2) {
        PersistFirst(answers, 2 * k + 1);
      }
      if cancelled.r.Ok? {
        FactsWired(cancelled.st, sys.armed, r, r.facts, Live.IngestOutcome(0, 0, cancelled.r.value), cancelled.rest);
      }
    } else {
      assert !CancelFails(sys.live, r, order, answers, id);
    }
  }

  lemma ShapedCaptures(st: Live.State, last: u64)
    requires Live.Valid(st, last)
    ensures Live.CapturesShaped(st)
  {
  }

  lemma WiredAfterCancelling(sys: System, r: Live.Receipt, order: seq<string>, env: Live.Environment)
    requires Live.CapturesShaped(sys.live) && Wired(sys) && Live.IsOrder(order, sys.live.captures) && env.channel == []
    ensures var reply := Live.Cancelling(sys.live, r, order, env);
      Wired(Midway(reply.st, sys.armed, reply.rest)) && reply.st.captures.Keys == sys.live.captures.Keys
  {
    hide Live.CancelAll;
    hide Live.UnsavedIn;
    hide Wired;
    assert Midway(sys.live, sys.armed, env) == sys;
    UnsavedCancellable(sys.live, order);
    Live.CancellingProgress(sys.live, r, order, env);
    if Live.ReasonOf(r).Some? {
      KeepsWired(sys, Live.UnsavedIn(order, sys.live.captures), Live.ReasonOf(r).value, env);
    }
  }

  /** An ingest keeps the wiring; captures it adds are on time. */
  lemma IngestWired(sys: System, last: u64, r: Live.Receipt, order: seq<string>, answers: seq<bool>)
    requires Valid(sys, last) && Live.IsOrder(order, sys.live.captures)
    ensures var sys' := Perform(sys, Ingest(r, order, answers));
      && Valid(sys', last) && Live.Evolves(sys.live, sys'.live)
      && (forall id :: id !in sys.live.captures && Waits(sys'.live, id) ==> OnTime(sys', id))
  {
    hide Live.Cancelling;
    hide Live.ApplyFacts;
    hide Live.Valid;
    hide Wired;
    hide OnTime;
    var env := Env(answers);
    Live.IngestValid(sys.live, last, r, order, env);
    if Live.Granted(env) && Live.ReceiptId(r) !in sys.live.processed {
      var rest := Live.Remaining(env);
      ShapedCaptures(sys.live, last);
      WiredAfterCancelling(sys, r, order, rest);
      var cancelled := Live.Cancelling(sys.live, r, order, rest);
      if cancelled.r.Ok? {
        var so := Live.IngestOutcome(0, 0, cancelled.r.value);
        FactsWired(cancelled.st, sys.armed, r, r.facts, so, cancelled.rest);
        var applied := Live.ApplyFacts(cancelled.st, r, r.facts, so, cancelled.rest);
        var after := Midway(applied.st, sys.armed, applied.rest);
        assert Adds(Midway(cancelled.st, sys.armed, cancelled.rest), after);
        Relabelled(after, applied.st.processed + {Live.ReceiptId(r)});
        hide Adds;
      }
    }
  }

  /** Which receipts are processed does not matter for the wiring. */
  lemma Relabelled(sys: System, processed: set<string>)
    ensures var other := sys.(live := sys.live.(processed := processed));
      (Wired(other) <==> Wired(sys)) && forall id :: OnTime(other, id) <==> OnTime(sys, id)
  {
  }

  // ----- One round of the driver

  /** Dispatching this timer returns an error: it belongs to no capture, or its capture is scheduled,
      due, and not both accepted by the recorder and stored. */
  ghost predicate Fails(st: Live.State, timer: string, d: Dispatch) {
    || timer !in st.timers || st.timers[timer] !in st.captures
    || (var c := st.captures[st.timers[timer]];
        && c.deadline.Some? && d.now >= c.deadline.value && c.status == Live.Scheduled
        && !(d.recorder.save.Ok? && Live.Granted(Env(d.answers))))
  }

  lemma DispatchedShape(st: Live.State, last: u64, timer: string, d: Dispatch)
    requires Live.CapturesShaped(st) && Live.TimersShaped(st)
    ensures var reply := Dispatched(st, timer, d);
      && (reply.r.Err? <==> Fails(st, timer, d))
      && reply.st.timers == st.timers && reply.st.captures.Keys == st.captures.Keys
      && (forall id :: id in st.captures && Live.TimerFor(id) != timer ==> reply.st.captures[id] == st.captures[id])
  {
    hide Live.AutoId;
    hide Live.TimerFor;
    hide Live.ManualShape;
  }

  /** A due capture keeps waiting after its own dispatch exactly when the store refuses. */
  lemma OwnDispatch(st: Live.State, id: string, d: Dispatch)
    requires Live.CapturesShaped(st) && Waits(st, id)
    requires Live.TimerFor(id) in st.timers && st.timers[Live.TimerFor(id)] == id
    requires st.captures[id].deadline.Some? && st.captures[id].deadline.value <= d.now
    ensures Waits(Dispatched(st, Live.TimerFor(id), d).st, id) <==> !Live.Granted(Env(d.answers))
  {
    hide Live.AutoId;
    hide Live.TimerFor;
    hide Live.ManualShape;
  }

  lemma {:induction false} DispatchElsewhere(st: Live.State, due: seq<string>, ds: seq<Dispatch>, id: string)
    requires |due| <= |ds| && Live.CapturesShaped(st) && Live.TimersShaped(st)
    requires id in st.captures && Live.TimerFor(id) !in due
    ensures id in DispatchAll(st, due, ds).captures && DispatchAll(st, due, ds).captures[id] == st.captures[id]
    decreases |due|
  {
    hide Dispatched;
    hide Live.TimerFor;
    hide Live.CapturesShaped;
    hide Live.TimersShaped;
    if due != [] {
      assert due[0] in due;
      DispatchedShape(st, 0, due[0], ds[0]);
      var reply := Dispatched(st, due[0], ds[0]);
      if reply.r.Ok? {
        DispatchedShaped(st, due[0], ds[0]);
        DispatchElsewhere(reply.st, due[1..], ds[1..], id);
      }
    }
  }

  lemma DispatchedShaped(st: Live.State, timer: string, d: Dispatch)
    requires Live.CapturesShaped(st) && Live.TimersShaped(st)
    ensures Live.CapturesShaped(Dispatched(st, timer, d).st) && Live.TimersShaped(Dispatched(st, timer, d).st)
  {
    hide Live.AutoId;
    hide Live.TimerFor;
    hide Live.ManualShape;
  }

  lemma FailsAlike(st: Live.State, st': Live.State, timer: string, d: Dispatch)
    requires st'.timers == st.timers && st'.captures.Keys == st.captures.Keys
    requires timer in st.timers && st.timers[timer] in st.captures ==> st'.captures[st.timers[timer]] == st.captures[st.timers[timer]]
    ensures Fails(st', timer, d) <==> Fails(st, timer, d)
  {
  }

  /** After dispatching another timer, this one fails as before. */
  lemma FailsStill(st: Live.State, done: string, d0: Dispatch, timer: string, d: Dispatch)
    requires Live.CapturesShaped(st) && Live.TimersShaped(st) && timer != done
    ensures Fails(Dispatched(st, done, d0).st, timer, d) <==> Fails(st, timer, d)
  {
    hide Dispatched;
    hide Fails;
    hide Live.CapturesShaped;
    hide Live.TimerFor;
    DispatchedShape(st, 0, done, d0);
    FailsAlike(st, Dispatched(st, done, d0).st, timer, d);
  }

  ghost predicate SomeFails(st: Live.State, due: seq<string>, ds: seq<Dispatch>, k: nat)
    requires k <= |due| <= |ds|
  {
    exists i :: 0 <= i < k && Fails(st, due[i], ds[i])
  }

  lemma SomeFailsRest(st: Live.State, due: seq<string>, ds: seq<Dispatch>, k: nat)
    requires 0 < k <= |due| <= |ds| && Distinct(due) && !Fails(st, due[0], ds[0])
    requires Live.CapturesShaped(st) && Live.TimersShaped(st)
    ensures SomeFails(Dispatched(st, due[0], ds[0]).st, due[1..], ds[1..], k - 1) <==> SomeFails(st, due, ds, k)
  {
    hide Dispatched;
    hide Fails;
    hide Live.CapturesShaped;
    hide Live.TimersShaped;
    var st' := Dispatched(st, due[0], ds[0]).st;
    forall i | 0 < i < k ensures Fails(st', due[1..][i - 1], ds[1..][i - 1]) <==> Fails(st, due[i], ds[i]) {
      FailsStill(st, due[0], ds[0], due[i], ds[i]);
    }
    if SomeFails(st, due, ds, k) {
      var i :| 0 <= i < k && Fails(st, due[i], ds[i]);
      assert Fails(st', due[1..][i - 1], ds[1..][i - 1]);
    }
    if SomeFails(st', due[1..], ds[1..], k - 1) {
      var i :| 0 <= i < k - 1 && Fails(st', due[1..][i], ds[1..][i]);
      assert due[1..][i] == due[i + 1] && ds[1..][i] == ds[i + 1];
      assert Fails(st, due[i + 1], ds[i + 1]);
    }
  }

  /** The `k`-th due capture is left waiting exactly when an earlier dispatch fails or its own answer
      is not stored. */
  lemma {:induction false} LeftWaitingIff(st: Live.State, due: seq<string>, ds: seq<Dispatch>, id: string, k: nat)
    requires |due| <= |ds| && Distinct(due) && k < |due| && due[k] == Live.TimerFor(id)
    requires Live.CapturesShaped(st) && Live.TimersShaped(st)
    requires Waits(st, id) && due[k] in st.timers && st.timers[due[k]] == id
    requires st.captures[id].deadline.Some? && st.captures[id].deadline.value <= ds[k].now
    ensures Waits(DispatchAll(st, due, ds), id) <==> SomeFails(st, due, ds, k) || !Live.Granted(Env(ds[k].answers))
    decreases |due|
  {
    hide Dispatched;
    hide Live.TimerFor;
    hide Live.CapturesShaped;
    hide Live.TimersShaped;
    hide Fails;
    DispatchedShape(st, 0, due[0], ds[0]);
    DispatchedShaped(st, due[0], ds[0]);
    var reply := Dispatched(st, due[0], ds[0]);
    if k == 0 {
      OwnDispatch(st, id, ds[0]);
      if reply.r.Ok? {
        assert due[0] !in due[1..];
        DispatchElsewhere(reply.st, due[1..], ds[1..], id);
      }
    } else {
      assert due[0] != due[k];
      if reply.r.Ok? {
        assert due[1..][k - 1] == due[k] && ds[1..][k - 1] == ds[k];
        DistinctRest(due);
        SomeFailsRest(st, due, ds, k);
        LeftWaitingIff(reply.st, due[1..], ds[1..], id, k - 1);
      }
    }
  }

  lemma DistinctRest(due: seq<string>)
    requires due != [] && Distinct(due)
    ensures Distinct(due[1..])
  {
  }

  lemma {:induction false} DueDistinct(m: Deadlines.Timers, now: u64)
    ensures Distinct(Deadlines.DueSequence(m, now))
    decreases |m|
  {
    Deadlines.DueSequenceDone(m, now);
    if Deadlines.DueSet(m, now) != {} {
      var timer := Deadlines.FirstExists(m, now);
      Deadlines.DueSequenceStep(m, now, timer);
      Deadlines.Shorter(m, timer);
      DueDistinct(m - {timer}, now);
      Deadlines.DueSequenceElements(m - {timer}, now);
      var rest := Deadlines.DueSequence(m - {timer}, now);
      assert forall i :: 0 <= i < |rest| ==> rest[i] in rest;
    }
  }

  /** The capture's timer is due, and an earlier dispatch of the same round fails or the store
      refuses its own. */
  ghost predicate DriveFails(sys: System, now: u64, ds: seq<Dispatch>, id: string)
    requires |Due(sys, now)| <= |ds|
  {
    var due := Due(sys, now);
    exists k :: 0 <= k < |due| && due[k] == Live.TimerFor(id)
                && (SomeFails(sys.live, due, ds, k) || !Live.Granted(Env(ds[k].answers)))
  }

  /** The clock is read in order within one round of the driver. */
  ghost predicate InTime(now: u64, ds: seq<Dispatch>, n: nat)
    requires n <= |ds|
  {
    && (forall i :: 0 <= i < n ==> now <= ds[i].now <= ds[i].recorder.now)
    && (forall i, j :: 0 <= i < j < n ==> ds[i].recorder.now <= ds[j].now)
  }

  lemma ShapesOf(st: Live.State, last: u64)
    requires Live.Valid(st, last)
    ensures Live.CapturesShaped(st) && Live.TimersShaped(st)
  {
  }

  /** A round of the driver takes the due timers away, so a capture it fails to ask for is stranded,
      and so is every capture whose timer was due later in the same round. */
  lemma DriveStrandsIff(sys: System, last: u64, now: u64, ds: seq<Dispatch>, id: string)
    requires Valid(sys, last) && |Due(sys, now)| <= |ds| && InTime(now, ds, |Due(sys, now)|) && OnTime(sys, id)
    ensures Stranded(Perform(sys, Drive(now, ds)), id) <==> DriveFails(sys, now, ds, id)
  {
    hide Live.Valid;
    hide Live.TimerFor;
    hide DispatchAll;
    hide SomeFails;
    hide Live.CapturesShaped;
    hide Live.TimersShaped;
    var due, timer := Due(sys, now), Live.TimerFor(id);
    ShapesOf(sys.live, last);
    DueDistinct(sys.armed, now);
    Deadlines.DueSequenceElements(sys.armed, now);
    if timer in due {
      var k :| 0 <= k < |due| && due[k] == timer;
      forall j | 0 <= j < |due| && due[j] == timer ensures j == k {
        DistinctPositions(due, j, k);
      }
      assert timer in Deadlines.DueSet(sys.armed, now);
      LeftWaitingIff(sys.live, due, ds, id, k);
    } else {
      assert timer !in Deadlines.DueSet(sys.armed, now);
    }
  }

  // ----- Every step

  function LastReading(last: u64, ds: seq<Dispatch>, n: nat): u64
    requires n <= |ds|
  {
    if n == 0 then last else ds[n - 1].recorder.now
  }

  lemma {:induction false} DispatchAllValid(st: Live.State, last: u64, due: seq<string>, ds: seq<Dispatch>)
    requires |due| <= |ds| && Live.Valid(st, last) && InTime(last, ds, |due|)
    ensures var st' := DispatchAll(st, due, ds);
      && Live.Valid(st', LastReading(last, ds, |due|)) && Live.Evolves(st, st')
      && st'.timers == st.timers && st'.captures.Keys == st.captures.Keys
    decreases |due|
  {
    hide Dispatched;
    hide Live.Valid;
    hide Live.Evolves;
    if due == [] {
      Live.Unchanged(st);
    } else {
      var d := ds[0];
      var reply := Dispatched(st, due[0], d);
      DispatchValid(st, last, due[0], d);
      Live.LaterValid(reply.st, d.recorder.now, LastReading(last, ds, |due|));
      if reply.r.Ok? {
        assert forall i :: 0 <= i < |due| - 1 ==> ds[1..][i] == ds[i + 1];
        DispatchAllValid(reply.st, d.recorder.now, due[1..], ds[1..]);
        Live.EvolvesTransitive(st, reply.st, DispatchAll(reply.st, due[1..], ds[1..]));
      }
    }
  }

  lemma DispatchValid(st: Live.State, last: u64, timer: string, d: Dispatch)
    requires Live.Valid(st, last) && last <= d.now <= d.recorder.now
    ensures var st' := Dispatched(st, timer, d).st;
      Live.Valid(st', d.recorder.now) && Live.Evolves(st, st') && st'.timers == st.timers && st'.captures.Keys == st.captures.Keys
  {
    hide Live.Valid;
    hide Live.Evolves;
    hide Live.AfterTimer;
    Live.TimerValid(st, last, timer, d.now, d.recorder, Env(d.answers));
    ShapesOf(st, last);
    DispatchedShape(st, last, timer, d);
  }

  /** Evolving captures and disarming timers keeps the wiring. */
  lemma EvolvesWired(sys: System, sys': System)
    requires Wired(sys) && Live.Evolves(sys.live, sys'.live)
    requires forall t :: t in sys.live.timers ==> t in sys'.live.timers && sys'.live.timers[t] == sys.live.timers[t]
    requires forall id :: IsAuto(sys'.live, id) ==> id in sys.live.captures
    requires forall t :: t in sys'.armed ==> t in sys.armed && sys'.armed[t] == sys.armed[t]
    ensures Wired(sys')
  {
    hide Live.TimerFor;
    forall id | IsAuto(sys'.live, id)
      ensures IsAuto(sys.live, id) && sys'.live.captures[id].deadline == sys.live.captures[id].deadline
    {
      assert Live.CaptureEvolves(sys.live.captures[id], sys'.live.captures[id]);
    }
  }

  /** The environment is possible: maps are iterated completely, the clock does not run backwards,
      and every due timer has a dispatch. */
  ghost predicate Possible(sys: System, last: u64, step: Step) {
    match step
    case Ingest(_, order, _) => Live.IsOrder(order, sys.live.captures)
    case Retry(_, recorder, _) => last <= recorder.now
    case Flag(now, _, _, recorder, _) => last <= now <= recorder.now && sys.live.manualOrdinal < U64_MAX
    case Drive(now, ds) => last <= now && |Due(sys, now)| <= |ds| && InTime(now, ds, |Due(sys, now)|)
  }

  ghost function Later(sys: System, last: u64, step: Step): u64
    requires Possible(sys, last, step)
  {
    match step
    case Ingest(_, _, _) => last
    case Retry(_, recorder, _) => recorder.now
    case Flag(_, _, _, recorder, _) => recorder.now
    case Drive(now, ds) => LastReading(now, ds, |Due(sys, now)|)
  }

  lemma RetryTouches(st: Live.State, id: string, a: Live.RecorderAnswer, env: Live.Environment)
    ensures var st' := Live.AfterRetry(st, id, a, env).st; st'.timers == st.timers && st'.captures.Keys == st.captures.Keys
  {
  }

  lemma FlagTouches(st: Live.State, now: u64, windowFrom: u64, coverageFrom: u64, a: Live.RecorderAnswer, env: Live.Environment)
    ensures var st' := Live.AfterManual(st, now, windowFrom, coverageFrom, a, env).st;
      st'.timers == st.timers && forall id :: IsAuto(st', id) ==> id in st.captures
  {
    hide Live.ManualId;
  }

  /** Every step keeps the system valid, and its captures evolve. */
  lemma StepValid(sys: System, last: u64, step: Step)
    requires Valid(sys, last) && Possible(sys, last, step)
    ensures var sys' := Perform(sys, step); Valid(sys', Later(sys, last, step)) && Live.Evolves(sys.live, sys'.live)
  {
    hide Live.Valid;
    hide Live.Evolves;
    hide Live.AfterIngest;
    hide Live.AfterRetry;
    hide Live.AfterManual;
    hide DispatchAll;
    hide Wired;
    hide Deadlines.AppliedAll;
    var sys' := Perform(sys, step);
    match step {
      case Ingest(receipt, order, answers) => IngestWired(sys, last, receipt, order, answers);
      case Retry(id, recorder, answers) =>
        Live.RetryValid(sys.live, last, id, recorder, Env(answers));
        RetryTouches(sys.live, id, recorder, Env(answers));
        EvolvesWired(sys, sys');
      case Flag(now, windowFrom, coverageFrom, recorder, answers) =>
        Live.ManualValid(sys.live, last, now, windowFrom, coverageFrom, recorder, Env(answers));
        FlagTouches(sys.live, now, windowFrom, coverageFrom, recorder, Env(answers));
        EvolvesWired(sys, sys');
      case Drive(now, ds) =>
        Live.LaterValid(sys.live, last, now);
        DispatchAllValid(sys.live, now, Due(sys, now), ds);
        EvolvesWired(sys, sys');
    }
  }

  // ----- When a capture is stranded

  /** The step strands the capture: cancelling it went halfway, or a round of the driver failed at or
      before it. */
  ghost predicate Strands(sys: System, last: u64, step: Step, id: string)
    requires Possible(sys, last, step)
  {
    OnTime(sys, id) &&
    match step
    case Ingest(receipt, order, answers) => CancelFails(sys.live, receipt, order, answers, id)
    case Retry(_, _, _) => false
    case Flag(_, _, _, _, _) => false
    case Drive(now, ds) => DriveFails(sys, now, ds, id)
  }

  lemma EvolvedWaits(st: Live.State, st': Live.State, id: string)
    requires Live.Evolves(st, st') && id in st.captures && Waits(st', id)
    ensures Waits(st, id)
  {
    assert Live.CaptureEvolves(st.captures[id], st'.captures[id]);
  }

  /** Each step strands exactly the captures `Strands` says; captures that are new are on time. */
  lemma NewlyStrandedIff(sys: System, last: u64, step: Step, id: string)
    requires Valid(sys, last) && Possible(sys, last, step)
    ensures Stranded(Perform(sys, step), id) && !Stranded(sys, id) <==> Strands(sys, last, step, id)
  {
    hide Live.Valid;
    hide Live.Evolves;
    hide Live.AfterIngest;
    hide Live.AfterRetry;
    hide Live.AfterManual;
    hide DispatchAll;
    hide Wired;
    hide CancelFails;
    hide DriveFails;
    hide Live.TimerFor;
    hide Deadlines.AppliedAll;
    var sys' := Perform(sys, step);
    StepValid(sys, last, step);
    if id in sys.live.captures && Waits(sys'.live, id) {
      EvolvedWaits(sys.live, sys'.live, id);
    }
    match step {
      case Ingest(receipt, order, answers) =>
        IngestWired(sys, last, receipt, order, answers);
        if OnTime(sys, id) {
          IngestStrandsIff(sys, last, receipt, order, answers, id);
        }
      case Retry(other, recorder, answers) => RetryTouches(sys.live, other, recorder, Env(answers));
      case Flag(now, windowFrom, coverageFrom, recorder, answers) =>
        FlagTouches(sys.live, now, windowFrom, coverageFrom, recorder, Env(answers));
      case Drive(now, ds) =>
        Live.LaterValid(sys.live, last, now);
        DispatchAllValid(sys.live, now, Due(sys, now), ds);
        if OnTime(sys, id) {
          DriveStrandsIff(sys, last, now, ds, id);
        }
    }
  }

  // ----- A stranded capture stays so

  lemma {:induction false} CancelDisarms(st: Live.State, armed: Deadlines.Timers, ids: seq<string>, reason: Live.CancelReason,
                                         env: Live.Environment, timer: string)
    requires timer !in Deadlines.AppliedAll(armed, env.channel)
    ensures timer !in Deadlines.AppliedAll(armed, Live.CancelAll(st, ids, reason, env).rest.channel)
    ensures Live.CancelAll(st, ids, reason, env).st.asked == st.asked
    decreases |ids|
  {
    hide Deadlines.AppliedAll;
    if ids != [] && ids[0] in st.captures {
      var c := st.captures[ids[0]];
      if c.timer.Some? {
        CancelArmed(armed, env, c.timer.value);
      }
      var one := Live.CancelOne(st, ids[0], reason, env);
      assert Live.Remaining(env).channel == env.channel;
      if one.r.Ok? {
        CancelDisarms(one.st, armed, ids[1..], reason, one.rest, timer);
      }
    }
  }

  lemma {:induction false} FactsAskNothing(st: Live.State, r: Live.Receipt, facts: seq<Live.Gsi.TransitionFact>,
                                           so: Live.IngestOutcome, env: Live.Environment)
    ensures Live.ApplyFacts(st, r, facts, so, env).st.asked == st.asked
    decreases |facts|
  {
    hide Live.CapturedCandidate;
    if facts != [] {
      var one := Live.ApplyFact(st, r, facts[0], env);
      if one.r.Ok? {
        FactsAskNothing(one.st, r, facts[1..], Live.AddOutcomes(so, one.r.value), one.rest);
      }
    }
  }

  /** The step asks for other captures at most. */
  ghost predicate AsksOthers(st: Live.State, st': Live.State, id: string) {
    && st.asked <= st'.asked
    && forall k :: |st.asked| <= k < |st'.asked| ==> st'.asked[k].id != id
  }

  /** Stranded still, or cancelled for the receipt's reason. */
  ghost predicate LeftOrCancelled(sys: System, r: Live.Receipt, id: string) {
    Stranded(sys, id) || (id in sys.live.captures && sys.live.captures[id].status.Cancelled? && Live.ReasonOf(r).Some?)
  }

  lemma CancellingLeavesStranded(sys: System, r: Live.Receipt, order: seq<string>, env: Live.Environment, id: string)
    requires Live.CapturesShaped(sys.live) && Live.IsOrder(order, sys.live.captures) && env.channel == []
    requires Stranded(sys, id)
    ensures var reply := Live.Cancelling(sys.live, r, order, env);
      reply.st.asked == sys.live.asked && LeftOrCancelled(Midway(reply.st, sys.armed, reply.rest), r, id)
  {
    hide Live.CancelAll;
    hide Live.UnsavedIn;
    hide Live.CapturesShaped;
    hide Live.TimerFor;
    hide Live.IsOrder;
    hide Deadlines.AppliedAll;
    hide Cancellable;
    NothingSent(sys.armed);
    UnsavedCancellable(sys.live, order);
    var ids := Live.UnsavedIn(order, sys.live.captures);
    if Live.ReasonOf(r).Some? {
      CancelDisarms(sys.live, sys.armed, ids, Live.ReasonOf(r).value, env, Live.TimerFor(id));
      Live.CancelProgress(sys.live, ids, Live.ReasonOf(r).value, env);
    }
  }

  lemma {:induction false} FactsLeaveStranded(st: Live.State, armed: Deadlines.Timers, r: Live.Receipt, so: Live.IngestOutcome,
                           env: Live.Environment, id: string)
    requires Wired(Midway(st, armed, env)) && LeftOrCancelled(Midway(st, armed, env), r, id)
    ensures var reply := Live.ApplyFacts(st, r, r.facts, so, env);
      reply.st.asked == st.asked && LeftOrCancelled(Midway(reply.st, armed, reply.rest), r, id)
  {
    hide Live.ApplyFacts;
    hide Live.TimerFor;
    hide Deadlines.AppliedAll;
    hide Wired;
    FactsWired(st, armed, r, r.facts, so, env);
    FactsAskNothing(st, r, r.facts, so, env);
    var applied := Live.ApplyFacts(st, r, r.facts, so, env);
    assert Untouched(Midway(st, armed, env), Midway(applied.st, armed, applied.rest), id);
  }

  lemma IngestLeavesStranded(sys: System, last: u64, r: Live.Receipt, order: seq<string>, answers: seq<bool>, id: string)
    requires Valid(sys, last) && Live.IsOrder(order, sys.live.captures) && Stranded(sys, id)
    ensures var sys' := Perform(sys, Ingest(r, order, answers));
      AsksOthers(sys.live, sys'.live, id) && LeftOrCancelled(sys', r, id)
  {
    hide Live.Cancelling;
    hide Live.ApplyFacts;
    hide Live.Valid;
    hide Live.CapturesShaped;
    hide Live.TimerFor;
    hide Live.IsOrder;
    hide Wired;
    hide Deadlines.AppliedAll;
    var env := Env(answers);
    ShapedCaptures(sys.live, last);
    NothingSent(sys.armed);
    if Live.Granted(env) && Live.ReceiptId(r) !in sys.live.processed {
      var rest := Live.Remaining(env);
      assert rest.channel == [];
      WiredAfterCancelling(sys, r, order, rest);
      CancellingLeavesStranded(sys, r, order, rest, id);
      var cancelled := Live.Cancelling(sys.live, r, order, rest);
      if cancelled.r.Ok? {
        FactsLeaveStranded(cancelled.st, sys.armed, r, Live.IngestOutcome(0, 0, cancelled.r.value), cancelled.rest, id);
      }
    }
  }

  lemma {:induction false} NothingSent(m: Deadlines.Timers)
    ensures Deadlines.AppliedAll(m, []) == m
  {
  }

  lemma DispatchAsks(st: Live.State, timer: string, d: Dispatch, id: string)
    requires Live.TimersShaped(st) && timer != Live.TimerFor(id)
    ensures AsksOthers(st, Dispatched(st, timer, d).st, id)
  {
    hide Live.TimerFor;
  }

  lemma {:induction false} DispatchAllAsks(st: Live.State, due: seq<string>, ds: seq<Dispatch>, id: string)
    requires |due| <= |ds| && Live.CapturesShaped(st) && Live.TimersShaped(st) && Live.TimerFor(id) !in due
    ensures AsksOthers(st, DispatchAll(st, due, ds), id)
    decreases |due|
  {
    hide Dispatched;
    hide Live.TimerFor;
    hide Live.CapturesShaped;
    hide Live.TimersShaped;
    if due != [] {
      assert due[0] in due;
      DispatchAsks(st, due[0], ds[0], id);
      DispatchedShaped(st, due[0], ds[0]);
      var reply := Dispatched(st, due[0], ds[0]);
      if reply.r.Ok? {
        DispatchAllAsks(reply.st, due[1..], ds[1..], id);
      }
    }
  }

  lemma DriveLeavesStranded(sys: System, last: u64, now: u64, ds: seq<Dispatch>, id: string)
    requires Valid(sys, last) && |Due(sys, now)| <= |ds| && Stranded(sys, id)
    ensures var sys' := Perform(sys, Drive(now, ds)); AsksOthers(sys.live, sys'.live, id) && Stranded(sys', id)
  {
    hide Live.Valid;
    hide Live.TimerFor;
    hide DispatchAll;
    hide Live.CapturesShaped;
    hide Live.TimersShaped;
    ShapesOf(sys.live, last);
    Deadlines.DueSequenceElements(sys.armed, now);
    assert Live.TimerFor(id) !in Deadlines.DueSet(sys.armed, now);
    DispatchElsewhere(sys.live, Due(sys, now), ds, id);
    DispatchAllAsks(sys.live, Due(sys, now), ds, id);
  }

  lemma RetryLeavesWaiting(st: Live.State, other: string, a: Live.RecorderAnswer, env: Live.Environment, id: string)
    requires Waits(st, id)
    ensures var st' := Live.AfterRetry(st, other, a, env).st; AsksOthers(st, st', id) && Waits(st', id)
  {
  }

  lemma FlagLeavesWaiting(st: Live.State, now: u64, windowFrom: u64, coverageFrom: u64, a: Live.RecorderAnswer,
                          env: Live.Environment, id: string)
    requires Live.CapturesShaped(st) && st.manualOrdinal < U64_MAX && Waits(st, id)
    ensures var st' := Live.AfterManual(st, now, windowFrom, coverageFrom, a, env).st; AsksOthers(st, st', id) && Waits(st', id)
  {
    hide Live.ManualId;
    hide Live.CapturesShaped;
    Live.ManualIdFresh(st, now);
  }

  /** Nothing ever asks for a stranded capture: it stays stranded until a stale or reset receipt
      cancels it. */
  lemma StrandedStays(sys: System, last: u64, step: Step, id: string)
    requires Valid(sys, last) && Possible(sys, last, step) && Stranded(sys, id)
    ensures var sys' := Perform(sys, step);
      && AsksOthers(sys.live, sys'.live, id)
      && (Stranded(sys', id) || (step.Ingest? && Live.ReasonOf(step.receipt).Some?
                                 && id in sys'.live.captures && sys'.live.captures[id].status.Cancelled?))
  {
    hide Live.Valid;
    hide Live.AfterIngest;
    hide Live.AfterRetry;
    hide Live.AfterManual;
    hide DispatchAll;
    hide Wired;
    hide AsksOthers;
    hide Live.TimerFor;
    ShapedCaptures(sys.live, last);
    match step {
      case Ingest(receipt, order, answers) => IngestLeavesStranded(sys, last, receipt, order, answers, id);
      case Retry(other, recorder, answers) => RetryLeavesWaiting(sys.live, other, recorder, Env(answers), id);
      case Flag(now, windowFrom, coverageFrom, recorder, answers) =>
        FlagLeavesWaiting(sys.live, now, windowFrom, coverageFrom, recorder, Env(answers), id);
      case Drive(now, ds) => DriveLeavesStranded(sys, last, now, ds, id);
    }
  }

  // ----- Runs

  ghost predicate PossibleRun(session: string, steps: seq<Step>)
    decreases |steps|, 0
  {
    steps == [] ||
    var before := steps[..|steps| - 1];
    PossibleRun(session, before) && Possible(Run(session, before).0, Run(session, before).1, steps[|steps| - 1])
  }

  /** The system after the steps and the last clock reading. */
  ghost function Run(session: string, steps: seq<Step>): (System, u64)
    requires PossibleRun(session, steps)
    decreases |steps|, 1
  {
    if steps == [] then (System(Live.Initial(session), map[]), 0)
    else
      var (sys, last) := Run(session, steps[..|steps| - 1]);
      (Perform(sys, steps[|steps| - 1]), Later(sys, last, steps[|steps| - 1]))
  }

  lemma {:induction false} RunValid(session: string, steps: seq<Step>)
    requires PossibleRun(session, steps)
    ensures Valid(Run(session, steps).0, Run(session, steps).1)
  {
    hide Valid;
    hide Perform;
    hide Possible;
    hide Later;
    if steps == [] {
      InitiallyValid(session);
    } else {
      var before := steps[..|steps| - 1];
      RunValid(session, before);
      StepValid(Run(session, before).0, Run(session, before).1, steps[|steps| - 1]);
    }
  }

  lemma InitiallyValid(session: string)
    ensures Valid(System(Live.Initial(session), map[]), 0)
  {
    Live.InitiallyValid(session);
  }

  /** Step `k` of the run strands the capture. */
  ghost predicate StrandedAt(session: string, steps: seq<Step>, k: nat, id: string)
    requires PossibleRun(session, steps)
  {
    && k < |steps| && PossibleRun(session, steps[..k])
    && var (sys, last) := Run(session, steps[..k]);
    Possible(sys, last, steps[k]) && Strands(sys, last, steps[k], id)
  }

  /** A scheduled capture has its timer armed for its deadline, unless some step of the run stranded
      it: a cancel that went halfway, or a failing round of the driver. */
  lemma {:induction false} OnTimeUnlessStranded(session: string, steps: seq<Step>, id: string)
    requires PossibleRun(session, steps) && Waits(Run(session, steps).0.live, id)
    ensures OnTime(Run(session, steps).0, id) || exists k: nat :: StrandedAt(session, steps, k, id)
    decreases |steps|
  {
    hide Valid;
    hide Perform;
    hide Possible;
    hide Later;
    hide Strands;
    hide OnTime;
    hide Stranded;
    if steps == [] {
      assert false;
    } else {
      var n := |steps| - 1;
      var before := steps[..n];
      var (sys, last) := Run(session, before);
      RunValid(session, before);
      NewlyStrandedIff(sys, last, steps[n], id);
      WaitsEither(sys, id);
      WaitsEither(Run(session, steps).0, id);
      if Strands(sys, last, steps[n], id) {
        assert StrandedAt(session, steps, n, id);
      } else if Stranded(sys, id) {
        OnTimeUnlessStranded(session, before, id);
        var k: nat :| StrandedAt(session, before, k, id);
        assert before[..k] == steps[..k];
        assert StrandedAt(session, steps, k, id);
      }
    }
  }

  lemma WaitsEither(sys: System, id: string)
    ensures Waits(sys.live, id) <==> OnTime(sys, id) || Stranded(sys, id)
    ensures !(OnTime(sys, id) && Stranded(sys, id))
  {
  }

  // ----- It happens

  const TWO_ENDS := Live.Gsi.EvidenceReceipt(
    1, 0, "h", Live.Gsi.Presence([]), Live.Gsi.EvidenceContext(Some("m"), Some(3), None, None, None), Live.Gsi.Healthy,
    [Live.Gsi.RoundEnd(1, 2), Live.Gsi.RoundEnd(2, 3)])

  function RoundCapture(round: nat): string {
    Live.AutoId(Live.RoundId("m", round))
  }

  /** A granted round end schedules its capture ten seconds later. */
  lemma RoundEndWaits(st: Live.State, completed: nat, env: Live.Environment)
    requires RoundCapture(completed) !in st.captures && |env.answers| >= 2 && env.answers[0] && env.answers[1]
    ensures var reply := Live.ApplyFact(st, TWO_ENDS, Live.Gsi.RoundEnd(completed, completed + 1), env); var id := RoundCapture(completed);
      && reply.r.Ok? && Waits(reply.st, id) && reply.st.captures[id].deadline == Some(10_000)
      && reply.st.captures.Keys == st.captures.Keys + {id}
      && (forall other :: other in st.captures ==> reply.st.captures[other] == st.captures[other])
      && reply.rest == Live.Environment(env.answers[2..], env.channel + [Deadlines.Schedule(Live.TimerFor(id), 10_000)])
  {
    hide Live.AutoId;
    hide Live.RoundId;
    hide Live.TimerFor;
    hide Live.CapturedCandidate;
    Live.CandidateAlwaysCaptured(st, Live.RoundId("m", completed), TWO_ENDS);
    assert env.answers[1..][1..] == env.answers[2..];
  }

  /** Both of two captures on time, due at ten seconds, and nothing else armed. */
  ghost predicate TwoDue(sys: System, a: string, b: string) {
    && a != b && OnTime(sys, a) && OnTime(sys, b)
    && sys.live.captures[a].deadline == Some(10_000) && sys.live.captures[b].deadline == Some(10_000)
    && sys.armed == map[Live.TimerFor(a) := 10_000, Live.TimerFor(b) := 10_000]
  }

  lemma TwoRoundsEnd()
    ensures var sys := Perform(System(Live.Initial("s"), map[]), Ingest(TWO_ENDS, [], [true, true, true, true, true]));
      Valid(sys, 0) && TwoDue(sys, RoundCapture(1), RoundCapture(2))
  {
    hide Live.ApplyFact;
    hide RoundCapture;
    hide Live.TimerFor;
    hide Valid;
    hide Deadlines.AppliedAll;
    var start, answers := System(Live.Initial("s"), map[]), [true, true, true, true, true];
    InitiallyValid("s");
    IngestWired(start, 0, TWO_ENDS, [], answers);
    RoundCapturesDiffer();
    var env := Live.Remaining(Env(answers));
    assert env.answers == [true, true, true, true];
    assert Live.Cancelling(start.live, TWO_ENDS, [], env) == Live.Reply(start.live, Ok(0), env);
    RoundEndWaits(start.live, 1, env);
    var one := Live.ApplyFact(start.live, TWO_ENDS, TWO_ENDS.facts[0], env);
    assert env.answers[2..] == [true, true];
    RoundEndWaits(one.st, 2, one.rest);
    assert TWO_ENDS.facts[1..] == [TWO_ENDS.facts[1]] && TWO_ENDS.facts[1..][1..] == [];
    var two := Live.ApplyFact(one.st, TWO_ENDS, TWO_ENDS.facts[1], one.rest);
    TwoSchedules(Live.TimerFor(RoundCapture(1)), Live.TimerFor(RoundCapture(2)));
    assert two.rest.channel == [Deadlines.Schedule(Live.TimerFor(RoundCapture(1)), 10_000),
                                Deadlines.Schedule(Live.TimerFor(RoundCapture(2)), 10_000)];
  }

  lemma TwoSchedules(a: string, b: string)
    ensures Deadlines.AppliedAll(map[], [Deadlines.Schedule(a, 10_000), Deadlines.Schedule(b, 10_000)]) ==
            map[a := 10_000, b := 10_000]
  {
    var cs := [Deadlines.Schedule(a, 10_000), Deadlines.Schedule(b, 10_000)];
    assert cs[1..] == [cs[1]] && [cs[1]][1..] == [];
    var one := Deadlines.Applied(map[], cs[0]);
    assert one == map[a := 10_000];
    assert Deadlines.AppliedAll(one, [cs[1]]) == Deadlines.AppliedAll(Deadlines.Applied(one, cs[1]), []);
  }

  lemma RoundCapturesDiffer()
    ensures RoundCapture(1) != RoundCapture(2)
  {
    Live.RoundIdsDiffer("m", 1, "m", 2);
  }

  /** Of two due captures the second is stranded when the recorder refuses the first. */
  lemma SecondIsStranded(sys: System, a: string, b: string, first: Dispatch, other: Dispatch)
    requires Valid(sys, 0) && TwoDue(sys, a, b) && first.recorder.save.Err?
    requires 10_000 == first.now <= first.recorder.now <= other.now <= other.recorder.now
    ensures Possible(sys, 0, Drive(10_000, [first, other]))
    ensures exists id :: Stranded(Perform(sys, Drive(10_000, [first, other])), id)
  {
    hide Live.TimerFor;
    hide Perform;
    hide Live.Valid;
    var ds := [first, other];
    var due := Due(sys, 10_000);
    var tA, tB := Live.TimerFor(a), Live.TimerFor(b);
    TimersDiffer(a, b);
    Deadlines.DueSequenceElements(sys.armed, 10_000);
    DueDistinct(sys.armed, 10_000);
    assert Deadlines.DueSet(sys.armed, 10_000) == {tA, tB};
    assert |due| == 2 && due[0] in due && due[1] in due && due[0] != due[1];
    var id := if due[0] == tA then b else a;
    assert due[1] == Live.TimerFor(id);
    assert Fails(sys.live, due[0], first);
    assert SomeFails(sys.live, due, ds, 1);
    assert DriveFails(sys, 10_000, ds, id);
    DriveStrandsIff(sys, 0, 10_000, ds, id);
  }

  /** Two rounds end in one receipt and every store call works.  When the recorder refuses the first
      dispatch of the next driver round, the other capture is stranded, whatever would have been
      answered to it. */
  lemma FailingDispatchStrands(rejected: string, other: Dispatch)
    requires 10_000 <= other.now <= other.recorder.now
    ensures var first := Dispatch(10_000, Live.RecorderAnswer(10_000, 0, 0, Err(rejected)), [true]);
      var steps := [Ingest(TWO_ENDS, [], [true, true, true, true, true]), Drive(10_000, [first, other])];
      PossibleRun("s", steps) && exists id :: Stranded(Run("s", steps).0, id)
  {
    hide Perform;
    hide Valid;
    hide TwoDue;
    var first := Dispatch(10_000, Live.RecorderAnswer(10_000, 0, 0, Err(rejected)), [true]);
    var steps := [Ingest(TWO_ENDS, [], [true, true, true, true, true]), Drive(10_000, [first, other])];
    var start := System(Live.Initial("s"), map[]);
    TwoRoundsEnd();
    var sys := Perform(start, steps[0]);
    SecondIsStranded(sys, RoundCapture(1), RoundCapture(2), first, other);
    assert steps[..1] == [steps[0]] && steps[..1][..0] == [] && |steps| == 2;
    assert PossibleRun("s", []) && Run("s", []) == (start, 0);
    assert Possible(start, 0, steps[0]);
    assert PossibleRun("s", steps[..1]) && Run("s", steps[..1]) == (sys, 0);
    assert PossibleRun("s", steps) && Run("s", steps).0 == Perform(sys, steps[1]);
  }

  // ----- The program's form

  lemma {:induction false} AppliedConcat(m: Deadlines.Timers, a: seq<Deadlines.Command>, b: seq<Deadlines.Command>)
    ensures Deadlines.AppliedAll(m, a + b) == Deadlines.AppliedAll(Deadlines.AppliedAll(m, a), b)
    decreases |a|
  {
    if a == [] {
      assert a + b == b;
    } else {
      assert (a + b)[1..] == a[1..] + b;
      AppliedConcat(Deadlines.Applied(m, a[0]), a[1..], b);
    }
  }

  /** The first failing dispatch ends the round. */
  function FirstError(st: Live.State, due: seq<string>, ds: seq<Dispatch>): Option<Live.Diagnostic>
    requires |due| <= |ds|
    decreases |due|
  {
    if due == [] then None
    else
      var reply := Dispatched(st, due[0], ds[0]);
      if reply.r.Err? then Some(reply.r.error) else FirstError(reply.st, due[1..], ds[1..])
  }

  /** `RuntimeDriver`: the coordinator's scheduler and the driver share one channel. */
  class RuntimeDriver {
    const coordinator: Live.Coordinator
    const driver: Deadlines.DeadlineDriver

    constructor (session: string)
      ensures fresh(coordinator) && fresh(driver)
      ensures Here() == System(Live.Initial(session), map[])
    {
      coordinator := new Live.Coordinator(session, []);
      driver := new Deadlines.DeadlineDriver();
    }

    ghost function Here(): System
      reads coordinator, driver
    {
      System(coordinator.Here(), Deadlines.AppliedAll(driver.deadlines, driver.queue))
    }

    method Expect(answers: seq<bool>)
      modifies coordinator`answers, coordinator`channel
      ensures coordinator.Env() == Env(answers) && Here() == old(Here())
    {
      coordinator.answers, coordinator.channel := answers, [];
    }

    method IngestReceipt(receipt: Live.Receipt, order: seq<string>, answers: seq<bool>)
      returns (r: Result<Live.IngestOutcome, Live.Diagnostic>)
      modifies coordinator, driver`queue
      ensures Here() == Perform(old(Here()), Ingest(receipt, order, answers))
      ensures r == Live.AfterIngest(old(Here()).live, receipt, order, Env(answers)).r
    {
      hide Live.AfterIngest;
      hide Deadlines.AppliedAll;
      Expect(answers);
      r := coordinator.Ingest(receipt, order);
      AppliedConcat(driver.deadlines, driver.queue, coordinator.channel);
      driver.queue := driver.queue + coordinator.channel;
    }

    method RetryCapture(id: string, recorder: Live.RecorderAnswer, answers: seq<bool>)
      returns (r: Result<Live.TimerOutcome, Live.Diagnostic>)
      modifies coordinator
      ensures Here() == Perform(old(Here()), Retry(id, recorder, answers))
    {
      hide Live.AfterRetry;
      Expect(answers);
      r := coordinator.RetryCapture(id, recorder);
    }

    method ManualFlag(now: u64, windowFrom: u64, coverageFrom: u64, recorder: Live.RecorderAnswer, answers: seq<bool>)
      returns (r: Result<string, Live.Diagnostic>)
      modifies coordinator
      ensures Here() == Perform(old(Here()), Flag(now, windowFrom, coverageFrom, recorder, answers))
    {
      hide Live.AfterManual;
      Expect(answers);
      r := coordinator.FlagManually(now, windowFrom, coverageFrom, recorder);
    }

    /** One round: take everything due, then dispatch until one fails. */
    method DriveOnce(now: u64, dispatches: seq<Dispatch>) returns (r: Result<nat, Live.Diagnostic>)
      requires |Due(Here(), now)| <= |dispatches|
      modifies coordinator, driver
      ensures Here() == Perform(old(Here()), Drive(now, dispatches))
      ensures var due := Due(old(Here()), now);
        r == match FirstError(old(Here()).live, due, dispatches)
             case None => Ok(|due|)
             case Some(error) => Err(error)
    {
      hide Live.AfterTimer;
      hide Deadlines.DueSequence;
      hide Deadlines.DueSet;
      var due := driver.TakeDue(now);
      ghost var armed := driver.deadlines;
      var i := 0;
      while i < |due|
        invariant 0 <= i <= |due|
        invariant Here().armed == armed
        invariant DispatchAll(coordinator.Here(), due[i..], dispatches[i..]) == DispatchAll(old(Here()).live, due, dispatches)
        invariant FirstError(coordinator.Here(), due[i..], dispatches[i..]) == FirstError(old(Here()).live, due, dispatches)
      {
        assert due[i..][1..] == due[i + 1..] && dispatches[i..][1..] == dispatches[i + 1..];
        var d := dispatches[i];
        Expect(d.answers);
        var outcome := coordinator.OnTimer(due[i], d.now, d.recorder);
        if outcome.Err? {
          return Err(outcome.error);
        }
        i := i + 1;
      }
      return Ok(|due|);
    }
  }
}
