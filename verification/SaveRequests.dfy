/** The coordinator with the recorder supervisor as its recorder
    (crates/openfragd/src/live_runtime.rs:285-305).  Every request carries an identity of its own,
    made of the capture's and a running number.  What becomes of a capture whose request was
    coalesced is read off the supervisor's history. */
module SaveRequests {
  import opened Prelude
  import opened Text
  import Live
  import Supervisor

  datatype System = System(live: Live.State, recorder: Supervisor.World, ordinal: nat)

  /** What the environment answers to one request: the child's signal, the clock, the recorder's
      availability and how an error would be printed. */
  datatype Call = Call(signal: Supervisor.SignalAnswer, now: u64, windowFrom: u64, coverageFrom: u64, message: string)

  datatype Step =
    | Ingest(receipt: Live.Receipt, order: seq<string>, env: Live.Environment)
    | Timer(timer: string, now: u64, call: Call, env: Live.Environment)
    | Retry(id: string, call: Call, env: Live.Environment)
    | Flag(now: u64, windowFrom: u64, coverageFrom: u64, call: Call, env: Live.Environment)
    | Recorder(op: Supervisor.Op)

  function RequestId(captureId: string, ordinal: nat): string {
    captureId + ":request:" + Decimal(ordinal)
  }

  /** The capture a step would ask the recorder for. */
  function Target(st: Live.State, step: Step): string {
    match step
    case Timer(timer, _, _, _) => if timer in st.timers then st.timers[timer] else ""
    case Retry(id, _, _) => id
    case Flag(now, _, _, _, _) => Live.ManualId(now, SatAdd(st.manualOrdinal, 1))
    case _ => ""
  }

  function ProvenanceOf(st: Live.State, id: string): Supervisor.Provenance {
    if id in st.captures then st.captures[id].provenance else Supervisor.ManualFlag
  }

  function Requested(sys: System, id: string, call: Call)
    : (Supervisor.World, Result<(string, Supervisor.Disposition), Supervisor.Error>)
  {
    Supervisor.AfterRequestSave(sys.recorder, RequestId(id, sys.ordinal + 1), ProvenanceOf(sys.live, id), call.signal)
  }

  /** The supervisor's answer as the coordinator sees it. */
  function Answer(sys: System, id: string, call: Call): Live.RecorderAnswer {
    var r := Requested(sys, id, call).1;
    Live.RecorderAnswer(call.now, call.windowFrom, call.coverageFrom,
                        if r.Ok? then Ok(Live.SaveOutcome(r.value.0, r.value.1)) else Err(call.message))
  }

  function LiveOp(sys: System, step: Step): Live.Op
    requires !step.Recorder?
  {
    match step
    case Ingest(receipt, order, env) => Live.DoIngest(receipt, order, env)
    case Timer(timer, now, call, env) => Live.DoTimer(timer, now, Answer(sys, Target(sys.live, step), call), env)
    case Retry(id, call, env) => Live.DoRetry(id, Answer(sys, Target(sys.live, step), call), env)
    case Flag(now, windowFrom, coverageFrom, call, env) =>
      Live.DoManual(now, windowFrom, coverageFrom, Answer(sys, Target(sys.live, step), call), env)
  }

  /** The recorder is called when the coordinator's operation gets as far as asking. */
  ghost function Perform(cfg: Supervisor.Config, sys: System, step: Step): System {
    if step.Recorder? then sys.(recorder := Supervisor.Perform(cfg, sys.recorder, step.op))
    else
      var live := Live.Perform(sys.live, LiveOp(sys, step));
      if !step.Ingest? && |live.asked| > |sys.live.asked| then
        System(live, Requested(sys, Target(sys.live, step), step.call).0, sys.ordinal + 1)
      else sys.(live := live)
  }

  /** The coordinator records at most one request in a step, for the capture the step is about. */
  ghost predicate AsksFor(st: Live.State, st': Live.State, id: string, accepted: bool) {
    || st'.asked == st.asked
    || (|st'.asked| == |st.asked| + 1 && st'.asked[..|st.asked|] == st.asked
        && st'.asked[|st.asked|].id == id && st'.asked[|st.asked|].accepted == accepted)
  }

  lemma RequestAsks(st: Live.State, id: string, a: Live.RecorderAnswer, env: Live.Environment)
    ensures var st' := Live.AfterRequest(st, id, a, env).st;
      AsksFor(st, st', id, a.save.Ok?) && (st'.asked != st.asked ==> id in st.captures)
  {
    hide Live.Windowed;
  }

  lemma StepAsks(sys: System, step: Step)
    requires !step.Recorder? && !step.Ingest?
    ensures var id := Target(sys.live, step); var st' := Live.Perform(sys.live, LiveOp(sys, step));
      && AsksFor(sys.live, st', id, Answer(sys, id, step.call).save.Ok?)
      && (st'.asked != sys.live.asked && !step.Flag? ==> id in sys.live.captures)
  {
    hide Live.AfterRequest;
    hide Live.ManualId;
    hide Answer;
    var id := Target(sys.live, step);
    var a := Answer(sys, id, step.call);
    RequestAsks(sys.live, id, a, step.env);
    if step.Flag? {
      var counted := sys.live.(manualOrdinal := SatAdd(sys.live.manualOrdinal, 1));
      var c := Live.ManualCapture(id, step.now, step.windowFrom, step.coverageFrom);
      RequestAsks(Live.WithCapture(counted, c), id, a, Live.Remaining(step.env));
    }
  }

  /** The recorder hears of a step exactly when the coordinator records a request in it: once, under
      the identity of that capture and the next number, and with its provenance. */
  lemma RecorderHears(cfg: Supervisor.Config, sys: System, last: u64, step: Step)
    requires Live.Valid(sys.live, last) && !step.Recorder?
    requires step.Flag? ==> sys.live.manualOrdinal < U64_MAX
    ensures var sys' := Perform(cfg, sys, step); var n := |sys.live.asked|;
      && sys'.live == Live.Perform(sys.live, LiveOp(sys, step))
      && (step.Ingest? ==> sys'.recorder == sys.recorder && sys'.ordinal == sys.ordinal)
      && (sys'.live.asked == sys.live.asked ==> sys'.recorder == sys.recorder && sys'.ordinal == sys.ordinal)
      && (!step.Ingest? && sys'.live.asked != sys.live.asked ==>
            && |sys'.live.asked| == n + 1 && sys'.live.asked[..n] == sys.live.asked
            && sys'.ordinal == sys.ordinal + 1
            && var asked := sys'.live.asked[n];
               && (!step.Flag? ==> asked.id in sys.live.captures)
               && var provenance := if step.Flag? then Supervisor.ManualFlag else sys.live.captures[asked.id].provenance;
                  var own := asked.id + ":request:" + Decimal(sys.ordinal + 1);
                  var (w, r) := Supervisor.AfterRequestSave(sys.recorder, own, provenance, step.call.signal);
                  sys'.recorder == w && asked.accepted == r.Ok?)
  {
    hide Supervisor.AfterRequestSave;
    hide Live.Perform;
    hide Live.ManualId;
    hide Decimal;
    if step.Flag? {
      Live.ManualIdFresh(sys.live, step.now);
    }
    hide Live.Valid;
    if !step.Ingest? {
      StepAsks(sys, step);
    }
  }

  // ----- Every requested capture stands in the recorder's history

  /** Event `k` is the one by which the recorder accepted the request of the capture: its own signal,
      or its joining of the queued save, under whose first identity the capture is remembered. */
  ghost predicate Recorded(trace: seq<Supervisor.Event>, k: nat, c: Live.Capture) {
    && c.status.SaveRequested? && k < |trace|
    && var outcome := c.status.outcome;
    match outcome.disposition
    case Signalled =>
      && trace[k].Sent? && !trace[k].followUp && trace[k].id == outcome.id
      && exists n: nat :: outcome.id == RequestId(c.id, n)
    case Coalesced =>
      && trace[k].Joined? && (exists n: nat :: trace[k].id == RequestId(c.id, n))
      && var waiting := Supervisor.Waiting(trace[..k + 1]);
      waiting != [] && waiting[0].Joined? && waiting[0].id == outcome.id
  }

  ghost predicate IsRecorded(trace: seq<Supervisor.Event>, c: Live.Capture) {
    exists k: nat :: Recorded(trace, k, c)
  }

  ghost predicate Linked(sys: System) {
    forall id :: id in sys.live.captures && sys.live.captures[id].status.SaveRequested? ==>
      IsRecorded(sys.recorder.trace, sys.live.captures[id])
  }

  ghost predicate Valid(cfg: Supervisor.Config, sys: System, last: u64) {
    Live.Valid(sys.live, last) && Supervisor.Valid(cfg, sys.recorder) && Linked(sys)
  }

  lemma RecordedStays(trace: seq<Supervisor.Event>, longer: seq<Supervisor.Event>, c: Live.Capture)
    requires IsRecorded(trace, c) && trace <= longer
    ensures IsRecorded(longer, c)
  {
    hide Supervisor.Waiting;
    var k: nat :| Recorded(trace, k, c);
    assert longer[..k + 1] == trace[..k + 1];
    assert Recorded(longer, k, c);
  }

  lemma HistoryGrows(cfg: Supervisor.Config, w: Supervisor.World, op: Supervisor.Op)
    ensures w.trace <= Supervisor.Perform(cfg, w, op).trace
  {
    hide Supervisor.ValidateOutput;
    hide Supervisor.Tail;
  }

  /** An accepted request is in the history as the coordinator is told. */
  lemma RequestRecorded(cfg: Supervisor.Config, sys: System, id: string, call: Call, c: Live.Capture)
    requires Supervisor.Valid(cfg, sys.recorder) && c.id == id && Answer(sys, id, call).save.Ok?
    requires c.status == Live.SaveRequested(Answer(sys, id, call).save.value)
    ensures IsRecorded(Requested(sys, id, call).0.trace, c)
  {
    hide RequestId;
    hide Supervisor.Valid;
    hide Supervisor.Waiting;
    hide Recorded;
    var own := RequestId(id, sys.ordinal + 1);
    var (w', r) := Requested(sys, id, call);
    var trace := sys.recorder.trace;
    Supervisor.RequestSaveValid(cfg, sys.recorder, own, ProvenanceOf(sys.live, id), call.signal);
    assert w'.trace[..|trace| + 1] == w'.trace;
    if r.value.1.Coalesced? {
      QueueStands(cfg, w');
      JoinRecorded(w'.trace, c, sys.ordinal + 1);
    } else {
      SendRecorded(w'.trace, c, sys.ordinal + 1);
    }
  }

  lemma QueueStands(cfg: Supervisor.Config, w: Supervisor.World)
    requires Supervisor.Valid(cfg, w) && w.s.queued.Some?
    ensures var waiting := Supervisor.Waiting(w.trace);
      waiting != [] && waiting[0].Joined? && waiting[0].id == w.s.queued.value.id
  {
    hide Supervisor.Waiting;
    hide Supervisor.TracksRestarts;
    hide Supervisor.TracksStderr;
    hide Supervisor.Lawful;
    hide Supervisor.Answered;
  }

  lemma {:induction false} JoinRecorded(trace: seq<Supervisor.Event>, c: Live.Capture, n: nat)
    requires trace != [] && trace[|trace| - 1].Joined? && trace[|trace| - 1].id == RequestId(c.id, n)
    requires c.status.SaveRequested? && c.status.outcome.disposition.Coalesced?
    requires var waiting := Supervisor.Waiting(trace);
      waiting != [] && waiting[0].Joined? && waiting[0].id == c.status.outcome.id
    ensures IsRecorded(trace, c)
  {
    hide Supervisor.Waiting;
    hide RequestId;
    assert trace[..|trace|] == trace;
    assert Recorded(trace, |trace| - 1, c);
  }

  lemma SendRecorded(trace: seq<Supervisor.Event>, c: Live.Capture, n: nat)
    requires trace != [] && trace[|trace| - 1].Sent? && !trace[|trace| - 1].followUp
    requires trace[|trace| - 1].id == RequestId(c.id, n)
    requires c.status.SaveRequested? && c.status.outcome.disposition.Signalled? && c.status.outcome.id == RequestId(c.id, n)
    ensures IsRecorded(trace, c)
  {
    hide RequestId;
    assert Recorded(trace, |trace| - 1, c);
  }

  /** A step of the coordinator changes one capture at most to `SaveRequested`: the one it asked for,
      with the recorder's answer. */
  lemma OnlyTargetRequested(sys: System, last: u64, step: Step, id: string)
    requires !step.Recorder? && Live.Possible(sys.live, last, LiveOp(sys, step)) && Live.Valid(sys.live, last)
    requires var live := Live.Perform(sys.live, LiveOp(sys, step));
      && id in live.captures && live.captures[id].status.SaveRequested?
      && !(id in sys.live.captures && live.captures[id] == sys.live.captures[id])
    ensures !step.Ingest? && id == Target(sys.live, step)
    ensures var live := Live.Perform(sys.live, LiveOp(sys, step)); var answer := Answer(sys, id, step.call);
      && |live.asked| > |sys.live.asked|
      && answer.save.Ok? && live.captures[id].status == Live.SaveRequested(answer.save.value)
  {
    hide Live.AutoShape;
    hide Live.ManualShape;
    hide Live.Timely;
    hide Live.AskedOnce;
    hide Live.CandidatesShaped;
    hide Live.AutoWindow;
    hide Live.ManualWindow;
    hide Live.RawCoverage;
    hide Live.ManualId;
    hide Live.AfterRequest;
    hide Answer;
    match step {
      case Ingest(receipt, order, env) => IngestKeepsRequests(sys.live, receipt, order, env, id);
      case Timer(timer, now, call, env) =>
        OnlyAsked(sys.live, Target(sys.live, step), Answer(sys, Target(sys.live, step), call), env, id);
      case Retry(other, call, env) => OnlyAsked(sys.live, other, Answer(sys, other, call), env, id);
      case Flag(now, windowFrom, coverageFrom, call, env) =>
        var own, counted := Target(sys.live, step), sys.live.(manualOrdinal := SatAdd(sys.live.manualOrdinal, 1));
        OnlyAsked(Live.WithCapture(counted, Live.ManualCapture(own, now, windowFrom, coverageFrom)), own,
                  Answer(sys, own, call), Live.Remaining(env), id);
    }
  }

  /** A request changes the capture it is for and no other, and is noted. */
  lemma OnlyAsked(st: Live.State, asked: string, a: Live.RecorderAnswer, env: Live.Environment, id: string)
    ensures var st' := Live.AfterRequest(st, asked, a, env).st;
      id in st'.captures && st'.captures[id].status.SaveRequested? && !(id in st.captures && st'.captures[id] == st.captures[id]) ==>
      && id == asked && |st'.asked| > |st.asked|
      && a.save.Ok? && st'.captures[id].status == Live.SaveRequested(a.save.value)
  {
    hide Live.AutoWindow;
    hide Live.RawCoverage;
  }

  lemma IngestKeepsRequests(st: Live.State, r: Live.Receipt, order: seq<string>, env: Live.Environment, id: string)
    requires Live.IsOrder(order, st.captures)
    ensures var st' := Live.AfterIngest(st, r, order, env).st;
      id in st'.captures && st'.captures[id].status.SaveRequested? ==>
      id in st.captures && st'.captures[id] == st.captures[id]
  {
    hide Live.AfterIngest;
    hide Live.Effect;
    hide Live.Done;
    var k := Live.IngestProgress(st, r, order, env);
    var start := Live.AfterCancelling(st, r);
    Live.EffectGrows(start, r, r.facts[..k]);
    Live.EffectGrows(start, r, r.facts);
    var st' := Live.AfterIngest(st, r, order, env).st;
    if Live.AfterCancelling(st', r) == start && id in st'.captures {
      assert id in Live.AfterCancelling(st', r).captures;
    }
  }

  // ----- Runs

  ghost predicate Possible(sys: System, last: u64, step: Step) {
    match step
    case Recorder(op) => op.DoPoll? ==> Supervisor.Monotone(op.answer)
    case _ => Live.Possible(sys.live, last, LiveOp(sys, step))
  }

  function Later(last: u64, step: Step): u64 {
    match step
    case Timer(_, _, call, _) => call.now
    case Retry(_, call, _) => call.now
    case Flag(_, _, _, call, _) => call.now
    case _ => last
  }

  lemma StepValid(cfg: Supervisor.Config, sys: System, last: u64, step: Step)
    requires Valid(cfg, sys, last) && Possible(sys, last, step)
    ensures Valid(cfg, Perform(cfg, sys, step), Later(last, step))
    ensures Live.Evolves(sys.live, Perform(cfg, sys, step).live)
    ensures sys.recorder.trace <= Perform(cfg, sys, step).recorder.trace
  {
    hide Live.Valid;
    hide Live.Evolves;
    hide Live.Possible;
    hide Live.Perform;
    hide Supervisor.Valid;
    hide Supervisor.Perform;
    hide Supervisor.AfterRequestSave;
    hide IsRecorded;
    var sys' := Perform(cfg, sys, step);
    if step.Recorder? {
      Supervisor.StepValid(cfg, sys.recorder, step.op);
      HistoryGrows(cfg, sys.recorder, step.op);
      Live.Unchanged(sys.live);
    } else {
      Live.StepValid(sys.live, last, LiveOp(sys, step));
      if !step.Ingest? {
        RequestGrows(cfg, sys, Target(sys.live, step), step.call);
      }
      assert sys'.live == Live.Perform(sys.live, LiveOp(sys, step));
    }
    forall id | id in sys'.live.captures && sys'.live.captures[id].status.SaveRequested?
      ensures IsRecorded(sys'.recorder.trace, sys'.live.captures[id])
    {
      if id in sys.live.captures && sys'.live.captures[id] == sys.live.captures[id] {
        RecordedStays(sys.recorder.trace, sys'.recorder.trace, sys.live.captures[id]);
      } else {
        OnlyTargetRequested(sys, last, step, id);
        KeysAreIds(sys'.live, Later(last, step), id);
        RequestRecorded(cfg, sys, id, step.call, sys'.live.captures[id]);
      }
    }
  }

  lemma KeysAreIds(st: Live.State, last: u64, id: string)
    requires Live.Valid(st, last) && id in st.captures
    ensures st.captures[id].id == id
  {
  }

  lemma RequestGrows(cfg: Supervisor.Config, sys: System, id: string, call: Call)
    requires Supervisor.Valid(cfg, sys.recorder)
    ensures Supervisor.Valid(cfg, Requested(sys, id, call).0)
    ensures sys.recorder.trace <= Requested(sys, id, call).0.trace
  {
    hide Supervisor.Valid;
    Supervisor.RequestSaveValid(cfg, sys.recorder, RequestId(id, sys.ordinal + 1), ProvenanceOf(sys.live, id), call.signal);
  }

  ghost predicate PossibleRun(cfg: Supervisor.Config, session: string, steps: seq<Step>)
    decreases |steps|, 0
  {
    steps == [] ||
    var before := steps[..|steps| - 1];
    && PossibleRun(cfg, session, before)
    && var (sys, last) := Run(cfg, session, before);
    Possible(sys, last, steps[|steps| - 1])
  }

  ghost function Run(cfg: Supervisor.Config, session: string, steps: seq<Step>): (System, u64)
    decreases |steps|
  {
    if steps == [] then (System(Live.Initial(session), Supervisor.World(Supervisor.INITIAL, []), 0), 0)
    else
      var (sys, last) := Run(cfg, session, steps[..|steps| - 1]);
      (Perform(cfg, sys, steps[|steps| - 1]), Later(last, steps[|steps| - 1]))
  }

  /** In every run each capture that is `SaveRequested` stands in the recorder's history. */
  lemma {:induction false} RunValid(cfg: Supervisor.Config, session: string, steps: seq<Step>)
    requires PossibleRun(cfg, session, steps)
    ensures Valid(cfg, Run(cfg, session, steps).0, Run(cfg, session, steps).1)
    decreases |steps|
  {
    hide Valid;
    hide Perform;
    hide Possible;
    hide Later;
    if steps == [] {
      InitiallyValid(cfg, session);
    } else {
      var before := steps[..|steps| - 1];
      RunValid(cfg, session, before);
      StepValid(cfg, Run(cfg, session, before).0, Run(cfg, session, before).1, steps[|steps| - 1]);
    }
  }

  lemma InitiallyValid(cfg: Supervisor.Config, session: string)
    ensures Valid(cfg, System(Live.Initial(session), Supervisor.World(Supervisor.INITIAL, []), 0), 0)
  {
    Live.InitiallyValid(session);
    Supervisor.InitiallyValid(cfg);
  }

  // ----- What becomes of a coalesced request

  /** The first settlement after event `k`. */
  ghost predicate SettlesFirst(trace: seq<Supervisor.Event>, k: nat, m: nat) {
    k < m < |trace| && trace[m].Settled? && forall j :: k < j < m ==> !trace[j].Settled?
  }

  ghost predicate StillWaits(trace: seq<Supervisor.Event>, k: nat) {
    forall j :: k < j < |trace| ==> !trace[j].Settled?
  }

  /** The next settlement was followed by the save that event `k` had joined. */
  ghost predicate FollowedUp(trace: seq<Supervisor.Event>, k: nat) {
    exists m: nat :: SettlesFirst(trace, k, m) && m + 1 < |trace| && trace[m + 1].Sent? && trace[m + 1].followUp
  }

  /** The signal for that save failed, and nothing remembers it. */
  ghost predicate Forgotten(trace: seq<Supervisor.Event>, k: nat) {
    exists m: nat :: SettlesFirst(trace, k, m) && m + 1 < |trace| && trace[m + 1].Lost?
  }

  lemma {:induction false} WaitingHolds(trace: seq<Supervisor.Event>, k: nat)
    requires k < |trace| && trace[k].Joined? && StillWaits(trace, k)
    ensures trace[k] in Supervisor.Waiting(trace)
    decreases |trace|
  {
    if k < |trace| - 1 {
      WaitingHolds(trace[..|trace| - 1], k);
    }
  }

  lemma {:induction false} FirstSettlement(trace: seq<Supervisor.Event>, k: nat, j: nat) returns (m: nat)
    requires k < j < |trace| && trace[j].Settled?
    ensures SettlesFirst(trace, k, m)
    decreases j
  {
    if i: nat :| k < i < j && trace[i].Settled? {
      m := FirstSettlement(trace, k, i);
    } else {
      m := j;
    }
  }

  /** A joined request waits, has been followed up, or is forgotten: one of the three, and while it
      waits the queue is not empty. */
  lemma JoinedFate(cfg: Supervisor.Config, w: Supervisor.World, k: nat)
    requires Supervisor.Valid(cfg, w) && k < |w.trace| && w.trace[k].Joined?
    ensures StillWaits(w.trace, k) || FollowedUp(w.trace, k) || Forgotten(w.trace, k)
    ensures StillWaits(w.trace, k) ==> w.s.queued.Some? && !FollowedUp(w.trace, k) && !Forgotten(w.trace, k)
    ensures !(FollowedUp(w.trace, k) && Forgotten(w.trace, k))
  {
    hide Supervisor.Waiting;
    hide Supervisor.SentCount;
    hide Supervisor.SettledCount;
    hide Supervisor.TracksRestarts;
    hide Supervisor.TracksStderr;
    hide Supervisor.Lawful;
    hide Supervisor.Stands;
    if StillWaits(w.trace, k) {
      WaitingHolds(w.trace, k);
    } else {
      var j: nat :| k < j < |w.trace| && w.trace[j].Settled?;
      var m := FirstSettlement(w.trace, k, j);
      WaitingHolds(w.trace[..m], k);
    }
  }

  /** The three fates of a capture whose save was coalesced. */
  lemma {:induction false} CoalescedFate(cfg: Supervisor.Config, session: string, steps: seq<Step>, id: string)
    requires PossibleRun(cfg, session, steps)
    requires var captures := Run(cfg, session, steps).0.live.captures;
      id in captures && captures[id].status.SaveRequested? && captures[id].status.outcome.disposition.Coalesced?
    ensures var sys := Run(cfg, session, steps).0; var trace := sys.recorder.trace;
      exists k: nat :: Recorded(trace, k, sys.live.captures[id])
        && ((StillWaits(trace, k) && sys.recorder.s.queued.Some?) || FollowedUp(trace, k) || Forgotten(trace, k))
  {
    RunValid(cfg, session, steps);
    hide Run;
    hide PossibleRun;
    hide Supervisor.Valid;
    hide Live.Valid;
    hide Supervisor.Waiting;
    hide StillWaits;
    hide FollowedUp;
    hide Forgotten;
    var sys := Run(cfg, session, steps).0;
    assert IsRecorded(sys.recorder.trace, sys.live.captures[id]);
    var k: nat :| Recorded(sys.recorder.trace, k, sys.live.captures[id]);
    JoinedFate(cfg, sys.recorder, k);
  }

  /** The operation settles the save in flight and fails to signal the queued one. */
  predicate Loses(cfg: Supervisor.Config, s: Supervisor.State, op: Supervisor.Op) {
    match op
    case DoAcknowledge(path, files, media, signal) => Supervisor.LosesFollowUp(cfg, s, path, files, media, signal)
    case DoDiscover(outputs, files, media, signal) =>
      outputs.Ok? && outputs.value != [] && Supervisor.LosesFollowUp(cfg, s, outputs.value[0], files, media, signal)
    case _ => false
  }

  lemma LossInHistory(cfg: Supervisor.Config, w: Supervisor.World, op: Supervisor.Op)
    ensures var longer := Supervisor.Perform(cfg, w, op).trace;
      && w.trace <= longer
      && (Loses(cfg, w.s, op) ==> |longer| == |w.trace| + 2 && longer[|w.trace|].Settled? && longer[|w.trace| + 1].Lost?)
      && (!Loses(cfg, w.s, op) ==> forall j :: |w.trace| <= j < |longer| ==> !longer[j].Lost?)
  {
    hide Supervisor.ValidateOutput;
    hide Supervisor.Tail;
  }

  lemma RequestLosesNothing(sys: System, id: string, call: Call)
    ensures var longer := Requested(sys, id, call).0.trace;
      sys.recorder.trace <= longer && forall j :: |sys.recorder.trace| <= j < |longer| ==> !longer[j].Lost?
  {
    hide RequestId;
  }

  /** When the longer history forgets what the shorter one did not. */
  lemma ForgottenLater(trace: seq<Supervisor.Event>, longer: seq<Supervisor.Event>, k: nat)
    requires trace <= longer && k < |trace|
    requires StillWaits(trace, k) || FollowedUp(trace, k)
    requires StillWaits(trace, k) ==> !Forgotten(trace, k)
    ensures (forall j :: |trace| <= j < |longer| ==> !longer[j].Lost?) ==> !Forgotten(longer, k)
    ensures |longer| == |trace| + 2 && longer[|trace|].Settled? && longer[|trace| + 1].Lost? ==>
              (Forgotten(longer, k) <==> StillWaits(trace, k))
  {
    assert forall j :: 0 <= j < |trace| ==> longer[j] == trace[j];
    if StillWaits(trace, k) {
      if |longer| > |trace| && longer[|trace|].Settled? {
        assert SettlesFirst(longer, k, |trace|);
      }
    } else {
      var m: nat :| SettlesFirst(trace, k, m) && m + 1 < |trace| && trace[m + 1].Sent? && trace[m + 1].followUp;
      assert SettlesFirst(longer, k, m);
    }
  }

  /** A step forgets a waiting request exactly when it is an acknowledgement that settles the save in
      flight and is refused the signal for the queued one. */
  lemma NewlyForgottenIff(cfg: Supervisor.Config, sys: System, last: u64, step: Step, k: nat)
    requires Valid(cfg, sys, last) && Possible(sys, last, step)
    requires k < |sys.recorder.trace| && sys.recorder.trace[k].Joined? && !Forgotten(sys.recorder.trace, k)
    ensures Forgotten(Perform(cfg, sys, step).recorder.trace, k) <==>
            StillWaits(sys.recorder.trace, k) && step.Recorder? && Loses(cfg, sys.recorder.s, step.op)
  {
    hide Live.Perform;
    hide Live.Valid;
    hide Supervisor.Perform;
    hide Supervisor.Valid;
    hide Supervisor.AfterRequestSave;
    hide StillWaits;
    hide FollowedUp;
    hide Forgotten;
    hide Loses;
    var trace, longer := sys.recorder.trace, Perform(cfg, sys, step).recorder.trace;
    JoinedFate(cfg, sys.recorder, k);
    if step.Recorder? {
      LossInHistory(cfg, sys.recorder, step.op);
    } else if !step.Ingest? {
      RequestLosesNothing(sys, Target(sys.live, step), step.call);
    }
    ForgottenLater(trace, longer, k);
  }

  /** Nothing repairs it: the request stays forgotten and the capture stays `SaveRequested`. */
  lemma ForgottenStays(cfg: Supervisor.Config, sys: System, last: u64, step: Step, k: nat, id: string)
    requires Valid(cfg, sys, last) && Possible(sys, last, step)
    requires id in sys.live.captures && Recorded(sys.recorder.trace, k, sys.live.captures[id])
    requires Forgotten(sys.recorder.trace, k)
    ensures var sys' := Perform(cfg, sys, step);
      && Forgotten(sys'.recorder.trace, k)
      && id in sys'.live.captures && sys'.live.captures[id] == sys.live.captures[id]
  {
    hide Perform;
    hide Valid;
    hide Possible;
    hide Supervisor.Waiting;
    StepValid(cfg, sys, last, step);
    var trace, longer := sys.recorder.trace, Perform(cfg, sys, step).recorder.trace;
    var m: nat :| SettlesFirst(trace, k, m) && m + 1 < |trace| && trace[m + 1].Lost?;
    assert forall j :: 0 <= j < |trace| ==> longer[j] == trace[j];
    assert SettlesFirst(longer, k, m);
    assert Live.CaptureEvolves(sys.live.captures[id], Perform(cfg, sys, step).live.captures[id]);
  }

  // ----- It happens

  const CLIPS := Supervisor.Config([Supervisor.Normal("clips")], 0, 0)

  const STORED := Live.Environment([true, true], [])

  /** A flag whose signal, if any is sent, is delivered. */
  function FlagAt(now: u64): Step {
    Flag(now, 0, 0, Call(Supervisor.SignalAnswer(true, 0, 0), now, 0, 0, ""), STORED)
  }

  /** A valid clip is found, and the signal for the next save is refused. */
  const REFUSED := Supervisor.DoAcknowledge(
    [Supervisor.Normal("clips"), Supervisor.Normal("a")], Supervisor.FileAnswer(Ok(false), Ok(true), Ok(true)),
    Ok(Supervisor.MediaInfo(1, 1)), Supervisor.SignalAnswer(false, 0, 0))

  /** A flag while the recorder runs and nothing is queued: the capture is requested, and its event
      is the last of the history. */
  lemma FlagRequests(cfg: Supervisor.Config, sys: System, now: u64)
    requires sys.recorder.s.running && sys.recorder.s.queued.None?
    requires Live.CapturesShaped(sys.live) && sys.live.manualOrdinal < U64_MAX
    ensures var id := Live.ManualId(now, sys.live.manualOrdinal + 1); var sys' := Perform(cfg, sys, FlagAt(now));
      var own := RequestId(id, sys.ordinal + 1); var saving := sys.recorder.s.inFlight.Some?;
      && sys'.live.manualOrdinal == sys.live.manualOrdinal + 1
      && id in sys'.live.captures && sys'.live.captures[id].id == id
      && sys'.live.captures[id].status ==
           Live.SaveRequested(Live.SaveOutcome(own, if saving then Supervisor.Coalesced else Supervisor.Signalled))
      && sys'.recorder.s.running && sys'.recorder.s.inFlight.Some?
      && sys'.recorder.s.queued.Some? == saving
      && sys'.recorder.trace == sys.recorder.trace +
           [if saving then Supervisor.Joined(own, Supervisor.ManualFlag) else Supervisor.Sent(own, Supervisor.ManualFlag, false, 0)]
  {
    hide Live.ManualId;
    hide RequestId;
    hide Live.ManualWindow;
    hide Live.RawCoverage;
    hide Live.AutoShape;
    hide Live.ManualShape;
    Live.ManualIdFresh(sys.live, now);
    assert Live.Remaining(STORED).answers == [true];
  }

  /** Two flags in quick succession are both accepted; then the first clip is settled and the signal
      for the second is refused.  The second capture stays `SaveRequested` for a save nobody will
      make. */
  lemma {:induction false} CoalescedSaveForgotten(session: string)
    ensures var steps := [Recorder(Supervisor.DoStart(true, 0)), FlagAt(1), FlagAt(2), Recorder(REFUSED)];
      && PossibleRun(CLIPS, session, steps)
      && var sys := Run(CLIPS, session, steps).0;
      && Live.ManualId(2, 2) in sys.live.captures
      && exists k: nat :: Recorded(sys.recorder.trace, k, sys.live.captures[Live.ManualId(2, 2)]) && Forgotten(sys.recorder.trace, k)
  {
    hide Perform;
    hide Live.ManualId;
    hide Recorded;
    hide Forgotten;
    var steps := [Recorder(Supervisor.DoStart(true, 0)), FlagAt(1), FlagAt(2), Recorder(REFUSED)];
    var s0 := System(Live.Initial(session), Supervisor.World(Supervisor.INITIAL, []), 0);
    var s1 := Perform(CLIPS, s0, steps[0]);
    var s2 := Perform(CLIPS, s1, FlagAt(1));
    var s3 := Perform(CLIPS, s2, FlagAt(2));
    Started(session);
    FirstFlag(s1);
    SecondFlag(s2, s1.recorder.trace[0]);
    RunOfFour(CLIPS, session, steps[0], steps[1], steps[2], steps[3]);
    assert Perform(CLIPS, s3, steps[3]) == s3.(recorder := Supervisor.Perform(CLIPS, s3.recorder, REFUSED)) by {
      RecorderStep(s3, REFUSED);
    }
    LastJoinForgotten(s3, Perform(CLIPS, s3, steps[3]), Live.ManualId(2, 2));
  }

  lemma RecorderStep(sys: System, op: Supervisor.Op)
    ensures Perform(CLIPS, sys, Recorder(op)) == sys.(recorder := Supervisor.Perform(CLIPS, sys.recorder, op))
  {
  }

  lemma Started(session: string)
    ensures var s0 := System(Live.Initial(session), Supervisor.World(Supervisor.INITIAL, []), 0);
      var s1 := Perform(CLIPS, s0, Recorder(Supervisor.DoStart(true, 0)));
      && Possible(s0, 0, Recorder(Supervisor.DoStart(true, 0)))
      && Valid(CLIPS, s1, 0) && s1.live.manualOrdinal == 0
      && s1.recorder.s.running && s1.recorder.s.queued.None? && s1.recorder.s.inFlight.None?
      && s1.recorder.trace == [Supervisor.Spawned(0, false)]
  {
    var s0 := System(Live.Initial(session), Supervisor.World(Supervisor.INITIAL, []), 0);
    InitiallyValid(CLIPS, session);
    hide Valid;
    StepValid(CLIPS, s0, 0, Recorder(Supervisor.DoStart(true, 0)));
  }

  lemma FlagPossible(sys: System, last: u64, now: u64)
    requires last <= now && sys.live.manualOrdinal < U64_MAX
    ensures Possible(sys, last, FlagAt(now))
  {
  }

  lemma FlagShape(sys: System, last: u64)
    requires Valid(CLIPS, sys, last)
    ensures Live.CapturesShaped(sys.live)
  {
  }

  lemma FirstFlag(s1: System)
    requires Valid(CLIPS, s1, 0) && s1.live.manualOrdinal == 0
    requires s1.recorder.s.running && s1.recorder.s.queued.None? && s1.recorder.s.inFlight.None? && |s1.recorder.trace| == 1
    ensures var s2 := Perform(CLIPS, s1, FlagAt(1));
      && Possible(s1, 0, FlagAt(1))
      && Valid(CLIPS, s2, 1) && s2.live.manualOrdinal == 1
      && s2.recorder.s.running && s2.recorder.s.queued.None? && s2.recorder.s.inFlight.Some?
      && |s2.recorder.trace| == 2 && s2.recorder.trace[0] == s1.recorder.trace[0] && s2.recorder.trace[1].Sent?
  {
    hide Valid;
    hide Perform;
    hide Possible;
    hide Live.CapturesShaped;
    hide Live.ManualId;
    hide RequestId;
    FlagPossible(s1, 0, 1);
    StepValid(CLIPS, s1, 0, FlagAt(1));
    FlagShape(s1, 0);
    FlagRequests(CLIPS, s1, 1);
  }

  lemma SecondFlag(s2: System, first: Supervisor.Event)
    requires Valid(CLIPS, s2, 1) && s2.live.manualOrdinal == 1
    requires s2.recorder.s.running && s2.recorder.s.queued.None? && s2.recorder.s.inFlight.Some?
    requires |s2.recorder.trace| == 2 && s2.recorder.trace[0] == first && first.Spawned? && s2.recorder.trace[1].Sent?
    ensures var s3 := Perform(CLIPS, s2, FlagAt(2)); var id := Live.ManualId(2, 2);
      && Possible(s2, 1, FlagAt(2))
      && s3.recorder.s.inFlight.Some? && s3.recorder.s.queued.Some?
      && id in s3.live.captures && var c := s3.live.captures[id];
      && c.status.SaveRequested? && c.status.outcome.disposition.Coalesced?
      && var trace := s3.recorder.trace;
      && trace != [] && trace[|trace| - 1] == Supervisor.Joined(c.status.outcome.id, Supervisor.ManualFlag)
      && (exists n: nat :: c.status.outcome.id == RequestId(c.id, n))
      && Supervisor.Waiting(trace[..|trace| - 1]) == []
  {
    hide Valid;
    hide Perform;
    hide Possible;
    hide Live.CapturesShaped;
    hide Live.ManualId;
    hide RequestId;
    FlagPossible(s2, 1, 2);
    FlagShape(s2, 1);
    FlagRequests(CLIPS, s2, 2);
    var trace := Perform(CLIPS, s2, FlagAt(2)).recorder.trace;
    assert trace[..|trace| - 1] == s2.recorder.trace;
    NobodyWaits(s2.recorder.trace);
  }

  lemma {:induction false} NobodyWaits(trace: seq<Supervisor.Event>)
    requires |trace| == 2 && !trace[0].Joined? && !trace[1].Joined?
    ensures Supervisor.Waiting(trace) == []
  {
    Supervisor.ReadPush([], trace[0]);
    Supervisor.ReadPush([trace[0]], trace[1]);
    assert trace == [] + [trace[0]] + [trace[1]];
  }

  lemma {:induction false} RunOfFour(cfg: Supervisor.Config, session: string, a: Step, b: Step, c: Step, d: Step)
    requires var s0 := System(Live.Initial(session), Supervisor.World(Supervisor.INITIAL, []), 0);
      var s1 := Perform(cfg, s0, a); var s2 := Perform(cfg, s1, b); var s3 := Perform(cfg, s2, c);
      var t1 := Later(0, a); var t2 := Later(t1, b); var t3 := Later(t2, c);
      Possible(s0, 0, a) && Possible(s1, t1, b) && Possible(s2, t2, c) && Possible(s3, t3, d)
    ensures PossibleRun(cfg, session, [a, b, c, d])
    ensures var s0 := System(Live.Initial(session), Supervisor.World(Supervisor.INITIAL, []), 0);
      Run(cfg, session, [a, b, c, d]).0 == Perform(cfg, Perform(cfg, Perform(cfg, Perform(cfg, s0, a), b), c), d)
  {
    hide Perform;
    hide Possible;
    hide Later;
    var r1, r2, r3, r4 := [a], [a, b], [a, b, c], [a, b, c, d];
    assert r4[..3] == r3 && r3[..2] == r2 && r2[..1] == r1 && r1[..0] == [];
    assert PossibleRun(cfg, session, []) && Run(cfg, session, []).1 == 0;
    assert PossibleRun(cfg, session, r1);
    assert PossibleRun(cfg, session, r2);
    assert PossibleRun(cfg, session, r3);
  }

  lemma LastJoinForgotten(before: System, after: System, id: string)
    requires after == before.(recorder := Supervisor.Perform(CLIPS, before.recorder, REFUSED))
    requires before.recorder.s.inFlight.Some? && before.recorder.s.queued.Some?
    requires id in before.live.captures && var c := before.live.captures[id];
      && c.status.SaveRequested? && c.status.outcome.disposition.Coalesced?
      && var trace := before.recorder.trace;
      && trace != [] && trace[|trace| - 1] == Supervisor.Joined(c.status.outcome.id, Supervisor.ManualFlag)
      && (exists n: nat :: c.status.outcome.id == RequestId(c.id, n))
      && Supervisor.Waiting(trace[..|trace| - 1]) == []
    ensures var trace := after.recorder.trace; var k := |before.recorder.trace| - 1;
      Recorded(trace, k, after.live.captures[id]) && Forgotten(trace, k)
  {
    hide RequestId;
    var trace, longer := before.recorder.trace, after.recorder.trace;
    var k := |trace| - 1;
    assert longer[..k + 1] == trace;
    assert SettlesFirst(longer, k, |trace|);
  }
}
