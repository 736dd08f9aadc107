/** The evidence engine with the live coordinator as its sink
    (crates/openfragd/src/live_runtime.rs:515-527, crates/openfrag-gsi/src/lib.rs:158-308).  A failed
    ingest is a refused receipt: the engine keeps its baseline, and its next receipt has the same
    number but another hash and more facts.  The history says which rounds that makes up for and
    which it does not. */
module EvidenceSink {
  import opened Prelude
  import opened Text
  import Gsi
  import Live

  /** `since` is the round of the baseline with which the current stretch of reported rounds began,
      `seen` the latest round posted on top of the current baseline, accepted or not. */
  datatype System = System(
    engine: Gsi.EngineState, trace: seq<Gsi.Entry>, live: Live.State, since: Option<nat>, seen: Option<nat>)

  datatype Step =
    | Evidence(step: Gsi.Step, order: seq<string>, env: Live.Environment)
    | Other(op: Live.Op)

  /** The receipt that a step offers to the sink, whatever the sink will answer. */
  function Offered(heartbeat: nat, e: Gsi.EngineState, step: Gsi.Step): Option<Gsi.EvidenceReceipt> {
    var entries := Gsi.Apply(heartbeat, e, Answered(step, true)).1;
    if entries != [] && entries[0].Emitted? then Some(entries[0].receipt) else None
  }

  function Answered(step: Gsi.Step, ok: bool): Gsi.Step {
    match step
    case DoPost(now, payload, _) => Gsi.DoPost(now, payload, ok)
    case DoPoll(now, _) => Gsi.DoPoll(now, ok)
    case Mismatch(now) => step
  }

  /** The coordinator takes in the receipt. */
  ghost predicate Takes(sys: System, r: Live.Receipt, order: seq<string>, env: Live.Environment) {
    Live.AfterIngest(sys.live, r, order, env).r.Ok?
  }

  function Higher(a: Option<nat>, b: Option<nat>): Option<nat> {
    if a.None? then b else if b.None? then a else Some(Max(a.value, b.value))
  }

  /** Leaving rounds takes a round number before and after, and a map to name them by. */
  predicate Continues(e: Gsi.EngineState, r: Live.Receipt) {
    && r.output == Gsi.Healthy && e.snapshot.Some? && e.snapshot.value.round.Some? && r.context.observedRound.Some?
    && (r.context.mapHash.Some? || r.context.observedRound == e.snapshot.value.round)
  }

  /** The histories after the engine has handed out an entry. */
  function Noted(sys: System, engine: Gsi.EngineState, entry: Gsi.Entry, live: Live.State): System {
    if entry.Cleared? || entry.receipt.output == Gsi.Stale then System(engine, sys.trace + [entry], live, None, None)
    else
      var r := entry.receipt;
      System(engine, sys.trace + [entry], live,
             if sys.since.Some? && Continues(sys.engine, r) then sys.since else r.context.observedRound,
             r.context.observedRound)
  }

  ghost function Perform(heartbeat: nat, sys: System, step: Step): System {
    if step.Other? then sys.(live := Live.Perform(sys.live, step.op))
    else
      var offered := Offered(heartbeat, sys.engine, step.step);
      if offered.None? then
        var (engine, entries) := Gsi.Apply(heartbeat, sys.engine, step.step);
        if entries == [] then sys.(engine := engine) else Noted(sys, engine, entries[0], sys.live)
      else
        var r := offered.value;
        var reply := Live.AfterIngest(sys.live, r, step.order, step.env);
        var (engine, entries) := Gsi.Apply(heartbeat, sys.engine, Answered(step.step, reply.r.Ok?));
        if entries == [] then
          sys.(engine := engine, live := reply.st,
               seen := if r.output == Gsi.Healthy then Higher(sys.seen, r.context.observedRound) else sys.seen)
        else Noted(sys, engine, entries[0], reply.st)
  }

  // ----- What always holds

  /** The round has a capture under this map. */
  predicate Captured(st: Live.State, mapHash: string, round: nat) {
    Live.AutoId(Live.RoundId(mapHash, round)) in st.captures
  }

  /** An accepted receipt reports that the round was left, and names the map it was played on. */
  ghost predicate Reports(trace: seq<Gsi.Entry>, round: nat, mapHash: string) {
    exists k: nat :: k < |trace| && trace[k].Emitted? && Gsi.RoundEnd(round, round + 1) in trace[k].receipt.facts
                     && trace[k].receipt.context.mapHash == Some(mapHash)
  }

  ghost predicate IsReported(trace: seq<Gsi.Entry>, round: nat) {
    exists mapHash :: Reports(trace, round, mapHash)
  }

  /** Every round that an accepted receipt reports on a map has its capture. */
  ghost predicate ReportedCaptured(sys: System) {
    forall round: nat, mapHash :: Reports(sys.trace, round, mapHash) ==> Captured(sys.live, mapHash, round)
  }

  /** Every round between the beginning of the stretch and the baseline has been reported on a map. */
  ghost predicate StretchReported(sys: System) {
    sys.since.Some? ==>
      && !sys.engine.stale && sys.engine.snapshot.Some? && sys.engine.snapshot.value.round.Some?
      && sys.since.value <= sys.engine.snapshot.value.round.value
      && forall round: nat :: sys.since.value <= round < sys.engine.snapshot.value.round.value ==>
           IsReported(sys.trace, round)
  }

  /** The coordinator has processed receipts with smaller numbers only. */
  ghost predicate OldReceipts(sys: System) {
    forall id :: id in sys.live.processed ==>
      exists hash, n: nat :: n <= sys.engine.sequence && id == hash + ":" + Decimal(n)
  }

  ghost predicate Valid(sys: System, last: u64) {
    Live.Valid(sys.live, last) && OldReceipts(sys) && ReportedCaptured(sys) && StretchReported(sys)
  }

  /** A round that has been left according to what was posted on the current baseline, but which no
      accepted receipt has reported. */
  predicate Owed(sys: System, round: nat) {
    && !sys.engine.stale && sys.engine.snapshot.Some? && sys.engine.snapshot.value.round.Some? && sys.seen.Some?
    && sys.engine.snapshot.value.round.value <= round < sys.seen.value
  }

  // ----- One receipt

  lemma NewReceipt(sys: System, r: Live.Receipt)
    requires OldReceipts(sys) && r.sequence == sys.engine.sequence + 1
    ensures Live.ReceiptId(r) !in sys.live.processed
  {
    hide Decimal;
    if Live.ReceiptId(r) in sys.live.processed {
      var hash, n: nat :| n <= sys.engine.sequence && Live.ReceiptId(r) == hash + ":" + Decimal(n);
      NumberedIsInjective(r.payloadHash, r.sequence, hash, n);
    }
  }

  /** A receipt that is taken in leaves a capture for every round it reports on a map. */
  lemma TakenCaptures(st: Live.State, r: Live.Receipt, order: seq<string>, env: Live.Environment, round: nat)
    requires Live.IsOrder(order, st.captures) && Live.ReceiptId(r) !in st.processed
    requires Live.AfterIngest(st, r, order, env).r.Ok?
    requires Gsi.RoundEnd(round, round + 1) in r.facts && r.context.mapHash.Some? && r.context.observedRound.Some?
    ensures Captured(Live.AfterIngest(st, r, order, env).st, r.context.mapHash.value, round)
  {
    hide Live.AfterIngest;
    hide Live.Effect;
    hide Live.AutoId;
    hide Live.RoundId;
    var k := Live.IngestProgress(st, r, order, env);
    var start := Live.AfterCancelling(st, r);
    Live.EffectGrows(start, r, r.facts);
    assert Live.Done(Live.Effect(start, r, r.facts), r, Gsi.RoundEnd(round, round + 1));
  }

  /** What a taken or refused receipt adds to the processed ones. */
  lemma IngestProcessed(st: Live.State, r: Live.Receipt, order: seq<string>, env: Live.Environment)
    requires Live.IsOrder(order, st.captures)
    ensures var reply := Live.AfterIngest(st, r, order, env);
      reply.st.processed == if reply.r.Ok? then st.processed + {Live.ReceiptId(r)} else st.processed
  {
    hide Live.AfterIngest;
    hide Live.Effect;
    hide Live.Done;
    hide Live.ReceiptId;
    var k := Live.IngestProgress(st, r, order, env);
    var start := Live.AfterCancelling(st, r);
    Live.EffectGrows(start, r, r.facts);
    Live.EffectGrows(start, r, r.facts[..k]);
  }

  // ----- One step of the engine

  /** What the engine offers, and what it does with the sink's answer. */
  lemma OfferedStep(heartbeat: nat, e: Gsi.EngineState, step: Gsi.Step, ok: bool)
    requires Offered(heartbeat, e, step).Some?
    ensures var r := Offered(heartbeat, e, step).value; var (e', entries) := Gsi.Apply(heartbeat, e, Answered(step, ok));
      && r.sequence == e.sequence + 1
      && (!ok ==> entries == [] && e' == e.(recentHashes := e'.recentHashes))
      && (ok ==> entries == [Gsi.Emitted(r)] && e'.sequence == r.sequence)
      && (r.output == Gsi.Stale <==> step.DoPoll?)
      && (ok && r.output != Gsi.Stale ==> !e'.stale && e'.snapshot.Some? && e'.snapshot.value.round == r.context.observedRound)
      && (ok && r.output == Gsi.Stale ==> e'.stale && e'.snapshot.None?)
  {
    hide Gsi.DeriveTransition;
    hide Gsi.Prune;
    if step.DoPost? {
      Gsi.NeverStale(e.(recentHashes := Gsi.Prune(e.recentHashes, step.now)), step.payload.snapshot);
    }
  }

  lemma SilentStep(heartbeat: nat, e: Gsi.EngineState, step: Gsi.Step)
    requires Offered(heartbeat, e, step).None?
    ensures var (e', entries) := Gsi.Apply(heartbeat, e, step);
      && e'.sequence == e.sequence
      && (step.Mismatch? <==> entries == [Gsi.Cleared])
      && (!step.Mismatch? ==> entries == [] && e' == e.(recentHashes := e'.recentHashes))
      && (step.Mismatch? ==> e' == Gsi.Clear(e))
  {
    hide Gsi.DeriveTransition;
    hide Gsi.Prune;
  }

  /** A healthy receipt reports exactly the rounds from the baseline's to its own. */
  lemma HealthyReports(heartbeat: nat, e: Gsi.EngineState, step: Gsi.Step, round: nat)
    requires Offered(heartbeat, e, step).Some? && Offered(heartbeat, e, step).value.output == Gsi.Healthy
    ensures !e.stale && e.snapshot.Some?
    ensures var r := Offered(heartbeat, e, step).value;
      Gsi.RoundEnd(round, round + 1) in r.facts <==>
        && e.snapshot.value.round.Some? && r.context.observedRound.Some?
        && e.snapshot.value.round.value <= round < r.context.observedRound.value
    ensures var r := Offered(heartbeat, e, step).value;
      e.snapshot.value.round.Some? && r.context.observedRound.Some? ==>
      e.snapshot.value.round.value <= r.context.observedRound.value
  {
    hide Gsi.Prune;
    hide Gsi.DeltaFacts;
    hide Gsi.RoundEnds;
    var previous, current := e.snapshot.value, step.payload.snapshot;
    DeltasEndNothing(previous, current, round);
    if previous.round.Some? && current.round.Some? {
      RoundEndsListed(previous.round.value, current.round.value, round);
    }
  }

  lemma DeltasEndNothing(previous: Gsi.TrustedSnapshot, current: Gsi.TrustedSnapshot, round: nat)
    ensures Gsi.RoundEnd(round, round + 1) !in Gsi.DeltaFacts(previous, current)
  {
  }

  lemma {:induction false} RoundEndsListed(previous: nat, current: nat, round: nat)
    requires previous <= current
    ensures Gsi.RoundEnd(round, round + 1) in Gsi.RoundEnds(previous, current) <==> previous <= round < current
  {
    var ends := Gsi.RoundEnds(previous, current);
    if previous <= round < current {
      assert ends[round - previous] == Gsi.RoundEnd(round, round + 1);
    }
  }

  /** Other receipts report nothing. */
  lemma OthersReportNothing(heartbeat: nat, e: Gsi.EngineState, step: Gsi.Step)
    requires Offered(heartbeat, e, step).Some? && Offered(heartbeat, e, step).value.output != Gsi.Healthy
    ensures Offered(heartbeat, e, step).value.facts == []
  {
    hide Gsi.Prune;
    hide Gsi.DeltaFacts;
    hide Gsi.RoundEnds;
  }

  // ----- One step of the system

  ghost predicate Possible(heartbeat: nat, sys: System, last: u64, step: Step) {
    match step
    case Evidence(gsi, order, _) => Offered(heartbeat, sys.engine, gsi).Some? ==> Live.IsOrder(order, sys.live.captures)
    case Other(op) => !op.DoIngest? && Live.Possible(sys.live, last, op)
  }

  function Later(last: u64, step: Step): u64 {
    if step.Evidence? then last
    else
      match step.op
      case DoIngest(_, _, _) => last
      case DoTimer(_, _, recorder, _) => recorder.now
      case DoRetry(_, recorder, _) => recorder.now
      case DoManual(_, _, _, recorder, _) => recorder.now
  }

  /** The receipt that this step makes the sink accept, if any. */
  ghost function Accepted(heartbeat: nat, sys: System, step: Step): Option<Gsi.EvidenceReceipt> {
    if step.Other? then None
    else
      var offered := Offered(heartbeat, sys.engine, step.step);
      if offered.Some? && Takes(sys, offered.value, step.order, step.env) then offered else None
  }

  lemma ReportsPush(trace: seq<Gsi.Entry>, entry: Gsi.Entry, round: nat, mapHash: string)
    ensures Reports(trace + [entry], round, mapHash) <==>
            Reports(trace, round, mapHash) ||
            (entry.Emitted? && Gsi.RoundEnd(round, round + 1) in entry.receipt.facts
             && entry.receipt.context.mapHash == Some(mapHash))
  {
    var longer := trace + [entry];
    assert longer[|trace|] == entry;
    if k: nat :| k < |trace| && trace[k].Emitted? && Gsi.RoundEnd(round, round + 1) in trace[k].receipt.facts
                 && trace[k].receipt.context.mapHash == Some(mapHash) {
      assert longer[k] == trace[k];
    }
  }

  lemma KeysStay(st: Live.State, st': Live.State, mapHash: string, round: nat)
    requires Live.Evolves(st, st') && Captured(st, mapHash, round)
    ensures Captured(st', mapHash, round)
  {
  }

  /** Later states keep what has been reported captured. */
  lemma StillCaptured(sys: System, sys': System)
    requires ReportedCaptured(sys) && sys'.trace == sys.trace && Live.Evolves(sys.live, sys'.live)
    ensures ReportedCaptured(sys')
  {
    hide Reports;
    hide Captured;
    hide Live.Evolves;
    forall round: nat, mapHash | Reports(sys'.trace, round, mapHash)
      ensures Captured(sys'.live, mapHash, round)
    {
      KeysStay(sys.live, sys'.live, mapHash, round);
    }
  }

  lemma AcceptedCaptured(heartbeat: nat, sys: System, last: u64, step: Step)
    requires Valid(sys, last) && Possible(heartbeat, sys, last, step) && Accepted(heartbeat, sys, step).Some?
    ensures ReportedCaptured(Perform(heartbeat, sys, step))
  {
    hide Reports;
    hide Captured;
    hide Live.Valid;
    hide Live.Evolves;
    hide Live.AfterIngest;
    hide Live.IsOrder;
    hide Gsi.Apply;
    hide Offered;
    var r := Offered(heartbeat, sys.engine, step.step).value;
    var sys' := Perform(heartbeat, sys, step);
    OfferedStep(heartbeat, sys.engine, step.step, true);
    Live.IngestValid(sys.live, last, r, step.order, step.env);
    NewReceipt(sys, r);
    assert sys'.trace == sys.trace + [Gsi.Emitted(r)];
    forall round: nat, mapHash | Reports(sys'.trace, round, mapHash)
      ensures Captured(sys'.live, mapHash, round)
    {
      ReportsPush(sys.trace, Gsi.Emitted(r), round, mapHash);
      if Reports(sys.trace, round, mapHash) {
        KeysStay(sys.live, sys'.live, mapHash, round);
      } else {
        if r.output != Gsi.Healthy {
          OthersReportNothing(heartbeat, sys.engine, step.step);
        }
        HealthyReports(heartbeat, sys.engine, step.step, round);
        TakenCaptures(sys.live, r, step.order, step.env, round);
      }
    }
  }

  /** The stretch goes on over an accepted receipt that continues it, and begins anew otherwise. */
  lemma AcceptedStretch(heartbeat: nat, sys: System, step: Step)
    requires StretchReported(sys) && Accepted(heartbeat, sys, step).Some?
    ensures StretchReported(Perform(heartbeat, sys, step))
  {
    hide Live.AfterIngest;
    hide Gsi.Apply;
    hide Offered;
    hide IsReported;
    var r := Offered(heartbeat, sys.engine, step.step).value;
    var sys' := Perform(heartbeat, sys, step);
    OfferedStep(heartbeat, sys.engine, step.step, true);
    assert sys'.trace == sys.trace + [Gsi.Emitted(r)];
    if sys'.since.Some? && sys.since.Some? && Continues(sys.engine, r) {
      HealthyReports(heartbeat, sys.engine, step.step, 0);
      forall round: nat | sys.since.value <= round < r.context.observedRound.value
        ensures IsReported(sys'.trace, round)
      {
        ReportedOrNew(heartbeat, sys, step.step, r, round);
      }
    }
  }

  lemma ReportedOrNew(heartbeat: nat, sys: System, step: Gsi.Step, r: Live.Receipt, round: nat)
    requires StretchReported(sys) && sys.since.Some? && Offered(heartbeat, sys.engine, step) == Some(r)
    requires Continues(sys.engine, r) && sys.since.value <= round < r.context.observedRound.value
    ensures IsReported(sys.trace + [Gsi.Emitted(r)], round)
  {
    hide Offered;
    hide Reports;
    if round < sys.engine.snapshot.value.round.value {
      assert IsReported(sys.trace, round);
      var mapHash :| Reports(sys.trace, round, mapHash);
      ReportsPush(sys.trace, Gsi.Emitted(r), round, mapHash);
    } else {
      HealthyReports(heartbeat, sys.engine, step, round);
      ReportsPush(sys.trace, Gsi.Emitted(r), round, r.context.mapHash.value);
    }
  }

  lemma OldReceiptsStep(heartbeat: nat, sys: System, step: Step)
    requires OldReceipts(sys) && step.Evidence?
    requires Offered(heartbeat, sys.engine, step.step).Some? ==> Live.IsOrder(step.order, sys.live.captures)
    ensures OldReceipts(Perform(heartbeat, sys, step))
  {
    hide Live.AfterIngest;
    hide Live.IsOrder;
    hide Gsi.Apply;
    hide Offered;
    hide Decimal;
    var sys' := Perform(heartbeat, sys, step);
    var offered := Offered(heartbeat, sys.engine, step.step);
    if offered.None? {
      SilentStep(heartbeat, sys.engine, step.step);
    } else {
      var r := offered.value;
      var ok := Takes(sys, r, step.order, step.env);
      OfferedStep(heartbeat, sys.engine, step.step, ok);
      IngestProcessed(sys.live, r, step.order, step.env);
      forall id | id in sys'.live.processed
        ensures exists hash, n: nat :: n <= sys'.engine.sequence && id == hash + ":" + Decimal(n)
      {
        if id in sys.live.processed {
          var hash, n: nat :| n <= sys.engine.sequence && id == hash + ":" + Decimal(n);
          assert n <= sys'.engine.sequence;
        } else {
          assert ok && id == r.payloadHash + ":" + Decimal(r.sequence);
        }
      }
    }
  }

  lemma EvidenceEvolves(heartbeat: nat, sys: System, last: u64, step: Step)
    requires Live.Valid(sys.live, last) && step.Evidence?
    requires Offered(heartbeat, sys.engine, step.step).Some? ==> Live.IsOrder(step.order, sys.live.captures)
    ensures Live.Valid(Perform(heartbeat, sys, step).live, last) && Live.Evolves(sys.live, Perform(heartbeat, sys, step).live)
  {
    hide Live.AfterIngest;
    hide Live.Valid;
    hide Live.Evolves;
    hide Live.IsOrder;
    hide Gsi.Apply;
    hide Offered;
    Live.Unchanged(sys.live);
    var offered := Offered(heartbeat, sys.engine, step.step);
    if offered.Some? {
      Live.IngestValid(sys.live, last, offered.value, step.order, step.env);
    }
  }

  lemma OtherKeeps(sys: System, last: u64, op: Live.Op)
    requires !op.DoIngest?
    ensures Live.Perform(sys.live, op).processed == sys.live.processed
  {
    hide Live.ManualId;
    hide Live.Windowed;
  }

  lemma StepValid(heartbeat: nat, sys: System, last: u64, step: Step)
    requires Valid(sys, last) && Possible(heartbeat, sys, last, step)
    ensures Valid(Perform(heartbeat, sys, step), Later(last, step))
    ensures Live.Evolves(sys.live, Perform(heartbeat, sys, step).live)
  {
    hide Live.Valid;
    hide Live.Evolves;
    hide Live.Perform;
    hide Live.Possible;
    hide Live.AfterIngest;
    hide Live.IsOrder;
    hide Gsi.Apply;
    hide Offered;
    hide OldReceipts;
    hide StretchReported;
    hide ReportedCaptured;
    var sys' := Perform(heartbeat, sys, step);
    if step.Other? {
      Live.StepValid(sys.live, last, step.op);
      OtherKeeps(sys, last, step.op);
      StillCaptured(sys, sys');
      SameHistory(sys, sys');
    } else {
      EvidenceEvolves(heartbeat, sys, last, step);
      OldReceiptsStep(heartbeat, sys, step);
      if Accepted(heartbeat, sys, step).Some? {
        AcceptedCaptured(heartbeat, sys, last, step);
        AcceptedStretch(heartbeat, sys, step);
      } else {
        NotAccepted(heartbeat, sys, step);
      }
    }
  }

  lemma SameHistory(sys: System, sys': System)
    requires sys'.engine == sys.engine && sys'.trace == sys.trace && sys'.since == sys.since
    requires sys'.live.processed == sys.live.processed
    ensures OldReceipts(sys) ==> OldReceipts(sys')
    ensures StretchReported(sys) ==> StretchReported(sys')
  {
    hide IsReported;
  }

  /** A step that hands nothing to the sink, or whose receipt is refused. */
  lemma NotAccepted(heartbeat: nat, sys: System, step: Step)
    requires step.Evidence? && Accepted(heartbeat, sys, step).None?
    requires StretchReported(sys) && ReportedCaptured(sys)
    requires Live.Evolves(sys.live, Perform(heartbeat, sys, step).live)
    ensures StretchReported(Perform(heartbeat, sys, step)) && ReportedCaptured(Perform(heartbeat, sys, step))
  {
    hide Live.AfterIngest;
    hide Live.Evolves;
    hide Gsi.Apply;
    hide Offered;
    hide IsReported;
    hide ReportedCaptured;
    var sys' := Perform(heartbeat, sys, step);
    if Offered(heartbeat, sys.engine, step.step).None? {
      SilentStep(heartbeat, sys.engine, step.step);
      if step.step.Mismatch? {
        ClearedCaptured(sys, sys');
      } else {
        StillCaptured(sys, sys');
      }
    } else {
      OfferedStep(heartbeat, sys.engine, step.step, false);
      StillCaptured(sys, sys');
    }
  }

  lemma ClearedCaptured(sys: System, sys': System)
    requires ReportedCaptured(sys) && sys'.trace == sys.trace + [Gsi.Cleared] && sys'.live == sys.live
    ensures ReportedCaptured(sys')
  {
    hide Reports;
    forall round: nat, mapHash | Reports(sys'.trace, round, mapHash)
      ensures Captured(sys'.live, mapHash, round)
    {
      ReportsPush(sys.trace, Gsi.Cleared, round, mapHash);
    }
  }

  // ----- What becomes of a round that is owed

  /** The accepted receipt reports the round on a map. */
  ghost predicate MakesUp(heartbeat: nat, sys: System, step: Step, round: nat) {
    var r := Accepted(heartbeat, sys, step);
    && r.Some? && r.value.output == Gsi.Healthy && r.value.context.mapHash.Some?
    && r.value.context.observedRound.Some? && round < r.value.context.observedRound.value
  }

  /** The accepted receipt says that the round is still being played. */
  ghost predicate PutsOff(heartbeat: nat, sys: System, step: Step, round: nat) {
    var r := Accepted(heartbeat, sys, step);
    && r.Some? && r.value.output == Gsi.Healthy
    && r.value.context.observedRound.Some? && r.value.context.observedRound.value <= round
  }

  /** The baseline is dropped: by a request of another player, by an accepted stale or reset receipt,
      or by an accepted one that names no round, or no map for the rounds it leaves. */
  ghost predicate Drops(heartbeat: nat, sys: System, step: Step, round: nat) {
    || (step.Evidence? && step.step.Mismatch?)
    || var r := Accepted(heartbeat, sys, step);
       && r.Some?
       && (|| r.value.output != Gsi.Healthy || r.value.context.observedRound.None?
           || (r.value.context.mapHash.None? && round < r.value.context.observedRound.value))
  }

  lemma OneFate(heartbeat: nat, sys: System, step: Step, round: nat)
    ensures MakesUp(heartbeat, sys, step, round) ==> !PutsOff(heartbeat, sys, step, round) && !Drops(heartbeat, sys, step, round)
    ensures PutsOff(heartbeat, sys, step, round) ==> !Drops(heartbeat, sys, step, round)
  {
    hide Offered;
    hide Takes;
    if step.Evidence? && step.step.Mismatch? {
      assert Offered(heartbeat, sys.engine, step.step).None? by { MismatchOffersNothing(heartbeat, sys.engine, step.step); }
    }
  }

  lemma MismatchOffersNothing(heartbeat: nat, e: Gsi.EngineState, step: Gsi.Step)
    requires step.Mismatch?
    ensures Offered(heartbeat, e, step).None?
  {
  }

  /** A round that is owed has its capture after the next accepted healthy receipt that leaves it on
      a map, stays owed over whatever is refused, and is lost exactly when the baseline is dropped
      first: then no capture is added for it, and what a refused receipt had not already scheduled
      never is. */
  lemma OwedRoundFate(heartbeat: nat, sys: System, last: u64, step: Step, round: nat)
    requires Valid(sys, last) && Possible(heartbeat, sys, last, step) && Owed(sys, round)
    ensures var sys' := Perform(heartbeat, sys, step);
      && (MakesUp(heartbeat, sys, step, round) ==>
            exists mapHash :: Reports(sys'.trace, round, mapHash) && Captured(sys'.live, mapHash, round))
      && (Drops(heartbeat, sys, step, round) ==>
            !Owed(sys', round) && forall mapHash :: Captured(sys'.live, mapHash, round) <==> Captured(sys.live, mapHash, round))
      && (Owed(sys', round) <==>
            !MakesUp(heartbeat, sys, step, round) && !PutsOff(heartbeat, sys, step, round) && !Drops(heartbeat, sys, step, round))
  {
    hide Live.Valid;
    hide Live.Perform;
    hide Live.Possible;
    hide Live.AfterIngest;
    hide Live.IsOrder;
    hide Gsi.Apply;
    hide Offered;
    hide OldReceipts;
    hide StretchReported;
    hide ReportedCaptured;
    hide Reports;
    hide Captured;
    var sys' := Perform(heartbeat, sys, step);
    if step.Evidence? {
      var offered := Offered(heartbeat, sys.engine, step.step);
      if offered.None? {
        SilentStep(heartbeat, sys.engine, step.step);
      } else {
        var r := offered.value;
        var ok := Takes(sys, r, step.order, step.env);
        OfferedStep(heartbeat, sys.engine, step.step, ok);
        MismatchOffers(heartbeat, sys.engine, step.step);
        if ok {
          AcceptedCaptured(heartbeat, sys, last, step);
          AcceptedFate(heartbeat, sys, step, r, round);
        }
      }
    }
  }

  lemma MismatchOffers(heartbeat: nat, e: Gsi.EngineState, step: Gsi.Step)
    requires Offered(heartbeat, e, step).Some?
    ensures !step.Mismatch?
  {
    hide Gsi.Post;
    hide Gsi.Poll;
  }

  lemma AcceptedFate(heartbeat: nat, sys: System, step: Step, r: Live.Receipt, round: nat)
    requires Owed(sys, round) && Accepted(heartbeat, sys, step) == Some(r) && !step.step.Mismatch?
    requires Live.IsOrder(step.order, sys.live.captures)
    requires ReportedCaptured(Perform(heartbeat, sys, step))
    ensures var sys' := Perform(heartbeat, sys, step);
      && (MakesUp(heartbeat, sys, step, round) ==>
            exists mapHash :: Reports(sys'.trace, round, mapHash) && Captured(sys'.live, mapHash, round))
      && (Drops(heartbeat, sys, step, round) ==>
            forall mapHash :: Captured(sys'.live, mapHash, round) <==> Captured(sys.live, mapHash, round))
  {
    hide Live.AfterIngest;
    hide Live.IsOrder;
    hide Gsi.Apply;
    hide Offered;
    hide Reports;
    hide Captured;
    var sys' := Perform(heartbeat, sys, step);
    OfferedStep(heartbeat, sys.engine, step.step, true);
    assert sys'.trace == sys.trace + [Gsi.Emitted(r)];
    if MakesUp(heartbeat, sys, step, round) {
      HealthyReports(heartbeat, sys.engine, step.step, round);
      ReportsPush(sys.trace, Gsi.Emitted(r), round, r.context.mapHash.value);
      assert Captured(sys'.live, r.context.mapHash.value, round);
    }
    if Drops(heartbeat, sys, step, round) {
      if r.output != Gsi.Healthy {
        OthersReportNothing(heartbeat, sys.engine, step.step);
      }
      NamelessAddsNothing(sys.live, r, step.order, step.env, round);
    }
  }

  /** A receipt without facts, without a map or without a round schedules nothing. */
  lemma NamelessAddsNothing(st: Live.State, r: Live.Receipt, order: seq<string>, env: Live.Environment, round: nat)
    requires Live.IsOrder(order, st.captures)
    requires r.facts == [] || r.context.mapHash.None? || r.context.observedRound.None?
    ensures forall mapHash ::
              Captured(Live.AfterIngest(st, r, order, env).st, mapHash, round) <==> Captured(st, mapHash, round)
  {
    hide Live.AfterIngest;
    hide Live.AutoId;
    hide Live.RoundId;
    var k := Live.IngestProgress(st, r, order, env);
    var start := Live.AfterCancelling(st, r);
    NamelessEffect(start, r, r.facts);
    NamelessEffect(start, r, r.facts[..k]);
    hide Live.Effect;
    hide Live.Done;
    if Live.AfterCancelling(Live.AfterIngest(st, r, order, env).st, r) == start {
      assert Live.AfterIngest(st, r, order, env).st.captures.Keys == start.captures.Keys == st.captures.Keys by {
        CancellingKeys(Live.AfterIngest(st, r, order, env).st, r);
        CancellingKeys(st, r);
      }
    }
  }

  lemma CancellingKeys(st: Live.State, r: Live.Receipt)
    ensures Live.AfterCancelling(st, r).captures.Keys == st.captures.Keys
  {
  }

  lemma {:induction false} NamelessEffect(st: Live.State, r: Live.Receipt, facts: seq<Gsi.TransitionFact>)
    requires facts == [] || r.context.mapHash.None? || r.context.observedRound.None?
    ensures Live.Effect(st, r, facts).captures == st.captures
    decreases |facts|
  {
    hide Live.CapturedCandidate;
    if facts != [] {
      NamelessEffect(Live.FactEffect(st, r, facts[0]), r, facts[1..]);
    }
  }

  // ----- Runs

  function Start(session: string): System {
    System(Gsi.INITIAL, [], Live.Initial(session), None, None)
  }

  ghost predicate PossibleRun(heartbeat: nat, session: string, steps: seq<Step>)
    decreases |steps|, 0
  {
    steps == [] ||
    var before := steps[..|steps| - 1];
    && PossibleRun(heartbeat, session, before)
    && var (sys, last) := Run(heartbeat, session, before);
    Possible(heartbeat, sys, last, steps[|steps| - 1])
  }

  ghost function Run(heartbeat: nat, session: string, steps: seq<Step>): (System, u64)
    decreases |steps|
  {
    if steps == [] then (Start(session), 0)
    else
      var (sys, last) := Run(heartbeat, session, steps[..|steps| - 1]);
      (Perform(heartbeat, sys, steps[|steps| - 1]), Later(last, steps[|steps| - 1]))
  }

  lemma {:induction false} RunValid(heartbeat: nat, session: string, steps: seq<Step>)
    requires PossibleRun(heartbeat, session, steps)
    ensures Valid(Run(heartbeat, session, steps).0, Run(heartbeat, session, steps).1)
    decreases |steps|
  {
    hide Valid;
    hide Perform;
    hide Possible;
    hide Later;
    if steps == [] {
      InitiallyValid(session);
    } else {
      var before := steps[..|steps| - 1];
      RunValid(heartbeat, session, before);
      StepValid(heartbeat, Run(heartbeat, session, before).0, Run(heartbeat, session, before).1, steps[|steps| - 1]);
    }
  }

  lemma InitiallyValid(session: string)
    ensures Valid(Start(session), 0)
  {
    Live.InitiallyValid(session);
  }

  /** In every run of engine and coordinator, whatever is refused, duplicated or retried: an accepted
      receipt that reports a round on a map leaves a capture of that round, for good. */
  lemma {:induction false} ReportedRoundsAreCaptured(heartbeat: nat, session: string, steps: seq<Step>, k: nat, round: nat)
    requires PossibleRun(heartbeat, session, steps)
    requires var trace := Run(heartbeat, session, steps).0.trace;
      k < |trace| && trace[k].Emitted? && Gsi.RoundEnd(round, round + 1) in trace[k].receipt.facts
      && trace[k].receipt.context.mapHash.Some?
    ensures var sys := Run(heartbeat, session, steps).0;
      Captured(sys.live, sys.trace[k].receipt.context.mapHash.value, round)
  {
    hide Run;
    hide PossibleRun;
    hide Captured;
    hide Live.Valid;
    hide OldReceipts;
    hide StretchReported;
    RunValid(heartbeat, session, steps);
    var sys := Run(heartbeat, session, steps).0;
    assert Reports(sys.trace, round, sys.trace[k].receipt.context.mapHash.value);
  }

  /** Between the first baseline of an uninterrupted stretch and the current one no round is without
      a capture. */
  lemma {:induction false} StretchIsCaptured(heartbeat: nat, session: string, steps: seq<Step>, round: nat)
    requires PossibleRun(heartbeat, session, steps)
    requires var sys := Run(heartbeat, session, steps).0;
      sys.since.Some? && sys.since.value <= round
      && sys.engine.snapshot.Some? && sys.engine.snapshot.value.round.Some? && round < sys.engine.snapshot.value.round.value
    ensures var sys := Run(heartbeat, session, steps).0;
      exists mapHash :: Reports(sys.trace, round, mapHash) && Captured(sys.live, mapHash, round)
  {
    hide Run;
    hide PossibleRun;
    hide Captured;
    hide Reports;
    hide Live.Valid;
    hide OldReceipts;
    RunValid(heartbeat, session, steps);
    var sys := Run(heartbeat, session, steps).0;
    assert IsReported(sys.trace, round);
    var mapHash :| Reports(sys.trace, round, mapHash);
  }

  /** The engine's part is a run of the engine alone with some answers of the sink, so everything
      proved of those runs holds here. */
  lemma {:induction false} EngineRuns(heartbeat: nat, session: string, steps: seq<Step>) returns (alone: seq<Gsi.Step>)
    ensures var sys := Run(heartbeat, session, steps).0; Gsi.Run(heartbeat, alone) == (sys.engine, sys.trace)
    ensures Gsi.Numbered(Gsi.Receipts(Run(heartbeat, session, steps).0.trace))
    decreases |steps|
  {
    hide Live.AfterIngest;
    hide Live.Perform;
    hide Gsi.Apply;
    hide Offered;
    hide Gsi.Receipts;
    hide Gsi.Numbered;
    if steps == [] {
      alone := [];
    } else {
      var before, step := steps[..|steps| - 1], steps[|steps| - 1];
      alone := EngineRuns(heartbeat, session, before);
      if step.Evidence? {
        var next := EngineStep(heartbeat, Run(heartbeat, session, before).0, step);
        assert (alone + [next])[..|alone|] == alone;
        alone := alone + [next];
      }
    }
    Gsi.RunNumbered(heartbeat, alone);
  }

  lemma EngineStep(heartbeat: nat, sys: System, step: Step) returns (next: Gsi.Step)
    requires step.Evidence?
    ensures var (engine, entries) := Gsi.Apply(heartbeat, sys.engine, next); var sys' := Perform(heartbeat, sys, step);
      sys'.engine == engine && sys'.trace == sys.trace + entries
  {
    hide Live.AfterIngest;
    hide Gsi.Apply;
    hide Offered;
    var offered := Offered(heartbeat, sys.engine, step.step);
    assert sys.trace + [] == sys.trace;
    if offered.None? {
      next := step.step;
      SilentStep(heartbeat, sys.engine, next);
    } else {
      var ok := Takes(sys, offered.value, step.order, step.env);
      next := Answered(step.step, ok);
      OfferedStep(heartbeat, sys.engine, step.step, ok);
    }
  }

  // ----- A lost round

  /** A payload of the given round on the map "m", in a game that names no session. */
  function PayloadOf(hash: string, round: nat): Gsi.Payload {
    Gsi.Payload(hash, Gsi.Presence([]), Gsi.TrustedSnapshot(None, Some("m"), Some(round), None, None, None, None, None))
  }

  /** The payload is posted, and the store and the scheduler answer as given. */
  function Posting(hash: string, round: nat, answers: seq<bool>): Step {
    Evidence(Gsi.DoPost(0, PayloadOf(hash, round), true), [], Live.Environment(answers, []))
  }

  const FOREIGN := Evidence(Gsi.Mismatch(0), [], Live.Environment([], []))

  /** The first post on a fresh or cleared engine: taken in, with nothing to report. */
  lemma SeedPost(heartbeat: nat, sys: System, hash: string, round: nat)
    requires OldReceipts(sys) && sys.engine == Gsi.EngineState(sys.engine.sequence, None, map[], None, None, None, None, false)
    ensures var sys' := Perform(heartbeat, sys, Posting(hash, round, [true]));
      && sys'.engine.sequence == sys.engine.sequence + 1
      && sys'.engine.snapshot == Some(PayloadOf(hash, round).snapshot) && !sys'.engine.stale
      && sys'.engine.recentHashes.Keys == {hash}
      && sys'.live.captures == sys.live.captures && sys'.seen == Some(round)
  {
    hide Live.ReceiptId;
    var r := Gsi.ReceiptFor(sys.engine, 0, PayloadOf(hash, round));
    NewReceipt(sys, r);
    assert Live.Remaining(Live.Environment([true], [])).answers == [];
  }

  /** The second round ends while the store refuses the receipt: the engine keeps its baseline. */
  lemma RefusedPost(heartbeat: nat, sys: System, hash: string, round: nat, next: string)
    requires sys.engine.snapshot == Some(PayloadOf(hash, round).snapshot) && !sys.engine.stale && sys.seen == Some(round)
    requires sys.engine.recentHashes.Keys == {hash} && next != hash
    ensures var sys' := Perform(heartbeat, sys, Posting(next, round + 1, []));
      && sys'.live == sys.live && sys'.engine == sys.engine.(recentHashes := sys'.engine.recentHashes)
      && Owed(sys', round)
  {
    assert !Live.Granted(Live.Environment([], []));
  }

  lemma PostPossible(heartbeat: nat, sys: System, last: u64, hash: string, round: nat, answers: seq<bool>)
    requires sys.live.captures == map[]
    ensures Possible(heartbeat, sys, last, Posting(hash, round, answers))
  {
    hide Offered;
  }

  lemma ForeignClears(heartbeat: nat, sys: System)
    ensures Possible(heartbeat, sys, 0, FOREIGN)
    ensures var sys' := Perform(heartbeat, sys, FOREIGN);
      sys'.engine == Gsi.Clear(sys.engine) && sys'.live == sys.live && (OldReceipts(sys) ==> OldReceipts(sys'))
  {
    MismatchOffersNothing(heartbeat, sys.engine, FOREIGN.step);
  }

  lemma {:induction false} RunOfFour(heartbeat: nat, session: string, a: Step, b: Step, c: Step, d: Step)
    requires a.Evidence? && b.Evidence? && c.Evidence? && d.Evidence?
    requires var s0 := Start(session); var s1 := Perform(heartbeat, s0, a); var s2 := Perform(heartbeat, s1, b);
      var s3 := Perform(heartbeat, s2, c);
      Possible(heartbeat, s0, 0, a) && Possible(heartbeat, s1, 0, b) && Possible(heartbeat, s2, 0, c) && Possible(heartbeat, s3, 0, d)
    ensures PossibleRun(heartbeat, session, [a, b, c, d])
    ensures var s1 := Perform(heartbeat, Start(session), a); var s2 := Perform(heartbeat, s1, b);
      && Run(heartbeat, session, [a, b]).0 == s2
      && Run(heartbeat, session, [a, b, c, d]).0 == Perform(heartbeat, Perform(heartbeat, s2, c), d)
  {
    hide Perform;
    hide Possible;
    var r1, r2, r3, r4 := [a], [a, b], [a, b, c], [a, b, c, d];
    assert r4[..3] == r3 && r3[..2] == r2 && r2[..1] == r1 && r1[..0] == [];
    assert PossibleRun(heartbeat, session, []) && Run(heartbeat, session, []).1 == 0;
    assert PossibleRun(heartbeat, session, r1) && Run(heartbeat, session, r1).1 == 0;
    assert PossibleRun(heartbeat, session, r2) && Run(heartbeat, session, r2).1 == 0;
    assert PossibleRun(heartbeat, session, r3) && Run(heartbeat, session, r3).1 == 0;
  }

  /** Round 1 ends while the store refuses the receipt, and a request of another player follows
      before the next one is accepted: the game goes on in round 2, and round 1 has no capture. */
  lemma {:induction false} MismatchLosesRound(heartbeat: nat, session: string)
    ensures var steps := [Posting("a", 1, [true]), Posting("b", 2, []), FOREIGN, Posting("c", 2, [true])];
      && PossibleRun(heartbeat, session, steps)
      && Owed(Run(heartbeat, session, steps[..2]).0, 1)
      && var sys := Run(heartbeat, session, steps).0;
      && sys.engine.snapshot.Some? && sys.engine.snapshot.value.round == Some(2)
      && sys.live.captures == map[]
  {
    hide Perform;
    hide Possible;
    hide Owed;
    var s0 := Start(session);
    var s1 := Perform(heartbeat, s0, Posting("a", 1, [true]));
    var s2 := Perform(heartbeat, s1, Posting("b", 2, []));
    var s3 := Perform(heartbeat, s2, FOREIGN);
    InitiallyValid(session);
    SeedPost(heartbeat, s0, "a", 1);
    PostPossible(heartbeat, s0, 0, "a", 1, [true]);
    PostPossible(heartbeat, s1, 0, "b", 2, []);
    RefusedPost(heartbeat, s1, "a", 1, "b");
    ForeignClears(heartbeat, s2);
    PostedReceipts(heartbeat, s0, "a", 1, [true]);
    PostedReceipts(heartbeat, s1, "b", 2, []);
    SeedPost(heartbeat, s3, "c", 2);
    PostPossible(heartbeat, s3, 0, "c", 2, [true]);
    var steps := [Posting("a", 1, [true]), Posting("b", 2, []), FOREIGN, Posting("c", 2, [true])];
    assert steps[..2] == [steps[0], steps[1]];
    RunOfFour(heartbeat, session, steps[0], steps[1], steps[2], steps[3]);
  }

  lemma PostedReceipts(heartbeat: nat, sys: System, hash: string, round: nat, answers: seq<bool>)
    requires OldReceipts(sys) && sys.live.captures == map[]
    ensures OldReceipts(Perform(heartbeat, sys, Posting(hash, round, answers)))
  {
    hide Perform;
    hide OldReceipts;
    hide Offered;
    OldReceiptsStep(heartbeat, sys, Posting(hash, round, answers));
  }

  // ----- A second match on the same map

  /** Captures are named by map and round only.  When one of that name exists, the round's end leaves
      its candidate and its deadline as they are, and a cancelled one cancelled. */
  lemma EarlierCaptureStands(heartbeat: nat, sys: System, last: u64, step: Step, mapHash: string, round: nat)
    requires Valid(sys, last) && Possible(heartbeat, sys, last, step) && Captured(sys.live, mapHash, round)
    ensures var id := Live.AutoId(Live.RoundId(mapHash, round)); var sys' := Perform(heartbeat, sys, step);
      && id in sys'.live.captures
      && sys'.live.captures[id].candidate == sys.live.captures[id].candidate
      && sys'.live.captures[id].deadline == sys.live.captures[id].deadline
      && (Live.Final(sys.live.captures[id].status) ==> sys'.live.captures[id] == sys.live.captures[id])
  {
    hide Perform;
    hide Valid;
    hide Possible;
    hide Live.AutoId;
    hide Live.RoundId;
    StepValid(heartbeat, sys, last, step);
    var id := Live.AutoId(Live.RoundId(mapHash, round));
    assert Live.CaptureEvolves(sys.live.captures[id], Perform(heartbeat, sys, step).live.captures[id]);
  }

  const FIRST_CAPTURE := Live.AutoId(Live.RoundId("m", 1))

  function PrunedAt(e: Gsi.EngineState, now: nat): Gsi.EngineState {
    e.(recentHashes := Gsi.Prune(e.recentHashes, now))
  }

  /** A post of a new payload, written out. */
  lemma PostStep(heartbeat: nat, sys: System, p: Gsi.Payload, order: seq<string>, env: Live.Environment)
    requires p.hash !in PrunedAt(sys.engine, 0).recentHashes
    ensures var r := Gsi.ReceiptFor(PrunedAt(sys.engine, 0), 0, p);
      var step := Evidence(Gsi.DoPost(0, p, true), order, env);
      && Offered(heartbeat, sys.engine, step.step) == Some(r)
      && (Takes(sys, r, order, env) ==>
            Perform(heartbeat, sys, step) ==
            Noted(sys, Gsi.Commit(PrunedAt(sys.engine, 0), r, p), Gsi.Emitted(r), Live.AfterIngest(sys.live, r, order, env).st))
  {
    hide Gsi.ReceiptFor;
    hide Live.AfterIngest;
    hide Noted;
  }

  /** What the engine makes of the next round on the same map: one end. */
  lemma EndingReceipt(sys: System, before: Gsi.Payload, p: Gsi.Payload, round: nat) returns (r: Live.Receipt)
    requires sys.engine.snapshot == Some(before.snapshot) && !sys.engine.stale
    requires before.snapshot == Match(before.snapshot.sessionHash, round) && p.snapshot == Match(before.snapshot.sessionHash, round + 1)
    ensures r == Gsi.ReceiptFor(PrunedAt(sys.engine, 0), 0, p)
    ensures r.sequence == sys.engine.sequence + 1 && r.output == Gsi.Healthy && r.facts == [Gsi.RoundEnd(round, round + 1)]
    ensures r.context.mapHash == Some("m") && r.context.observedRound == Some(round + 1)
  {
    r := Gsi.ReceiptFor(PrunedAt(sys.engine, 0), 0, p);
    assert Gsi.RoundEnds(round, round + 1) == [Gsi.RoundEnd(round, round + 1)];
  }

  function Match(session: Option<string>, round: nat): Gsi.TrustedSnapshot {
    Gsi.TrustedSnapshot(session, Some("m"), Some(round), None, None, None, None, None)
  }

  function InMatch(session: string, hash: string, round: nat): Gsi.Payload {
    Gsi.Payload(hash, Gsi.Presence([]), Match(Some(session), round))
  }

  function MatchPost(session: string, hash: string, round: nat, order: seq<string>, answers: seq<bool>): Step {
    Evidence(Gsi.DoPost(0, InMatch(session, hash, round), true), order, Live.Environment(answers, []))
  }

  /** The engine as after accepting the payload, and hashes not used yet. */
  ghost predicate After(sys: System, p: Gsi.Payload, used: set<string>) {
    OldReceipts(sys) && sys.engine.snapshot == Some(p.snapshot) && !sys.engine.stale && sys.engine.recentHashes.Keys <= used
  }

  lemma MatchBegins(heartbeat: nat, session: string)
    ensures var sys' := Perform(heartbeat, Start(session), MatchPost("first", "a", 1, [], [true]));
      After(sys', InMatch("first", "a", 1), {"a"}) && sys'.live.captures == map[] && sys'.live.candidates == map[]
  {
    hide Live.ReceiptId;
    hide OldReceipts;
    var sys, p, env := Start(session), InMatch("first", "a", 1), Live.Environment([true], []);
    InitiallyValid(session);
    assert OldReceipts(sys) by { StartHasNone(session); }
    PostStep(heartbeat, sys, p, [], env);
    NewReceipt(sys, Gsi.ReceiptFor(PrunedAt(sys.engine, 0), 0, p));
    OldReceiptsStep(heartbeat, sys, MatchPost("first", "a", 1, [], [true]));
  }

  lemma StartHasNone(session: string)
    ensures OldReceipts(Start(session))
  {
  }

  /** Round 1 is left: its capture is scheduled. */
  lemma FirstRoundEnds(heartbeat: nat, sys: System)
    requires After(sys, InMatch("first", "a", 1), {"a"}) && sys.live.captures == map[] && sys.live.candidates == map[]
    ensures var sys' := Perform(heartbeat, sys, MatchPost("first", "b", 2, [], [true, true, true]));
      && After(sys', InMatch("first", "b", 2), {"a", "b"})
      && sys'.live.captures.Keys == {FIRST_CAPTURE} && Live.Unsaved(sys'.live.captures[FIRST_CAPTURE])
  {
    hide Live.ReceiptId;
    hide Live.AutoId;
    hide Live.RoundId;
    hide Live.TimerFor;
    hide OldReceipts;
    hide Offered;
    var p, env := InMatch("first", "b", 2), Live.Environment([true, true, true], []);
    var r := EndingReceipt(sys, InMatch("first", "a", 1), p, 1);
    NewReceipt(sys, r);
    EndIngested(sys.live, r);
    PostStep(heartbeat, sys, p, [], env);
    OldReceiptsStep(heartbeat, sys, MatchPost("first", "b", 2, [], [true, true, true]));
  }

  /** A receipt with one fact, on an engine that was not stale: persisted, then the fact. */
  lemma OneFactIngested(st: Live.State, r: Live.Receipt, f: Gsi.TransitionFact, order: seq<string>, env: Live.Environment)
    requires r.output == Gsi.Healthy && r.facts == [f] && Live.Granted(env) && Live.ReceiptId(r) !in st.processed
    ensures var one := Live.ApplyFact(st, r, f, Live.Remaining(env)); var reply := Live.AfterIngest(st, r, order, env);
      reply.r.Ok? == one.r.Ok? && reply.st.captures == one.st.captures
  {
    hide Live.ReceiptId;
    hide Live.ApplyFact;
    var left := Live.Remaining(env);
    assert Live.Cancelling(st, r, order, left) == Live.Reply(st, Ok(0), left);
    assert r.facts[1..] == [];
    var one := Live.ApplyFact(st, r, f, left);
    if one.r.Ok? {
      NoFacts(one.st, r, r.facts[1..], Live.AddOutcomes(Live.IngestOutcome(0, 0, 0), one.r.value), one.rest);
    }
  }

  lemma {:induction false} NoFacts(st: Live.State, r: Live.Receipt, facts: seq<Gsi.TransitionFact>, so: Live.IngestOutcome, env: Live.Environment)
    requires facts == []
    ensures Live.ApplyFacts(st, r, facts, so, env) == Live.Reply(st, Ok(so), env)
  {
  }

  lemma EndIngested(st: Live.State, r: Live.Receipt)
    requires st.captures == map[] && st.candidates == map[] && Live.ReceiptId(r) !in st.processed
    requires r.output == Gsi.Healthy && r.facts == [Gsi.RoundEnd(1, 2)]
    requires r.context.mapHash == Some("m") && r.context.observedRound == Some(2)
    ensures var reply := Live.AfterIngest(st, r, [], Live.Environment([true, true, true], []));
      && reply.r.Ok? && reply.st.captures.Keys == {FIRST_CAPTURE} && Live.Unsaved(reply.st.captures[FIRST_CAPTURE])
  {
    hide Live.ReceiptId;
    hide Live.AfterIngest;
    hide Live.ApplyFact;
    hide Live.AutoId;
    var env := Live.Environment([true, true, true], []);
    assert Live.Remaining(env).answers == [true, true];
    EndApplied(st, r, Live.Remaining(env));
    OneFactIngested(st, r, Gsi.RoundEnd(1, 2), [], env);
  }

  lemma EndApplied(st: Live.State, r: Live.Receipt, env: Live.Environment)
    requires st.captures == map[] && st.candidates == map[] && env.answers == [true, true]
    requires r.context.mapHash == Some("m") && r.context.observedRound == Some(2)
    ensures var reply := Live.ApplyFact(st, r, Gsi.RoundEnd(1, 2), env);
      && reply.r.Ok? && reply.st.captures.Keys == {FIRST_CAPTURE} && Live.Unsaved(reply.st.captures[FIRST_CAPTURE])
  {
    hide Live.ReceiptId;
    hide Live.AutoId;
    hide Live.RoundId;
    hide Live.TimerFor;
    assert Live.Granted(env) && Live.Granted(Live.Remaining(env));
    assert Live.EndedRound(r, 1) == Some(Live.RoundId("m", 1));
  }

  /** A new match begins: the capture, not saved yet, is cancelled. */
  lemma SecondMatchBegins(heartbeat: nat, sys: System)
    requires After(sys, InMatch("first", "b", 2), {"a", "b"})
    requires sys.live.captures.Keys == {FIRST_CAPTURE} && Live.Unsaved(sys.live.captures[FIRST_CAPTURE])
    ensures var sys' := Perform(heartbeat, sys, MatchPost("second", "c", 1, [FIRST_CAPTURE], [true, true, true]));
      && After(sys', InMatch("second", "c", 1), {"a", "b", "c"})
      && sys'.live.captures.Keys == {FIRST_CAPTURE} && sys'.live.captures[FIRST_CAPTURE].status.Cancelled?
  {
    hide Live.ReceiptId;
    hide Live.AutoId;
    hide Live.RoundId;
    hide Live.TimerFor;
    hide OldReceipts;
    hide Offered;
    var p, env := InMatch("second", "c", 1), Live.Environment([true, true, true], []);
    var r := Gsi.ReceiptFor(PrunedAt(sys.engine, 0), 0, p);
    assert r.output == Gsi.SessionReset && r.facts == [];
    NewReceipt(sys, r);
    ResetIngested(sys.live, r);
    PostStep(heartbeat, sys, p, [FIRST_CAPTURE], env);
    OldReceiptsStep(heartbeat, sys, MatchPost("second", "c", 1, [FIRST_CAPTURE], [true, true, true]));
  }

  lemma ResetIngested(st: Live.State, r: Live.Receipt)
    requires st.captures.Keys == {FIRST_CAPTURE} && Live.Unsaved(st.captures[FIRST_CAPTURE])
    requires r.output == Gsi.SessionReset && r.facts == [] && Live.ReceiptId(r) !in st.processed
    ensures var reply := Live.AfterIngest(st, r, [FIRST_CAPTURE], Live.Environment([true, true, true], []));
      && reply.r.Ok? && reply.st.captures.Keys == {FIRST_CAPTURE} && reply.st.captures[FIRST_CAPTURE].status.Cancelled?
  {
    hide Live.ReceiptId;
    hide Live.AutoId;
    hide Live.RoundId;
    hide Live.CancelUnsaved;
    var env := Live.Environment([true, true, true], []);
    var left := Live.Remaining(env);
    assert left.answers == [true, true];
    CancelSingle(st, FIRST_CAPTURE, [FIRST_CAPTURE], left);
    var cancelled := Live.Cancelling(st, r, [FIRST_CAPTURE], left);
    NoFacts(cancelled.st, r, r.facts, Live.IngestOutcome(0, 0, cancelled.r.value), cancelled.rest);
  }

  lemma CancelSingle(st: Live.State, id: string, order: seq<string>, env: Live.Environment)
    requires st.captures.Keys == {id} && Live.Unsaved(st.captures[id]) && order == [id] && env.answers == [true, true]
    ensures var reply := Live.CancelUnsaved(st, order, Live.BecauseReset, env);
      && reply.r.Ok? && reply.st.captures.Keys == {id} && reply.st.captures[id].status.Cancelled?
      && reply.st.processed == st.processed
  {
    assert order[1..] == [];
    NoneUnsaved(order[1..], st.captures);
    var ids := Live.UnsavedIn(order, st.captures);
    assert ids == [id] + [];
    assert Live.Granted(env) && Live.Granted(Live.Remaining(env));
    var one := Live.CancelOne(st, ids[0], Live.BecauseReset, env);
    assert one.r.Ok?;
    NothingToCancel(one.st, ids[1..], one.rest);
  }

  lemma {:induction false} NoneUnsaved(order: seq<string>, captures: map<string, Live.Capture>)
    requires order == []
    ensures Live.UnsavedIn(order, captures) == []
  {
  }

  lemma {:induction false} NothingToCancel(st: Live.State, ids: seq<string>, env: Live.Environment)
    requires ids == []
    ensures Live.CancelAll(st, ids, Live.BecauseReset, env) == Live.Reply(st, Ok(()), env)
  {
  }

  /** Round 1 of the second match is left: the cancelled capture of the first match stands for it. */
  lemma RoundOneAgain(heartbeat: nat, sys: System)
    requires After(sys, InMatch("second", "c", 1), {"a", "b", "c"}) && FIRST_CAPTURE in sys.live.captures
    ensures var sys' := Perform(heartbeat, sys, MatchPost("second", "d", 2, [FIRST_CAPTURE], [true]));
      && sys'.live.captures == sys.live.captures
      && sys'.trace != [] && sys'.trace[|sys'.trace| - 1].Emitted?
      && Gsi.RoundEnd(1, 2) in sys'.trace[|sys'.trace| - 1].receipt.facts
  {
    hide Live.ReceiptId;
    hide Live.AutoId;
    hide Live.RoundId;
    hide OldReceipts;
    hide Offered;
    hide Live.AfterIngest;
    var p, env := InMatch("second", "d", 2), Live.Environment([true], []);
    var r := EndingReceipt(sys, InMatch("second", "c", 1), p, 1);
    NewReceipt(sys, r);
    EndAgainIngested(sys.live, r);
    PostStep(heartbeat, sys, p, [FIRST_CAPTURE], env);
    assert Gsi.RoundEnd(1, 2) in r.facts;
  }

  lemma EndAgainIngested(st: Live.State, r: Live.Receipt)
    requires FIRST_CAPTURE in st.captures && Live.ReceiptId(r) !in st.processed
    requires r.output == Gsi.Healthy && r.facts == [Gsi.RoundEnd(1, 2)]
    requires r.context.mapHash == Some("m") && r.context.observedRound == Some(2)
    ensures var reply := Live.AfterIngest(st, r, [FIRST_CAPTURE], Live.Environment([true], []));
      reply.r.Ok? && reply.st.captures == st.captures
  {
    hide Live.ReceiptId;
    hide Live.AutoId;
    hide Live.RoundId;
    hide Live.AfterIngest;
    var env := Live.Environment([true], []);
    assert Live.EndedRound(r, 1) == Some(Live.RoundId("m", 1));
    assert Live.ApplyFact(st, r, Gsi.RoundEnd(1, 2), Live.Remaining(env)).st == st;
    OneFactIngested(st, r, Gsi.RoundEnd(1, 2), [FIRST_CAPTURE], env);
  }

  /** Nothing is refused, yet round 1 of the second match on a map has no capture of its own: the
      engine reports its end, and all there is is the cancelled capture of the first match. */
  lemma {:induction false} SecondMatchShares(heartbeat: nat, session: string)
    ensures var steps := [MatchPost("first", "a", 1, [], [true]), MatchPost("first", "b", 2, [], [true, true, true]),
                          MatchPost("second", "c", 1, [FIRST_CAPTURE], [true, true, true]),
                          MatchPost("second", "d", 2, [FIRST_CAPTURE], [true])];
      && PossibleRun(heartbeat, session, steps)
      && var sys := Run(heartbeat, session, steps).0;
      && sys.trace != [] && sys.trace[|sys.trace| - 1].Emitted?
      && Gsi.RoundEnd(1, 2) in sys.trace[|sys.trace| - 1].receipt.facts
      && sys.live.captures.Keys == {FIRST_CAPTURE} && sys.live.captures[FIRST_CAPTURE].status.Cancelled?
  {
    hide Perform;
    hide After;
    hide Live.AutoId;
    var steps := [MatchPost("first", "a", 1, [], [true]), MatchPost("first", "b", 2, [], [true, true, true]),
                  MatchPost("second", "c", 1, [FIRST_CAPTURE], [true, true, true]),
                  MatchPost("second", "d", 2, [FIRST_CAPTURE], [true])];
    var s0 := Start(session);
    var s1 := Perform(heartbeat, s0, steps[0]);
    var s2 := Perform(heartbeat, s1, steps[1]);
    var s3 := Perform(heartbeat, s2, steps[2]);
    MatchBegins(heartbeat, session);
    FirstRoundEnds(heartbeat, s1);
    SecondMatchBegins(heartbeat, s2);
    RoundOneAgain(heartbeat, s3);
    hide Offered;
    assert Live.IsOrder([FIRST_CAPTURE], s2.live.captures) && Live.IsOrder([FIRST_CAPTURE], s3.live.captures);
    RunOfFour(heartbeat, session, steps[0], steps[1], steps[2], steps[3]);
  }
}
