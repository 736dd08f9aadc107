/** The recorder supervisor (crates/openfrag-capture/src/lib.rs:197-432).  The child process, the
    filesystem, the media probe and the clock are the environment: every call is told what they
    answer.  The history of what happened is kept as a ghost trace, and every method is specified
    by a function from one world (fields and trace) to the next. */
module Supervisor {
  import opened Prelude

  datatype Provenance = ManualFlag | AutoRoundEnd

  datatype PendingSave = PendingSave(id: string, provenance: Provenance, sinceWall: u64, requestedAt: u64)

  datatype Error =
    | Process | Filesystem | Media | NotRunning | NoSaveInFlight
    | UnsafeOutputPath | SymlinkOutput | InvalidOutput

  datatype Component = RootDir | CurDir | ParentDir | Normal(name: string)

  type Path = seq<Component>

  datatype MediaInfo = MediaInfo(duration: u64, videoStreams: u32)

  datatype Acknowledgement = Acknowledgement(
    path: Path, id: string, provenance: Provenance, requestedAt: u64, media: MediaInfo)

  datatype Disposition = Signalled | Coalesced

  datatype Config = Config(directory: Path, maxStderr: nat, stableAfter: u64)

  // ----- What the environment answers

  datatype SignalAnswer = SignalAnswer(ok: bool, wall: u64, now: u64)

  datatype FileAnswer = FileAnswer(symlink: Result<bool, ()>, regular: Result<bool, ()>, contained: Result<bool, ()>)

  datatype PollAnswer = PollAnswer(
    drained: Result<seq<Byte>, ()>, stableNow: u64, exit: Result<Option<int>, ()>, exitNow: u64,
    restartNow: u64, spawnOk: bool, spawnNow: u64)

  // ----- State and history

  datatype State = State(
    running: bool, shuttingDown: bool, started: u64, stable: bool,
    inFlight: Option<PendingSave>, queued: Option<PendingSave>, nextRestart: Option<u64>, failures: u64,
    stderr: seq<Byte>)

  const INITIAL := State(false, false, 0, false, None, None, None, 0, [])

  datatype Event =
    | Drained(bytes: seq<Byte>)
    | Stabilised(at: u64)
    | Exited(at: u64, restart: Option<u64>)
    | Spawned(at: u64, restarted: bool)
    | ShutDown
    | Joined(id: string, provenance: Provenance)                      // coalesced into the queued save
    | Sent(id: string, provenance: Provenance, followUp: bool, at: u64)   // User1 delivered
    | Lost(id: string, provenance: Provenance)                        // a follow-up whose User1 failed
    | Settled(ack: Acknowledgement)

  datatype World = World(s: State, trace: seq<Event>)

  function Emit(w: World, s: State, e: Event): World {
    World(s, w.trace + [e])
  }

  // ----- The operations

  function RestartDelay(failures: nat): u64 {
    [1_000, 2_000, 4_000, 8_000, 16_000, 30_000][if failures < 5 then failures else 5]
  }

  function AfterSpawn(w: World, restarted: bool, ok: bool, now: u64): World {
    if !ok then w
    else
      Emit(w, w.s.(running := true, shuttingDown := false, stable := false, started := now, nextRestart := None),
           Spawned(now, restarted))
  }

  function Send(w: World, id: string, provenance: Provenance, followUp: bool, a: SignalAnswer): World
    requires a.ok
  {
    Emit(w, w.s.(inFlight := Some(PendingSave(id, provenance, a.wall, a.now))), Sent(id, provenance, followUp, a.now))
  }

  function Coalesce(queued: Option<PendingSave>, id: string, provenance: Provenance): PendingSave {
    var q := if queued.Some? then queued.value else PendingSave(id, provenance, 0, 0);
    if provenance == ManualFlag then q.(provenance := ManualFlag) else q
  }

  function AfterRequestSave(w: World, id: string, provenance: Provenance, a: SignalAnswer)
    : (World, Result<(string, Disposition), Error>)
  {
    if !w.s.running then (w, Err(NotRunning))
    else if w.s.inFlight.Some? then
      var q := Coalesce(w.s.queued, id, provenance);
      (Emit(w, w.s.(queued := Some(q)), Joined(id, provenance)), Ok((q.id, Coalesced)))
    else if !a.ok then (w, Err(Process))
    else (Send(w, id, provenance, false, a), Ok((id, Signalled)))
  }

  predicate Within(directory: Path, path: Path) {
    directory <= path && ParentDir !in path
  }

  function ValidateOutput(directory: Path, path: Path, files: FileAnswer): Result<(), Error> {
    if !Within(directory, path) then Err(UnsafeOutputPath)
    else if files.symlink.Err? then Err(Filesystem)
    else if files.symlink.value then Err(SymlinkOutput)
    else if files.regular.Err? then Err(Filesystem)
    else if !files.regular.value then Err(InvalidOutput)
    else if files.contained.Err? then Err(Filesystem)
    else if !files.contained.value then Err(UnsafeOutputPath)
    else Ok(())
  }

  function Settle(w: World, ack: Acknowledgement): World {
    Emit(w, w.s.(inFlight := None, queued := None), Settled(ack))
  }

  /** The in-flight save is consumed and the queued one taken before the follow-up is signalled,
      so a failing signal loses the follow-up, and the caller sees an error for a save that is
      settled. */
  function AfterAcknowledge(cfg: Config, w: World, path: Path, files: FileAnswer, media: Result<MediaInfo, ()>, a: SignalAnswer)
    : (World, Result<Acknowledgement, Error>)
  {
    if w.s.inFlight.None? then (w, Err(NoSaveInFlight))
    else
      var validation := ValidateOutput(cfg.directory, path, files);
      if validation.Err? then (w, Err(validation.error))
      else if media.Err? then (w, Err(Media))
      else
        var p := w.s.inFlight.value;
        var ack := Acknowledgement(path, p.id, p.provenance, p.requestedAt, media.value);
        var settled := Settle(w, ack);
        if w.s.queued.None? then (settled, Ok(ack))
        else
          var next := w.s.queued.value;
          if a.ok then (Send(settled, next.id, next.provenance, true, a), Ok(ack))
          else (Emit(settled, settled.s, Lost(next.id, next.provenance)), Err(Process))
  }

  /** Whether this answer to an acknowledgement loses the queued save. */
  predicate LosesFollowUp(cfg: Config, s: State, path: Path, files: FileAnswer, media: Result<MediaInfo, ()>, a: SignalAnswer) {
    s.inFlight.Some? && ValidateOutput(cfg.directory, path, files).Ok? && media.Ok? && s.queued.Some? && !a.ok
  }

  /** An acknowledgement that fails has changed nothing, unless it loses the queued save: then the
      save in flight is settled, the follow-up is gone and the caller sees only the error. */
  lemma FailedAcknowledgeIff(cfg: Config, w: World, path: Path, files: FileAnswer, media: Result<MediaInfo, ()>, a: SignalAnswer)
    ensures var (w', r) := AfterAcknowledge(cfg, w, path, files, media, a);
      && (r.Err? && w' != w <==> LosesFollowUp(cfg, w.s, path, files, media, a))
      && (LosesFollowUp(cfg, w.s, path, files, media, a) ==>
            var lost, p := w.s.queued.value, w.s.inFlight.value;
            && r == Err(Process)
            && w'.s == w.s.(inFlight := None, queued := None)
            && w'.trace == w.trace + [Settled(Acknowledgement(path, p.id, p.provenance, p.requestedAt, media.value)),
                                      Lost(lost.id, lost.provenance)])
  {
    var w' := AfterAcknowledge(cfg, w, path, files, media, a).0;
    assert w' != w ==> |w'.trace| > |w.trace|;
  }

  function AfterDiscoverSave(cfg: Config, w: World, outputs: Result<seq<Path>, ()>, files: FileAnswer,
                        media: Result<MediaInfo, ()>, a: SignalAnswer): (World, Result<Option<Acknowledgement>, Error>)
  {
    if w.s.inFlight.None? then (w, Err(NoSaveInFlight))
    else if outputs.Err? then (w, Err(Filesystem))
    else if outputs.value == [] then (w, Ok(None))
    else
      var (w', r) := AfterAcknowledge(cfg, w, outputs.value[0], files, media, a);
      (w', if r.Ok? then Ok(Some(r.value)) else Err(r.error))
  }

  /** The last `max` elements. */
  function Tail<T>(s: seq<T>, max: nat): seq<T> {
    if |s| <= max then s else s[|s| - max..]
  }

  function Drain(cfg: Config, w: World, bytes: seq<Byte>): World {
    Emit(w, w.s.(stderr := Tail(w.s.stderr + bytes, cfg.maxStderr)), Drained(bytes))
  }

  function Stabilise(cfg: Config, w: World, now: u64): World {
    if w.s.running && !w.s.stable && SatSub(now, w.s.started) >= cfg.stableAfter
    then Emit(w, w.s.(failures := 0, stable := true), Stabilised(now))
    else w
  }

  function Exit(w: World, now: u64): World {
    if w.s.shuttingDown then Emit(w, w.s.(running := false), Exited(now, None))
    else
      var at := SatAdd(now, RestartDelay(w.s.failures));
      Emit(w, w.s.(running := false, failures := SatAdd(w.s.failures, 1), nextRestart := Some(at)), Exited(now, Some(at)))
  }

  function AfterPoll(cfg: Config, w: World, a: PollAnswer): (World, Result<Option<int>, Error>) {
    if a.drained.Err? then (w, Err(Process))
    else
      var w1 := Stabilise(cfg, Drain(cfg, w, a.drained.value), a.stableNow);
      if w1.s.running && a.exit.Err? then (w1, Err(Process))
      else if w1.s.running && a.exit.value.Some? then (Exit(w1, a.exitNow), Ok(a.exit.value))
      else if !w1.s.shuttingDown && !w1.s.running && w1.s.nextRestart.Some? && a.restartNow >= w1.s.nextRestart.value then
        (AfterSpawn(w1, true, a.spawnOk, a.spawnNow), if a.spawnOk then Ok(None) else Err(Process))
      else (w1, Ok(None))
  }

  function AfterShutdown(w: World): World {
    Emit(w, w.s.(shuttingDown := true, nextRestart := None), ShutDown)
  }

  // ----- The history read back

  function DrainedBytes(trace: seq<Event>): seq<Byte> {
    if trace == [] then []
    else
      var e := trace[|trace| - 1];
      DrainedBytes(trace[..|trace| - 1]) + (if e.Drained? then e.bytes else [])
  }

  function SentCount(trace: seq<Event>): nat {
    if trace == [] then 0
    else SentCount(trace[..|trace| - 1]) + (if trace[|trace| - 1].Sent? then 1 else 0)
  }

  function SettledCount(trace: seq<Event>): nat {
    if trace == [] then 0
    else SettledCount(trace[..|trace| - 1]) + (if trace[|trace| - 1].Settled? then 1 else 0)
  }

  /** The last signal delivered. */
  function LastSent(trace: seq<Event>): Option<Event> {
    if trace == [] then None
    else
      var e := trace[|trace| - 1];
      if e.Sent? then Some(e) else LastSent(trace[..|trace| - 1])
  }

  /** The requests coalesced since the last save settled. */
  function Waiting(trace: seq<Event>): seq<Event> {
    if trace == [] then []
    else
      var e := trace[|trace| - 1];
      if e.Settled? then []
      else Waiting(trace[..|trace| - 1]) + (if e.Joined? then [e] else [])
  }

  /** The exits that scheduled a restart since the recorder was last stable. */
  function UnstableExits(trace: seq<Event>): nat {
    if trace == [] then 0
    else
      var e := trace[|trace| - 1];
      if e.Stabilised? then 0
      else UnstableExits(trace[..|trace| - 1]) + (if e.Exited? && e.restart.Some? then 1 else 0)
  }

  /** A shutdown was asked for and nothing has been spawned since. */
  ghost predicate Down(trace: seq<Event>) {
    exists i :: 0 <= i < |trace| && trace[i].ShutDown? && forall j :: i < j < |trace| ==> !trace[j].Spawned?
  }

  /** A restart at `at` was scheduled, and neither used nor called off nor replaced since. */
  ghost predicate Scheduled(trace: seq<Event>, at: u64) {
    exists i :: 0 <= i < |trace| && trace[i].Exited? && trace[i].restart == Some(at)
      && forall j :: i < j < |trace| ==> !trace[j].Spawned? && !trace[j].ShutDown? && !(trace[j].Exited? && trace[j].restart.Some?)
  }

  /** The child was last spawned at `at`. */
  ghost predicate LastSpawn(trace: seq<Event>, at: u64) {
    exists i :: 0 <= i < |trace| && trace[i].Spawned? && trace[i].at == at
      && forall j :: i < j < |trace| ==> !trace[j].Spawned?
  }

  ghost predicate AnyManual(requests: seq<Event>) {
    exists i :: 0 <= i < |requests| && requests[i].Joined? && requests[i].provenance == ManualFlag
  }

  ghost predicate Stands(q: PendingSave, requests: seq<Event>) {
    && requests != [] && requests[0].Joined?
    && q.id == requests[0].id
    && (q.provenance == ManualFlag <==> AnyManual(requests))
  }

  /** The fields say what the history says. */
  ghost predicate TracksSaves(s: State, trace: seq<Event>) {
    && (s.queued.Some? ==> s.inFlight.Some?)
    && SentCount(trace) == SettledCount(trace) + (if s.inFlight.Some? then 1 else 0)
    && (s.inFlight.Some? ==>
          var p, sent := s.inFlight.value, LastSent(trace);
          sent.Some? && sent.value.Sent? && sent.value.id == p.id && sent.value.provenance == p.provenance
          && sent.value.at == p.requestedAt)
    && (s.queued.None? <==> Waiting(trace) == [])
    && (s.queued.Some? ==> Stands(s.queued.value, Waiting(trace)))
  }

  ghost predicate TracksRestarts(s: State, trace: seq<Event>) {
    && s.failures == Min(UnstableExits(trace), U64_MAX)
    && (s.shuttingDown <==> Down(trace))
    && (s.nextRestart.Some? ==> Scheduled(trace, s.nextRestart.value))
    && (s.nextRestart.None? ==> forall at: u64 :: !Scheduled(trace, at))
    && (s.running ==> LastSpawn(trace, s.started))
  }

  ghost predicate TracksStderr(cfg: Config, s: State, trace: seq<Event>) {
    s.stderr == Tail(DrainedBytes(trace), cfg.maxStderr)
  }

  /** What may be said of an event, given the history before it. */
  ghost predicate Allowed(cfg: Config, before: seq<Event>, e: Event) {
    match e
    case Stabilised(at) => exists since: u64 :: LastSpawn(before, since) && SatSub(at, since) >= cfg.stableAfter
    case Exited(at, restart) =>
      restart == if Down(before) then None else Some(SatAdd(at, RestartDelay(UnstableExits(before))))
    case Spawned(at, restarted) => restarted ==> !Down(before) && exists due: u64 :: Scheduled(before, due) && due <= at
    case Sent(id, provenance, followUp, _) =>
      if followUp then FollowsUp(before, id, provenance)
      else SentCount(before) == SettledCount(before) && Waiting(before) == []
    case Lost(id, provenance) => FollowsUp(before, id, provenance)
    case Joined(_, _) => SentCount(before) == SettledCount(before) + 1
    case Settled(ack) =>
      && SentCount(before) == SettledCount(before) + 1 && Within(cfg.directory, ack.path)
      && var sent := LastSent(before);
      sent.Some? && sent.value.Sent? && ack.id == sent.value.id && ack.provenance == sent.value.provenance
      && ack.requestedAt == sent.value.at
    case _ => true
  }

  /** A follow-up comes right after a settlement, carries the identity of the first request that
      was waiting, and is manual exactly when one of them was. */
  ghost predicate FollowsUp(before: seq<Event>, id: string, provenance: Provenance) {
    && before != [] && before[|before| - 1].Settled?
    && var waiting := Waiting(before[..|before| - 1]);
    && waiting != [] && waiting[0].Joined? && id == waiting[0].id
    && (provenance == ManualFlag <==> AnyManual(waiting))
  }

  ghost predicate Lawful(cfg: Config, trace: seq<Event>) {
    forall k :: 0 <= k < |trace| ==> Allowed(cfg, trace[..k], trace[k])
  }

  /** Nobody who was waiting is forgotten: a settlement is followed at once by the follow-up. */
  ghost predicate Answered(trace: seq<Event>) {
    forall k :: 0 <= k < |trace| && trace[k].Settled? && Waiting(trace[..k]) != [] ==>
      k + 1 < |trace| && (trace[k + 1].Lost? || (trace[k + 1].Sent? && trace[k + 1].followUp))
  }

  ghost predicate Valid(cfg: Config, w: World) {
    TracksSaves(w.s, w.trace) && TracksRestarts(w.s, w.trace) && TracksStderr(cfg, w.s, w.trace)
    && Lawful(cfg, w.trace) && Answered(w.trace)
  }

  // ----- One more event

  lemma {:induction false} ReadPush(trace: seq<Event>, e: Event)
    ensures DrainedBytes(trace + [e]) == DrainedBytes(trace) + (if e.Drained? then e.bytes else [])
    ensures SentCount(trace + [e]) == SentCount(trace) + (if e.Sent? then 1 else 0)
    ensures SettledCount(trace + [e]) == SettledCount(trace) + (if e.Settled? then 1 else 0)
    ensures LastSent(trace + [e]) == if e.Sent? then Some(e) else LastSent(trace)
    ensures Waiting(trace + [e]) == if e.Settled? then [] else Waiting(trace) + (if e.Joined? then [e] else [])
    ensures UnstableExits(trace + [e]) ==
            if e.Stabilised? then 0 else UnstableExits(trace) + (if e.Exited? && e.restart.Some? then 1 else 0)
  {
    assert (trace + [e])[..|trace|] == trace;
  }

  lemma DownPush(trace: seq<Event>, e: Event)
    ensures Down(trace + [e]) <==> e.ShutDown? || (Down(trace) && !e.Spawned?)
  {
    var longer := trace + [e];
    assert longer[|trace|] == e;
    assert forall i :: 0 <= i < |trace| ==> longer[i] == trace[i];
    if Down(trace) && !e.Spawned? {
      var i :| 0 <= i < |trace| && trace[i].ShutDown? && forall j :: i < j < |trace| ==> !trace[j].Spawned?;
      assert longer[i].ShutDown?;
    }
    if Down(longer) && !e.ShutDown? {
      var i :| 0 <= i < |longer| && longer[i].ShutDown? && forall j :: i < j < |longer| ==> !longer[j].Spawned?;
      assert trace[i].ShutDown? && forall j :: i < j < |trace| ==> !longer[j].Spawned?;
    }
  }

  predicate EndsSchedule(e: Event) {
    e.Spawned? || e.ShutDown? || (e.Exited? && e.restart.Some?)
  }

  lemma ScheduledPush(trace: seq<Event>, e: Event, at: u64)
    ensures Scheduled(trace + [e], at) <==>
            (e.Exited? && e.restart == Some(at)) || (Scheduled(trace, at) && !EndsSchedule(e))
  {
    var longer := trace + [e];
    assert longer[|trace|] == e;
    assert forall i :: 0 <= i < |trace| ==> longer[i] == trace[i];
    if Scheduled(trace, at) && !EndsSchedule(e) {
      var i :| 0 <= i < |trace| && trace[i].Exited? && trace[i].restart == Some(at)
               && forall j :: i < j < |trace| ==> !EndsSchedule(trace[j]);
      assert longer[i].Exited? && longer[i].restart == Some(at);
    }
    if Scheduled(longer, at) && !(e.Exited? && e.restart == Some(at)) {
      var i :| 0 <= i < |longer| && longer[i].Exited? && longer[i].restart == Some(at)
               && forall j :: i < j < |longer| ==> !EndsSchedule(longer[j]);
      assert trace[i].Exited? && forall j :: i < j < |trace| ==> !EndsSchedule(longer[j]);
    }
  }

  lemma LastSpawnPush(trace: seq<Event>, e: Event, at: u64)
    ensures LastSpawn(trace + [e], at) <==> if e.Spawned? then e.at == at else LastSpawn(trace, at)
  {
    var longer := trace + [e];
    assert longer[|trace|] == e;
    assert forall i :: 0 <= i < |trace| ==> longer[i] == trace[i];
    if LastSpawn(trace, at) && !e.Spawned? {
      var i :| 0 <= i < |trace| && trace[i].Spawned? && trace[i].at == at
               && forall j :: i < j < |trace| ==> !trace[j].Spawned?;
      assert longer[i].Spawned?;
    }
    if LastSpawn(longer, at) && !e.Spawned? {
      var i :| 0 <= i < |longer| && longer[i].Spawned? && longer[i].at == at
               && forall j :: i < j < |longer| ==> !longer[j].Spawned?;
      assert trace[i].Spawned? && forall j :: i < j < |trace| ==> !longer[j].Spawned?;
    }
  }

  lemma LawfulPush(cfg: Config, trace: seq<Event>, e: Event)
    requires Lawful(cfg, trace) && Allowed(cfg, trace, e)
    ensures Lawful(cfg, trace + [e])
  {
    hide Allowed;
    var longer := trace + [e];
    forall k | 0 <= k < |longer| ensures Allowed(cfg, longer[..k], longer[k]) {
      if k < |trace| {
        assert longer[..k] == trace[..k];
      } else {
        assert longer[..k] == trace;
      }
    }
  }

  lemma {:induction false} AnsweredPush(trace: seq<Event>, e: Event)
    requires Answered(trace)
    requires !(e.Settled? && Waiting(trace) != [])
    ensures Answered(trace + [e])
  {
    hide Waiting;
    var longer := trace + [e];
    assert longer[..|trace|] == trace;
    forall k | 0 <= k < |longer| && longer[k].Settled? && Waiting(longer[..k]) != []
      ensures k + 1 < |longer| && (longer[k + 1].Lost? || (longer[k + 1].Sent? && longer[k + 1].followUp))
    {
      if k < |trace| {
        assert longer[..k] == trace[..k];
      }
    }
  }

  lemma AnsweredPushPair(trace: seq<Event>, settled: Event, next: Event)
    requires Answered(trace) && settled.Settled?
    requires next.Lost? || (next.Sent? && next.followUp)
    ensures Answered(trace + [settled] + [next])
  {
    hide Waiting;
    var longer := trace + [settled] + [next];
    assert longer[|trace| + 1] == next;
    forall k | 0 <= k < |longer| && longer[k].Settled? && Waiting(longer[..k]) != []
      ensures k + 1 < |longer| && (longer[k + 1].Lost? || (longer[k + 1].Sent? && longer[k + 1].followUp))
    {
      if k < |trace| {
        assert longer[..k] == trace[..k];
        assert longer[k] == trace[k];
      }
    }
  }

  // ----- Every step keeps the history truthful

  /** An event that neither spawns, stops nor schedules leaves the restart side alone. */
  lemma RestartsPush(s: State, s': State, trace: seq<Event>, e: Event)
    requires TracksRestarts(s, trace)
    requires s' == s.(inFlight := s'.inFlight, queued := s'.queued, stderr := s'.stderr)
    requires e.Drained? || e.Joined? || e.Sent? || e.Lost? || e.Settled?
    ensures TracksRestarts(s', trace + [e])
  {
    hide Waiting;
    hide SentCount;
    hide SettledCount;
    hide LastSent;
    hide Down;
    hide Scheduled;
    hide LastSpawn;
    ReadPush(trace, e);
    DownPush(trace, e);
    LastSpawnPush(trace, e, s.started);
    forall at: u64 ensures Scheduled(trace + [e], at) <==> Scheduled(trace, at) {
      ScheduledPush(trace, e, at);
    }
  }

  /** An event of the recorder process leaves the saves alone. */
  lemma SavesPush(s: State, s': State, trace: seq<Event>, e: Event)
    requires TracksSaves(s, trace)
    requires s'.inFlight == s.inFlight && s'.queued == s.queued
    requires e.Drained? || e.Stabilised? || e.Exited? || e.Spawned? || e.ShutDown?
    ensures TracksSaves(s', trace + [e])
  {
    hide Waiting;
    hide SentCount;
    hide SettledCount;
    hide LastSent;
    hide Stands;
    ReadPush(trace, e);
    assert Waiting(trace) + [] == Waiting(trace);
  }

  lemma StderrPush(cfg: Config, s: State, s': State, trace: seq<Event>, e: Event)
    requires TracksStderr(cfg, s, trace) && s'.stderr == s.stderr && !e.Drained?
    ensures TracksStderr(cfg, s', trace + [e])
  {
    ReadPush(trace, e);
    assert DrainedBytes(trace) + [] == DrainedBytes(trace);
  }

  lemma TailTail<T>(a: seq<T>, b: seq<T>, max: nat)
    ensures Tail(Tail(a, max) + b, max) == Tail(a + b, max)
  {
    var whole := Tail(a + b, max);
    assert |Tail(Tail(a, max) + b, max)| == |whole|;
  }

  /** Push one at the back, drop one at the front when over the limit. */
  lemma TailPush<T>(s: seq<T>, x: T, max: nat)
    ensures var t := Tail(s, max) + [x]; Tail(s + [x], max) == if |t| > max then t[1..] else t
  {
  }

  lemma DrainValid(cfg: Config, w: World, bytes: seq<Byte>)
    requires Valid(cfg, w)
    ensures Valid(cfg, Drain(cfg, w, bytes))
  {
    hide TracksSaves;
    hide TracksRestarts;
    hide Lawful;
    hide Answered;
    hide Tail;
    var w', e := Drain(cfg, w, bytes), Drained(bytes);
    SavesPush(w.s, w'.s, w.trace, e);
    RestartsPush(w.s, w'.s, w.trace, e);
    ReadPush(w.trace, e);
    TailTail(DrainedBytes(w.trace), bytes, cfg.maxStderr);
    LawfulPush(cfg, w.trace, e);
    AnsweredPush(w.trace, e);
  }

  /** Stabilised, Exited, Spawned and ShutDown: the saves, the stderr tail and the answers follow. */
  lemma ProcessValid(cfg: Config, w: World, s': State, e: Event)
    requires Valid(cfg, w)
    requires s'.inFlight == w.s.inFlight && s'.queued == w.s.queued && s'.stderr == w.s.stderr
    requires e.Stabilised? || e.Exited? || e.Spawned? || e.ShutDown?
    requires TracksRestarts(s', w.trace + [e]) && Allowed(cfg, w.trace, e)
    ensures Valid(cfg, Emit(w, s', e))
  {
    hide TracksSaves;
    hide TracksRestarts;
    hide TracksStderr;
    hide Lawful;
    hide Allowed;
    hide Answered;
    SavesPush(w.s, s', w.trace, e);
    StderrPush(cfg, w.s, s', w.trace, e);
    LawfulPush(cfg, w.trace, e);
    AnsweredPush(w.trace, e);
  }

  lemma StabiliseValid(cfg: Config, w: World, now: u64)
    requires Valid(cfg, w)
    ensures Valid(cfg, Stabilise(cfg, w, now))
  {
    hide TracksSaves;
    hide TracksStderr;
    hide Lawful;
    hide Answered;
    hide Down;
    hide Scheduled;
    hide LastSpawn;
    var w', e := Stabilise(cfg, w, now), Stabilised(now);
    if w' != w {
      ReadPush(w.trace, e);
      DownPush(w.trace, e);
      LastSpawnPush(w.trace, e, w.s.started);
      forall at: u64 ensures Scheduled(w.trace + [e], at) <==> Scheduled(w.trace, at) {
        ScheduledPush(w.trace, e, at);
      }
      ProcessValid(cfg, w, w'.s, e);
    }
  }

  lemma DelayCapped(n: nat)
    ensures RestartDelay(Min(n, U64_MAX)) == RestartDelay(n)
  {
  }

  lemma ExitValid(cfg: Config, w: World, now: u64)
    requires Valid(cfg, w)
    ensures Valid(cfg, Exit(w, now))
  {
    hide TracksSaves;
    hide TracksStderr;
    hide Lawful;
    hide Answered;
    hide Down;
    hide Scheduled;
    hide LastSpawn;
    hide RestartDelay;
    var w' := Exit(w, now);
    var e := w'.trace[|w.trace|];
    ReadPush(w.trace, e);
    DownPush(w.trace, e);
    DelayCapped(UnstableExits(w.trace));
    forall at: u64
      ensures Scheduled(w.trace + [e], at) <==> e.restart == Some(at) || (Scheduled(w.trace, at) && e.restart.None?)
    {
      ScheduledPush(w.trace, e, at);
    }
    ProcessValid(cfg, w, w'.s, e);
  }

  lemma SpawnValid(cfg: Config, w: World, restarted: bool, ok: bool, now: u64)
    requires Valid(cfg, w)
    requires restarted ==> !w.s.shuttingDown && w.s.nextRestart.Some? && w.s.nextRestart.value <= now
    ensures Valid(cfg, AfterSpawn(w, restarted, ok, now))
  {
    hide TracksSaves;
    hide TracksStderr;
    hide Lawful;
    hide Answered;
    hide Down;
    hide Scheduled;
    hide LastSpawn;
    if ok {
      var w', e := AfterSpawn(w, restarted, ok, now), Spawned(now, restarted);
      ReadPush(w.trace, e);
      DownPush(w.trace, e);
      LastSpawnPush(w.trace, e, now);
      forall at: u64 ensures !Scheduled(w.trace + [e], at) {
        ScheduledPush(w.trace, e, at);
      }
      ProcessValid(cfg, w, w'.s, e);
    }
  }

  lemma ShutdownValid(cfg: Config, w: World)
    requires Valid(cfg, w)
    ensures Valid(cfg, AfterShutdown(w))
  {
    hide TracksSaves;
    hide TracksStderr;
    hide Lawful;
    hide Answered;
    hide Down;
    hide Scheduled;
    hide LastSpawn;
    var w' := AfterShutdown(w);
    ReadPush(w.trace, ShutDown);
    DownPush(w.trace, ShutDown);
    LastSpawnPush(w.trace, ShutDown, w.s.started);
    forall at: u64 ensures !Scheduled(w.trace + [ShutDown], at) {
      ScheduledPush(w.trace, ShutDown, at);
    }
    ProcessValid(cfg, w, w'.s, ShutDown);
  }

  /** The clock does not run backwards within one poll. */
  ghost predicate Monotone(a: PollAnswer) {
    a.stableNow <= a.exitNow && a.stableNow <= a.restartNow <= a.spawnNow
  }

  lemma PollValid(cfg: Config, w: World, a: PollAnswer)
    requires Valid(cfg, w) && Monotone(a)
    ensures Valid(cfg, AfterPoll(cfg, w, a).0)
  {
    hide Valid;
    hide Drain;
    hide Stabilise;
    hide Exit;
    hide AfterSpawn;
    if a.drained.Ok? {
      DrainValid(cfg, w, a.drained.value);
      var w0 := Drain(cfg, w, a.drained.value);
      StabiliseValid(cfg, w0, a.stableNow);
      var w1 := Stabilise(cfg, w0, a.stableNow);
      ExitValid(cfg, w1, a.exitNow);
      if !w1.s.shuttingDown && w1.s.nextRestart.Some? && a.restartNow >= w1.s.nextRestart.value {
        SpawnValid(cfg, w1, true, a.spawnOk, a.spawnNow);
      }
    }
  }

  /** Joined, Sent, Lost and Settled: the process side and the stderr tail follow. */
  lemma SaveValid(cfg: Config, w: World, s': State, e: Event)
    requires TracksRestarts(w.s, w.trace) && TracksStderr(cfg, w.s, w.trace) && Lawful(cfg, w.trace)
    requires s' == w.s.(inFlight := s'.inFlight, queued := s'.queued)
    requires e.Joined? || e.Sent? || e.Lost? || e.Settled?
    requires Allowed(cfg, w.trace, e)
    ensures var w' := Emit(w, s', e);
      TracksRestarts(w'.s, w'.trace) && TracksStderr(cfg, w'.s, w'.trace) && Lawful(cfg, w'.trace)
  {
    hide TracksRestarts;
    hide TracksStderr;
    hide Lawful;
    hide Allowed;
    RestartsPush(w.s, s', w.trace, e);
    StderrPush(cfg, w.s, s', w.trace, e);
    LawfulPush(cfg, w.trace, e);
  }

  lemma CoalesceStands(queued: Option<PendingSave>, waiting: seq<Event>, id: string, provenance: Provenance)
    requires queued.None? <==> waiting == []
    requires queued.Some? ==> Stands(queued.value, waiting)
    ensures Stands(Coalesce(queued, id, provenance), waiting + [Joined(id, provenance)])
  {
    var e := Joined(id, provenance);
    var longer := waiting + [e];
    assert longer[|waiting|] == e;
    assert forall i :: 0 <= i < |waiting| ==> longer[i] == waiting[i];
    if AnyManual(waiting) {
      var i :| 0 <= i < |waiting| && waiting[i].Joined? && waiting[i].provenance == ManualFlag;
      assert longer[i].Joined? && longer[i].provenance == ManualFlag;
    }
  }

  lemma RequestSaveValid(cfg: Config, w: World, id: string, provenance: Provenance, a: SignalAnswer)
    requires Valid(cfg, w)
    ensures Valid(cfg, AfterRequestSave(w, id, provenance, a).0)
  {
    hide Waiting;
    hide SentCount;
    hide SettledCount;
    hide LastSent;
    hide Coalesce;
    hide TracksRestarts;
    hide TracksStderr;
    hide Lawful;
    hide Answered;
    hide Stands;
    var w' := AfterRequestSave(w, id, provenance, a).0;
    if w' != w {
      var e := w'.trace[|w.trace|];
      ReadPush(w.trace, e);
      SaveValid(cfg, w, w'.s, e);
      AnsweredPush(w.trace, e);
      if e.Joined? {
        CoalesceStands(w.s.queued, Waiting(w.trace), id, provenance);
      } else {
        assert Waiting(w.trace) + [] == [];
      }
    }
  }

  /** The acknowledgement of a save in flight. */
  predicate AckOf(p: PendingSave, ack: Acknowledgement) {
    ack.id == p.id && ack.provenance == p.provenance && ack.requestedAt == p.requestedAt
  }

  /** All of `Valid` but the answers, which are still owed to whoever was waiting. */
  lemma SettleValid(cfg: Config, w: World, ack: Acknowledgement)
    requires Valid(cfg, w) && w.s.inFlight.Some? && AckOf(w.s.inFlight.value, ack) && Within(cfg.directory, ack.path)
    ensures var w' := Settle(w, ack);
      && TracksSaves(w'.s, w'.trace) && TracksRestarts(w'.s, w'.trace) && TracksStderr(cfg, w'.s, w'.trace)
      && Lawful(cfg, w'.trace)
    ensures w.s.queued.None? ==> Answered(Settle(w, ack).trace)
  {
    hide TracksRestarts;
    hide TracksStderr;
    hide Lawful;
    hide Answered;
    hide Waiting;
    hide SentCount;
    hide SettledCount;
    hide LastSent;
    var e := Settled(ack);
    ReadPush(w.trace, e);
    SaveValid(cfg, w, Settle(w, ack).s, e);
    if w.s.queued.None? {
      AnsweredPush(w.trace, e);
    }
  }

  lemma FollowUpValid(cfg: Config, w: World, ack: Acknowledgement, s': State, e: Event)
    requires Valid(cfg, w) && w.s.inFlight.Some? && AckOf(w.s.inFlight.value, ack) && Within(cfg.directory, ack.path)
    requires w.s.queued.Some?
    requires var next := w.s.queued.value;
      e == Lost(next.id, next.provenance) || (e.Sent? && e == Sent(next.id, next.provenance, true, e.at))
    requires var s0 := Settle(w, ack).s;
      && s' == s0.(inFlight := s'.inFlight) && (s'.inFlight.Some? <==> e.Sent?)
      && (e.Sent? ==> s'.inFlight.value.id == e.id && s'.inFlight.value.provenance == e.provenance
                      && s'.inFlight.value.requestedAt == e.at)
    ensures Valid(cfg, Emit(Settle(w, ack), s', e))
  {
    hide TracksRestarts;
    hide TracksStderr;
    hide Lawful;
    hide Answered;
    hide Waiting;
    hide SentCount;
    hide SettledCount;
    hide LastSent;
    var settled := Settle(w, ack);
    SettleValid(cfg, w, ack);
    assert settled.trace[..|settled.trace| - 1] == w.trace;
    ReadPush(w.trace, Settled(ack));
    ReadPush(settled.trace, e);
    SaveValid(cfg, settled, s', e);
    AnsweredPushPair(w.trace, Settled(ack), e);
  }

  lemma AcknowledgeValid(cfg: Config, w: World, path: Path, files: FileAnswer, media: Result<MediaInfo, ()>, a: SignalAnswer)
    requires Valid(cfg, w)
    ensures Valid(cfg, AfterAcknowledge(cfg, w, path, files, media, a).0)
  {
    hide Valid;
    var w' := AfterAcknowledge(cfg, w, path, files, media, a).0;
    if w' != w {
      var p := w.s.inFlight.value;
      var ack := Acknowledgement(path, p.id, p.provenance, p.requestedAt, media.value);
      if w.s.queued.None? {
        SettledValid(cfg, w, ack);
      } else {
        FollowUpValid(cfg, w, ack, w'.s, w'.trace[|w.trace| + 1]);
      }
    }
  }

  lemma SettledValid(cfg: Config, w: World, ack: Acknowledgement)
    requires Valid(cfg, w) && w.s.inFlight.Some? && AckOf(w.s.inFlight.value, ack) && Within(cfg.directory, ack.path) && w.s.queued.None?
    ensures Valid(cfg, Settle(w, ack))
  {
    SettleValid(cfg, w, ack);
  }

  // ----- Runs

  datatype Op =
    | DoStart(ok: bool, now: u64)
    | DoRequest(id: string, provenance: Provenance, signal: SignalAnswer)
    | DoDiscover(outputs: Result<seq<Path>, ()>, files: FileAnswer, media: Result<MediaInfo, ()>, signal: SignalAnswer)
    | DoAcknowledge(path: Path, files: FileAnswer, media: Result<MediaInfo, ()>, signal: SignalAnswer)
    | DoPoll(answer: PollAnswer)
    | DoShutdown

  function Perform(cfg: Config, w: World, op: Op): World {
    match op
    case DoStart(ok, now) => AfterSpawn(w, false, ok, now)
    case DoRequest(id, provenance, signal) => AfterRequestSave(w, id, provenance, signal).0
    case DoDiscover(outputs, files, media, signal) => AfterDiscoverSave(cfg, w, outputs, files, media, signal).0
    case DoAcknowledge(path, files, media, signal) => AfterAcknowledge(cfg, w, path, files, media, signal).0
    case DoPoll(answer) => AfterPoll(cfg, w, answer).0
    case DoShutdown => AfterShutdown(w)
  }

  function Run(cfg: Config, ops: seq<Op>): World {
    if ops == [] then World(INITIAL, []) else Perform(cfg, Run(cfg, ops[..|ops| - 1]), ops[|ops| - 1])
  }

  lemma StepValid(cfg: Config, w: World, op: Op)
    requires Valid(cfg, w)
    requires op.DoPoll? ==> Monotone(op.answer)
    ensures Valid(cfg, Perform(cfg, w, op))
  {
    hide Valid;
    hide AfterSpawn;
    hide AfterRequestSave;
    hide AfterAcknowledge;
    hide AfterPoll;
    hide AfterShutdown;
    match op {
      case DoStart(ok, now) => SpawnValid(cfg, w, false, ok, now);
      case DoRequest(id, provenance, signal) => RequestSaveValid(cfg, w, id, provenance, signal);
      case DoDiscover(outputs, files, media, signal) =>
        if outputs.Ok? && outputs.value != [] {
          AcknowledgeValid(cfg, w, outputs.value[0], files, media, signal);
        }
      case DoAcknowledge(path, files, media, signal) => AcknowledgeValid(cfg, w, path, files, media, signal);
      case DoPoll(answer) => PollValid(cfg, w, answer);
      case DoShutdown => ShutdownValid(cfg, w);
    }
  }

  lemma InitiallyValid(cfg: Config)
    ensures Valid(cfg, World(INITIAL, []))
  {
  }

  /** Every run is truthful: the fields say what the history says, and every event was allowed by
      the history before it. */
  lemma {:induction false} RunValid(cfg: Config, ops: seq<Op>)
    requires forall op :: op in ops && op.DoPoll? ==> Monotone(op.answer)
    ensures Valid(cfg, Run(cfg, ops))
  {
    hide Valid;
    hide Perform;
    if ops == [] {
      InitiallyValid(cfg);
    } else {
      RunValid(cfg, ops[..|ops| - 1]);
      StepValid(cfg, Run(cfg, ops[..|ops| - 1]), ops[|ops| - 1]);
    }
  }

  /** Between a shutdown and a later restart somebody called `start` and the child was spawned. */
  lemma {:induction false} NoRestartAfterShutdown(cfg: Config, trace: seq<Event>, i: nat, k: nat)
    requires Lawful(cfg, trace)
    requires i < k < |trace| && trace[i].ShutDown? && trace[k].Spawned? && trace[k].restarted
    ensures exists j :: i < j < k && trace[j].Spawned? && !trace[j].restarted
    decreases k
  {
    var before := trace[..k];
    assert Allowed(cfg, before, trace[k]);
    assert !Down(before);
    assert before[i].ShutDown?;
    var j :| i < j < |before| && before[j].Spawned?;
    assert trace[j] == before[j];
    if trace[j].restarted {
      NoRestartAfterShutdown(cfg, trace, i, j);
    }
  }

  /** A scheduled restart is used at most once: between two restarts the child exited. */
  lemma RestartsNeedExits(cfg: Config, trace: seq<Event>, i: nat, k: nat)
    requires Lawful(cfg, trace)
    requires i < k < |trace| && trace[i].Spawned? && trace[k].Spawned? && trace[k].restarted
    ensures exists j :: i < j < k && trace[j].Exited? && trace[j].restart.Some? && trace[j].restart.value <= trace[k].at
  {
    hide Down;
    hide Waiting;
    hide SentCount;
    hide SettledCount;
    hide LastSent;
    hide UnstableExits;
    var before := trace[..k];
    assert Allowed(cfg, before, trace[k]);
    hide Allowed;
    hide Lawful;
    ScheduledExit(before, trace[k].at, i);
    var j :| i < j < |before| && before[j].Exited? && before[j].restart.Some? && before[j].restart.value <= trace[k].at;
    assert trace[j] == before[j];
  }

  /** A settlement is of the last save sent before it: it carries that save's identity, provenance
      and request time, and no other was sent in between. */
  lemma SettledIsLastSent(cfg: Config, trace: seq<Event>, k: nat) returns (j: nat)
    requires Lawful(cfg, trace) && k < |trace| && trace[k].Settled?
    ensures j < k && trace[j].Sent? && (forall m :: j < m < k ==> !trace[m].Sent?)
    ensures trace[k].ack.id == trace[j].id && trace[k].ack.provenance == trace[j].provenance
    ensures trace[k].ack.requestedAt == trace[j].at && Within(cfg.directory, trace[k].ack.path)
  {
    hide SentCount;
    hide SettledCount;
    hide Within;
    assert Allowed(cfg, trace[..k], trace[k]);
    j := LastSentAt(trace[..k]);
  }

  lemma {:induction false} LastSentAt(trace: seq<Event>) returns (j: nat)
    requires LastSent(trace).Some?
    ensures j < |trace| && LastSent(trace) == Some(trace[j]) && trace[j].Sent?
    ensures forall m :: j < m < |trace| ==> !trace[m].Sent?
  {
    var n := |trace| - 1;
    if trace[n].Sent? {
      j := n;
    } else {
      j := LastSentAt(trace[..n]);
    }
  }

  lemma ScheduledExit(before: seq<Event>, at: u64, i: nat)
    requires exists due: u64 :: Scheduled(before, due) && due <= at
    requires i < |before| && before[i].Spawned?
    ensures exists j :: i < j < |before| && before[j].Exited? && before[j].restart.Some? && before[j].restart.value <= at
  {
    var due: u64 :| Scheduled(before, due) && due <= at;
    var j :| 0 <= j < |before| && before[j].Exited? && before[j].restart == Some(due)
             && forall m :: j < m < |before| ==> !EndsSchedule(before[m]);
    assert EndsSchedule(before[i]) && i != j;
  }

  // ----- What each operation answers and changes, field by field

  /** A path in the output directory without a parent component, which is no symbolic link but a
      regular file, and which resolves into the directory. */
  predicate AcceptedOutput(directory: Path, path: Path, files: FileAnswer) {
    && |directory| <= |path| && (forall i :: 0 <= i < |directory| ==> path[i] == directory[i])
    && (forall i :: 0 <= i < |path| ==> path[i] != ParentDir)
    && files.symlink == Ok(false) && files.regular == Ok(true) && files.contained == Ok(true)
  }

  /** An acknowledgement is accepted exactly when a save is in flight, the output is acceptable and
      the media probe agrees.  Then it is the acknowledgement of that save, whatever is queued, and
      the queued save takes its place if its signal is delivered. */
  lemma AcknowledgeIff(cfg: Config, w: World, path: Path, files: FileAnswer, media: Result<MediaInfo, ()>, a: SignalAnswer)
    ensures var (w', r) := AfterAcknowledge(cfg, w, path, files, media, a);
      var accepted := w.s.inFlight.Some? && AcceptedOutput(cfg.directory, path, files) && media.Ok?;
      && (r.Ok? <==> accepted && (w.s.queued.None? || a.ok))
      && (!accepted ==> w' == w)
      && (accepted ==>
            var p, n := w.s.inFlight.value, |w.trace|;
            && w.trace < w'.trace && w'.trace[n].Settled?
            && var ack := w'.trace[n].ack;
            && ack.path == path && ack.id == p.id && ack.provenance == p.provenance && ack.requestedAt == p.requestedAt
            && ack.media == media.value
            && (r.Ok? ==> r.value == ack)
            && w'.s.queued.None?
            && w'.s == w.s.(inFlight := w'.s.inFlight, queued := None)
            && (w.s.queued.None? ==> |w'.trace| == n + 1 && w'.s.inFlight.None?)
            && (w.s.queued.Some? ==>
                  var q := w.s.queued.value;
                  && |w'.trace| == n + 2
                  && w'.s.inFlight == (if a.ok then Some(PendingSave(q.id, q.provenance, a.wall, a.now)) else None)
                  && w'.trace[n + 1] == if a.ok then Sent(q.id, q.provenance, true, a.now) else Lost(q.id, q.provenance)))
  {
    OutputIff(cfg.directory, path, files);
    hide ValidateOutput;
  }

  lemma OutputIff(directory: Path, path: Path, files: FileAnswer)
    ensures ValidateOutput(directory, path, files).Ok? <==> AcceptedOutput(directory, path, files)
  {
    if ParentDir !in path {
      assert forall i :: 0 <= i < |path| ==> path[i] in path;
    } else {
      var i :| 0 <= i < |path| && path[i] == ParentDir;
    }
    if |directory| <= |path| {
      assert directory <= path <==> forall i :: 0 <= i < |directory| ==> path[i] == directory[i];
    }
  }

  /** Why an acknowledgement is refused: the first of these that applies. */
  lemma AcknowledgeRefusals(cfg: Config, w: World, path: Path, files: FileAnswer, media: Result<MediaInfo, ()>, a: SignalAnswer)
    ensures var r := AfterAcknowledge(cfg, w, path, files, media, a).1;
      var outside := |path| < |cfg.directory| || (exists i :: 0 <= i < |cfg.directory| && path[i] != cfg.directory[i])
                     || (exists i :: 0 <= i < |path| && path[i] == ParentDir);
      && (w.s.inFlight.None? ==> r == Err(NoSaveInFlight))
      && (w.s.inFlight.Some? ==>
            && (outside ==> r == Err(UnsafeOutputPath))
            && (!outside ==>
                  && (files.symlink.Err? ==> r == Err(Filesystem))
                  && (files.symlink == Ok(true) ==> r == Err(SymlinkOutput))
                  && (files.symlink == Ok(false) ==>
                        && (files.regular.Err? ==> r == Err(Filesystem))
                        && (files.regular == Ok(false) ==> r == Err(InvalidOutput))
                        && (files.regular == Ok(true) ==>
                              && (files.contained.Err? ==> r == Err(Filesystem))
                              && (files.contained == Ok(false) ==> r == Err(UnsafeOutputPath))
                              && (files.contained == Ok(true) ==>
                                    && (media.Err? ==> r == Err(Media))
                                    && (media.Ok? && r.Err? ==> r == Err(Process)))))))
  {
    WithinIff(cfg.directory, path);
    hide Within;
  }

  lemma WithinIff(directory: Path, path: Path)
    ensures Within(directory, path) <==>
            && |directory| <= |path| && (forall i :: 0 <= i < |directory| ==> path[i] == directory[i])
            && (forall i :: 0 <= i < |path| ==> path[i] != ParentDir)
  {
    if |directory| <= |path| && forall i :: 0 <= i < |directory| ==> path[i] == directory[i] {
      assert path[..|directory|] == directory;
    }
  }

  /** Discovering acknowledges the first output listed, if a save is in flight. */
  lemma DiscoverIff(cfg: Config, w: World, outputs: Result<seq<Path>, ()>, files: FileAnswer,
                    media: Result<MediaInfo, ()>, a: SignalAnswer)
    ensures var (w', r) := AfterDiscoverSave(cfg, w, outputs, files, media, a);
      && (w.s.inFlight.None? ==> w' == w && r == Err(NoSaveInFlight))
      && (w.s.inFlight.Some? && outputs.Err? ==> w' == w && r == Err(Filesystem))
      && (w.s.inFlight.Some? && outputs == Ok([]) ==> w' == w && r == Ok(None))
      && (w.s.inFlight.Some? && outputs.Ok? && outputs.value != [] ==>
            var (v, one) := AfterAcknowledge(cfg, w, outputs.value[0], files, media, a);
            && w' == v
            && (one.Ok? ==> r == Ok(Some(one.value)))
            && (one.Err? ==> r == Err(one.error)))
  {
    hide AfterAcknowledge;
  }

  /** A request is refused when nothing runs, joins the queued save when one is in flight, and is
      signalled otherwise; the answer names the save under which it will be found. */
  lemma RequestIff(w: World, id: string, provenance: Provenance, a: SignalAnswer)
    ensures var (w', r) := AfterRequestSave(w, id, provenance, a);
      && (r == Err(NotRunning) <==> !w.s.running)
      && (r == Err(Process) <==> w.s.running && w.s.inFlight.None? && !a.ok)
      && (r.Err? ==> w' == w && (r == Err(NotRunning) || r == Err(Process)))
      && (r.Ok? && w.s.inFlight.None? ==>
            && r.value == (id, Signalled)
            && w'.s == w.s.(inFlight := Some(PendingSave(id, provenance, a.wall, a.now)))
            && w'.trace == w.trace + [Sent(id, provenance, false, a.now)])
      && (r.Ok? && w.s.inFlight.Some? ==>
            && w'.s.queued.Some?
            && var q := w'.s.queued.value;
            && r.value == (q.id, Coalesced)
            && q.id == (if w.s.queued.Some? then w.s.queued.value.id else id)
            && (q.provenance == ManualFlag <==>
                  provenance == ManualFlag || (w.s.queued.Some? && w.s.queued.value.provenance == ManualFlag))
            && w'.s == w.s.(queued := w'.s.queued)
            && w'.trace == w.trace + [Joined(id, provenance)])
  {
  }

  /** A restart is due: nothing runs, no shutdown was asked for, and its time has come. */
  predicate RestartDue(s: State, now: u64) {
    !s.running && !s.shuttingDown && s.nextRestart.Some? && s.nextRestart.value <= now
  }

  /** What a poll answers: the exit it found, an error of the process, or nothing. */
  lemma PollAnswers(cfg: Config, w: World, a: PollAnswer)
    ensures var r := AfterPoll(cfg, w, a).1;
      && (r.Err? <==> || a.drained.Err?
                      || (w.s.running && a.exit.Err?)
                      || (RestartDue(w.s, a.restartNow) && !a.spawnOk))
      && (r.Err? ==> r.error == Process)
      && (forall code :: r == Ok(Some(code)) <==> a.drained.Ok? && w.s.running && a.exit == Ok(Some(code)))
    ensures a.drained.Err? ==> AfterPoll(cfg, w, a).0 == w
  {
  }

  /** What a poll changes: the output read is kept, a child that has run long enough is stable and
      its failures are forgotten, an exit stops it and schedules a restart unless it was shut down,
      and a restart that is due is made. */
  lemma PollChanges(cfg: Config, w: World, a: PollAnswer)
    requires a.drained.Ok?
    ensures var s, s' := w.s, AfterPoll(cfg, w, a).0.s;
      var settles := s.running && !s.stable && SatSub(a.stableNow, s.started) >= cfg.stableAfter;
      var exits := s.running && a.exit.Ok? && a.exit.value.Some?;
      var restarts := RestartDue(s, a.restartNow) && a.spawnOk;
      var failures := if settles then 0 else s.failures;
      && s'.inFlight == s.inFlight && s'.queued == s.queued
      && s'.stderr == Tail(s.stderr + a.drained.value, cfg.maxStderr)
      && s'.running == (restarts || (s.running && !exits))
      && s'.shuttingDown == (s.shuttingDown && !restarts)
      && s'.stable == ((s.stable || settles) && !restarts)
      && s'.started == (if restarts then a.spawnNow else s.started)
      && s'.failures == (if exits && !s.shuttingDown then SatAdd(failures, 1) else failures)
      && s'.nextRestart == (if restarts then None
                            else if exits && !s.shuttingDown then Some(SatAdd(a.exitNow, RestartDelay(failures)))
                            else s.nextRestart)
  {
    hide Tail;
    hide RestartDelay;
  }

  /** The delays before the restarts: one, two, four, eight, sixteen, then always thirty seconds. */
  lemma RestartDelays(failures: nat)
    ensures 0 < failures <= 4 ==> RestartDelay(failures) == 2 * RestartDelay(failures - 1)
    ensures RestartDelay(0) == 1_000 && (failures >= 5 ==> RestartDelay(failures) == 30_000)
  {
  }

  /** A start or restart, and a shutdown. */
  lemma StartStop(w: World, restarted: bool, ok: bool, now: u64)
    ensures !ok ==> AfterSpawn(w, restarted, ok, now) == w
    ensures ok ==> var w' := AfterSpawn(w, restarted, ok, now);
      && w'.s.running && !w'.s.shuttingDown && !w'.s.stable && w'.s.started == now && w'.s.nextRestart.None?
      && w'.s.inFlight == w.s.inFlight && w'.s.queued == w.s.queued && w'.s.failures == w.s.failures
      && w'.s.stderr == w.s.stderr && w'.trace == w.trace + [Spawned(now, restarted)]
    ensures var w' := AfterShutdown(w);
      && w'.s.shuttingDown && w'.s.nextRestart.None? && w'.trace == w.trace + [ShutDown]
      && w'.s == w.s.(shuttingDown := w'.s.shuttingDown, nextRestart := w'.s.nextRestart)
  {
  }

  // ----- The supervisor, updated in place

  class RecorderSupervisor {
    const cfg: Config
    var running: bool
    var shuttingDown: bool
    var started: u64
    var stable: bool
    var inFlight: Option<PendingSave>
    var queued: Option<PendingSave>
    var nextRestart: Option<u64>
    var failures: u64
    var stderr: seq<Byte>
    ghost var trace: seq<Event>

    ghost function Here(): World
      reads this
    {
      World(State(running, shuttingDown, started, stable, inFlight, queued, nextRestart, failures, stderr), trace)
    }

    constructor (config: Config)
      ensures cfg == config && Here() == World(INITIAL, [])
    {
      cfg := config;
      running, shuttingDown, started, stable := false, false, 0, false;
      inFlight, queued, nextRestart, failures, stderr, trace := None, None, None, 0, [], [];
    }

    method Spawn(ghost restarted: bool, ok: bool, now: u64) returns (r: Result<(), Error>)
      modifies this
      ensures Here() == AfterSpawn(old(Here()), restarted, ok, now)
      ensures r == if ok then Ok(()) else Err(Process)
    {
      if !ok {
        return Err(Process);
      }
      running, shuttingDown, stable := true, false, false;
      started := now;
      nextRestart := None;
      trace := trace + [Spawned(now, restarted)];
      return Ok(());
    }

    method Start(ok: bool, now: u64) returns (r: Result<(), Error>)
      modifies this
      ensures Here() == Perform(cfg, old(Here()), DoStart(ok, now))
      ensures r == if ok then Ok(()) else Err(Process)
    {
      r := Spawn(false, ok, now);
    }

    method RequestSave(id: string, provenance: Provenance, signal: SignalAnswer)
      returns (r: Result<(string, Disposition), Error>)
      modifies this
      ensures (Here(), r) == AfterRequestSave(old(Here()), id, provenance, signal)
    {
      if !running {
        return Err(NotRunning);
      }
      if inFlight.Some? {
        if queued.None? {
          queued := Some(PendingSave(id, provenance, 0, 0));
        }
        if provenance == ManualFlag {
          queued := Some(queued.value.(provenance := ManualFlag));
        }
        trace := trace + [Joined(id, provenance)];
        return Ok((queued.value.id, Coalesced));
      }
      var sent := SignalSave(id, provenance, false, signal);
      if sent.Err? {
        return Err(sent.error);
      }
      return Ok((id, Signalled));
    }

    method SignalSave(id: string, provenance: Provenance, ghost followUp: bool, signal: SignalAnswer)
      returns (r: Result<(), Error>)
      modifies this
      ensures r == if signal.ok then Ok(()) else Err(Process)
      ensures Here() == if signal.ok then Send(old(Here()), id, provenance, followUp, signal) else old(Here())
    {
      if !signal.ok {
        return Err(Process);
      }
      inFlight := Some(PendingSave(id, provenance, signal.wall, signal.now));
      trace := trace + [Sent(id, provenance, followUp, signal.now)];
      return Ok(());
    }

    method DiscoverSave(outputs: Result<seq<Path>, ()>, files: FileAnswer, media: Result<MediaInfo, ()>, signal: SignalAnswer)
      returns (r: Result<Option<Acknowledgement>, Error>)
      modifies this
      ensures (Here(), r) == AfterDiscoverSave(cfg, old(Here()), outputs, files, media, signal)
    {
      if inFlight.None? {
        return Err(NoSaveInFlight);
      }
      if outputs.Err? {
        return Err(Filesystem);
      }
      if outputs.value == [] {
        return Ok(None);
      }
      var ack := Acknowledge(outputs.value[0], files, media, signal);
      return if ack.Ok? then Ok(Some(ack.value)) else Err(ack.error);
    }

    method Acknowledge(path: Path, files: FileAnswer, media: Result<MediaInfo, ()>, signal: SignalAnswer)
      returns (r: Result<Acknowledgement, Error>)
      modifies this
      ensures (Here(), r) == AfterAcknowledge(cfg, old(Here()), path, files, media, signal)
    {
      if inFlight.None? {
        return Err(NoSaveInFlight);
      }
      var pending := inFlight.value;
      var validation := ValidateOutput(cfg.directory, path, files);
      if validation.Err? {
        return Err(validation.error);
      }
      if media.Err? {
        return Err(Media);
      }
      var ack := Acknowledgement(path, pending.id, pending.provenance, pending.requestedAt, media.value);
      inFlight := None;
      trace := trace + [Settled(ack)];
      var next := queued;
      queued := None;
      if next.Some? {
        var sent := SignalSave(next.value.id, next.value.provenance, true, signal);
        if sent.Err? {
          trace := trace + [Lost(next.value.id, next.value.provenance)];
          return Err(sent.error);
        }
      }
      return Ok(ack);
    }

    method Poll(a: PollAnswer) returns (r: Result<Option<int>, Error>)
      requires |stderr| <= cfg.maxStderr
      modifies this
      ensures (Here(), r) == AfterPoll(cfg, old(Here()), a)
    {
      if a.drained.Err? {
        return Err(Process);
      }
      AppendStderr(a.drained.value);
      if running {
        if !stable && SatSub(a.stableNow, started) >= cfg.stableAfter {
          failures := 0;
          stable := true;
          trace := trace + [Stabilised(a.stableNow)];
        }
        if a.exit.Err? {
          return Err(Process);
        }
        if a.exit.value.Some? {
          running := false;
          if !shuttingDown {
            var delay := RestartDelay(failures);
            failures := SatAdd(failures, 1);
            nextRestart := Some(SatAdd(a.exitNow, delay));
            trace := trace + [Exited(a.exitNow, nextRestart)];
          } else {
            trace := trace + [Exited(a.exitNow, None)];
          }
          return Ok(a.exit.value);
        }
      }
      if !shuttingDown && !running && nextRestart.Some? && a.restartNow >= nextRestart.value {
        var spawned := Spawn(true, a.spawnOk, a.spawnNow);
        if spawned.Err? {
          return Err(spawned.error);
        }
      }
      return Ok(None);
    }

    method Shutdown(signalOk: bool) returns (r: Result<(), Error>)
      modifies this
      ensures Here() == AfterShutdown(old(Here()))
      ensures r == if old(running) && !signalOk then Err(Process) else Ok(())
    {
      shuttingDown := true;
      nextRestart := None;
      trace := trace + [ShutDown];
      if running && !signalOk {
        return Err(Process);
      }
      return Ok(());
    }

    /** Byte by byte: push at the back, and pop at the front when over the limit. */
    method AppendStderr(bytes: seq<Byte>)
      modifies this`stderr, this`trace
      requires |stderr| <= cfg.maxStderr
      ensures Here() == Drain(cfg, old(Here()), bytes)
    {
      assert old(stderr) + bytes[..0] == old(stderr);
      assert Tail(stderr, cfg.maxStderr) == stderr;
      hide Tail;
      var i := 0;
      while i < |bytes|
        invariant 0 <= i <= |bytes|
        invariant trace == old(trace)
        invariant stderr == Tail(old(stderr) + bytes[..i], cfg.maxStderr)
      {
        TailPush(old(stderr) + bytes[..i], bytes[i], cfg.maxStderr);
        assert old(stderr) + bytes[..i + 1] == old(stderr) + bytes[..i] + [bytes[i]];
        stderr := stderr + [bytes[i]];
        if |stderr| > cfg.maxStderr {
          stderr := stderr[1..];
        }
        i := i + 1;
      }
      assert bytes[..|bytes|] == bytes;
      trace := trace + [Drained(bytes)];
    }
  }
}
