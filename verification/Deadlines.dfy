/** The daemon's deadline driver (crates/openfragd/src/live_runtime.rs): schedule and cancel
    commands arrive over a channel, and due timers are handed out in deadline order. */
module Deadlines {
  import opened Prelude
  import opened Ordering

  datatype Command = Schedule(timer: string, deadline: u64) | Cancel(timer: string)

  type Timers = map<string, u64>

  function Applied(m: Timers, c: Command): Timers {
    match c
    case Schedule(timer, deadline) => m[timer := deadline]
    case Cancel(timer) => m - {timer}
  }

  function AppliedAll(m: Timers, cs: seq<Command>): Timers
    decreases |cs|
  {
    if cs == [] then m else AppliedAll(Applied(m, cs[0]), cs[1..])
  }

  // ----- Due timers

  function DueSet(m: Timers, now: u64): set<string> {
    set t | t in m && m[t] <= now
  }

  /** Earlier deadline first, then the smaller identifier. */
  predicate EntryLe(a: (u64, string), b: (u64, string)) {
    if a.0 != b.0 then a.0 < b.0 else StrLe(a.1, b.1)
  }

  lemma EntryOrder()
    ensures Preorder(EntryLe) && Antisymmetric(EntryLe)
  {
    var byTimer := (a: (u64, string), b: (u64, string)) => StrLe(a.1, b.1);
    TextOrder((e: (u64, string)) => e.1, byTimer);
    NumberThen((e: (u64, string)) => e.0, byTimer, EntryLe);
    StrOrder();
    hide StrLe;
  }

  ghost predicate IsFirst(m: Timers, now: u64, timer: string) {
    timer in DueSet(m, now) && forall t :: t in DueSet(m, now) ==> EntryLe((m[timer], timer), (m[t], t))
  }

  lemma FirstExists(m: Timers, now: u64) returns (timer: string)
    requires DueSet(m, now) != {}
    ensures IsFirst(m, now, timer)
  {
    EntryOrder();
    var entries := set t | t in DueSet(m, now) :: (m[t], t);
    var some :| some in DueSet(m, now);
    assert (m[some], some) in entries;
    var least := LeastExists(entries, EntryLe);
    timer := least.1;
    forall t | t in DueSet(m, now) ensures EntryLe((m[timer], timer), (m[t], t)) {
      assert (m[t], t) in entries;
    }
  }

  lemma FirstUnique(m: Timers, now: u64, a: string, b: string)
    requires IsFirst(m, now, a) && IsFirst(m, now, b)
    ensures a == b
  {
    EntryOrder();
  }

  /** All due timers, taken one at a time from the front. */
  ghost function DueSequence(m: Timers, now: u64): seq<string>
    decreases |m|
  {
    if timer :| IsFirst(m, now, timer) then
      Shorter(m, timer);
      [timer] + DueSequence(m - {timer}, now)
    else []
  }

  lemma Shorter(m: Timers, timer: string)
    requires timer in m
    ensures |m - {timer}| < |m|
  {
    assert m == (m - {timer})[timer := m[timer]];
  }

  lemma {:induction false} DueSequenceStep(m: Timers, now: u64, timer: string)
    requires IsFirst(m, now, timer)
    ensures DueSequence(m, now) == [timer] + DueSequence(m - {timer}, now)
  {
    forall other | IsFirst(m, now, other) ensures other == timer {
      FirstUnique(m, now, other, timer);
    }
  }

  lemma {:induction false} DueSequenceDone(m: Timers, now: u64)
    ensures DueSequence(m, now) == [] <==> DueSet(m, now) == {}
  {
    if DueSet(m, now) != {} {
      var timer := FirstExists(m, now);
    }
  }

  lemma {:induction false} DueSequenceElements(m: Timers, now: u64)
    ensures forall t :: t in DueSequence(m, now) <==> t in DueSet(m, now)
    ensures |DueSequence(m, now)| == |DueSet(m, now)|
    decreases |m|
  {
    DueSequenceDone(m, now);
    if DueSet(m, now) != {} {
      var timer := FirstExists(m, now);
      DueSequenceStep(m, now, timer);
      Shorter(m, timer);
      DueSequenceElements(m - {timer}, now);
      assert DueSet(m - {timer}, now) == DueSet(m, now) - {timer};
    }
  }

  /** Both are due, and the first is due earlier, or at the same time and first by name. */
  ghost predicate Precedes(m: Timers, a: string, b: string) {
    a in m && b in m && (m[a] < m[b] || (m[a] == m[b] && Alphabetical(a, b)))
  }

  /** What is handed out first is due and precedes all that is due. */
  lemma FirstIff(m: Timers, now: u64, timer: string)
    ensures IsFirst(m, now, timer) <==>
            timer in m && m[timer] <= now && forall t :: t in m && m[t] <= now ==> Precedes(m, timer, t)
  {
    forall t | t in m && timer in m
      ensures EntryLe((m[timer], timer), (m[t], t)) <==> Precedes(m, timer, t)
    {
      StrLeIff(timer, t);
    }
  }

  /** Exactly the due timers, each once, by deadline and then by name. */
  lemma {:induction false} DueInOrder(m: Timers, now: u64)
    ensures var due := DueSequence(m, now);
      && (forall t :: t in due <==> t in m && m[t] <= now)
      && forall i, j :: 0 <= i < j < |due| ==> due[i] != due[j] && Precedes(m, due[i], due[j])
    decreases |m|
  {
    DueSequenceElements(m, now);
    DueSequenceDone(m, now);
    if DueSet(m, now) != {} {
      var first := FirstExists(m, now);
      FirstIff(m, now, first);
      hide IsFirst;
      DueSequenceStep(m, now, first);
      Shorter(m, first);
      DueInOrder(m - {first}, now);
      hide DueSequence;
      var rest := DueSequence(m - {first}, now);
      forall i, j | 0 <= i < j < |rest|
        ensures rest[i] != rest[j] && Precedes(m, rest[i], rest[j])
      {
        assert Precedes(m - {first}, rest[i], rest[j]);
      }
      forall j | 0 <= j < |rest|
        ensures first != rest[j] && Precedes(m, first, rest[j])
      {
        assert rest[j] in rest;
      }
    }
  }

  function TimersOf(entries: seq<(u64, string)>): (r: seq<string>)
    ensures |r| == |entries|
    ensures forall i :: 0 <= i < |r| ==> r[i] == entries[i].1
  {
    if entries == [] then [] else [entries[0].1] + TimersOf(entries[1..])
  }

  /** The entries are the due ones, each once. */
  ghost predicate Enumerates(entries: seq<(u64, string)>, m: Timers, now: u64) {
    && (forall e :: e in entries <==> e.1 in DueSet(m, now) && m[e.1] == e.0)
    && (forall e :: e in entries ==> multiset(entries)[e] == 1)
  }

  /** Sorting any enumeration of the due entries gives the one-at-a-time sequence. */
  lemma {:induction false} SortedIsDueSequence(entries: seq<(u64, string)>, m: Timers, now: u64)
    requires Enumerates(entries, m, now) && Sorted(entries, EntryLe)
    ensures TimersOf(entries) == DueSequence(m, now)
  {
    EntryOrder();
    if entries == [] {
      assert forall t :: t in DueSet(m, now) ==> (m[t], t) in entries;
      DueSequenceDone(m, now);
    } else {
      var first := entries[0];
      assert first in entries;
      forall t | t in DueSet(m, now) ensures EntryLe(first, (m[t], t)) {
        assert (m[t], t) in entries;
        assert EntryLe(first, first);
      }
      DueSequenceStep(m, now, first.1);
      RestEnumerates(entries, m, now);
      SortedIsDueSequence(entries[1..], m - {first.1}, now);
    }
  }

  lemma RestEnumerates(entries: seq<(u64, string)>, m: Timers, now: u64)
    requires entries != [] && Enumerates(entries, m, now)
    ensures entries[0].1 in m && Enumerates(entries[1..], m - {entries[0].1}, now)
  {
    var first, rest := entries[0], entries[1..];
    assert first in entries;
    TailMultiset(entries);
    forall e ensures e in rest <==> e in entries && e != first {
      assert e in rest <==> multiset(rest)[e] > 0;
      assert e in entries <==> multiset(entries)[e] > 0;
    }
  }

  /** `due` was taken one by one from `start`, which left `m`. */
  ghost predicate TakenFrom(start: Timers, m: Timers, now: u64, due: seq<string>) {
    due + DueSequence(m, now) == DueSequence(start, now) && m == start - Elems(due)
  }

  lemma NoneTaken(m: Timers, now: u64)
    ensures TakenFrom(m, m, now, [])
  {
    assert Elems<string>([]) == {};
    assert m - {} == m;
  }

  lemma NextTaken(start: Timers, m: Timers, now: u64, due: seq<string>, timer: string)
    requires TakenFrom(start, m, now, due) && IsFirst(m, now, timer)
    ensures TakenFrom(start, m - {timer}, now, due + [timer]) && |m - {timer}| < |m|
  {
    hide DueSequence;
    DueSequenceStep(m, now, timer);
    Shorter(m, timer);
    assert Elems(due + [timer]) == Elems(due) + {timer};
    assert m - {timer} == start - Elems(due + [timer]);
    assert due + [timer] + DueSequence(m - {timer}, now) == due + ([timer] + DueSequence(m - {timer}, now));
  }

  lemma {:induction false} AllTaken(start: Timers, m: Timers, now: u64, due: seq<string>)
    requires TakenFrom(start, m, now, due) && DueSet(m, now) == {}
    ensures due == DueSequence(start, now) && m == start - DueSet(start, now)
  {
    hide DueSequence;
    DueSequenceDone(m, now);
    assert due + [] == due;
    DueSequenceElements(start, now);
    assert Elems(due) == DueSet(start, now);
  }

  /** The driver.  `queue` is what the schedulers have sent and the driver has not yet received;
      `open` says that some scheduler handle still exists. */
  class DeadlineDriver {
    var queue: seq<Command>
    var open: bool
    var deadlines: Timers
    var disconnected: bool

    constructor ()
      ensures queue == [] && open && deadlines == map[] && !disconnected
    {
      queue, open, deadlines, disconnected := [], true, map[], false;
    }

    method Apply(c: Command)
      modifies this`deadlines
      ensures deadlines == Applied(old(deadlines), c)
    {
      match c
      case Schedule(timer, deadline) => deadlines := deadlines[timer := deadline];
      case Cancel(timer) => deadlines := deadlines - {timer};
    }

    method DrainCommands()
      modifies this`queue, this`deadlines, this`disconnected
      ensures queue == [] && deadlines == AppliedAll(old(deadlines), old(queue))
      ensures disconnected == (old(disconnected) || !open)
    {
      while queue != []
        invariant AppliedAll(deadlines, queue) == AppliedAll(old(deadlines), old(queue))
        invariant disconnected == old(disconnected)
        decreases |queue|
      {
        var command := queue[0];
        queue := queue[1..];
        Apply(command);
      }
      if !open {
        disconnected := true;
      }
    }

    /** Iterates the map in any order, sorts, removes. */
    method TakeDue(now: u64) returns (due: seq<string>)
      modifies this`queue, this`deadlines, this`disconnected
      ensures var m := AppliedAll(old(deadlines), old(queue));
        due == DueSequence(m, now) && deadlines == m - DueSet(m, now)
      ensures queue == [] && disconnected == (old(disconnected) || !open)
    {
      hide StableSort;
      hide DueSequence;
      hide AppliedAll;
      DrainCommands();
      ghost var m := deadlines;
      var entries := CollectDue(now);
      var sorted := StableSort(entries, EntryLe);
      EntryOrder();
      SortSorts(entries, EntryLe);
      SameElements(entries, sorted);
      SortedIsDueSequence(sorted, m, now);
      due := TimersOf(sorted);
      RemoveAll(due);
      DueSequenceElements(m, now);
      assert Elems(due) == DueSet(m, now);
    }

    method RemoveAll(timers: seq<string>)
      modifies this`deadlines
      ensures deadlines == old(deadlines) - Elems(timers)
    {
      var i := 0;
      while i < |timers|
        invariant 0 <= i <= |timers|
        invariant deadlines == old(deadlines) - Elems(timers[..i])
      {
        deadlines := deadlines - {timers[i]};
        ElemsPush(timers, i);
        i := i + 1;
      }
      assert timers[..|timers|] == timers;
    }

    method CollectDue(now: u64) returns (entries: seq<(u64, string)>)
      ensures Enumerates(entries, deadlines, now)
    {
      entries := [];
      var left := deadlines.Keys;
      while left != {}
        invariant left <= deadlines.Keys
        invariant forall e :: e in entries <==> e.1 in DueSet(deadlines, now) - left && deadlines[e.1] == e.0
        invariant forall e :: e in entries ==> multiset(entries)[e] == 1
        decreases |left|
      {
        var timer :| timer in left;
        left := left - {timer};
        if deadlines[timer] <= now {
          entries := entries + [(deadlines[timer], timer)];
        }
      }
    }

    /** The least due entry, found in one pass over the map in any order. */
    method TakeNextDue(now: u64) returns (next: Option<string>)
      modifies this`deadlines
      ensures next.None? <==> DueSet(old(deadlines), now) == {}
      ensures next.None? ==> deadlines == old(deadlines)
      ensures next.Some? ==> IsFirst(old(deadlines), now, next.value) && deadlines == old(deadlines) - {next.value}
    {
      EntryOrder();
      next := None;
      var left := deadlines.Keys;
      while left != {}
        invariant left <= deadlines.Keys
        invariant deadlines == old(deadlines)
        invariant next.None? ==> DueSet(deadlines, now) <= left
        invariant next.Some? ==> next.value in DueSet(deadlines, now) - left
        invariant next.Some? ==> forall t :: t in DueSet(deadlines, now) - left ==>
          EntryLe((deadlines[next.value], next.value), (deadlines[t], t))
        decreases |left|
      {
        var timer :| timer in left;
        left := left - {timer};
        if deadlines[timer] <= now
           && (next.None? || !EntryLe((deadlines[next.value], next.value), (deadlines[timer], timer))) {
          next := Some(timer);
        }
      }
      if next.Some? {
        deadlines := deadlines - {next.value};
      }
    }

    /** Calling `TakeNextDue` until it finds nothing yields exactly what one `TakeDue` would. */
    method TakeAllNext(now: u64) returns (due: seq<string>)
      modifies this`deadlines
      ensures due == DueSequence(old(deadlines), now)
      ensures deadlines == old(deadlines) - DueSet(old(deadlines), now)
    {
      hide DueSequence;
      hide DueSet;
      hide IsFirst;
      hide TakenFrom;
      due := [];
      NoneTaken(deadlines, now);
      while true
        invariant TakenFrom(old(deadlines), deadlines, now, due)
        decreases |deadlines|
      {
        ghost var before := deadlines;
        var next := TakeNextDue(now);
        if next.None? {
          AllTaken(old(deadlines), deadlines, now, due);
          return;
        }
        NextTaken(old(deadlines), before, now, due, next.value);
        due := due + [next.value];
      }
    }

    method NextDeadline() returns (next: Option<u64>)
      modifies this`queue, this`deadlines, this`disconnected
      ensures queue == [] && deadlines == AppliedAll(old(deadlines), old(queue))
      ensures disconnected == (old(disconnected) || !open)
      ensures next.None? <==> deadlines == map[]
      ensures next.Some? ==> next.value in deadlines.Values && forall t :: t in deadlines ==> next.value <= deadlines[t]
    {
      DrainCommands();
      next := None;
      var left := deadlines.Keys;
      while left != {}
        invariant left <= deadlines.Keys
        invariant next.None? <==> left == deadlines.Keys
        invariant next.Some? ==> next.value in deadlines.Values
        invariant next.Some? ==> forall t :: t in deadlines.Keys - left ==> next.value <= deadlines[t]
        decreases |left|
      {
        var timer :| timer in left;
        left := left - {timer};
        next := Some(if next.None? then deadlines[timer] else Min(next.value, deadlines[timer]));
      }
    }
  }

  lemma ElemsPush(timers: seq<string>, i: nat)
    requires i < |timers|
    ensures Elems(timers[..i + 1]) == Elems(timers[..i]) + {timers[i]}
  {
    assert timers[..i + 1] == timers[..i] + [timers[i]];
  }

  // ----- Runs

  /** What happens to a timer, in order: a command reaches the driver, or the timer is handed out. */
  datatype Event = Received(command: Command) | Fired(timer: string, at: u64)

  datatype Step = Send(command: Command) | Drain | TakeDueAt(now: u64) | TakeNextAt(now: u64)

  function Replayed(m: Timers, e: Event): Timers {
    match e
    case Received(command) => Applied(m, command)
    case Fired(timer, _) => m - {timer}
  }

  function Replay(trace: seq<Event>): Timers {
    if trace == [] then map[] else Replayed(Replay(trace[..|trace| - 1]), trace[|trace| - 1])
  }

  lemma {:induction false} ReplayPush(trace: seq<Event>, e: Event)
    ensures Replay(trace + [e]) == Replayed(Replay(trace), e)
  {
    assert (trace + [e])[..|trace|] == trace;
  }

  function ReceivedAll(cs: seq<Command>): seq<Event> {
    if cs == [] then [] else [Received(cs[0])] + ReceivedAll(cs[1..])
  }

  function FiredAll(timers: seq<string>, at: u64): seq<Event> {
    if timers == [] then [] else [Fired(timers[0], at)] + FiredAll(timers[1..], at)
  }

  /** The channel's contents, the schedule, and the events of one step. */
  ghost function Perform(queue: seq<Command>, m: Timers, step: Step): (seq<Command>, Timers, seq<Event>) {
    match step
    case Send(command) => (queue + [command], m, [])
    case Drain => ([], AppliedAll(m, queue), ReceivedAll(queue))
    case TakeDueAt(now) =>
      var m' := AppliedAll(m, queue);
      ([], m' - DueSet(m', now), ReceivedAll(queue) + FiredAll(DueSequence(m', now), now))
    case TakeNextAt(now) =>
      if timer :| IsFirst(m, now, timer) then (queue, m - {timer}, [Fired(timer, now)]) else (queue, m, [])
  }

  ghost function Run(steps: seq<Step>): (seq<Command>, Timers, seq<Event>) {
    if steps == [] then ([], map[], [])
    else
      var (queue, m, trace) := Run(steps[..|steps| - 1]);
      var (queue', m', events) := Perform(queue, m, steps[|steps| - 1]);
      (queue', m', trace + events)
  }

  predicate Touches(e: Event, timer: string) {
    match e
    case Received(command) => command.timer == timer
    case Fired(fired, _) => fired == timer
  }

  /** The timer was scheduled for `deadline` and nothing has happened to it since. */
  ghost predicate Pending(trace: seq<Event>, timer: string, deadline: u64) {
    exists i :: 0 <= i < |trace| && trace[i] == Received(Schedule(timer, deadline))
                && forall j :: i < j < |trace| ==> !Touches(trace[j], timer)
  }

  /** Every firing is of a pending schedule whose deadline has passed. */
  ghost predicate Sound(trace: seq<Event>) {
    forall k :: 0 <= k < |trace| && trace[k].Fired? ==>
      exists d: u64 :: Pending(trace[..k], trace[k].timer, d) && d <= trace[k].at
  }

  lemma PendingPush(trace: seq<Event>, e: Event, timer: string, deadline: u64)
    ensures Pending(trace + [e], timer, deadline) <==>
            e == Received(Schedule(timer, deadline)) || (Pending(trace, timer, deadline) && !Touches(e, timer))
  {
    var longer := trace + [e];
    assert longer[|trace|] == e;
    assert forall i :: 0 <= i < |trace| ==> longer[i] == trace[i];
    if Pending(longer, timer, deadline) {
      var i :| 0 <= i < |longer| && longer[i] == Received(Schedule(timer, deadline))
               && forall j :: i < j < |longer| ==> !Touches(longer[j], timer);
      if i < |trace| {
        assert trace[i] == Received(Schedule(timer, deadline));
        assert forall j :: i < j < |trace| ==> !Touches(longer[j], timer);
      }
    }
    if Pending(trace, timer, deadline) && !Touches(e, timer) {
      var i :| 0 <= i < |trace| && trace[i] == Received(Schedule(timer, deadline))
               && forall j :: i < j < |trace| ==> !Touches(trace[j], timer);
      assert longer[i] == Received(Schedule(timer, deadline));
    }
  }

  /** The driver's map holds exactly the pending schedules. */
  lemma {:induction false} ReplayIsPending(trace: seq<Event>, timer: string, deadline: u64)
    ensures timer in Replay(trace) && Replay(trace)[timer] == deadline <==> Pending(trace, timer, deadline)
  {
    if trace != [] {
      var before, e := trace[..|trace| - 1], trace[|trace| - 1];
      assert trace == before + [e];
      ReplayIsPending(before, timer, deadline);
      PendingPush(before, e, timer, deadline);
    }
  }

  lemma {:induction false} SoundPush(trace: seq<Event>, e: Event)
    requires Sound(trace)
    requires e.Fired? ==> e.timer in Replay(trace) && Replay(trace)[e.timer] <= e.at
    ensures Sound(trace + [e])
  {
    var longer := trace + [e];
    forall k | 0 <= k < |longer| && longer[k].Fired?
      ensures exists d: u64 :: Pending(longer[..k], longer[k].timer, d) && d <= longer[k].at
    {
      if k < |trace| {
        assert longer[..k] == trace[..k] && longer[k] == trace[k];
      } else {
        assert longer[..k] == trace && longer[k] == e;
        ReplayIsPending(trace, e.timer, Replay(trace)[e.timer]);
      }
    }
  }

  lemma {:induction false} ReceiveSound(trace: seq<Event>, cs: seq<Command>)
    requires Sound(trace)
    ensures Sound(trace + ReceivedAll(cs)) && Replay(trace + ReceivedAll(cs)) == AppliedAll(Replay(trace), cs)
    decreases |cs|
  {
    hide Sound;
    hide Replay;
    if cs == [] {
      assert trace + [] == trace;
    } else {
      var e := Received(cs[0]);
      SoundPush(trace, e);
      ReplayPush(trace, e);
      ReceiveSound(trace + [e], cs[1..]);
      assert ReceivedAll(cs) == [e] + ReceivedAll(cs[1..]);
      assert trace + ReceivedAll(cs) == trace + [e] + ReceivedAll(cs[1..]);
    }
  }

  lemma {:induction false} FireOne(trace: seq<Event>, now: u64, timer: string)
    requires Sound(trace) && timer in DueSet(Replay(trace), now)
    ensures Sound(trace + [Fired(timer, now)]) && Replay(trace + [Fired(timer, now)]) == Replay(trace) - {timer}
  {
    SoundPush(trace, Fired(timer, now));
    ReplayPush(trace, Fired(timer, now));
  }

  lemma {:induction false} FireSound(trace: seq<Event>, now: u64)
    requires Sound(trace)
    ensures var m := Replay(trace); var longer := trace + FiredAll(DueSequence(m, now), now);
      Sound(longer) && Replay(longer) == m - DueSet(m, now)
    decreases |Replay(trace)|
  {
    hide Sound;
    hide Replay;
    var m := Replay(trace);
    if DueSet(m, now) == {} {
      DueSequenceDone(m, now);
      assert trace + [] == trace && m - {} == m;
    } else {
      var timer := FirstExists(m, now);
      DueSequenceStep(m, now, timer);
      Shorter(m, timer);
      FireOne(trace, now, timer);
      var longer := trace + [Fired(timer, now)];
      FireSound(longer, now);
      var rest := DueSequence(m - {timer}, now);
      assert trace + FiredAll([timer] + rest, now) == longer + FiredAll(rest, now);
      assert m - {timer} - DueSet(m - {timer}, now) == m - DueSet(m, now);
    }
  }

  /** In every run the schedule is the set of pending schedules, and every firing is of a schedule
      that is due, was not replaced or cancelled, and has not fired before. */
  lemma {:induction false} RunFiresPending(steps: seq<Step>)
    ensures var (_, m, trace) := Run(steps); Sound(trace) && m == Replay(trace)
  {
    hide Sound;
    hide Replay;
    if steps == [] {
      NothingYet();
    } else {
      RunFiresPending(steps[..|steps| - 1]);
      var (queue, m, trace) := Run(steps[..|steps| - 1]);
      match steps[|steps| - 1] {
        case Send(command) =>
          assert trace + [] == trace;
        case Drain =>
          ReceiveSound(trace, queue);
        case TakeDueAt(now) =>
          ReceiveSound(trace, queue);
          var received := trace + ReceivedAll(queue);
          FireSound(received, now);
          var fired := FiredAll(DueSequence(AppliedAll(m, queue), now), now);
          assert trace + (ReceivedAll(queue) + fired) == received + fired;
        case TakeNextAt(now) =>
          assert trace + [] == trace;
          forall timer | IsFirst(m, now, timer)
            ensures Sound(trace + [Fired(timer, now)]) && Replay(trace + [Fired(timer, now)]) == m - {timer}
          {
            FireOne(trace, now, timer);
          }
      }
    }
  }

  lemma NothingYet()
    ensures Sound([]) && Replay([]) == map[]
  {
  }

  /** Between two firings of one timer a new schedule for it arrived, and its deadline was met. */
  lemma {:induction false} FiresOncePerSchedule(steps: seq<Step>, j: nat, k: nat)
    requires var trace := Run(steps).2;
      j < k < |trace| && trace[j].Fired? && trace[k].Fired? && trace[j].timer == trace[k].timer
    ensures var trace := Run(steps).2;
      exists i, d: u64 :: j < i < k && trace[i] == Received(Schedule(trace[k].timer, d)) && d <= trace[k].at
  {
    hide Run;
    hide Replay;
    RunFiresPending(steps);
    ScheduledBetween(Run(steps).2, j, k);
  }

  lemma ScheduledBetween(trace: seq<Event>, j: nat, k: nat)
    requires Sound(trace) && j < k < |trace| && trace[j].Fired? && trace[k].Fired? && trace[j].timer == trace[k].timer
    ensures exists i, d: u64 :: j < i < k && trace[i] == Received(Schedule(trace[k].timer, d)) && d <= trace[k].at
  {
    var timer := trace[k].timer;
    var d: u64 :| Pending(trace[..k], timer, d) && d <= trace[k].at;
    var before := trace[..k];
    var i :| 0 <= i < |before| && before[i] == Received(Schedule(timer, d))
             && forall j :: i < j < |before| ==> !Touches(before[j], timer);
    assert before[j] == trace[j] && Touches(before[j], timer);
    assert trace[i] == Received(Schedule(timer, d));
  }

  /** No schedule is forgotten: after `take_due` nothing that is due is still pending. */
  lemma {:induction false} NothingDueIsLeft(steps: seq<Step>, now: u64, timer: string, deadline: u64)
    requires Pending(Run(steps + [TakeDueAt(now)]).2, timer, deadline)
    ensures now < deadline
  {
    var all := steps + [TakeDueAt(now)];
    RunFiresPending(all);
    ReplayIsPending(Run(all).2, timer, deadline);
    assert all[..|all| - 1] == steps && all[|all| - 1] == TakeDueAt(now);
    assert timer in Run(all).1 && Run(all).1[timer] == deadline;
  }
}
