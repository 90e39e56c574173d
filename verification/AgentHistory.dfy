/** A worker's behaviour told from what it has been sent, without looking into it. */
module AgentHistory {
  import opened Base
  import opened Text
  import opened Digest
  import opened Wire
  import opened Agent
  import opened AgentRuns
  import opened AgentWake

  // ---------- runs, one event more ----------

  lemma {:induction false} RunConcat(h: Option<Handler>, s: State, a: seq<Event>, b: seq<Event>)
    ensures RunState(h, s, a + b) == RunState(h, RunState(h, s, a), b)
    ensures RunSent(h, s, a + b) == RunSent(h, s, a) + RunSent(h, RunState(h, s, a), b)
    decreases |a|
  {
    hide TurnOf;
    if a == [] {
      assert a + b == b;
    } else {
      assert (a + b)[1..] == a[1..] + b;
      RunConcat(h, TurnOf(h, s, a[0]).next, a[1..], b);
    }
  }

  lemma RunSnoc(h: Option<Handler>, s: State, es: seq<Event>, e: Event)
    ensures RunState(h, s, es + [e]) == TurnOf(h, RunState(h, s, es), e).next
    ensures RunSent(h, s, es + [e]) == RunSent(h, s, es) + TurnOf(h, RunState(h, s, es), e).sent
  {
    hide TurnOf;
    var t := TurnOf(h, RunState(h, s, es), e);
    RunConcat(h, s, es, [e]);
    assert [e][1..] == [];
    assert t.sent + [] == t.sent;
  }

  // ---------- what it has been told ----------

  // The last delay, pause, name and interval it was sent, and whether it was welcomed.
  function LastDelay(es: seq<Event>): u64 {
    if es == [] then 0
    else
      var e := es[|es| - 1];
      if e.Deliver? && e.message.SetDelay? then e.message.ms else LastDelay(es[..|es| - 1])
  }

  predicate LastPause(es: seq<Event>) {
    es != []
    && (var e := es[|es| - 1];
        if e.Deliver? && e.message.PauseHeartbeat? then e.message.paused else LastPause(es[..|es| - 1]))
  }

  predicate Welcomed(es: seq<Event>) { exists i :: 0 <= i < |es| && es[i].Deliver? && es[i].message.Welcome? }

  function LastName(id: Option<NodeId>, es: seq<Event>): Option<NodeId> {
    if es == [] then id
    else
      var e := es[|es| - 1];
      if e.Deliver? && e.message.Welcome? then Some(e.message.node) else LastName(id, es[..|es| - 1])
  }

  function LastInterval(interval: u64, es: seq<Event>): u64 {
    if es == [] then interval
    else
      var e := es[|es| - 1];
      if e.Deliver? && e.message.Welcome? && e.message.heartbeatIntervalMs > 0 then e.message.heartbeatIntervalMs
      else LastInterval(interval, es[..|es| - 1])
  }

  // What a turn leaves alone, apart from what its message sets.
  lemma TurnRemembers(h: Option<Handler>, s: State, e: Event)
    ensures var t := TurnOf(h, s, e).next;
            && t.extraDelay == (if e.Deliver? && e.message.SetDelay? then e.message.ms else s.extraDelay)
            && t.paused == (if e.Deliver? && e.message.PauseHeartbeat? then e.message.paused else s.paused)
            && t.joined == (s.joined || (e.Deliver? && e.message.Welcome?))
            && t.id == (if e.Deliver? && e.message.Welcome? then Some(e.message.node) else s.id)
            && t.interval == (if e.Deliver? && e.message.Welcome? && e.message.heartbeatIntervalMs > 0
                              then e.message.heartbeatIntervalMs else s.interval)
            && t.freeMemory == s.freeMemory
  {
    hide Poll, Accept;
    if e.Tick? {
      PollRemembers(s, e.now);
    } else if e.message.Assign? {
      AcceptRemembers(h, s, e.message.task, e.message.spec, e.now);
    } else {
      PollRemembers(Told(s, e.message, e.now), e.now);
    }
  }

  lemma AcceptRemembers(h: Option<Handler>, s: State, task: TaskId, wire: WireSpec, now: u64)
    ensures var t := Accept(h, s, task, wire, now).next;
            t.extraDelay == s.extraDelay && t.paused == s.paused && t.joined == s.joined && t.id == s.id
            && t.interval == s.interval && t.freeMemory == s.freeMemory
  {
    hide Poll, StartWork, CannotRun, Refusal;
    if s.id.Some? && s.running.None? && StartWork(h, s.id.value, wire).Some? {
      var (wait, work) := StartWork(h, s.id.value, wire).value;
      PollRemembers(Begun(s, task, wait, work, now), now);
    }
  }

  lemma PollRemembers(s: State, now: u64)
    ensures var t := Poll(s, now).next;
            t.extraDelay == s.extraDelay && t.paused == s.paused && t.joined == s.joined && t.id == s.id
            && t.interval == s.interval && t.freeMemory == s.freeMemory
  {
  }

  // After every run a worker is set exactly as it was last told.
  lemma {:induction false} ItIsAsTold(h: Option<Handler>, id: Option<NodeId>, interval: u64, es: seq<Event>)
    ensures var s := RunState(h, Fresh(id, interval), es);
            && s.extraDelay == LastDelay(es) && s.paused == LastPause(es) && s.joined == Welcomed(es)
            && s.id == LastName(id, es) && s.interval == LastInterval(interval, es) && s.freeMemory == 0
  {
    if es != [] {
      hide TurnOf, RunState;
      var front, e := es[..|es| - 1], es[|es| - 1];
      assert es == front + [e];
      ItIsAsTold(h, id, interval, front);
      RunSnoc(h, Fresh(id, interval), front, e);
      TurnRemembers(h, RunState(h, Fresh(id, interval), front), e);
    }
  }

  // ---------- waits and delays ----------

  // How long the answer to an assignment is to be waited for.
  ghost function WaitFor(h: Option<Handler>, node: NodeId, wire: WireSpec): u64 {
    match Answer(h, node, wire)
    case Some(Wait(millis, _)) => millis
    case _ => 0
  }

  // An event in which the worker looks at the clock.
  predicate Looks(e: Event) {
    e.Tick? || (!e.message.Assign? && !e.message.Rejected? && !e.message.Shutdown?)
  }

  predicate Only(task: TaskId, p: Which) { forall id :: p(id) <==> id == task }

  // It holds the task, and means to report it from `due` on.
  predicate Tracks(s: State, task: TaskId, due: u64) {
    s.running.Some? && s.running.value.id == task && s.running.value.readyAt == due
  }

  lemma PollTracks(s: State, now: u64, task: TaskId, due: u64, p: Which)
    requires Tracks(s, task, due) && Only(task, p)
    ensures var t := Poll(s, now);
            && (FinishedIn(t.sent, p) == 0 ==> Tracks(t.next, task, due) && PollsNeeded(t.next) <= PollsNeeded(s))
            && (now < due ==> FinishedIn(t.sent, p) == 0)
            && (now >= due && PollsNeeded(s) == 1 ==> FinishedIn(t.sent, p) == 1)
  {
    PollLedger(s, now, p);
    var a := Advance(s);
    assert Tracks(a, task, due);
    if Computing(s) {
      var w := s.running.value.work;
      assert Computing(a) ==> a.running.value.work.cursor == w.cursor + COMPUTE_SLICE;
    }
  }

  lemma TurnTracks(h: Option<Handler>, s: State, e: Event, task: TaskId, due: u64, p: Which)
    requires Tracks(s, task, due) && Only(task, p)
    ensures var t := TurnOf(h, s, e);
            && (FinishedIn(t.sent, p) == 0 ==> Tracks(t.next, task, due) && PollsNeeded(t.next) <= PollsNeeded(s))
            && (e.now < due ==> FinishedIn(t.sent, p) == 0)
            && (Looks(e) && e.now >= due && PollsNeeded(s) == 1 ==> FinishedIn(t.sent, p) == 1)
  {
    hide Poll, PollsNeeded, Filter;
    if Looks(e) {
      var s0 := if e.Tick? then s else Told(s, e.message, e.now);
      assert s0.running == s.running;
      SameNeed(s0, s);
      PollTracks(s0, e.now, task, due, p);
    } else {
      var t := TurnOf(h, s, e);
      FilterShort(t.sent, Finishes(p));
    }
  }

  lemma SameNeed(s: State, t: State)
    requires s.running.Some? && s.running == t.running
    ensures PollsNeeded(s) == PollsNeeded(t)
  {
  }

  // How many looks at the clock a task takes: a range is counted in slices.
  function LooksFor(wire: WireSpec): nat {
    match wire
    case WirePrimes(start, end) => Max(1, (end - start + COMPUTE_SLICE - 1) / COMPUTE_SLICE)
    case _ => 1
  }

  // An assignment the worker can begin.
  ghost predicate CanBegin(h: Option<Handler>, s: State, wire: WireSpec) {
    s.id.Some? && s.running.None? && s.pendingFailures == 0 && Answer(h, s.id.value, wire).Some?
  }

  function DueAt(now: u64, wait: u64, delay: u64): u64 { Min(now + wait + delay, U64_MAX) }

  lemma BegunTracks(h: Option<Handler>, s: State, task: TaskId, wire: WireSpec, now: u64)
    requires CanBegin(h, s, wire)
    ensures StartWork(h, s.id.value, wire).Some?
    ensures var (wait, work) := StartWork(h, s.id.value, wire).value; var begun := Begun(s, task, wait, work, now);
            && Tracks(begun, task, DueAt(now, WaitFor(h, s.id.value, wire), s.extraDelay))
            && PollsNeeded(begun) == LooksFor(wire)
  {
  }

  lemma AcceptTracks(h: Option<Handler>, s: State, task: TaskId, wire: WireSpec, now: u64, p: Which)
    requires CanBegin(h, s, wire) && Only(task, p)
    ensures var t := Accept(h, s, task, wire, now); var due := DueAt(now, WaitFor(h, s.id.value, wire), s.extraDelay);
            && (FinishedIn(t.sent, p) == 0 ==> Tracks(t.next, task, due) && PollsNeeded(t.next) <= LooksFor(wire))
            && (now < due ==> FinishedIn(t.sent, p) == 0)
  {
    BegunTracks(h, s, task, wire, now);
    hide Poll, StartWork, PollsNeeded, Filter, WaitFor, LooksFor;
    var (wait, work) := StartWork(h, s.id.value, wire).value;
    var begun := Begun(s, task, wait, work, now);
    var due := DueAt(now, WaitFor(h, s.id.value, wire), s.extraDelay);
    PollTracks(begun, now, task, due, p);
    FilterConcat([TaskStarted(task)], Poll(begun, now).sent, Finishes(p));
    FilterShort([TaskStarted(task)], Finishes(p));
  }

  lemma {:induction false} HeldWhileUnfinished(h: Option<Handler>, s: State, es: seq<Event>,
                                               task: TaskId, due: u64, p: Which)
    requires Tracks(s, task, due) && Only(task, p) && FinishedIn(RunSent(h, s, es), p) == 0
    ensures Tracks(RunState(h, s, es), task, due) && PollsNeeded(RunState(h, s, es)) <= PollsNeeded(s)
    decreases |es|
  {
    hide TurnOf, PollsNeeded, Filter, Tracks;
    if es != [] {
      var t := TurnOf(h, s, es[0]);
      FilterConcat(t.sent, RunSent(h, t.next, es[1..]), Finishes(p));
      TurnTracks(h, s, es[0], task, due, p);
      HeldWhileUnfinished(h, t.next, es[1..], task, due, p);
    }
  }

  // The run that starts with an assignment, after whatever came before.
  ghost function SentSince(h: Option<Handler>, id: Option<NodeId>, interval: u64, before: seq<Event>,
                           since: seq<Event>): seq<NodeMessage> {
    RunSent(h, RunState(h, Fresh(id, interval), before), since)
  }

  lemma SinceAssigned(h: Option<Handler>, s: State, task: TaskId, wire: WireSpec, at: u64, es: seq<Event>, p: Which)
    requires CanBegin(h, s, wire) && Only(task, p)
    requires FinishedIn(RunSent(h, s, [Deliver(Assign(task, wire), at)] + es), p) == 0
    ensures var t := RunState(h, s, [Deliver(Assign(task, wire), at)] + es);
            Tracks(t, task, DueAt(at, WaitFor(h, s.id.value, wire), s.extraDelay)) && PollsNeeded(t) <= LooksFor(wire)
  {
    hide TurnOf, Answer, PollsNeeded, Filter, WaitFor, LooksFor, Tracks;
    var e := Deliver(Assign(task, wire), at);
    var t := TurnOf(h, s, e);
    assert ([e] + es)[1..] == es;
    FilterConcat(t.sent, RunSent(h, t.next, es), Finishes(p));
    AssignIsAccept(h, s, task, wire, at);
    AcceptTracks(h, s, task, wire, at, p);
    HeldWhileUnfinished(h, t.next, es, task, DueAt(at, WaitFor(h, s.id.value, wire), s.extraDelay), p);
  }

  lemma AssignIsAccept(h: Option<Handler>, s: State, task: TaskId, wire: WireSpec, at: u64)
    ensures TurnOf(h, s, Deliver(Assign(task, wire), at)) == Accept(h, s, task, wire, at)
  {
  }

  // A task begun at `at` is not reported by any turn whose clock is before `at`, its wait and the last delay the worker
  // was told, all added up; neither by the one that begins it, nor by any after it while it is unreported.
  lemma NotBeforeItsTime(h: Option<Handler>, id: Option<NodeId>, interval: u64, before: seq<Event>,
                         task: TaskId, wire: WireSpec, at: u64, es: seq<Event>, e: Event, p: Which)
    requires CanBegin(h, RunState(h, Fresh(id, interval), before), wire) && Only(task, p)
    ensures LastName(id, before).Some?
    ensures var due := DueAt(at, WaitFor(h, LastName(id, before).value, wire), LastDelay(before));
            var begin := Deliver(Assign(task, wire), at);
            && (at < due ==> FinishedIn(SentSince(h, id, interval, before, [begin]), p) == 0)
            && (FinishedIn(SentSince(h, id, interval, before, [begin] + es), p) == 0 && e.now < due ==>
                  FinishedIn(SentSince(h, id, interval, before, [begin] + es + [e]), p) == 0)
  {
    ItIsAsTold(h, id, interval, before);
    var s, begin := RunState(h, Fresh(id, interval), before), Deliver(Assign(task, wire), at);
    var due := DueAt(at, WaitFor(h, s.id.value, wire), s.extraDelay);
    hide TurnOf, RunState, PollsNeeded, Filter, WaitFor, LooksFor;
    AssignIsAccept(h, s, task, wire, at);
    AcceptTracks(h, s, task, wire, at, p);
    assert [begin][1..] == [];
    assert RunSent(h, s, [begin]) == TurnOf(h, s, begin).sent + [] == TurnOf(h, s, begin).sent;
    if FinishedIn(RunSent(h, s, [begin] + es), p) == 0 && e.now < due {
      SinceAssigned(h, s, task, wire, at, es, p);
      var t := RunState(h, s, [begin] + es);
      RunSnoc(h, s, [begin] + es, e);
      TurnTracks(h, t, e, task, due, p);
      FilterConcat(RunSent(h, s, [begin] + es), TurnOf(h, t, e).sent, Finishes(p));
    }
  }

  // From that instant on it is: the first time the worker looks at the clock, unless it is a range that still takes
  // more looks; and a range by as many polls as it has slices.
  lemma ReportedInTime(h: Option<Handler>, id: Option<NodeId>, interval: u64, before: seq<Event>,
                       task: TaskId, wire: WireSpec, at: u64, es: seq<Event>, e: Event, times: seq<u64>, p: Which)
    requires CanBegin(h, RunState(h, Fresh(id, interval), before), wire) && Only(task, p)
    requires FinishedIn(SentSince(h, id, interval, before, [Deliver(Assign(task, wire), at)] + es), p) == 0
    ensures LastName(id, before).Some?
    ensures var due := DueAt(at, WaitFor(h, LastName(id, before).value, wire), LastDelay(before));
            var begin := Deliver(Assign(task, wire), at);
            && (Looks(e) && e.now >= due && LooksFor(wire) == 1 ==>
                  FinishedIn(SentSince(h, id, interval, before, [begin] + es + [e]), p) == 1)
            && (|times| >= LooksFor(wire) && (forall i :: 0 <= i < |times| ==> due <= times[i]) ==>
                  FinishedIn(SentSince(h, id, interval, before, [begin] + es + Ticks(times)), p) == 1)
  {
    ItIsAsTold(h, id, interval, before);
    var s, begin := RunState(h, Fresh(id, interval), before), Deliver(Assign(task, wire), at);
    var due := DueAt(at, WaitFor(h, s.id.value, wire), s.extraDelay);
    hide TurnOf, RunState, PollsNeeded, Filter, WaitFor, LooksFor;
    SinceAssigned(h, s, task, wire, at, es, p);
    var t := RunState(h, s, [begin] + es);
    if Looks(e) && e.now >= due && LooksFor(wire) == 1 {
      RunSnoc(h, s, [begin] + es, e);
      TurnTracks(h, t, e, task, due, p);
      FilterConcat(RunSent(h, s, [begin] + es), TurnOf(h, t, e).sent, Finishes(p));
    }
    if |times| >= LooksFor(wire) && forall i :: 0 <= i < |times| ==> due <= times[i] {
      RunConcat(h, s, [begin] + es, Ticks(times));
      EnoughPollsReport(h, t, times, p);
      FilterConcat(RunSent(h, s, [begin] + es), RunSent(h, t, Ticks(times)), Finishes(p));
    }
  }

  // ---------- heartbeats ----------

  // When the next heartbeat is due: at once after a welcome, and an interval after the last one sent.
  ghost function BeatDueFrom(h: Option<Handler>, id: Option<NodeId>, interval: u64, es: seq<Event>): u64 {
    if es == [] then 0
    else
      var front, e := es[..|es| - 1], es[|es| - 1];
      var t := TurnOf(h, RunState(h, Fresh(id, interval), front), e);
      if BeatTimes(t.sent) != [] then SatAdd(e.now, Max(LastInterval(interval, es), 1))
      else if e.Deliver? && e.message.Welcome? then e.now
      else BeatDueFrom(h, id, interval, front)
  }

  lemma TurnSetsTheBeat(h: Option<Handler>, s: State, e: Event)
    ensures var t := TurnOf(h, s, e);
            t.next.nextHeartbeat
            == if BeatTimes(t.sent) != [] then SatAdd(e.now, Max(t.next.interval, 1))
               else if e.Deliver? && e.message.Welcome? then e.now
               else s.nextHeartbeat
  {
    hide Poll, Accept;
    if e.Deliver? && e.message.Welcome? {
      PollBeat(Told(s, e.message, e.now), e.now);
    } else {
      TurnBeat(h, s, e);
    }
  }

  lemma {:induction false} BeatIsDue(h: Option<Handler>, id: Option<NodeId>, interval: u64, es: seq<Event>)
    ensures RunState(h, Fresh(id, interval), es).nextHeartbeat == BeatDueFrom(h, id, interval, es)
  {
    if es != [] {
      hide TurnOf, RunState, Filter, LastInterval;
      var front, e := es[..|es| - 1], es[|es| - 1];
      assert es == front + [e];
      BeatIsDue(h, id, interval, front);
      ItIsAsTold(h, id, interval, es);
      RunSnoc(h, Fresh(id, interval), front, e);
      TurnSetsTheBeat(h, RunState(h, Fresh(id, interval), front), e);
    }
  }

  // What one look at the clock says of heartbeats.
  lemma LookBeats(h: Option<Handler>, s: State, e: Event)
    requires Looks(e) && Named(s)
    ensures var t := TurnOf(h, s, e); var n := t.next;
            var due := if e.Deliver? && e.message.Welcome? then e.now else s.nextHeartbeat;
            Filter(t.sent, IsBeat)
            == if n.joined && !n.paused && e.now >= due && n.id.Some?
               then [Heartbeat(n.id.value, Load(n), e.now)] else []
  {
    hide Filter;
    var s0 := if e.Tick? then s else Told(s, e.message, e.now);
    PollSends(s0, e.now, IsBeat);
  }

  ghost predicate All(p: Which) { forall id :: p(id) }

  // A look at the clock sends a heartbeat exactly when the worker has been welcomed, was not last told to pause, and
  // the next one is due; and the heartbeat bears its name and the time, and tells whether it holds a task: whether
  // more assignments were handled than finished or absorbed.
  lemma BeatsExactlyWhenDue(h: Option<Handler>, id: Option<NodeId>, interval: u64, es: seq<Event>, e: Event, p: Which)
    requires Looks(e) && All(p)
    ensures var s0 := Fresh(id, interval); var all := es + [e];
            var beats := Filter(TurnOf(h, RunState(h, s0, es), e).sent, IsBeat);
            var due := if e.Deliver? && e.message.Welcome? then e.now else BeatDueFrom(h, id, interval, es);
            var held := HandledIn(h, s0, all, p) - AbsorbedIn(h, s0, all, p) - FinishedIn(RunSent(h, s0, all), p);
            && 0 <= held <= 1
            && (if Welcomed(all) && !LastPause(all) && e.now >= due
                then LastName(id, all).Some?
                     && beats == [Heartbeat(LastName(id, all).value, NodeLoad(100 * held, held, 0, false), e.now)]
                else beats == [])
  {
    hide TurnOf, RunState, RunSent, Filter, Welcomed, LastPause, LastName, LastInterval, LastDelay, HandledIn,
         AbsorbedIn, BeatDueFrom, FinishedIn;
    var s0 := Fresh(id, interval);
    RunIsNamed(h, s0, es);
    RunIsNamed(h, s0, es + [e]);
    var s := RunState(h, s0, es);
    RunSnoc(h, s0, es, e);
    ItIsAsTold(h, id, interval, es + [e]);
    BeatIsDue(h, id, interval, es);
    LookBeats(h, s, e);
    RunLedger(h, s0, es + [e], p);
  }

  // ---------- injected failures come first ----------

  // A task that an identified, idle worker is handed fails at once as long as more failures were asked for than
  // reported, and not by injection otherwise.
  lemma InjectionsAreDue(h: Option<Handler>, id: Option<NodeId>, interval: u64, es: seq<Event>,
                         task: TaskId, wire: WireSpec, at: u64)
    requires var s := RunState(h, Fresh(id, interval), es); s.id.Some? && s.running.None?
    requires OrderedIn(es) <= U32_MAX
    ensures var s := RunState(h, Fresh(id, interval), es);
            var sent := TurnOf(h, s, Deliver(Assign(task, wire), at)).sent;
            if OrderedIn(es) > InjectedIn(RunSent(h, Fresh(id, interval), es))
            then sent == [TaskStarted(task), TaskFinished(task, Failed(Injected, INJECTED))]
            else InjectedIn(sent) == 0
  {
    var s := RunState(h, Fresh(id, interval), es);
    InjectionsAreSpent(h, Fresh(id, interval), es);
    AssignIsAccept(h, s, task, wire, at);
    AcceptSpends(h, s, task, wire, at);
    hide TurnOf, RunState, RunSent, Poll, StartWork, CannotRun, Filter, OrderedIn;
  }

  // ---------- what the caller is told to do ----------

  // Looking at the clock, the worker asks to be woken when there will be something to do, and not before; if it asks
  // for nothing, no poll does anything until it hears something.
  lemma WakeIsHandedOut(h: Option<Handler>, s: State, e: Event, t: u64)
    requires Looks(e) && Named(s)
    ensures var turn := TurnOf(h, s, e); var acts := Actions(turn);
            && (forall w :: WakeIn(w) in acts ==>
                  && e.now + w <= U64_MAX
                  && (e.now <= t < e.now + w ==> Poll(turn.next, t).next == turn.next && Poll(turn.next, t).sent == [])
                  && (Poll(turn.next, e.now + w).sent != [] || Computing(turn.next)))
            && ((forall w :: WakeIn(w) !in acts) ==>
                  Poll(turn.next, t).next == turn.next && Poll(turn.next, t).sent == [])
  {
    TurnKeepsNamed(h, s, e);
    var turn := TurnOf(h, s, e);
    LookWakes(h, s, e);
    hide TurnOf, Poll, NextWake, Sends, Named;
    if turn.wake.Some? {
      assert WakeIn(turn.wake.value) in Actions(turn);
      PollAtWakeActs(turn.next, e.now);
      if e.now <= t < e.now + turn.wake.value {
        EarlyPollIsIdle(turn.next, e.now, t);
      }
    } else {
      EarlyPollIsIdle(turn.next, e.now, t);
    }
  }

  lemma LookWakes(h: Option<Handler>, s: State, e: Event)
    requires Looks(e)
    ensures var turn := TurnOf(h, s, e); turn.wake == NextWake(turn.next, e.now) && !turn.bye
  {
  }

  // It hangs up exactly when it is rejected or dismissed, and then says and changes nothing.
  lemma HangsUpWhenTold(h: Option<Handler>, s: State, e: Event)
    ensures var turn := TurnOf(h, s, e); var told := e.Deliver? && (e.message.Rejected? || e.message.Shutdown?);
            && (Disconnect in Actions(turn) <==> told)
            && (told ==> Actions(turn) == [Disconnect] && turn.next == s)
  {
    hide Poll, StartWork, CannotRun;
    PollStaysOn();
  }

  lemma PollStaysOn()
    ensures forall s, now :: !Poll(s, now).bye
  {
  }

  // A result is reported ahead of a heartbeat.
  lemma ResultsPrecedeBeats(h: Option<Handler>, s: State, e: Event)
    ensures var sent := TurnOf(h, s, e).sent;
            forall i, j :: 0 <= i < j < |sent| && sent[i].Heartbeat? ==>
              !sent[j].TaskFinished? && !sent[j].TaskProduced?
  {
    hide Poll, StartWork, CannotRun;
    if Looks(e) {
      PollOrders(if e.Tick? then s else Told(s, e.message, e.now), e.now);
    } else if e.message.Assign? && s.id.Some? && StartWork(h, s.id.value, e.message.spec).Some? {
      var (wait, work) := StartWork(h, s.id.value, e.message.spec).value;
      PollOrders(Begun(s, e.message.task, wait, work, e.now), e.now);
    }
  }

  lemma PollOrders(s: State, now: u64)
    ensures var sent := Poll(s, now).sent;
            forall i, j :: 0 <= i < j < |sent| && sent[i].Heartbeat? ==>
              !sent[j].TaskFinished? && !sent[j].TaskProduced?
  {
  }

  // The frames among the actions are those sent, in order, ahead of everything else.
  lemma ActionsCarryTheFrames(t: Turn)
    ensures |t.sent| <= |Actions(t)|
    ensures forall i :: 0 <= i < |Actions(t)| ==>
              if i < |t.sent| then Actions(t)[i] == Send(t.sent[i]) else !Actions(t)[i].Send?
  {
  }

  // ---------- damage ----------

  // An input that arrives with one byte changed is not computed from: the task is refused.
  lemma DamagedInputIsRefused(h: Option<Handler>, s: State, task: TaskId, now: u64, version: u64, algorithm: u32,
                              partition: u32, sent: Bytes, i: nat, x: byte)
    requires s.id.Some? && s.running.None? && s.pendingFailures == 0 && i < |sent| && x != sent[i]
    ensures var wire := WireAnalysis(version, algorithm, partition, NewArtifact(sent).(bytes := sent[i := x]));
            var t := TurnOf(h, s, Deliver(Assign(task, wire), now));
            t.next == s && t.sent == [TaskStarted(task), TaskFinished(task, Failed(ExecutionError, CannotRun(wire)))]
  {
    hide DigestOf, CannotRun, Poll;
    DamageIsCaught(sent, i, x);
  }

  // What the worker says of a result too big to send, and the coordinator of an input.
  lemma SizesAreRead(size: nat)
    ensures Numbers(OversizeDetail(size)) == [size, MAX_ARTIFACT]
  {
    TwoNumbersAreRead("this result is ", size, " bytes and a frame carries at most ", MAX_ARTIFACT);
  }
}
