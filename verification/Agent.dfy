/** The worker's side of the protocol: a state machine fed messages and time. */
module Agent {
  import opened Base
  import opened Text
  import opened Digest
  import opened Primes
  import opened Wire

  const COMPUTE_SLICE: u64 := 8_000
  const PROTOCOL_VERSION: u16 := 4

  datatype Action = Send(message: NodeMessage) | WakeIn(ms: u64) | Disconnect

  // The state of the task this worker is holding.
  datatype Work =
    | Ready(output: string)
    | Produced(output: string, artifact: Bytes)
    | Counting(node: NodeId, start: u64, end: u64, cursor: u64, found: nat)

  datatype Running = Running(id: TaskId, readyAt: u64, work: Work)

  datatype State = State(
    id: Option<NodeId>,
    interval: u64,
    nextHeartbeat: u64,
    running: Option<Running>,
    paused: bool,
    pendingFailures: u32,
    extraDelay: u64,
    freeMemory: u64,
    joined: bool)

  function Fresh(id: Option<NodeId>, interval: u64): State {
    State(id, interval, 0, None, false, 0, 0, 0, false)
  }

  // What one call does: the state it leaves and the frames and wish it hands back.
  datatype Turn = Turn(next: State, sent: seq<NodeMessage>, wake: Option<u64>, bye: bool)

  function Sends(sent: seq<NodeMessage>): (a: seq<Action>)
    ensures |a| == |sent| && forall i :: 0 <= i < |sent| ==> a[i] == Send(sent[i])
  {
    seq(|sent|, i requires 0 <= i < |sent| => Send(sent[i]))
  }

  lemma SendsConcat(a: seq<NodeMessage>, b: seq<NodeMessage>)
    ensures Sends(a + b) == Sends(a) + Sends(b)
  {
  }

  lemma SendsFew(a: NodeMessage, b: NodeMessage)
    ensures Sends([]) == [] && Sends([a]) == [Send(a)] && Sends([a, b]) == [Send(a), Send(b)]
  {
  }

  // The action list of a turn, in the order the caller sees it.
  function Actions(t: Turn): seq<Action> {
    Sends(t.sent) + (if t.wake.Some? then [WakeIn(t.wake.value)] else []) + (if t.bye then [Disconnect] else [])
  }

  function Quiet(s: State): Turn { Turn(s, [], None, false) }

  // ---------- poll ----------

  predicate Computing(s: State) { s.running.Some? && s.running.value.work.Counting? }

  // One slice of a computation.
  ghost function AdvanceWork(w: Work): Work
    requires w.Counting?
  {
    var stop := Min(SatAdd(w.cursor, COMPUTE_SLICE), w.end);
    var found := w.found + PrimeCount(w.cursor, stop);
    if stop >= w.end then Ready(PrimesOutput(w.node, w.start, w.end, found))
    else w.(cursor := stop, found := found)
  }

  ghost function Advance(s: State): State {
    if Computing(s) then
      s.(running := Some(s.running.value.(work := AdvanceWork(s.running.value.work))))
    else s
  }

  // The next slice holds a prime on which the u64 trial division overflows. What the worker does from there is
  // not modelled.
  ghost predicate Overflows(s: State) {
    Computing(s)
    && (var w := s.running.value.work;
        PrimeCount(Max(w.cursor, OVERFLOW_FLOOR), Min(SatAdd(w.cursor, COMPUTE_SLICE), w.end)) != 0)
  }

  // Known answer, and its time has come.
  predicate Due(s: State, now: u64) {
    s.running.Some? && !s.running.value.work.Counting? && now >= s.running.value.readyAt
  }

  function OversizeDetail(size: nat): string {
    "this result is " + Decimal(size) + " bytes and a frame carries at most " + Decimal(MAX_ARTIFACT)
  }

  ghost function ReportOf(r: Running): seq<NodeMessage>
    requires !r.work.Counting?
  {
    match r.work
    case Ready(output) => [TaskFinished(r.id, Completed(output))]
    case Produced(output, artifact) =>
      if |artifact| > MAX_ARTIFACT then
        [TaskFinished(r.id, Failed(ExecutionError, OversizeDetail(|artifact|)))]
      else
        [TaskProduced(r.id, NewArtifact(artifact)), TaskFinished(r.id, Completed(output))]
  }

  predicate BeatDue(s: State, now: u64) {
    s.id.Some? && s.joined && !s.paused && now >= s.nextHeartbeat
  }

  function Load(s: State): NodeLoad {
    NodeLoad(if s.running.Some? then 100 else 0, if s.running.Some? then 1 else 0, s.freeMemory, false)
  }

  function Since(at: u64, now: u64): u64 { SatSub(at, now) }

  function NextWake(s: State, now: u64): Option<u64> {
    var beat := if s.joined && !s.paused then Some(Since(s.nextHeartbeat, now)) else None;
    var task := if s.running.None? then None
                else if s.running.value.work.Counting? then Some(0)
                else Some(Since(s.running.value.readyAt, now));
    if beat.None? then task
    else if task.None? then beat
    else Some(Min(beat.value, task.value))
  }

  function Settle(s: State, now: u64): State {
    if Due(s, now) then s.(running := None) else s
  }

  function Beaten(s: State, now: u64): State {
    if BeatDue(s, now) then s.(nextHeartbeat := SatAdd(now, Max(s.interval, 1))) else s
  }

  ghost function Poll(s: State, now: u64): Turn {
    var a := Advance(s);
    var b := Settle(a, now);
    var c := Beaten(b, now);
    Turn(c,
         (if Due(a, now) then ReportOf(a.running.value) else [])
         + (if BeatDue(b, now) then [Heartbeat(b.id.value, Load(b), now)] else []),
         NextWake(c, now),
         false)
  }

  // ---------- handle ----------

  // How an assignment begins: the wait and the work, or nothing when nobody here can run it.
  ghost function StartWork(handler: Option<Handler>, node: NodeId, wire: WireSpec): Option<(u64, Work)> {
    match wire
    case WirePrimes(start, end) => Some((0, Counting(node, start, end, start, 0)))
    case _ =>
      match Answer(handler, node, wire)
      case Some(Done(output)) => Some((0, Ready(output)))
      case Some(Wait(millis, output)) => Some((millis, Ready(output)))
      case Some(Produce(output, artifact)) => Some((0, Produced(output, artifact)))
      case None => None
  }

  function Refusal(task: TaskId, reason: FailureReason, detail: string): NodeMessage {
    TaskFinished(task, Failed(reason, detail))
  }

  const BUSY := "node was already busy"
  const INJECTED := "failure injected on this node"

  function CannotRun(wire: WireSpec): string { "this worker cannot run " + Describe(FromWire(wire)) }

  ghost function Accept(handler: Option<Handler>, s: State, task: TaskId, wire: WireSpec, now: u64): Turn {
    if s.id.None? then Quiet(s)
    else if s.running.Some? then
      if s.running.value.id == task then Quiet(s)
      else Quiet(s).(sent := [Refusal(task, ExecutionError, BUSY)])
    else if s.pendingFailures > 0 then
      Quiet(s.(pendingFailures := s.pendingFailures - 1)).(
        sent := [TaskStarted(task), Refusal(task, Injected, INJECTED)])
    else
      match StartWork(handler, s.id.value, wire)
      case None =>
        Quiet(s).(sent := [TaskStarted(task), Refusal(task, ExecutionError, CannotRun(wire))])
      case Some((wait, work)) =>
        var t := Poll(Begun(s, task, wait, work, now), now);
        t.(sent := [TaskStarted(task)] + t.sent)
  }

  function Begun(s: State, task: TaskId, wait: u64, work: Work, now: u64): State {
    s.(running := Some(Running(task, SatAdd(now, SatAdd(wait, s.extraDelay)), work)))
  }

  // What the welcome and the controls set, before the poll that follows each of them.
  function Told(s: State, message: SupervisorMessage, now: u64): State {
    match message
    case Welcome(_, node, interval) =>
      s.(id := Some(node), joined := true, interval := if interval > 0 then interval else s.interval,
         nextHeartbeat := now)
    case PauseHeartbeat(paused) => s.(paused := paused)
    case InjectFailures(count) => s.(pendingFailures := SatAdd32(s.pendingFailures, count))
    case SetDelay(ms) => s.(extraDelay := ms)
    case _ => s
  }

  ghost function Handle(handler: Option<Handler>, s: State, message: SupervisorMessage, now: u64): Turn {
    match message
    case Rejected => Quiet(s).(bye := true)
    case Shutdown => Quiet(s).(bye := true)
    case Assign(task, wire) => Accept(handler, s, task, wire, now)
    case _ => Poll(Told(s, message, now), now)
  }

  // ---------- turns that overflow ----------

  ghost predicate AcceptOverflows(handler: Option<Handler>, s: State, task: TaskId, wire: WireSpec, now: u64) {
    s.id.Some? && s.running.None? && s.pendingFailures == 0
    && (match StartWork(handler, s.id.value, wire)
        case None => false
        case Some((wait, work)) => Overflows(Begun(s, task, wait, work, now)))
  }

  ghost predicate HandleOverflows(handler: Option<Handler>, s: State, message: SupervisorMessage, now: u64) {
    match message
    case Rejected => false
    case Shutdown => false
    case Assign(task, wire) => AcceptOverflows(handler, s, task, wire, now)
    case _ => Overflows(s)
  }

  // ---------- the object ----------

  // Each method that may count answers `None` exactly when the count overflows.
  class AgentObject {
    var id: Option<NodeId>
    const capabilities: Capabilities
    const token: Option<string>
    const handler: Option<Handler>
    var interval: u64
    var nextHeartbeat: u64
    var running: Option<Running>
    var paused: bool
    var pendingFailures: u32
    var extraDelay: u64
    var freeMemory: u64
    var joined: bool

    ghost function Abstract(): State
      reads this
    {
      State(id, interval, nextHeartbeat, running, paused, pendingFailures, extraDelay, freeMemory, joined)
    }

    constructor (id: Option<NodeId>, capabilities: Capabilities, interval: u64,
                 token: Option<string>, handler: Option<Handler>)
      ensures Abstract() == Fresh(id, interval)
      ensures this.capabilities == capabilities && this.token == token && this.handler == handler
    {
      this.id := id;
      this.capabilities := capabilities;
      this.token := token;
      this.handler := handler;
      this.interval := interval;
      nextHeartbeat := 0;
      running := None;
      paused := false;
      pendingFailures := 0;
      extraDelay := 0;
      freeMemory := 0;
      joined := false;
    }

    method Step() returns (ok: bool)
      modifies this`running
      ensures ok <==> !Overflows(old(Abstract()))
      ensures ok ==> Abstract() == Advance(old(Abstract()))
    {
      if running.Some? && running.value.work.Counting? {
        var w := running.value.work;
        var stop := Min(SatAdd(w.cursor, COMPUTE_SLICE), w.end);
        var more := CountPrimes(w.cursor, stop);
        if more.None? {
          return false;
        }
        var found := w.found + more.value;
        var work := if stop >= w.end then Ready(PrimesOutput(w.node, w.start, w.end, found))
                    else Counting(w.node, w.start, w.end, stop, found);
        running := Some(Running(running.value.id, running.value.readyAt, work));
      }
      return true;
    }

    method Report(now: u64) returns (actions: seq<Action>)
      modifies this`running
      ensures Abstract() == Settle(old(Abstract()), now)
      ensures actions == Sends(if Due(old(Abstract()), now) then ReportOf(old(running).value) else [])
    {
      actions := [];
      if running.Some? && !running.value.work.Counting? && now >= running.value.readyAt {
        var r := running.value;
        running := None;
        var outcome;
        match r.work {
          case Ready(output) =>
            outcome := Completed(output);
          case Produced(output, artifact) =>
            if |artifact| > MAX_ARTIFACT {
              outcome := Failed(ExecutionError, OversizeDetail(|artifact|));
            } else {
              var digest := ComputeDigest(artifact);
              actions := [Send(TaskProduced(r.id, Artifact(artifact, digest)))];
              outcome := Completed(output);
            }
        }
        actions := actions + [Send(TaskFinished(r.id, outcome))];
      }
    }

    method DoPoll(now: u64) returns (r: Option<seq<Action>>)
      modifies this
      ensures r.None? <==> Overflows(old(Abstract()))
      ensures r.Some? ==>
                Abstract() == Poll(old(Abstract()), now).next && r.value == Actions(Poll(old(Abstract()), now))
    {
      ghost var s := Abstract();
      var ok := Step();
      if !ok {
        return None;
      }
      var actions := Report(now);
      if id.Some? && joined && !paused && now >= nextHeartbeat {
        nextHeartbeat := SatAdd(now, Max(interval, 1));
        var load := NodeLoad(if running.Some? then 100 else 0, if running.Some? then 1 else 0, freeMemory, false);
        actions := actions + [Send(Heartbeat(id.value, load, now))];
      }
      assert actions == Sends(Poll(s, now).sent);
      var wake := NextWakeMs(now);
      if wake.Some? {
        actions := actions + [WakeIn(wake.value)];
      }
      return Some(actions);
    }

    // Read-only, so asking when to wake discards nothing.
    method NextWakeMs(now: u64) returns (wake: Option<u64>)
      ensures wake == NextWake(Abstract(), now)
    {
      var beat := None;
      if joined && !paused {
        beat := Some(SatSub(nextHeartbeat, now));
      }
      var task := None;
      if running.Some? {
        task := if running.value.work.Counting? then Some(0) else Some(SatSub(running.value.readyAt, now));
      }
      wake := if beat.None? then task
              else if task.None? then beat
              else Some(Min(beat.value, task.value));
    }

    method DoAccept(task: TaskId, wire: WireSpec, now: u64) returns (r: Option<seq<Action>>)
      modifies this
      ensures r.None? <==> AcceptOverflows(handler, old(Abstract()), task, wire, now)
      ensures r.Some? ==>
                Abstract() == Accept(handler, old(Abstract()), task, wire, now).next
                && r.value == Actions(Accept(handler, old(Abstract()), task, wire, now))
    {
      hide Poll, StartWork, CannotRun, Overflows, Sends;
      if id.None? {
        return Some([]);
      }
      if running.Some? {
        if running.value.id == task {
          return Some([]);
        }
        var busy := Refusal(task, ExecutionError, BUSY);
        SendsFew(busy, busy);
        return Some([Send(busy)]);
      }
      var first := TaskStarted(task);
      if pendingFailures > 0 {
        pendingFailures := pendingFailures - 1;
        var refusal := Refusal(task, Injected, INJECTED);
        SendsFew(first, refusal);
        return Some([Send(first), Send(refusal)]);
      }
      var started := Begin(id.value, wire);
      if started.None? {
        var refusal := Refusal(task, ExecutionError, CannotRun(wire));
        SendsFew(first, refusal);
        return Some([Send(first), Send(refusal)]);
      }
      var (wait, work) := started.value;
      r := Launch(task, wait, work, now);
    }

    method Launch(task: TaskId, wait: u64, work: Work, now: u64) returns (r: Option<seq<Action>>)
      modifies this
      ensures var begun := Begun(old(Abstract()), task, wait, work, now);
              (r.None? <==> Overflows(begun))
              && (r.Some? ==>
                    Abstract() == Poll(begun, now).next
                    && r.value == Actions(Poll(begun, now).(sent := [TaskStarted(task)] + Poll(begun, now).sent)))
    {
      hide Poll, Overflows, Sends;
      running := Some(Running(task, SatAdd(now, SatAdd(wait, extraDelay)), work));
      ghost var polled := Poll(Abstract(), now);
      var rest := DoPoll(now);
      if rest.None? {
        return None;
      }
      var first := TaskStarted(task);
      SendsFew(first, first);
      SendsConcat([first], polled.sent);
      return Some([Send(first)] + rest.value);
    }

    method Begin(node: NodeId, wire: WireSpec) returns (r: Option<(u64, Work)>)
      ensures r == StartWork(handler, node, wire)
    {
      match wire {
        case WirePrimes(start, end) => r := Some((0, Counting(node, start, end, start, 0)));
        case WireSleep(millis) => r := Some((millis, Ready(SleepOutput(node, millis))));
        case WireAnalysis(_, _, _, input) =>
          var digest := ComputeDigest(input.bytes);
          if digest != input.digest || handler.None? {
            return None;
          }
          match handler.value(node, FromWire(wire), input.bytes) {
            case Some(Done(output)) => r := Some((0, Ready(output)));
            case Some(Wait(millis, output)) => r := Some((millis, Ready(output)));
            case Some(Produce(output, artifact)) => r := Some((0, Produced(output, artifact)));
            case None => r := None;
          }
      }
    }

    method DoHandle(message: SupervisorMessage, now: u64) returns (r: Option<seq<Action>>)
      modifies this
      ensures r.None? <==> HandleOverflows(handler, old(Abstract()), message, now)
      ensures r.Some? ==>
                Abstract() == Handle(handler, old(Abstract()), message, now).next
                && r.value == Actions(Handle(handler, old(Abstract()), message, now))
    {
      hide Poll, Accept, AcceptOverflows;
      match message {
        case Welcome(_, node, beat) =>
          id := Some(node);
          joined := true;
          if beat > 0 {
            interval := beat;
          }
          nextHeartbeat := now;
          r := DoPoll(now);
        case Rejected => r := Some([Disconnect]);
        case Shutdown => r := Some([Disconnect]);
        case PauseHeartbeat(value) =>
          paused := value;
          r := DoPoll(now);
        case InjectFailures(count) =>
          pendingFailures := SatAdd32(pendingFailures, count);
          r := DoPoll(now);
        case SetDelay(ms) =>
          extraDelay := ms;
          r := DoPoll(now);
        case Assign(task, wire) => r := DoAccept(task, wire, now);
      }
    }
  }
}
