/** A worker, its connection and the two FIFO streams between them, as one transition system. */
module Link {
  import opened Base
  import opened Jobs
  import opened Wire
  import opened Agent
  import opened AgentRuns
  import opened Connection

  datatype Config = Config(handler: Option<Handler>, node: NodeId, hasStore: bool)

  // The history: what the coordinator shipped, refused, forwarded, stored and dropped, and what the worker
  // bounced or absorbed on arrival.
  datatype Entry =
    | Shipped(task: Task, wire: WireSpec)
    | RefusedToShip(task: Task, why: Unshippable)
    | Bounced(id: TaskId)
    | Absorbed(id: TaskId)
    | Started(task: Task)
    | Stored(id: TaskId, spec: TaskSpec, bytes: Bytes)
    | Finished(task: Task, outcome: TaskOutcome)
    | Dropped(id: TaskId)
    | DroppedFinish(id: TaskId)

  datatype Link = Link(agent: State, down: seq<SupervisorMessage>, up: seq<NodeMessage>,
                       held: Option<Task>, log: seq<Entry>)

  datatype Step =
    | Inbox(message: NodeInbox, input: Option<Bytes>)
    | Arrive(now: u64)
    | Poll(now: u64)
    | Frame

  // A fresh anonymous worker whose `Hello` has just been answered.
  function Initial(cfg: Config, interval: u64, beat: u64): Link {
    Link(Fresh(None, interval), [Welcome(PROTOCOL_VERSION, cfg.node, beat)], [], None, [])
  }

  // Without an artifact store there is no input to be had; and a worker whose trial division overflows is out
  // of the model.
  ghost predicate Enabled(cfg: Config, l: Link, step: Step) {
    match step
    case Inbox(_, input) => cfg.hasStore || input.None?
    case Arrive(now) => l.down != [] && !TurnOverflows(cfg.handler, l.agent, Deliver(l.down[0], now))
    case Poll(now) => !TurnOverflows(cfg.handler, l.agent, Tick(now))
    case Frame => l.up != []
  }

  ghost function InboxEntries(message: NodeInbox, input: Option<Bytes>): seq<Entry> {
    if !message.InboxAssign? then []
    else
      match ToWire(message.task.spec, input)
      case Ship(wire) => [Shipped(message.task, wire)]
      case Refuse(why) => [RefusedToShip(message.task, why)]
  }

  function ArrivalEntries(s: State, message: SupervisorMessage): seq<Entry> {
    if message.Assign? && s.id.Some? && s.running.Some? then
      (if s.running.value.id == message.task then [Absorbed(message.task)] else [Bounced(message.task)])
    else []
  }

  function FrameEntries(message: NodeMessage, r: FrameResult): seq<Entry> {
    match message
    case TaskStarted(id) =>
      if r.report.Some? && r.report.value.StartedReport? then [Started(r.report.value.task)] else [Dropped(id)]
    case TaskProduced(id, _) =>
      if r.stored.Some? then [Stored(id, r.stored.value.0, r.stored.value.1)] else [Dropped(id)]
    case TaskFinished(id, _) =>
      if r.report.Some? && r.report.value.FinishedReport? then [Finished(r.report.value.task, r.report.value.outcome)]
      else [DroppedFinish(id)]
    case _ => []
  }

  ghost function Next(cfg: Config, l: Link, step: Step): Link
    requires Enabled(cfg, l, step)
  {
    match step
    case Inbox(message, input) =>
      var r := OnInbox(cfg.node, l.held, message, input);
      l.(held := r.held,
         down := l.down + (if r.out.Some? then [r.out.value] else []),
         log := l.log + InboxEntries(message, input))
    case Arrive(now) =>
      var t := TurnOf(cfg.handler, l.agent, Deliver(l.down[0], now));
      l.(agent := t.next, down := l.down[1..], up := l.up + t.sent, log := l.log + ArrivalEntries(l.agent, l.down[0]))
    case Poll(now) =>
      var t := TurnOf(cfg.handler, l.agent, Tick(now));
      l.(agent := t.next, up := l.up + t.sent)
    case Frame =>
      var r := OnFrame(cfg.node, cfg.hasStore, l.held, l.up[0]);
      l.(held := r.held, up := l.up[1..], log := l.log + FrameEntries(l.up[0], r))
  }

  // Some sequence of steps, each enabled where it is taken.
  ghost predicate IsRun(cfg: Config, l: Link, steps: seq<Step>)
    decreases |steps|
  {
    steps == [] || (Enabled(cfg, l, steps[0]) && IsRun(cfg, Next(cfg, l, steps[0]), steps[1..]))
  }

  ghost function After(cfg: Config, l: Link, steps: seq<Step>): Link
    requires IsRun(cfg, l, steps)
    decreases |steps|
  {
    if steps == [] then l else After(cfg, Next(cfg, l, steps[0]), steps[1..])
  }

  // The worker knows who it is, or the welcome that says so is next.
  predicate Introduced(cfg: Config, l: Link) {
    && (forall i :: 0 <= i < |l.down| && l.down[i].Welcome? ==> l.down[i].node == cfg.node)
    && (if l.agent.id.Some? then l.agent.id.value == cfg.node else l.down != [] && l.down[0].Welcome?)
    && (forall i :: 0 <= i < |l.down| ==> !l.down[i].Rejected? && !l.down[i].Shutdown?)
  }

  lemma IntroducedKeeps(cfg: Config, l: Link, step: Step)
    requires Introduced(cfg, l) && Enabled(cfg, l, step)
    ensures Introduced(cfg, Next(cfg, l, step))
  {
    hide Agent.StartWork, Describe, RefusalText;
    if step.Arrive? {
      var down := l.down[1..];
      assert forall i :: 0 <= i < |down| ==> down[i] == l.down[i + 1];
      TurnKeepsIdentity(cfg.handler, l.agent, Deliver(l.down[0], step.now));
    } else if step.Poll? {
      TurnKeepsIdentity(cfg.handler, l.agent, Tick(step.now));
    }
  }

  lemma TurnKeepsIdentity(h: Option<Handler>, s: State, e: Event)
    ensures TurnOf(h, s, e).next.id == if e.Deliver? && e.message.Welcome? then Some(e.message.node) else s.id
  {
    hide Agent.StartWork, Describe, Agent.Poll;
    if e.Tick? {
      PollKeepsIdentity(s, e.now);
    } else if e.message.Assign? {
      if s.id.Some? && s.running.None? && s.pendingFailures == 0
         && Agent.StartWork(h, s.id.value, e.message.spec).Some? {
        var (wait, work) := Agent.StartWork(h, s.id.value, e.message.spec).value;
        PollKeepsIdentity(Begun(s, e.message.task, wait, work, e.now), e.now);
      }
    } else {
      PollKeepsIdentity(Told(s, e.message, e.now), e.now);
    }
  }

  lemma PollKeepsIdentity(s: State, now: u64)
    ensures Agent.Poll(s, now).next.id == s.id
  {
  }
}
