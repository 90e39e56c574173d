/** The connection under the supervisor's discipline: it assigns only to an idle worker. */
module LinkIdle {
  import opened Base
  import opened Digest
  import opened Wire
  import Agent
  import opened AgentRuns
  import opened Connection
  import opened Link

  // ---------- the reference: the life of one task ----------

  // Where the conversation about the current task stands, read off the history alone.
  datatype Phase =
    | Idle
    | Sent(task: Task, wire: WireSpec)
    | Working(task: Task, wire: WireSpec)
    | Delivered(task: Task, output: string)
    | Broken

  // A task is shipped, started, delivered if it produced bytes, and finished; nothing else ever happens to it.
  // A completion carries the answer to what was shipped, and what it produced is already in the store; a failure
  // was injected, or the worker had no answer, or one too big to send.
  ghost function PhaseAfter(cfg: Config, phase: Phase, e: Entry): Phase {
    match (phase, e)
    case (Idle, Shipped(task, wire)) => if FromWire(wire) == task.spec then Sent(task, wire) else Broken
    case (Idle, RefusedToShip(_, _)) => Idle
    case (Sent(task, wire), Started(t)) => if t == task then Working(task, wire) else Broken
    case (Working(task, wire), Stored(id, spec, bytes)) =>
      var a := Answer(cfg.handler, cfg.node, wire);
      if id == task.id && spec == task.spec && a.Some? && a.value.Produce? && a.value.artifact == bytes
      then Delivered(task, a.value.output) else Broken
    case (Working(task, wire), Finished(t, Failed(reason, detail))) =>
      if t == task && Excused(cfg.handler, cfg.node, wire, reason, detail) then Idle else Broken
    case (Working(task, wire), Finished(t, Completed(output))) =>
      var a := Answer(cfg.handler, cfg.node, wire);
      if t == task && a.Some? && !a.value.Produce? && a.value.output == output then Idle else Broken
    case (Delivered(task, output), Finished(t, outcome)) =>
      if t == task && outcome == Completed(output) then Idle else Broken
    case _ => Broken
  }

  ghost function PhaseOf(cfg: Config, log: seq<Entry>): Phase {
    if log == [] then Idle else PhaseAfter(cfg, PhaseOf(cfg, log[..|log| - 1]), log[|log| - 1])
  }

  lemma PhaseAppend(cfg: Config, log: seq<Entry>, e: Entry)
    ensures PhaseOf(cfg, log + [e]) == PhaseAfter(cfg, PhaseOf(cfg, log), e)
  {
  }

  // ---------- what is in flight ----------

  predicate IsAssign(m: SupervisorMessage) { m.Assign? }

  function Assigns(down: seq<SupervisorMessage>): seq<SupervisorMessage> { Filter(down, IsAssign) }

  predicate IsTaskFrame(m: NodeMessage) { m.TaskStarted? || m.TaskProduced? || m.TaskFinished? }

  function TaskFrames(up: seq<NodeMessage>): seq<NodeMessage> { Filter(up, IsTaskFrame) }

  // How a task can end on the wire.
  ghost predicate IsEnding(cfg: Config, id: TaskId, wire: WireSpec, frames: seq<NodeMessage>) {
    var a := Answer(cfg.handler, cfg.node, wire);
    || (|frames| == 1 && frames[0].TaskFinished? && frames[0].task == id && frames[0].outcome.Failed?
        && Excused(cfg.handler, cfg.node, wire, frames[0].outcome.reason, frames[0].outcome.detail))
    || (a.Some? && !a.value.Produce? && frames == [TaskFinished(id, Completed(a.value.output))])
    || (a.Some? && a.value.Produce?
        && frames == [TaskProduced(id, NewArtifact(a.value.artifact)), TaskFinished(id, Completed(a.value.output))])
  }

  ghost predicate WorksOn(cfg: Config, s: Agent.State, id: TaskId, wire: WireSpec) {
    s.running.Some? && s.running.value.id == id && Toward(cfg.handler, cfg.node, wire, s.running.value.work)
  }

  // The worker is on the task, or its ending is on the wire, behind `lead`.
  ghost predicate InHand(cfg: Config, l: Link, id: TaskId, wire: WireSpec, lead: seq<NodeMessage>) {
    Assigns(l.down) == [] && (wire.WireAnalysis? ==> cfg.hasStore)
    && ((WorksOn(cfg, l.agent, id, wire) && TaskFrames(l.up) == lead)
        || (l.agent.running.None?
            && exists ending :: TaskFrames(l.up) == lead + ending && IsEnding(cfg, id, wire, ending)))
  }

  // The task held matches exactly what the worker is doing or what is in flight.
  ghost predicate Matched(cfg: Config, l: Link) {
    match PhaseOf(cfg, l.log)
    case Idle =>
      l.held.None? && Assigns(l.down) == [] && l.agent.running.None? && TaskFrames(l.up) == []
    case Sent(task, wire) =>
      l.held == Some(task)
      && ((Assigns(l.down) == [Assign(task.id, wire)] && (wire.WireAnalysis? ==> cfg.hasStore)
           && l.agent.running.None? && TaskFrames(l.up) == [])
          || InHand(cfg, l, task.id, wire, [TaskStarted(task.id)]))
    case Working(task, wire) => l.held == Some(task) && InHand(cfg, l, task.id, wire, [])
    case Delivered(task, output) =>
      l.held == Some(task) && Assigns(l.down) == [] && l.agent.running.None?
      && TaskFrames(l.up) == [TaskFinished(task.id, Completed(output))]
    case Broken => false
  }

  ghost predicate Inv(cfg: Config, l: Link) { Introduced(cfg, l) && Matched(cfg, l) }

  // ---------- the worker's turns ----------

  ghost predicate IsCalm(e: Event) {
    e.Tick? || (!e.message.Assign? && !e.message.Rejected? && !e.message.Shutdown?)
  }

  // Polling a worker that holds nothing says nothing about tasks.
  lemma IdlePoll(s: Agent.State, now: u64)
    requires s.running.None?
    ensures Agent.Poll(s, now).next.running.None? && TaskFrames(Agent.Poll(s, now).sent) == []
    ensures Agent.Poll(s, now).next.id == s.id
  {
    PollSends(s, now, IsTaskFrame);
  }

  lemma BusyPoll(cfg: Config, s: Agent.State, now: u64, id: TaskId, wire: WireSpec)
    requires WorksOn(cfg, s, id, wire)
    ensures var t := Agent.Poll(s, now);
            t.next.id == s.id
            && ((WorksOn(cfg, t.next, id, wire) && TaskFrames(t.sent) == [])
                || (t.next.running.None? && IsEnding(cfg, id, wire, TaskFrames(t.sent))))
  {
    hide Toward, Answer, Filter;
    var a := Agent.Advance(s);
    if Agent.Computing(s) {
      SliceKeepsTheCount(cfg.handler, cfg.node, wire, s.running.value.work);
    }
    assert WorksOn(cfg, a, id, wire);
    PollSends(s, now, IsTaskFrame);
    if Agent.Due(a, now) {
      DueEnds(cfg, a.running.value, wire);
      assert TaskFrames(Agent.Poll(s, now).sent) == Agent.ReportOf(a.running.value);
    }
  }

  lemma DueEnds(cfg: Config, r: Agent.Running, wire: WireSpec)
    requires !r.work.Counting? && Toward(cfg.handler, cfg.node, wire, r.work)
    ensures IsEnding(cfg, r.id, wire, Agent.ReportOf(r))
  {
  }

  lemma CalmTurn(cfg: Config, s: Agent.State, e: Event) returns (s0: Agent.State)
    requires IsCalm(e)
    ensures TurnOf(cfg.handler, s, e) == Agent.Poll(s0, e.now)
    ensures s0.running == s.running
    ensures e.Deliver? && e.message.Welcome? ==> s0.id == Some(e.message.node)
    ensures !(e.Deliver? && e.message.Welcome?) ==> s0.id == s.id
  {
    s0 := if e.Tick? then s else Agent.Told(s, e.message, e.now);
  }

  lemma AcceptTurn(cfg: Config, s: Agent.State, id: TaskId, wire: WireSpec, now: u64)
    requires s.running.None? && s.id == Some(cfg.node)
    ensures var t := Agent.Accept(cfg.handler, s, id, wire, now);
            t.next.id == s.id
            && ((WorksOn(cfg, t.next, id, wire) && TaskFrames(t.sent) == [TaskStarted(id)])
                || (t.next.running.None?
                    && exists ending ::
                         TaskFrames(t.sent) == [TaskStarted(id)] + ending && IsEnding(cfg, id, wire, ending)))
  {
    hide Agent.Poll, Agent.StartWork, Agent.CannotRun, Toward, Answer, Excused;
    var t := Agent.Accept(cfg.handler, s, id, wire, now);
    assert t.sent == [TaskStarted(id)] + t.sent[1..];
    FilterConcat([TaskStarted(id)], t.sent[1..], IsTaskFrame);
    if s.pendingFailures == 0 && Agent.StartWork(cfg.handler, cfg.node, wire).Some? {
      var (wait, work) := Agent.StartWork(cfg.handler, cfg.node, wire).value;
      StartIsTowardTheAnswer(cfg.handler, cfg.node, wire);
      var begun := Agent.Begun(s, id, wait, work, now);
      BusyPoll(cfg, begun, now, id, wire);
      assert t.sent[1..] == Agent.Poll(begun, now).sent;
    } else {
      if s.pendingFailures > 0 {
        InjectedIsExcused(cfg.handler, cfg.node, wire);
      } else {
        CannotRunIsExcused(cfg.handler, cfg.node, wire);
      }
      assert TaskFrames(t.sent[1..]) == t.sent[1..];
      assert IsEnding(cfg, id, wire, t.sent[1..]);
    }
  }

  // ---------- every step keeps the invariant ----------

  lemma InboxKeeps(cfg: Config, l: Link, message: NodeInbox, input: Option<Bytes>)
    requires Inv(cfg, l) && (message.InboxAssign? ==> l.held.None?) && (cfg.hasStore || input.None?)
    ensures Matched(cfg, Next(cfg, l, Inbox(message, input)))
  {
    hide Answer, Toward, IsEnding, RefusalText, PhaseOf, Introduced;
    var r := OnInbox(cfg.node, l.held, message, input);
    var out := if r.out.Some? then [r.out.value] else [];
    FilterConcat(l.down, out, IsAssign);
    if message.InboxAssign? {
      WireKeepsTheTask(message.task.spec, input);
      PhaseAppend(cfg, l.log, InboxEntries(message, input)[0]);
    } else {
      assert l.log + [] == l.log;
    }
  }

  lemma TurnKeeps(cfg: Config, l: Link, e: Event, down: seq<SupervisorMessage>)
    requires Inv(cfg, l) && IsCalm(e)
    requires e.Deliver? ==> l.down == [e.message] + down
    requires e.Tick? ==> l.down == down
    ensures var t := TurnOf(cfg.handler, l.agent, e);
            Matched(cfg, l.(agent := t.next, down := down, up := l.up + t.sent))
  {
    hide Answer, Toward, IsEnding, TurnOf, PhaseOf, Agent.Poll, Introduced, Filter;
    var t := TurnOf(cfg.handler, l.agent, e);
    var s0 := CalmTurn(cfg, l.agent, e);
    FilterConcat(l.up, t.sent, IsTaskFrame);
    if e.Deliver? {
      FilterConcat([e.message], down, IsAssign);
      FilterShort([e.message], IsAssign);
    }
    if s0.running.None? {
      IdlePoll(s0, e.now);
    } else {
      var phase := PhaseOf(cfg, l.log);
      BusyPoll(cfg, s0, e.now, phase.task.id, phase.wire);
    }
  }

  lemma AssignKeeps(cfg: Config, l: Link, now: u64)
    requires Inv(cfg, l) && Enabled(cfg, l, Arrive(now)) && l.down[0].Assign?
    ensures Matched(cfg, Next(cfg, l, Arrive(now)))
  {
    hide Answer, Toward, IsEnding, PhaseOf, Agent.Accept, Agent.AcceptOverflows;
    var down := l.down[1..];
    assert l.down == [l.down[0]] + down;
    FilterConcat([l.down[0]], down, IsAssign);
    assert Assigns([l.down[0]]) == [l.down[0]];
    var task, wire := PhaseOf(cfg, l.log).task, PhaseOf(cfg, l.log).wire;
    assert Assigns(l.down) == [Assign(task.id, wire)];
    AcceptTurn(cfg, l.agent, task.id, wire, now);
    var t := Agent.Accept(cfg.handler, l.agent, task.id, wire, now);
    FilterConcat(l.up, t.sent, IsTaskFrame);
    assert l.log + [] == l.log;
  }

  lemma FrameKeeps(cfg: Config, l: Link)
    requires Inv(cfg, l) && l.up != []
    ensures Matched(cfg, Next(cfg, l, Frame))
  {
    hide Answer, Toward, Agent.Poll, Introduced, IsEnding, PhaseOf, Filter;
    var m, up := l.up[0], l.up[1..];
    assert l.up == [m] + up;
    FilterConcat([m], up, IsTaskFrame);
    FilterShort([m], IsTaskFrame);
    if IsTaskFrame(m) {
      assert TaskFrames(l.up) == [m] + TaskFrames(up);
      TaskFrameKeeps(cfg, l, m, up);
    } else {
      assert TaskFrames([m]) == [];
      assert l.log + [] == l.log;
    }
  }

  lemma TaskFrameKeeps(cfg: Config, l: Link, m: NodeMessage, up: seq<NodeMessage>)
    requires Inv(cfg, l) && l.up == [m] + up
    requires IsTaskFrame(m) && TaskFrames(l.up) == [m] + TaskFrames(up)
    ensures Matched(cfg, Next(cfg, l, Frame))
  {
    hide Answer, Toward, PhaseOf, Introduced, IsEnding;
    assert TaskFrames(l.up)[0] == m;
    match PhaseOf(cfg, l.log)
    case Sent(task, wire) => StartedKeeps(cfg, l, m, up, task, wire);
    case Working(task, wire) => EndingKeeps(cfg, l, m, up, task, wire);
    case Delivered(task, output) => PhaseAppend(cfg, l.log, Finished(task, m.outcome));
  }

  lemma StartedKeeps(cfg: Config, l: Link, m: NodeMessage, up: seq<NodeMessage>, task: Task, wire: WireSpec)
    requires Inv(cfg, l) && l.up == [m] + up && TaskFrames(l.up) == [m] + TaskFrames(up)
    requires PhaseOf(cfg, l.log) == Sent(task, wire)
    ensures Matched(cfg, Next(cfg, l, Frame))
  {
    hide Answer, Toward, PhaseOf, IsEnding, Introduced;
    var rest := TaskFrames(up);
    assert TaskFrames(l.up)[0] == TaskStarted(task.id);
    PhaseAppend(cfg, l.log, Started(task));
    if l.agent.running.None? {
      var ending :| TaskFrames(l.up) == [TaskStarted(task.id)] + ending && IsEnding(cfg, task.id, wire, ending);
      assert rest == TaskFrames(l.up)[1..] == ending;
      assert rest == [] + ending;
    }
  }

  lemma EndingKeeps(cfg: Config, l: Link, m: NodeMessage, up: seq<NodeMessage>, task: Task, wire: WireSpec)
    requires Inv(cfg, l) && l.up == [m] + up && TaskFrames(l.up) == [m] + TaskFrames(up)
    requires PhaseOf(cfg, l.log) == Working(task, wire)
    ensures Matched(cfg, Next(cfg, l, Frame))
  {
    hide Toward, PhaseOf, Answer, NewArtifact, Introduced, Excused, Next, Assigns, TaskFrames;
    var rest := TaskFrames(up);
    var ending :| TaskFrames(l.up) == [] + ending && IsEnding(cfg, task.id, wire, ending);
    assert ending == [m] + rest && ending[0] == m;
    if m.TaskProduced? {
      assert rest == [ending[1]];
      ProducedKeeps(cfg, l, m, up, task, wire);
    } else {
      assert rest == [];
      FinishedKeeps(cfg, l, m, up, task, wire);
    }
  }

  lemma ProducedKeeps(cfg: Config, l: Link, m: NodeMessage, up: seq<NodeMessage>, task: Task, wire: WireSpec)
    requires l.up == [m] + up && l.held == Some(task) && PhaseOf(cfg, l.log) == Working(task, wire)
    requires Assigns(l.down) == [] && l.agent.running.None? && (wire.WireAnalysis? ==> cfg.hasStore)
    requires var a := Answer(cfg.handler, cfg.node, wire);
             a.Some? && a.value.Produce? && m == TaskProduced(task.id, NewArtifact(a.value.artifact))
             && TaskFrames(up) == [TaskFinished(task.id, Completed(a.value.output))]
    ensures Matched(cfg, Next(cfg, l, Frame))
  {
    OnlyAnalysisProduces(cfg.handler, cfg.node, wire);
    hide PhaseOf, Answer, DigestOf, Assigns, TaskFrames, InHand;
    PhaseAppend(cfg, l.log, Stored(task.id, task.spec, m.artifact.bytes));
  }

  lemma FinishedKeeps(cfg: Config, l: Link, m: NodeMessage, up: seq<NodeMessage>, task: Task, wire: WireSpec)
    requires l.up == [m] + up && l.held == Some(task) && PhaseOf(cfg, l.log) == Working(task, wire)
    requires Assigns(l.down) == [] && l.agent.running.None? && TaskFrames(up) == []
    requires m.TaskFinished? && m.task == task.id && IsEnding(cfg, task.id, wire, [m])
    ensures Matched(cfg, Next(cfg, l, Frame))
  {
    hide PhaseOf, Answer, Assigns, TaskFrames, InHand, Excused;
    PhaseAppend(cfg, l.log, Finished(task, m.outcome));
  }

  lemma OnlyAnalysisProduces(h: Option<Handler>, node: NodeId, wire: WireSpec)
    ensures Answer(h, node, wire).Some? && Answer(h, node, wire).value.Produce? ==> wire.WireAnalysis?
  {
  }

  // ---------- main results ----------

  // The discipline: an assignment is put in the inbox only while no task is held.
  ghost predicate Disciplined(cfg: Config, l: Link, steps: seq<Step>)
    requires IsRun(cfg, l, steps)
    decreases |steps|
  {
    steps == []
    || ((steps[0].Inbox? && steps[0].message.InboxAssign? ==> l.held.None?)
        && Disciplined(cfg, Next(cfg, l, steps[0]), steps[1..]))
  }

  lemma StepKeeps(cfg: Config, l: Link, step: Step)
    requires Inv(cfg, l) && Enabled(cfg, l, step)
    requires step.Inbox? && step.message.InboxAssign? ==> l.held.None?
    ensures Inv(cfg, Next(cfg, l, step))
  {
    hide Matched, TurnOf, Introduced;
    IntroducedKeeps(cfg, l, step);
    match step
    case Inbox(message, input) => InboxKeeps(cfg, l, message, input);
    case Poll(now) => TurnKeeps(cfg, l, Tick(now), l.down);
    case Frame => FrameKeeps(cfg, l);
    case Arrive(now) =>
      if l.down[0].Assign? {
        AssignKeeps(cfg, l, now);
      } else {
        ArriveCalmly(cfg, l, now);
      }
  }

  lemma ArriveCalmly(cfg: Config, l: Link, now: u64)
    requires Inv(cfg, l) && Enabled(cfg, l, Arrive(now)) && !l.down[0].Assign?
    ensures Matched(cfg, Next(cfg, l, Arrive(now)))
  {
    hide Matched, TurnOf;
    assert l.down == [l.down[0]] + l.down[1..];
    TurnKeeps(cfg, l, Deliver(l.down[0], now), l.down[1..]);
    assert l.log + [] == l.log;
  }

  lemma {:induction false} RunKeeps(cfg: Config, l: Link, steps: seq<Step>)
    requires Inv(cfg, l) && IsRun(cfg, l, steps) && Disciplined(cfg, l, steps)
    ensures Inv(cfg, After(cfg, l, steps))
    decreases |steps|
  {
    hide Inv, Next;
    if steps != [] {
      StepKeeps(cfg, l, steps[0]);
      RunKeeps(cfg, Next(cfg, l, steps[0]), steps[1..]);
    }
  }

  lemma InitialHolds(cfg: Config, interval: u64, beat: u64)
    ensures Inv(cfg, Initial(cfg, interval, beat))
  {
    FilterShort(Initial(cfg, interval, beat).down, IsAssign);
  }

  // Entries about which the two sides disagree: reports dropped as stale, assignments bounced or absorbed.
  predicate IsMishap(e: Entry) { e.Bounced? || e.Absorbed? || e.Dropped? || e.DroppedFinish? }

  function ShippedCount(log: seq<Entry>): nat {
    if log == [] then 0 else ShippedCount(log[..|log| - 1]) + (if log[|log| - 1].Shipped? then 1 else 0)
  }

  function FinishedCount(log: seq<Entry>): nat {
    if log == [] then 0 else FinishedCount(log[..|log| - 1]) + (if log[|log| - 1].Finished? then 1 else 0)
  }

  // What an unbroken history means.
  lemma {:induction false} UnbrokenHistory(cfg: Config, log: seq<Entry>)
    requires PhaseOf(cfg, log) != Broken
    ensures ShippedCount(log) == FinishedCount(log) + (if PhaseOf(cfg, log).Idle? then 0 else 1)
    ensures forall i :: 0 <= i < |log| ==> !IsMishap(log[i])
  {
    if log != [] {
      var front := log[..|log| - 1];
      UnbrokenHistory(cfg, front);
      assert forall i :: 0 <= i < |front| ==> log[i] == front[i];
    }
  }

  // From a fresh worker, over every run that keeps the discipline: the history is a sequence of task lives
  // in the grammar above, the task held is the one the worker is on or whose frames are in flight, nothing is
  // dropped, bounced or absorbed, and shipments are finishes plus the one outstanding.
  lemma DisciplinedRuns(cfg: Config, interval: u64, beat: u64, steps: seq<Step>)
    requires IsRun(cfg, Initial(cfg, interval, beat), steps)
    requires Disciplined(cfg, Initial(cfg, interval, beat), steps)
    ensures var l := After(cfg, Initial(cfg, interval, beat), steps);
            PhaseOf(cfg, l.log) != Broken
            && Matched(cfg, l)
            && (forall i :: 0 <= i < |l.log| ==> !IsMishap(l.log[i]))
            && ShippedCount(l.log) == FinishedCount(l.log) + (if l.held.Some? then 1 else 0)
  {
    hide PhaseOf;
    var l0 := Initial(cfg, interval, beat);
    InitialHolds(cfg, interval, beat);
    RunKeeps(cfg, l0, steps);
    UnbrokenHistory(cfg, After(cfg, l0, steps).log);
  }
}
