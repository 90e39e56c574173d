/** What passes through a link, in order: what the worker is sent, what it sends, and what the supervisor hears. */
module LinkHistory {
  import opened Base
  import opened Digest
  import opened Wire
  import Agent
  import opened AgentRuns
  import opened AgentHistory
  import opened Connection
  import opened Link

  // ---------- the worker's half ----------

  // What happens to the worker in a step.
  function EventsIn(l: Link, step: Step): seq<Event> {
    match step
    case Arrive(now) => if l.down == [] then [] else [Deliver(l.down[0], now)]
    case Poll(now) => [Tick(now)]
    case _ => []
  }

  ghost function EventsOf(cfg: Config, l: Link, steps: seq<Step>): seq<Event>
    requires IsRun(cfg, l, steps)
    decreases |steps|
  {
    if steps == [] then [] else EventsIn(l, steps[0]) + EventsOf(cfg, Next(cfg, l, steps[0]), steps[1..])
  }

  // What it puts on the wire.
  ghost function WorkerSent(cfg: Config, l: Link, steps: seq<Step>): seq<NodeMessage>
    requires IsRun(cfg, l, steps)
  {
    RunSent(cfg.handler, l.agent, EventsOf(cfg, l, steps))
  }

  lemma OneEvent(h: Option<Handler>, s: Agent.State, e: Event)
    ensures RunState(h, s, [e]) == TurnOf(h, s, e).next && RunSent(h, s, [e]) == TurnOf(h, s, e).sent
  {
    hide TurnOf;
    assert [e][1..] == [];
    assert TurnOf(h, s, e).sent + [] == TurnOf(h, s, e).sent;
  }

  lemma StepIsEvents(cfg: Config, l: Link, step: Step)
    requires Enabled(cfg, l, step)
    ensures Next(cfg, l, step).agent == RunState(cfg.handler, l.agent, EventsIn(l, step))
  {
    hide TurnOf, TurnOverflows;
    if EventsIn(l, step) != [] {
      OneEvent(cfg.handler, l.agent, EventsIn(l, step)[0]);
    }
  }

  // The worker at the end of a link is the worker of its own events: whatever holds of its runs holds here.
  lemma {:induction false} AgentFollowsEvents(cfg: Config, l: Link, steps: seq<Step>)
    requires IsRun(cfg, l, steps)
    ensures After(cfg, l, steps).agent == RunState(cfg.handler, l.agent, EventsOf(cfg, l, steps))
    decreases |steps|
  {
    hide Next, Enabled, RunState;
    if steps != [] {
      var next := Next(cfg, l, steps[0]);
      StepIsEvents(cfg, l, steps[0]);
      AgentFollowsEvents(cfg, next, steps[1..]);
      RunConcat(cfg.handler, l.agent, EventsIn(l, steps[0]), EventsOf(cfg, next, steps[1..]));
    } else {
      NoEvents(cfg.handler, l.agent);
    }
  }

  lemma NoEvents(h: Option<Handler>, s: Agent.State)
    ensures RunState(h, s, []) == s && RunSent(h, s, []) == []
  {
  }

  // ---------- what it is sent ----------

  // What the supervisor's messages turn into on the wire.
  ghost function Written(steps: seq<Step>): seq<SupervisorMessage> {
    if steps == [] then []
    else (if steps[0].Inbox? then WrittenFor(steps[0].message, steps[0].input) else []) + Written(steps[1..])
  }

  ghost function WrittenFor(message: NodeInbox, input: Option<Bytes>): seq<SupervisorMessage> {
    match message
    case InboxAssign(task) =>
      (match ToWire(task.spec, input)
       case Ship(wire) => [Assign(task.id, wire)]
       case Refuse(_) => [])
    case InboxPause(paused) => [PauseHeartbeat(paused)]
    case InboxInject(count) => [InjectFailures(count)]
    case InboxDelay(ms) => [SetDelay(ms)]
  }

  function MessagesIn(es: seq<Event>): seq<SupervisorMessage> {
    if es == [] then [] else (if es[0].Deliver? then [es[0].message] else []) + MessagesIn(es[1..])
  }

  lemma {:induction false} MessagesInConcat(a: seq<Event>, b: seq<Event>)
    ensures MessagesIn(a + b) == MessagesIn(a) + MessagesIn(b)
  {
    if a == [] {
      assert a + b == b;
    } else {
      assert (a + b)[1..] == a[1..] + b;
      MessagesInConcat(a[1..], b);
      var head := if a[0].Deliver? then [a[0].message] else [];
      assert head + (MessagesIn(a[1..]) + MessagesIn(b)) == (head + MessagesIn(a[1..])) + MessagesIn(b);
    }
  }

  lemma StepLosesNothing(cfg: Config, l: Link, step: Step)
    requires Enabled(cfg, l, step)
    ensures l.down + (if step.Inbox? then WrittenFor(step.message, step.input) else [])
         == MessagesIn(EventsIn(l, step)) + Next(cfg, l, step).down
  {
    hide TurnOf, TurnOverflows, RefusalText, NewArtifact;
    var es := EventsIn(l, step);
    if es != [] {
      assert es[1..] == [];
    }
    if step.Arrive? {
      assert l.down == [l.down[0]] + l.down[1..];
    }
  }

  // Nothing the supervisor says is lost, changed or overtaken: what was queued and what it then said is what reached
  // the worker, followed by what is queued still.
  lemma {:induction false} NothingIsLostDownward(cfg: Config, l: Link, steps: seq<Step>)
    requires IsRun(cfg, l, steps)
    ensures l.down + Written(steps) == MessagesIn(EventsOf(cfg, l, steps)) + After(cfg, l, steps).down
    decreases |steps|
  {
    hide Next, Enabled, WrittenFor, EventsIn;
    if steps == [] {
      assert l.down + [] == [] + l.down;
    } else {
      var next := Next(cfg, l, steps[0]);
      StepLosesNothing(cfg, l, steps[0]);
      NothingIsLostDownward(cfg, next, steps[1..]);
      MessagesInConcat(EventsIn(l, steps[0]), EventsOf(cfg, next, steps[1..]));
      var put := if steps[0].Inbox? then WrittenFor(steps[0].message, steps[0].input) else [];
      Shuffle(l.down, put, Written(steps[1..]), MessagesIn(EventsIn(l, steps[0])), next.down,
              MessagesIn(EventsOf(cfg, next, steps[1..])), After(cfg, l, steps).down);
    }
  }

  // ---------- controls take effect ----------

  // The pause and the delay last asked for.
  predicate PauseAsked(steps: seq<Step>) {
    steps != []
    && (var step := steps[|steps| - 1];
        if step.Inbox? && step.message.InboxPause? then step.message.paused else PauseAsked(steps[..|steps| - 1]))
  }

  function DelayAsked(steps: seq<Step>): u64 {
    if steps == [] then 0
    else
      var step := steps[|steps| - 1];
      if step.Inbox? && step.message.InboxDelay? then step.message.ms else DelayAsked(steps[..|steps| - 1])
  }

  // The same, read off messages.
  predicate PauseIn(ms: seq<SupervisorMessage>) {
    ms != []
    && (var m := ms[|ms| - 1]; if m.PauseHeartbeat? then m.paused else PauseIn(ms[..|ms| - 1]))
  }

  function DelayIn(ms: seq<SupervisorMessage>): u64 {
    if ms == [] then 0
    else var m := ms[|ms| - 1]; if m.SetDelay? then m.ms else DelayIn(ms[..|ms| - 1])
  }

  lemma {:induction false} EventsTell(es: seq<Event>)
    ensures LastPause(es) == PauseIn(MessagesIn(es)) && LastDelay(es) == DelayIn(MessagesIn(es))
  {
    if es != [] {
      var front, e := es[..|es| - 1], es[|es| - 1];
      assert es == front + [e];
      EventsTell(front);
      MessagesInConcat(front, [e]);
      assert [e][1..] == [];
      if e.Deliver? {
        assert MessagesIn([e]) == [e.message];
        assert MessagesIn(es)[..|MessagesIn(es)| - 1] == MessagesIn(front);
      } else {
        assert MessagesIn(es) == MessagesIn(front);
      }
    }
  }

  lemma {:induction false} WrittenConcat(a: seq<Step>, b: seq<Step>)
    ensures Written(a + b) == Written(a) + Written(b)
  {
    hide WrittenFor;
    if a == [] {
      assert a + b == b;
    } else {
      assert (a + b)[1..] == a[1..] + b;
      WrittenConcat(a[1..], b);
    }
  }

  lemma {:induction false} StepsTell(first: SupervisorMessage, steps: seq<Step>)
    requires first.Welcome?
    ensures var ms := [first] + Written(steps); PauseIn(ms) == PauseAsked(steps) && DelayIn(ms) == DelayAsked(steps)
  {
    if steps == [] {
      assert [first] + Written(steps) == [first];
      assert [first][..0] == [];
    } else {
      var front, step := steps[..|steps| - 1], steps[|steps| - 1];
      assert steps == front + [step];
      StepsTell(first, front);
      WrittenConcat(front, [step]);
      assert [step][1..] == [];
      var more := if step.Inbox? then WrittenFor(step.message, step.input) else [];
      assert Written([step]) == more + [] == more;
      assert [first] + Written(steps) == ([first] + Written(front)) + more;
      OneMore([first] + Written(front), more);
    }
  }

  lemma OneMore(ms: seq<SupervisorMessage>, more: seq<SupervisorMessage>)
    requires |more| <= 1
    ensures PauseIn(ms + more) == if more != [] && more[0].PauseHeartbeat? then more[0].paused else PauseIn(ms)
    ensures DelayIn(ms + more) == if more != [] && more[0].SetDelay? then more[0].ms else DelayIn(ms)
  {
    if more == [] {
      assert ms + more == ms;
    } else {
      assert (ms + more)[..|ms|] == ms;
    }
  }

  // How many failures were asked for.
  function InjectsAsked(steps: seq<Step>): nat {
    if steps == [] then 0
    else
      (if steps[0].Inbox? && steps[0].message.InboxInject? then steps[0].message.count else 0)
      + InjectsAsked(steps[1..])
  }

  function InjectsIn(ms: seq<SupervisorMessage>): nat {
    if ms == [] then 0 else (if ms[0].InjectFailures? then ms[0].count else 0) + InjectsIn(ms[1..])
  }

  lemma {:induction false} OrderedIsInjects(es: seq<Event>)
    ensures OrderedIn(es) == InjectsIn(MessagesIn(es))
  {
    if es != [] {
      OrderedIsInjects(es[1..]);
      if es[0].Deliver? {
        assert MessagesIn(es)[1..] == MessagesIn(es[1..]);
      } else {
        assert MessagesIn(es) == MessagesIn(es[1..]);
      }
    }
  }

  lemma {:induction false} InjectsAreWritten(steps: seq<Step>)
    ensures InjectsIn(Written(steps)) == InjectsAsked(steps)
  {
    if steps != [] {
      InjectsAreWritten(steps[1..]);
      var put := if steps[0].Inbox? then WrittenFor(steps[0].message, steps[0].input) else [];
      if put != [] {
        assert Written(steps)[1..] == Written(steps[1..]);
      } else {
        assert Written(steps) == Written(steps[1..]);
      }
    }
  }

  lemma InjectsAreAsked(first: SupervisorMessage, steps: seq<Step>)
    requires first.Welcome?
    ensures InjectsIn([first] + Written(steps)) == InjectsAsked(steps)
  {
    InjectsAreWritten(steps);
    assert ([first] + Written(steps))[1..] == Written(steps);
  }

  // Once the worker has read everything, it beats or not and waits as the supervisor last asked, and the failures
  // asked for are pending or were reported.
  lemma ControlsTakeEffect(cfg: Config, interval: u64, beat: u64, steps: seq<Step>)
    requires IsRun(cfg, Initial(cfg, interval, beat), steps)
    requires After(cfg, Initial(cfg, interval, beat), steps).down == []
    ensures var l0 := Initial(cfg, interval, beat); var s := After(cfg, l0, steps).agent;
            && s.paused == PauseAsked(steps) && s.extraDelay == DelayAsked(steps)
            && s.joined && s.id == Some(cfg.node) && s.interval == (if beat > 0 then beat else interval)
            && (InjectsAsked(steps) <= U32_MAX ==>
                  s.pendingFailures + InjectedIn(WorkerSent(cfg, l0, steps)) == InjectsAsked(steps))
  {
    var l0 := Initial(cfg, interval, beat);
    var es := EventsOf(cfg, l0, steps);
    hide IsRun, After, EventsOf, RunState, Written, PauseAsked, DelayAsked;
    AgentFollowsEvents(cfg, l0, steps);
    NothingIsLostDownward(cfg, l0, steps);
    assert MessagesIn(es) + [] == MessagesIn(es);
    ItIsAsTold(cfg.handler, None, interval, es);
    EventsTell(es);
    StepsTell(l0.down[0], steps);
    WelcomeIsOnce(steps);
    WelcomeFirst(interval, es, l0.down[0], Written(steps));
    InjectionsAreSpent(cfg.handler, l0.agent, es);
    OrderedIsInjects(es);
    InjectsAreAsked(l0.down[0], steps);
  }

  lemma {:induction false} WelcomeIsOnce(steps: seq<Step>)
    ensures forall i :: 0 <= i < |Written(steps)| ==> !Written(steps)[i].Welcome?
  {
    if steps != [] { WelcomeIsOnce(steps[1..]); }
  }

  // With one welcome among the messages, at their head, the worker goes by what it said.
  lemma {:induction false} WelcomeFirst(interval: u64, es: seq<Event>, w: SupervisorMessage,
                                        rest: seq<SupervisorMessage>)
    requires MessagesIn(es) == [w] + rest && w.Welcome? && forall i :: 0 <= i < |rest| ==> !rest[i].Welcome?
    ensures Welcomed(es) && LastName(None, es) == Some(w.node)
    ensures LastInterval(interval, es) == if w.heartbeatIntervalMs > 0 then w.heartbeatIntervalMs else interval
  {
    var front, e := es[..|es| - 1], es[|es| - 1];
    assert es == front + [e];
    MessagesInConcat(front, [e]);
    assert [e][1..] == [];
    if e.Deliver? {
      var ms := MessagesIn(es);
      assert MessagesIn([e]) == [e.message];
      assert ms[|ms| - 1] == e.message && ms[..|ms| - 1] == MessagesIn(front);
      if rest == [] {
        assert ms == [w];
        NoMessages(interval, front);
      } else {
        assert ms[..|ms| - 1] == [w] + rest[..|rest| - 1] && ms[|ms| - 1] == rest[|rest| - 1];
        WelcomeFirst(interval, front, w, rest[..|rest| - 1]);
      }
    } else {
      assert MessagesIn(es) == MessagesIn(front);
      WelcomeFirst(interval, front, w, rest);
    }
  }

  lemma {:induction false} NoMessages(interval: u64, es: seq<Event>)
    requires MessagesIn(es) == []
    ensures LastName(None, es) == None && LastInterval(interval, es) == interval
  {
    if es != [] {
      var front, e := es[..|es| - 1], es[|es| - 1];
      assert es == front + [e];
      MessagesInConcat(front, [e]);
      NoMessages(interval, front);
    }
  }

  // ---------- what the supervisor hears ----------

  // The report made in a step, if any.
  ghost function ReportsIn(cfg: Config, l: Link, step: Step): seq<NodeReport>
    requires Enabled(cfg, l, step)
  {
    var report :=
      match step
      case Inbox(message, input) => OnInbox(cfg.node, l.held, message, input).report
      case Frame => OnFrame(cfg.node, cfg.hasStore, l.held, l.up[0]).report
      case _ => None;
    if report.Some? then [report.value] else []
  }

  ghost function Reported(cfg: Config, l: Link, steps: seq<Step>): seq<NodeReport>
    requires IsRun(cfg, l, steps)
    decreases |steps|
  {
    if steps == [] then [] else ReportsIn(cfg, l, steps[0]) + Reported(cfg, Next(cfg, l, steps[0]), steps[1..])
  }

  predicate IsBeatReport(r: NodeReport) { r.BeatReport? }
  predicate IsTaskReport(r: NodeReport) { !r.BeatReport? }

  // What the heartbeats among some frames are to be heard as: from this node, whatever they claim.
  function BeatsHeard(node: NodeId, ms: seq<NodeMessage>): seq<NodeReport> {
    if ms == [] then []
    else (if ms[0].Heartbeat? then [BeatReport(node, ms[0].load, ms[0].at)] else []) + BeatsHeard(node, ms[1..])
  }

  lemma {:induction false} BeatsHeardConcat(node: NodeId, a: seq<NodeMessage>, b: seq<NodeMessage>)
    ensures BeatsHeard(node, a + b) == BeatsHeard(node, a) + BeatsHeard(node, b)
  {
    if a == [] {
      assert a + b == b;
    } else {
      assert (a + b)[1..] == a[1..] + b;
      BeatsHeardConcat(node, a[1..], b);
      var head := if a[0].Heartbeat? then [BeatReport(node, a[0].load, a[0].at)] else [];
      assert head + (BeatsHeard(node, a[1..]) + BeatsHeard(node, b))
          == (head + BeatsHeard(node, a[1..])) + BeatsHeard(node, b);
    }
  }

  lemma StepPassesBeats(cfg: Config, l: Link, step: Step)
    requires Enabled(cfg, l, step)
    ensures var sent := RunSent(cfg.handler, l.agent, EventsIn(l, step));
            BeatsHeard(cfg.node, l.up) + BeatsHeard(cfg.node, sent)
            == Filter(ReportsIn(cfg, l, step), IsBeatReport) + BeatsHeard(cfg.node, Next(cfg, l, step).up)
  {
    hide TurnOf, TurnOverflows, RefusalText, NewArtifact, Verify, Filter, RunSent;
    FilterShort(ReportsIn(cfg, l, step), IsBeatReport);
    match step
    case Frame =>
      NoEvents(cfg.handler, l.agent);
      assert l.up == [l.up[0]] + l.up[1..];
    case Inbox(_, _) =>
      NoEvents(cfg.handler, l.agent);
    case _ =>
      var e := EventsIn(l, step)[0];
      OneEvent(cfg.handler, l.agent, e);
      BeatsHeardConcat(cfg.node, l.up, TurnOf(cfg.handler, l.agent, e).sent);
  }

  // In every run the supervisor hears exactly the heartbeats the worker sent, in order and unchanged, but for those
  // still on their way; and each as this node's.
  lemma {:induction false} EveryBeatIsHeard(cfg: Config, l: Link, steps: seq<Step>)
    requires IsRun(cfg, l, steps)
    ensures BeatsHeard(cfg.node, l.up) + BeatsHeard(cfg.node, WorkerSent(cfg, l, steps))
         == Filter(Reported(cfg, l, steps), IsBeatReport) + BeatsHeard(cfg.node, After(cfg, l, steps).up)
    decreases |steps|
  {
    hide Next, Enabled, Filter, ReportsIn, EventsIn, RunSent, RunState, BeatsHeard;
    if steps == [] {
      NoEvents(cfg.handler, l.agent);
      NoBeats(cfg.node);
    } else {
      var next, n := Next(cfg, l, steps[0]), cfg.node;
      var es, rest := EventsIn(l, steps[0]), EventsOf(cfg, next, steps[1..]);
      var sent := RunSent(cfg.handler, l.agent, es);
      StepPassesBeats(cfg, l, steps[0]);
      EveryBeatIsHeard(cfg, next, steps[1..]);
      StepIsEvents(cfg, l, steps[0]);
      RunConcat(cfg.handler, l.agent, es, rest);
      BeatsHeardConcat(n, sent, RunSent(cfg.handler, next.agent, rest));
      FilterConcat(ReportsIn(cfg, l, steps[0]), Reported(cfg, next, steps[1..]), IsBeatReport);
      Shuffle(BeatsHeard(n, l.up), BeatsHeard(n, sent), BeatsHeard(n, RunSent(cfg.handler, next.agent, rest)),
              Filter(ReportsIn(cfg, l, steps[0]), IsBeatReport), BeatsHeard(n, next.up),
              Filter(Reported(cfg, next, steps[1..]), IsBeatReport), BeatsHeard(n, After(cfg, l, steps).up));
    }
  }

  lemma NoBeats(node: NodeId)
    ensures BeatsHeard(node, []) == [] && Filter([], IsBeatReport) == []
  {
  }

  lemma Shuffle<T>(a: seq<T>, b: seq<T>, c: seq<T>, d: seq<T>, e: seq<T>, f: seq<T>, g: seq<T>)
    requires a + b == d + e && e + c == f + g
    ensures a + (b + c) == (d + f) + g
  {
    assert a + (b + c) == (a + b) + c == (d + e) + c == d + (e + c) == d + (f + g) == (d + f) + g;
  }

  // ---------- and of tasks ----------

  // The report an entry of the history stands for.
  function ReportFor(cfg: Config, e: Entry): seq<NodeReport> {
    match e
    case RefusedToShip(task, why) => [FinishedReport(cfg.node, task, Failed(ExecutionError, RefusalText(why)))]
    case Started(task) => [StartedReport(cfg.node, task)]
    case Finished(task, outcome) => [FinishedReport(cfg.node, task, outcome)]
    case _ => []
  }

  function ReportsFor(cfg: Config, log: seq<Entry>): seq<NodeReport> {
    if log == [] then [] else ReportsFor(cfg, log[..|log| - 1]) + ReportFor(cfg, log[|log| - 1])
  }

  lemma ReportsForShort(cfg: Config, log: seq<Entry>, more: seq<Entry>)
    requires |more| <= 1
    ensures ReportsFor(cfg, log + more) == ReportsFor(cfg, log) + (if more == [] then [] else ReportFor(cfg, more[0]))
  {
    if more == [] {
      assert log + more == log;
    } else {
      assert (log + more)[..|log|] == log;
    }
  }

  lemma StepReportsTasks(cfg: Config, l: Link, step: Step)
    requires Enabled(cfg, l, step)
    ensures ReportsFor(cfg, Next(cfg, l, step).log)
         == ReportsFor(cfg, l.log) + Filter(ReportsIn(cfg, l, step), IsTaskReport)
  {
    hide TurnOf, TurnOverflows, RefusalText, NewArtifact, Verify, Filter, ReportsFor;
    FilterShort(ReportsIn(cfg, l, step), IsTaskReport);
    match step
    case Inbox(message, input) => ReportsForShort(cfg, l.log, InboxEntries(message, input));
    case Arrive(now) => ReportsForShort(cfg, l.log, ArrivalEntries(l.agent, l.down[0]));
    case Poll(now) =>
    case Frame =>
      ReportsForShort(cfg, l.log, FrameEntries(l.up[0], OnFrame(cfg.node, cfg.hasStore, l.held, l.up[0])));
  }

  // In every run what the supervisor hears of tasks is exactly what the history holds, in order: each refused
  // assignment once, as failed, and each start and finish forwarded; all of it as this node's.
  lemma {:induction false} EveryTaskReportIsHeard(cfg: Config, l: Link, steps: seq<Step>)
    requires IsRun(cfg, l, steps)
    ensures ReportsFor(cfg, After(cfg, l, steps).log)
         == ReportsFor(cfg, l.log) + Filter(Reported(cfg, l, steps), IsTaskReport)
    decreases |steps|
  {
    hide Next, Enabled, Filter, ReportsIn, ReportsFor;
    if steps == [] {
      FilterShort(Reported(cfg, l, steps), IsTaskReport);
      assert ReportsFor(cfg, l.log) + [] == ReportsFor(cfg, l.log);
    } else {
      var next := Next(cfg, l, steps[0]);
      StepReportsTasks(cfg, l, steps[0]);
      EveryTaskReportIsHeard(cfg, next, steps[1..]);
      FilterConcat(ReportsIn(cfg, l, steps[0]), Reported(cfg, next, steps[1..]), IsTaskReport);
      var a, b := Filter(ReportsIn(cfg, l, steps[0]), IsTaskReport),
                  Filter(Reported(cfg, next, steps[1..]), IsTaskReport);
      assert (ReportsFor(cfg, l.log) + a) + b == ReportsFor(cfg, l.log) + (a + b);
    }
  }
}
