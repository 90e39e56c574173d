/** The disciplined connection makes progress: what is held is finished once the queues run and the worker is polled. */
module LinkProgress {
  import opened Base
  import opened Primes
  import opened Digest
  import opened Wire
  import Agent
  import opened AgentRuns
  import opened AgentWake
  import opened Connection
  import opened Link
  import opened LinkIdle

  // Everything queued for the worker arrives.
  function Deliveries(n: nat, now: u64): seq<Step> { seq(n, i => Arrive(now)) }

  // The worker is polled at these times.
  function Polls(times: seq<u64>): (steps: seq<Step>)
    ensures |steps| == |times| && forall i :: 0 <= i < |steps| ==> steps[i] == Step.Poll(times[i])
  {
    seq(|times|, i requires 0 <= i < |times| => Step.Poll(times[i]))
  }

  // Everything queued for the coordinator is read.
  function Frames(n: nat): seq<Step> { seq(n, i => Frame) }

  ghost predicate NoInbox(steps: seq<Step>) { forall i :: 0 <= i < |steps| ==> !steps[i].Inbox? }

  lemma {:induction false} NoInboxIsDisciplined(cfg: Config, l: Link, steps: seq<Step>)
    requires IsRun(cfg, l, steps) && NoInbox(steps)
    ensures Disciplined(cfg, l, steps)
    decreases |steps|
  {
    hide Next, Enabled;
    if steps != [] {
      NoInboxIsDisciplined(cfg, Next(cfg, l, steps[0]), steps[1..]);
    }
  }

  // ---------- three stages ----------

  lemma {:induction false} DeliveriesEmptyTheQueue(cfg: Config, l: Link, now: u64)
    requires IsRun(cfg, l, Deliveries(|l.down|, now))
    ensures After(cfg, l, Deliveries(|l.down|, now)).down == []
    decreases |l.down|
  {
    hide TurnOf, TurnOverflows;
    if l.down != [] {
      assert Deliveries(|l.down|, now)[1..] == Deliveries(|l.down| - 1, now);
      DeliveriesEmptyTheQueue(cfg, Next(cfg, l, Arrive(now)), now);
    }
  }

  // Polled often enough once its time has come, the worker lets go of its task.
  lemma {:induction false} PollsFinishTheTask(cfg: Config, l: Link, times: seq<u64>)
    requires IsRun(cfg, l, Polls(times))
    requires l.agent.running.Some? ==>
               |times| >= PollsNeeded(l.agent)
               && forall i :: 0 <= i < |times| ==> l.agent.running.value.readyAt <= times[i]
    ensures After(cfg, l, Polls(times)).agent.running.None? && After(cfg, l, Polls(times)).down == l.down
    decreases |times|
  {
    hide Agent.Poll, PollsNeeded, TurnOverflows;
    if times != [] {
      assert Polls(times)[1..] == Polls(times[1..]);
      if l.agent.running.Some? {
        PollIsOneFewer(l.agent, times[0]);
      } else {
        IdlePoll(l.agent, times[0]);
      }
      PollsFinishTheTask(cfg, Next(cfg, l, Step.Poll(times[0])), times[1..]);
    }
  }

  lemma {:induction false} FramesEmptyTheQueue(cfg: Config, l: Link)
    ensures IsRun(cfg, l, Frames(|l.up|))
    ensures var after := After(cfg, l, Frames(|l.up|));
            after.up == [] && after.agent == l.agent && after.down == l.down
    decreases |l.up|
  {
    if l.up != [] {
      assert Frames(|l.up|)[1..] == Frames(|l.up| - 1);
      FramesEmptyTheQueue(cfg, Next(cfg, l, Frame));
    }
  }

  // With both queues empty and the worker idle, nothing is held.
  lemma QuietHoldsNothing(cfg: Config, l: Link)
    requires Inv(cfg, l) && l.down == [] && l.up == [] && l.agent.running.None?
    ensures l.held.None? && PhaseOf(cfg, l.log).Idle?
  {
    hide PhaseOf, Answer, Toward, Introduced, Excused;
  }

  lemma StageKeeps(cfg: Config, l: Link, steps: seq<Step>) returns (after: Link)
    requires Inv(cfg, l) && IsRun(cfg, l, steps) && NoInbox(steps)
    ensures after == After(cfg, l, steps) && Inv(cfg, after)
  {
    hide IsRun, After, Inv;
    NoInboxIsDisciplined(cfg, l, steps);
    RunKeeps(cfg, l, steps);
    after := After(cfg, l, steps);
  }

  // ---------- the schedule can be run ----------

  // No range queued or being counted holds a prime on which the trial division overflows.
  ghost predicate Clear(l: Link) {
    SparesRunning(l.agent) && forall i :: 0 <= i < |l.down| ==> SparesMessage(l.down[i])
  }

  // Nor does any range assigned.
  ghost predicate SparesStep(step: Step) {
    step.Inbox? && step.message.InboxAssign? && step.message.task.spec.PrimeRange? ==>
      Spared(step.message.task.spec.end)
  }

  lemma StepKeepsClear(cfg: Config, l: Link, step: Step)
    requires Clear(l) && Enabled(cfg, l, step) && SparesStep(step)
    ensures Clear(Next(cfg, l, step))
  {
    hide TurnOf, TurnOverflows, SparesRunning, Spared, NewArtifact;
    match step
    case Arrive(now) => SparedTurn(cfg.handler, l.agent, Deliver(l.down[0], now));
    case Poll(now) => SparedTurn(cfg.handler, l.agent, Tick(now));
    case _ =>
  }

  lemma {:induction false} RunKeepsClear(cfg: Config, l: Link, steps: seq<Step>)
    requires Clear(l) && IsRun(cfg, l, steps) && forall i :: 0 <= i < |steps| ==> SparesStep(steps[i])
    ensures Clear(After(cfg, l, steps))
    decreases |steps|
  {
    hide Clear, Next, Enabled, SparesStep;
    if steps != [] {
      StepKeepsClear(cfg, l, steps[0]);
      RunKeepsClear(cfg, Next(cfg, l, steps[0]), steps[1..]);
    }
  }

  // Then the worker takes every delivery and every poll.
  lemma {:induction false} ClearLinksDeliver(cfg: Config, l: Link, now: u64)
    requires Clear(l)
    ensures IsRun(cfg, l, Deliveries(|l.down|, now)) && Clear(After(cfg, l, Deliveries(|l.down|, now)))
    decreases |l.down|
  {
    hide TurnOf, TurnOverflows, SparesRunning, SparesMessage;
    if l.down != [] {
      assert Deliveries(|l.down|, now)[1..] == Deliveries(|l.down| - 1, now);
      SparedTurn(cfg.handler, l.agent, Deliver(l.down[0], now));
      ClearLinksDeliver(cfg, Next(cfg, l, Arrive(now)), now);
    }
  }

  lemma {:induction false} ClearLinksPoll(cfg: Config, l: Link, times: seq<u64>)
    requires Clear(l)
    ensures IsRun(cfg, l, Polls(times)) && Clear(After(cfg, l, Polls(times)))
    decreases |times|
  {
    hide TurnOf, TurnOverflows, SparesRunning, SparesMessage;
    if times != [] {
      assert Polls(times)[1..] == Polls(times[1..]);
      SparedTurn(cfg.handler, l.agent, Tick(times[0]));
      ClearLinksPoll(cfg, Next(cfg, l, Step.Poll(times[0])), times[1..]);
    }
  }

  // ---------- a range is completed ----------

  // No injected failure is pending, queued or on its way back.
  ghost predicate Unharmed(l: Link) {
    && l.agent.pendingFailures == 0
    && (forall i :: 0 <= i < |l.down| ==> !l.down[i].InjectFailures?)
    && InjectedIn(l.up) == 0
  }

  lemma StepKeepsUnharmed(cfg: Config, l: Link, step: Step)
    requires Unharmed(l) && Enabled(cfg, l, step) && !step.Inbox?
    ensures Unharmed(Next(cfg, l, step))
  {
    hide TurnOf, TurnOverflows, Filter;
    match step
    case Arrive(now) => TurnAddsNoHarm(cfg, l, Deliver(l.down[0], now));
    case Poll(now) => TurnAddsNoHarm(cfg, l, Tick(now));
    case Frame =>
      assert l.up == [l.up[0]] + l.up[1..];
      FilterConcat([l.up[0]], l.up[1..], IsInjected);
  }

  lemma NothingOrdered(e: Event)
    requires e.Deliver? ==> !e.message.InjectFailures?
    ensures OrderedIn([e]) == 0
  {
  }

  lemma TurnAddsNoHarm(cfg: Config, l: Link, e: Event)
    requires Unharmed(l) && (e.Deliver? ==> !e.message.InjectFailures?)
    ensures var t := TurnOf(cfg.handler, l.agent, e);
            t.next.pendingFailures == 0 && InjectedIn(l.up + t.sent) == 0
  {
    hide TurnOf, Filter, OrderedIn;
    var t := TurnOf(cfg.handler, l.agent, e);
    NothingOrdered(e);
    TurnSpends(cfg.handler, l.agent, e);
    FilterConcat(l.up, t.sent, IsInjected);
  }

  // The history says what was shipped for the task at hand, and that only an analysis delivers.
  lemma {:induction false} PhaseKeepsTheSpec(cfg: Config, log: seq<Entry>)
    ensures var phase := PhaseOf(cfg, log);
            && (phase.Sent? || phase.Working? ==> FromWire(phase.wire) == phase.task.spec)
            && (phase.Delivered? ==> phase.task.spec.Analysis?)
  {
    if log != [] {
      var front := log[..|log| - 1];
      PhaseKeepsTheSpec(cfg, front);
      var phase := PhaseOf(cfg, front);
      if phase.Working? {
        OnlyAnalysisProduces(cfg.handler, cfg.node, phase.wire);
      }
    }
  }

  ghost predicate IsCompleted(log: seq<Entry>, task: Task) {
    exists output :: Finished(task, Completed(output)) in log
  }

  // The range has been shipped and is being counted, or its count has been forwarded.
  ghost predicate OnTheWay(cfg: Config, log: seq<Entry>, task: Task) {
    var phase := PhaseOf(cfg, log);
    IsCompleted(log, task)
    || ((phase.Sent? || phase.Working?) && phase.task == task && phase.wire.WirePrimes?)
  }

  // Of a range, a failure can only have been injected.
  lemma RangesFailOnlyByInjection(cfg: Config, wire: WireSpec, reason: FailureReason, detail: string)
    requires wire.WirePrimes? && Excused(cfg.handler, cfg.node, wire, reason, detail)
    ensures reason.Injected?
  {
  }

  lemma EntryKeepsTheWay(cfg: Config, log: seq<Entry>, e: Entry, task: Task)
    requires OnTheWay(cfg, log, task) && PhaseOf(cfg, log + [e]) != Broken
    requires e.Finished? && e.outcome.Failed? ==> !e.outcome.reason.Injected?
    ensures OnTheWay(cfg, log + [e], task)
  {
    hide Excused, Answer, PhaseOf;
    PhaseAppend(cfg, log, e);
    assert e in log + [e];
    if IsCompleted(log, task) {
      var output :| Finished(task, Completed(output)) in log;
      assert Finished(task, Completed(output)) in log + [e];
    } else if PhaseOf(cfg, log).Working? {
      var wire := PhaseOf(cfg, log).wire;
      OnlyAnalysisProduces(cfg.handler, cfg.node, wire);
      if e.Finished? && e.outcome.Failed? {
        RangesFailOnlyByInjection(cfg, wire, e.outcome.reason, e.outcome.detail);
      }
    }
  }

  lemma StepKeepsTheWay(cfg: Config, l: Link, step: Step, task: Task)
    requires Inv(cfg, l) && Enabled(cfg, l, step) && !step.Inbox? && Unharmed(l) && OnTheWay(cfg, l.log, task)
    ensures OnTheWay(cfg, Next(cfg, l, step).log, task)
  {
    hide OnTheWay, PhaseOf, TurnOf, TurnOverflows, Introduced, InHand;
    StepKeeps(cfg, l, step);
    var next := Next(cfg, l, step);
    assert PhaseOf(cfg, next.log) != Broken;
    match step
    case Arrive(now) =>
      var entries := ArrivalEntries(l.agent, l.down[0]);
      assert l.log + [] == l.log;
      if entries != [] {
        assert l.log + entries == l.log + [entries[0]];
        EntryKeepsTheWay(cfg, l.log, entries[0], task);
      }
    case Poll(now) =>
    case Frame =>
      var entries := FrameEntries(l.up[0], OnFrame(cfg.node, cfg.hasStore, l.held, l.up[0]));
      assert l.log + [] == l.log;
      if entries != [] {
        assert l.log + entries == l.log + [entries[0]];
        NotInjected(cfg, l);
        EntryKeepsTheWay(cfg, l.log, entries[0], task);
      }
  }

  lemma NotInjected(cfg: Config, l: Link)
    requires Unharmed(l) && l.up != []
    ensures var entries := FrameEntries(l.up[0], OnFrame(cfg.node, cfg.hasStore, l.held, l.up[0]));
            forall i :: 0 <= i < |entries| && entries[i].Finished? && entries[i].outcome.Failed? ==>
              !entries[i].outcome.reason.Injected?
  {
    hide Filter, Verify;
    assert l.up == [l.up[0]] + l.up[1..];
    FilterConcat([l.up[0]], l.up[1..], IsInjected);
    FilterShort([l.up[0]], IsInjected);
  }

  lemma {:induction false} StageKeepsTheWay(cfg: Config, l: Link, steps: seq<Step>, task: Task)
    requires Inv(cfg, l) && IsRun(cfg, l, steps) && NoInbox(steps) && Unharmed(l) && OnTheWay(cfg, l.log, task)
    ensures Unharmed(After(cfg, l, steps)) && OnTheWay(cfg, After(cfg, l, steps).log, task)
    decreases |steps|
  {
    hide Inv, Next, Enabled, Unharmed, OnTheWay;
    if steps != [] {
      StepKeepsTheWay(cfg, l, steps[0], task);
      StepKeepsUnharmed(cfg, l, steps[0]);
      StepKeeps(cfg, l, steps[0]);
      StageKeepsTheWay(cfg, Next(cfg, l, steps[0]), steps[1..], task);
    }
  }

  lemma HeldIsOnTheWay(cfg: Config, l: Link)
    requires Inv(cfg, l) && l.held.Some? && l.held.value.spec.PrimeRange?
    ensures OnTheWay(cfg, l.log, l.held.value)
  {
    hide PhaseOf, InHand, Introduced;
    PhaseKeepsTheSpec(cfg, l.log);
  }

  // ---------- main results ----------

  // From every state a disciplined run of spared ranges reaches: what is queued can be delivered, and the worker polled
  // at any times. If that is as often as its task needs, at or after its ready time, reading what it sent leaves no
  // task held and every shipment finished; and a range that was held is completed, unless a failure was injected.
  lemma HeldTaskIsReleased(cfg: Config, interval: u64, beat: u64, steps: seq<Step>, now: u64, times: seq<u64>)
    requires IsRun(cfg, Initial(cfg, interval, beat), steps) && Disciplined(cfg, Initial(cfg, interval, beat), steps)
    requires forall i :: 0 <= i < |steps| ==> SparesStep(steps[i])
    requires var l := After(cfg, Initial(cfg, interval, beat), steps);
             IsRun(cfg, l, Deliveries(|l.down|, now)) ==>
               EnoughFor(After(cfg, l, Deliveries(|l.down|, now)).agent, times)
    ensures var l := After(cfg, Initial(cfg, interval, beat), steps);
            && IsRun(cfg, l, Deliveries(|l.down|, now))
            && (var l1 := After(cfg, l, Deliveries(|l.down|, now));
                && IsRun(cfg, l1, Polls(times))
                && (var l2 := After(cfg, l1, Polls(times));
                    && IsRun(cfg, l2, Frames(|l2.up|))
                    && (var l3 := After(cfg, l2, Frames(|l2.up|));
                        && l3.held.None? && ShippedCount(l3.log) == FinishedCount(l3.log)
                        && (l.held.Some? && l.held.value.spec.PrimeRange? && Unharmed(l) ==>
                              IsCompleted(l3.log, l.held.value)))))
  {
    hide IsRun, After, Inv, Next, Disciplined, PhaseOf, Initial, Clear, Unharmed, OnTheWay, SparesStep, EnoughFor;
    var l0 := Initial(cfg, interval, beat);
    InitialHolds(cfg, interval, beat);
    InitialIsClear(cfg, interval, beat);
    RunKeeps(cfg, l0, steps);
    RunKeepsClear(cfg, l0, steps);
    var l := After(cfg, l0, steps);
    ClearLinksDeliver(cfg, l, now);
    ClearLinksPoll(cfg, After(cfg, l, Deliveries(|l.down|, now)), times);
    Settles(cfg, l, now, times);
  }

  lemma InitialIsClear(cfg: Config, interval: u64, beat: u64)
    ensures Clear(Initial(cfg, interval, beat))
  {
  }

  // The polls are as many as the worker's task needs, at or after its ready time.
  predicate EnoughFor(s: Agent.State, times: seq<u64>) {
    s.running.Some? ==>
      |times| >= PollsNeeded(s) && forall i :: 0 <= i < |times| ==> s.running.value.readyAt <= times[i]
  }

  // The same of any state both ends agree on, whatever was assigned, as long as the worker takes the deliveries and
  // the polls.
  lemma Settles(cfg: Config, l: Link, now: u64, times: seq<u64>)
    requires Inv(cfg, l) && IsRun(cfg, l, Deliveries(|l.down|, now))
    requires var l1 := After(cfg, l, Deliveries(|l.down|, now));
             IsRun(cfg, l1, Polls(times)) && EnoughFor(l1.agent, times)
    ensures var l2 := After(cfg, After(cfg, l, Deliveries(|l.down|, now)), Polls(times));
            && IsRun(cfg, l2, Frames(|l2.up|))
            && (var l3 := After(cfg, l2, Frames(|l2.up|));
                && l3.held.None? && ShippedCount(l3.log) == FinishedCount(l3.log)
                && (l.held.Some? && l.held.value.spec.PrimeRange? && Unharmed(l) ==>
                      IsCompleted(l3.log, l.held.value)))
  {
    DeliveriesEmptyTheQueue(cfg, l, now);
    PollsFinishTheTask(cfg, After(cfg, l, Deliveries(|l.down|, now)), times);
    hide IsRun, After, Inv, Next, PhaseOf, Clear, Unharmed, OnTheWay, IsCompleted;
    var l1 := StageKeeps(cfg, l, Deliveries(|l.down|, now));
    var l2 := StageKeeps(cfg, l1, Polls(times));
    FramesEmptyTheQueue(cfg, l2);
    var l3 := StageKeeps(cfg, l2, Frames(|l2.up|));
    QuietHoldsNothing(cfg, l3);
    UnbrokenHistory(cfg, l3.log);
    if l.held.Some? && l.held.value.spec.PrimeRange? && Unharmed(l) {
      var task := l.held.value;
      HeldIsOnTheWay(cfg, l);
      StageKeepsTheWay(cfg, l, Deliveries(|l.down|, now), task);
      StageKeepsTheWay(cfg, l1, Polls(times), task);
      StageKeepsTheWay(cfg, l2, Frames(|l2.up|), task);
      IdleIsCompleted(cfg, l3.log, task);
    }
  }

  lemma IdleIsCompleted(cfg: Config, log: seq<Entry>, task: Task)
    requires OnTheWay(cfg, log, task) && PhaseOf(cfg, log).Idle?
    ensures IsCompleted(log, task)
  {
  }
}
