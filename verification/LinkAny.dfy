/** The same connection under any assignments at all, overlapping and repeated ones included. */
module LinkAny {
  import opened Base
  import opened Jobs
  import opened Digest
  import opened Wire
  import Agent
  import opened AgentRuns
  import opened Connection
  import opened Link

  // ---------- conservation ----------

  function ShippedFor(p: Which): Entry -> bool { (e: Entry) => e.Shipped? && p(e.task.id) }
  function FinishedFor(p: Which): Entry -> bool { (e: Entry) => e.Finished? && p(e.task.id) }
  function AbsorbedFor(p: Which): Entry -> bool { (e: Entry) => e.Absorbed? && p(e.id) }
  function DroppedFor(p: Which): Entry -> bool { (e: Entry) => e.DroppedFinish? && p(e.id) }

  function AssignsFor(p: Which): SupervisorMessage -> bool { (m: SupervisorMessage) => m.Assign? && p(m.task) }

  function AssignedIn(down: seq<SupervisorMessage>, p: Which): nat { |Filter(down, AssignsFor(p))| }

  // Where the assignments shipped for the chosen tasks are now: queued, held, reported, forwarded,
  // absorbed as duplicates, or dropped as stale.
  ghost predicate Conserved(l: Link, p: Which) {
    Count(l.log, ShippedFor(p))
    == AssignedIn(l.down, p) + Holding(l.agent, p) + FinishedIn(l.up, p)
       + Count(l.log, FinishedFor(p)) + Count(l.log, AbsorbedFor(p)) + Count(l.log, DroppedFor(p))
  }

  lemma CountsAfter(log: seq<Entry>, e: Entry, p: Which)
    ensures Count(log + [e], ShippedFor(p)) == Count(log, ShippedFor(p)) + (if e.Shipped? && p(e.task.id) then 1 else 0)
    ensures Count(log + [e], FinishedFor(p))
         == Count(log, FinishedFor(p)) + (if e.Finished? && p(e.task.id) then 1 else 0)
    ensures Count(log + [e], AbsorbedFor(p)) == Count(log, AbsorbedFor(p)) + (if e.Absorbed? && p(e.id) then 1 else 0)
    ensures Count(log + [e], DroppedFor(p))
         == Count(log, DroppedFor(p)) + (if e.DroppedFinish? && p(e.id) then 1 else 0)
  {
    assert (log + [e])[..|log|] == log;
  }

  lemma InboxConserves(cfg: Config, l: Link, message: NodeInbox, input: Option<Bytes>, p: Which)
    requires Conserved(l, p) && (cfg.hasStore || input.None?)
    ensures Conserved(Next(cfg, l, Inbox(message, input)), p)
  {
    hide RefusalText, Count, NewArtifact;
    var r := OnInbox(cfg.node, l.held, message, input);
    if r.out.Some? {
      FilterConcat(l.down, [r.out.value], AssignsFor(p));
    } else {
      assert l.down + [] == l.down;
    }
    if message.InboxAssign? {
      CountsAfter(l.log, InboxEntries(message, input)[0], p);
    } else {
      assert l.log + [] == l.log;
    }
  }

  lemma ArriveConserves(cfg: Config, l: Link, now: u64, p: Which)
    requires Conserved(l, p) && Introduced(cfg, l) && Enabled(cfg, l, Arrive(now))
    ensures Conserved(Next(cfg, l, Arrive(now)), p)
  {
    hide Count, TurnOf, TurnOverflows;
    var m := l.down[0];
    var e := Deliver(m, now);
    TurnLedger(cfg.handler, l.agent, e, p);
    FilterConcat(l.up, TurnOf(cfg.handler, l.agent, e).sent, Finishes(p));
    var entries := ArrivalEntries(l.agent, m);
    if entries != [] {
      CountsAfter(l.log, entries[0], p);
      assert l.log + entries == l.log + [entries[0]];
    } else {
      assert l.log + entries == l.log;
    }
  }

  lemma PollConserves(cfg: Config, l: Link, now: u64, p: Which)
    requires Conserved(l, p) && Enabled(cfg, l, Step.Poll(now))
    ensures Conserved(Next(cfg, l, Step.Poll(now)), p)
  {
    hide Count, TurnOf, TurnOverflows;
    TurnLedger(cfg.handler, l.agent, Tick(now), p);
    FilterConcat(l.up, TurnOf(cfg.handler, l.agent, Tick(now)).sent, Finishes(p));
  }

  lemma FrameConserves(cfg: Config, l: Link, p: Which)
    requires Conserved(l, p) && l.up != []
    ensures Conserved(Next(cfg, l, Frame), p)
  {
    hide Count, Verify, Filter;
    assert l.up == [l.up[0]] + l.up[1..];
    FilterConcat([l.up[0]], l.up[1..], Finishes(p));
    FilterShort([l.up[0]], Finishes(p));
    var r := OnFrame(cfg.node, cfg.hasStore, l.held, l.up[0]);
    var entries := FrameEntries(l.up[0], r);
    if entries != [] {
      CountsAfter(l.log, entries[0], p);
      assert l.log + entries == l.log + [entries[0]];
    } else {
      assert l.log + entries == l.log;
    }
  }

  lemma {:induction false} RunConserves(cfg: Config, l: Link, steps: seq<Step>, p: Which)
    requires Conserved(l, p) && Introduced(cfg, l) && IsRun(cfg, l, steps)
    ensures Conserved(After(cfg, l, steps), p)
    decreases |steps|
  {
    hide Conserved, Next, Introduced;
    if steps != [] {
      IntroducedKeeps(cfg, l, steps[0]);
      match steps[0] {
        case Inbox(message, input) => InboxConserves(cfg, l, message, input, p);
        case Arrive(now) => ArriveConserves(cfg, l, now, p);
        case Poll(now) => PollConserves(cfg, l, now, p);
        case Frame => FrameConserves(cfg, l, p);
      }
      RunConserves(cfg, Next(cfg, l, steps[0]), steps[1..], p);
    }
  }

  // Over every run whatever: each assignment shipped is accounted for exactly once, so a task is never
  // reported finished more often than it was shipped.
  lemma FinishesNeverExceedShipments(cfg: Config, interval: u64, beat: u64, steps: seq<Step>, p: Which)
    requires IsRun(cfg, Initial(cfg, interval, beat), steps)
    ensures var l := After(cfg, Initial(cfg, interval, beat), steps);
            Conserved(l, p) && Count(l.log, FinishedFor(p)) <= Count(l.log, ShippedFor(p))
  {
    var l := Initial(cfg, interval, beat);
    assert AssignedIn(l.down, p) == AssignedIn(l.down[1..], p) == 0;
    RunConserves(cfg, l, steps, p);
  }

  // ---------- answers ----------

  // Task ids name one spec for good.
  type Naming = TaskId -> TaskSpec

  predicate Named(names: Naming, step: Step) {
    step.Inbox? && step.message.InboxAssign? ==> step.message.task.spec == names(step.message.task.id)
  }

  // The assignments that went out.
  ghost function ShippedIn(cfg: Config, log: seq<Entry>): Given {
    iset task: Task, wire: WireSpec | Shipped(task, wire) in log :: (cfg.node, task.id, wire)
  }

  // The history tells the truth about results: what was stored under a spec, and what completed, is the answer
  // to an assignment of that task that went out.
  ghost predicate EntryAnswers(h: Option<Handler>, names: Naming, given: Given, e: Entry) {
    match e
    case Stored(id, spec, bytes) =>
      spec == names(id) && exists output :: Asked(h, given, id, Produce(output, bytes))
    case Finished(task, Completed(output)) =>
      task.spec == names(task.id) && exists work :: Asked(h, given, task.id, work) && work.output == output
    case Finished(task, Failed(reason, detail)) => FailureExcused(h, given, task.id, reason, detail)
    case _ => true
  }

  ghost predicate Truthful(cfg: Config, names: Naming, l: Link) {
    var given := ShippedIn(cfg, l.log);
    && (forall node, id, wire :: (node, id, wire) in given ==> FromWire(wire) == names(id))
    && (l.held.Some? ==> l.held.value.spec == names(l.held.value.id))
    && (forall i :: 0 <= i < |l.down| && l.down[i].Assign? ==> (cfg.node, l.down[i].task, l.down[i].spec) in given)
    && RunningAnswers(cfg.handler, given, l.agent)
    && AllAnswer(cfg.handler, given, l.up)
    && (forall i :: 0 <= i < |l.log| ==> EntryAnswers(cfg.handler, names, given, l.log[i]))
  }

  lemma MessageAnswersGrows(h: Option<Handler>, a: Given, b: Given, m: NodeMessage)
    requires a <= b && MessageAnswers(h, a, m)
    ensures MessageAnswers(h, b, m)
  {
  }

  lemma EntryAnswersGrows(h: Option<Handler>, names: Naming, a: Given, b: Given, e: Entry)
    requires a <= b && EntryAnswers(h, names, a, e)
    ensures EntryAnswers(h, names, b, e)
  {
  }

  lemma RunningAnswersGrows(h: Option<Handler>, a: Given, b: Given, s: Agent.State)
    requires a <= b && RunningAnswers(h, a, s)
    ensures RunningAnswers(h, b, s)
  {
  }

  // Growing the history by something that is not a result.
  lemma LogGrows(cfg: Config, names: Naming, l: Link, log: seq<Entry>)
    requires Truthful(cfg, names, l) && l.log <= log
    requires forall i :: |l.log| <= i < |log| ==> !log[i].Stored? && !log[i].Finished?
    requires forall node, id, wire :: (node, id, wire) in ShippedIn(cfg, log) ==> FromWire(wire) == names(id)
    ensures Truthful(cfg, names, l.(log := log))
  {
    hide Asked, Answer, MessageAnswers, EntryAnswers, RunningAnswers, FromWire;
    var a, b := ShippedIn(cfg, l.log), ShippedIn(cfg, log);
    assert a <= b;
    RunningAnswersGrows(cfg.handler, a, b, l.agent);
    forall i | 0 <= i < |l.up|
      ensures MessageAnswers(cfg.handler, b, l.up[i])
    {
      MessageAnswersGrows(cfg.handler, a, b, l.up[i]);
    }
    forall i | 0 <= i < |log|
      ensures EntryAnswers(cfg.handler, names, b, log[i])
    {
      if i < |l.log| {
        assert log[i] == l.log[i];
        EntryAnswersGrows(cfg.handler, names, a, b, l.log[i]);
      } else {
        PlainEntryAnswers(cfg.handler, names, b, log[i]);
      }
    }
  }

  lemma PlainEntryAnswers(h: Option<Handler>, names: Naming, given: Given, e: Entry)
    requires !e.Stored? && !e.Finished?
    ensures EntryAnswers(h, names, given, e)
  {
  }

  lemma InboxTruthful(cfg: Config, names: Naming, l: Link, message: NodeInbox, input: Option<Bytes>)
    requires Truthful(cfg, names, l) && Named(names, Inbox(message, input)) && (cfg.hasStore || input.None?)
    ensures Truthful(cfg, names, Next(cfg, l, Inbox(message, input)))
  {
    hide Asked, Answer, AllAnswer, EntryAnswers, RunningAnswers, RefusalText, NewArtifact;
    var r := OnInbox(cfg.node, l.held, message, input);
    var log := l.log + InboxEntries(message, input);
    if message.InboxAssign? {
      WireKeepsTheTask(message.task.spec, input);
    }
    assert forall e :: e in log ==> e in l.log || e in InboxEntries(message, input);
    LogGrows(cfg, names, l, log);
    if r.out.Some? && r.out.value.Assign? {
      assert Shipped(message.task, r.out.value.spec) in log;
    }
  }

  lemma TurnTruthful(cfg: Config, names: Naming, l: Link, e: Event, log: seq<Entry>, down: seq<SupervisorMessage>)
    requires Truthful(cfg, names, l) && Introduced(cfg, l) && l.log <= log
    requires forall i :: |l.log| <= i < |log| ==> log[i].Absorbed? || log[i].Bounced?
    requires e.Deliver? ==> l.down != [] && e.message == l.down[0] && down == l.down[1..]
    requires e.Tick? ==> down == l.down
    ensures var t := TurnOf(cfg.handler, l.agent, e);
            Truthful(cfg, names, l.(agent := t.next, down := down, up := l.up + t.sent, log := log))
  {
    hide Asked, Answer, MessageAnswers, EntryAnswers, RunningAnswers, TurnOf;
    var given := ShippedIn(cfg, l.log);
    assert GivenAt(l.agent, e) <= given;
    TurnKeepsAnswers(cfg.handler, given, l.agent, e);
    var t := TurnOf(cfg.handler, l.agent, e);
    var l1 := l.(agent := t.next, down := down, up := l.up + t.sent);
    assert Truthful(cfg, names, l1);
    assert forall x :: x in log && x.Shipped? ==> x in l.log;
    LogGrows(cfg, names, l1, log);
  }

  lemma FrameTruthful(cfg: Config, names: Naming, l: Link)
    requires Truthful(cfg, names, l) && l.up != []
    ensures Truthful(cfg, names, Next(cfg, l, Frame))
  {
    hide Asked, Answer, RunningAnswers, FromWire;
    var m := l.up[0];
    var r := OnFrame(cfg.node, cfg.hasStore, l.held, m);
    var entries := FrameEntries(m, r);
    var log := l.log + entries;
    var given := ShippedIn(cfg, l.log);
    assert forall e :: e in log && e.Shipped? ==> e in l.log;
    assert ShippedIn(cfg, log) == given;
    assert MessageAnswers(cfg.handler, given, m);
    if entries != [] {
      ForwardedAnswers(cfg, names, l, m);
    }
    assert forall i :: 0 <= i < |l.up[1..]| ==> l.up[1..][i] == l.up[i + 1];
  }

  lemma ForwardedAnswers(cfg: Config, names: Naming, l: Link, m: NodeMessage)
    requires l.held.Some? ==> l.held.value.spec == names(l.held.value.id)
    requires MessageAnswers(cfg.handler, ShippedIn(cfg, l.log), m)
    requires FrameEntries(m, OnFrame(cfg.node, cfg.hasStore, l.held, m)) != []
    ensures EntryAnswers(cfg.handler, names, ShippedIn(cfg, l.log),
                         FrameEntries(m, OnFrame(cfg.node, cfg.hasStore, l.held, m))[0])
  {
    hide Asked, Answer, ShippedIn;
  }

  lemma {:induction false} RunTruthful(cfg: Config, names: Naming, l: Link, steps: seq<Step>)
    requires Truthful(cfg, names, l) && Introduced(cfg, l) && IsRun(cfg, l, steps)
    requires forall i :: 0 <= i < |steps| ==> Named(names, steps[i])
    ensures Truthful(cfg, names, After(cfg, l, steps))
    decreases |steps|
  {
    hide Truthful, Named, OnInbox, OnFrame, TurnOf, TurnOverflows, Introduced;
    if steps != [] {
      IntroducedKeeps(cfg, l, steps[0]);
      match steps[0] {
        case Inbox(message, input) => InboxTruthful(cfg, names, l, message, input);
        case Arrive(now) =>
          TurnTruthful(cfg, names, l, Deliver(l.down[0], now), l.log + ArrivalEntries(l.agent, l.down[0]), l.down[1..]);
        case Poll(now) => TurnTruthful(cfg, names, l, Tick(now), l.log, l.down);
        case Frame => FrameTruthful(cfg, names, l);
      }
      RunTruthful(cfg, names, Next(cfg, l, steps[0]), steps[1..]);
    }
  }

  lemma EveryLogIsTruthful(cfg: Config, names: Naming, interval: u64, beat: u64, steps: seq<Step>)
    requires IsRun(cfg, Initial(cfg, interval, beat), steps)
    requires forall k :: 0 <= k < |steps| ==> Named(names, steps[k])
    ensures Truthful(cfg, names, After(cfg, Initial(cfg, interval, beat), steps))
  {
    hide IsRun, After, Next, Enabled, Truthful, Introduced, Initial, Named;
    InitialIsTruthful(cfg, names, interval, beat);
    RunTruthful(cfg, names, Initial(cfg, interval, beat), steps);
  }

  lemma InitialIsTruthful(cfg: Config, names: Naming, interval: u64, beat: u64)
    ensures Truthful(cfg, names, Initial(cfg, interval, beat)) && Introduced(cfg, Initial(cfg, interval, beat))
  {
  }

  // What answers a task in the history answers a shipment of it, under this worker's identity.
  lemma WhatWasAsked(cfg: Config, names: Naming, l: Link, id: TaskId, work: TaskWork)
    returns (task: Task, wire: WireSpec)
    requires Truthful(cfg, names, l) && Asked(cfg.handler, ShippedIn(cfg, l.log), id, work)
    ensures Shipped(task, wire) in l.log && task.id == id && FromWire(wire) == names(id)
    ensures Answer(cfg.handler, cfg.node, wire) == Some(work)
  {
    hide Answer, FromWire, RunningAnswers, AllAnswer, EntryAnswers;
    var node, w :| (node, id, w) in ShippedIn(cfg, l.log) && Answer(cfg.handler, node, w) == Some(work);
    task, wire :| Shipped(task, wire) in l.log && (cfg.node, task.id, wire) == (node, id, w);
  }

  lemma ProducedByTheHandler(h: Option<Handler>, node: NodeId, wire: WireSpec, output: string, bytes: Bytes)
    requires Answer(h, node, wire) == Some(Produce(output, bytes))
    ensures h.Some? && WireInput(wire).Some?
    ensures h.value(node, FromWire(wire), WireInput(wire).value) == Some(Produce(output, bytes))
  {
  }

  // Over every run whatever: bytes handed to the store under a spec were computed by this worker's handler, under
  // this worker's identity, for that very spec and from the input that was shipped with that very task.
  lemma StoredBytesBelongToTheSpec(cfg: Config, names: Naming, interval: u64, beat: u64, steps: seq<Step>, i: nat)
    requires IsRun(cfg, Initial(cfg, interval, beat), steps)
    requires forall k :: 0 <= k < |steps| ==> Named(names, steps[k])
    requires i < |After(cfg, Initial(cfg, interval, beat), steps).log|
    requires After(cfg, Initial(cfg, interval, beat), steps).log[i].Stored?
    ensures var l := After(cfg, Initial(cfg, interval, beat), steps);
            cfg.handler.Some?
            && exists task, wire, output ::
                 Shipped(task, wire) in l.log && task.id == l.log[i].id && FromWire(wire) == l.log[i].spec
                 && WireInput(wire).Some?
                 && cfg.handler.value(cfg.node, l.log[i].spec, WireInput(wire).value)
                    == Some(Produce(output, l.log[i].bytes))
  {
    hide IsRun, After, Initial, Answer, RunningAnswers, AllAnswer;
    var l := After(cfg, Initial(cfg, interval, beat), steps);
    EveryLogIsTruthful(cfg, names, interval, beat, steps);
    var e := l.log[i];
    assert EntryAnswers(cfg.handler, names, ShippedIn(cfg, l.log), e);
    var output :| Asked(cfg.handler, ShippedIn(cfg, l.log), e.id, Produce(output, e.bytes));
    var task, wire := WhatWasAsked(cfg, names, l, e.id, Produce(output, e.bytes));
    ProducedByTheHandler(cfg.handler, cfg.node, wire, output, e.bytes);
  }
}
