/** What holds over every run of messages and polls of a worker. */
module AgentRuns {
  import opened Base
  import opened Jobs
  import opened Digest
  import opened Primes
  import opened Wire
  import opened Agent

  datatype Event = Deliver(message: SupervisorMessage, now: u64) | Tick(now: u64)

  ghost function TurnOf(h: Option<Handler>, s: State, e: Event): Turn {
    match e
    case Deliver(message, now) => Handle(h, s, message, now)
    case Tick(now) => Poll(s, now)
  }

  ghost function RunState(h: Option<Handler>, s: State, es: seq<Event>): State
    decreases |es|
  {
    if es == [] then s else RunState(h, TurnOf(h, s, es[0]).next, es[1..])
  }

  ghost function RunSent(h: Option<Handler>, s: State, es: seq<Event>): seq<NodeMessage>
    decreases |es|
  {
    if es == [] then []
    else var t := TurnOf(h, s, es[0]); t.sent + RunSent(h, t.next, es[1..])
  }

  // ---------- overflow ----------

  ghost predicate TurnOverflows(h: Option<Handler>, s: State, e: Event) {
    match e
    case Deliver(message, now) => HandleOverflows(h, s, message, now)
    case Tick(_) => Overflows(s)
  }

  // No turn of the run counts a prime on which the trial division overflows. Such runs are the ones the step
  // functions describe.
  ghost predicate Sound(h: Option<Handler>, s: State, es: seq<Event>)
    decreases |es|
  {
    es == [] || (!TurnOverflows(h, s, es[0]) && Sound(h, TurnOf(h, s, es[0]).next, es[1..]))
  }

  ghost predicate SparesRunning(s: State) { Computing(s) ==> Spared(s.running.value.work.end) }

  ghost predicate SparesMessage(m: SupervisorMessage) { m.Assign? && m.spec.WirePrimes? ==> Spared(m.spec.end) }

  lemma SparedPoll(s: State, now: u64)
    requires SparesRunning(s)
    ensures !Overflows(s) && SparesRunning(Poll(s, now).next)
  {
    if Computing(s) {
      var w := s.running.value.work;
      SparedWithin(w.cursor, Min(SatAdd(w.cursor, COMPUTE_SLICE), w.end), w.end);
    }
  }

  lemma SparedTurn(h: Option<Handler>, s: State, e: Event)
    requires SparesRunning(s) && (e.Deliver? ==> SparesMessage(e.message))
    ensures !TurnOverflows(h, s, e) && SparesRunning(TurnOf(h, s, e).next)
  {
    hide Poll, StartWork, Spared, Overflows, CannotRun;
    if e.Tick? {
      SparedPoll(s, e.now);
    } else if e.message.Assign? {
      if s.id.Some? && s.running.None? && StartWork(h, s.id.value, e.message.spec).Some? {
        var (wait, work) := StartWork(h, s.id.value, e.message.spec).value;
        StartedRange(h, s.id.value, e.message.spec);
        SparedPoll(Begun(s, e.message.task, wait, work, e.now), e.now);
      }
    } else if !e.message.Rejected? && !e.message.Shutdown? {
      SparedPoll(Told(s, e.message, e.now), e.now);
      SparedPoll(s, e.now);
    }
  }

  lemma StartedRange(h: Option<Handler>, node: NodeId, wire: WireSpec)
    ensures StartWork(h, node, wire).Some? && StartWork(h, node, wire).value.1.Counting? ==>
              wire.WirePrimes? && StartWork(h, node, wire).value.1.end == wire.end
  {
  }

  // A worker handed no range with such a prime in it never overflows, however it is polled.
  lemma {:induction false} SparedRunsAreSound(h: Option<Handler>, s: State, es: seq<Event>)
    requires SparesRunning(s) && forall i :: 0 <= i < |es| && es[i].Deliver? ==> SparesMessage(es[i].message)
    ensures Sound(h, s, es)
    decreases |es|
  {
    hide TurnOf, TurnOverflows, SparesRunning, SparesMessage;
    if es != [] {
      SparedTurn(h, s, es[0]);
      SparedRunsAreSound(h, TurnOf(h, s, es[0]).next, es[1..]);
    }
  }

  // ---------- the ledger ----------

  // Tasks are counted by a predicate on their id, so one law covers a single task and all of them.
  type Which = TaskId -> bool

  function Finishes(p: Which): NodeMessage -> bool { (m: NodeMessage) => m.TaskFinished? && p(m.task) }

  function FinishedIn(ms: seq<NodeMessage>, p: Which): nat { |Filter(ms, Finishes(p))| }

  function Holding(s: State, p: Which): nat {
    if s.running.Some? && p(s.running.value.id) then 1 else 0
  }

  // An assignment this worker has the identity to act on.
  predicate IsHandled(s: State, e: Event, p: Which) {
    e.Deliver? && e.message.Assign? && s.id.Some? && p(e.message.task)
  }

  // One it absorbs, because the same task is already running here.
  predicate IsAbsorbed(s: State, e: Event, p: Which) {
    IsHandled(s, e, p) && s.running.Some? && s.running.value.id == e.message.task
  }

  // What a poll sends, seen through any filter: the report if one is due, and the heartbeat if one is.
  lemma PollSends(s: State, now: u64, p: NodeMessage -> bool)
    ensures var a := Advance(s); var b := Settle(a, now);
            var report := if Due(a, now) then ReportOf(a.running.value) else [];
            Filter(Poll(s, now).sent, p)
            == (if |report| > 0 && p(report[0]) then [report[0]] else [])
               + (if |report| > 1 && p(report[1]) then [report[1]] else [])
               + (if BeatDue(b, now) && p(Heartbeat(b.id.value, Load(b), now))
                  then [Heartbeat(b.id.value, Load(b), now)] else [])
  {
    hide Filter, Advance;
    var a := Advance(s);
    var b := Settle(a, now);
    var report := if Due(a, now) then ReportOf(a.running.value) else [];
    var beat := if BeatDue(b, now) then [Heartbeat(b.id.value, Load(b), now)] else [];
    FilterConcat(report, beat, p);
    FilterShort(report, p);
    FilterShort(beat, p);
  }

  lemma PollLedger(s: State, now: u64, p: Which)
    ensures Holding(s, p) == Holding(Poll(s, now).next, p) + FinishedIn(Poll(s, now).sent, p)
  {
    hide Filter;
    PollSends(s, now, Finishes(p));
  }

  // One turn: what comes in is finished, absorbed, or still held.
  lemma TurnLedger(h: Option<Handler>, s: State, e: Event, p: Which)
    ensures var t := TurnOf(h, s, e);
            Holding(s, p) + (if IsHandled(s, e, p) then 1 else 0)
            == Holding(t.next, p) + FinishedIn(t.sent, p) + (if IsAbsorbed(s, e, p) then 1 else 0)
  {
    hide Poll, StartWork;
    match e
    case Tick(now) => PollLedger(s, now, p);
    case Deliver(m, now) =>
      if m.Assign? {
        AcceptLedger(h, s, m.task, m.spec, now, p);
      } else if !m.Rejected? && !m.Shutdown? {
        PollLedger(Told(s, m, now), now, p);
      }
  }

  lemma AcceptLedger(h: Option<Handler>, s: State, task: TaskId, wire: WireSpec, now: u64, p: Which)
    ensures var t := Accept(h, s, task, wire, now);
            Holding(s, p) + (if s.id.Some? && p(task) then 1 else 0)
            == Holding(t.next, p) + FinishedIn(t.sent, p)
               + (if s.id.Some? && p(task) && s.running.Some? && s.running.value.id == task then 1 else 0)
  {
    hide Poll, StartWork, Describe, Filter;
    var t := Accept(h, s, task, wire, now);
    if |t.sent| <= 2 {
      FilterShort(t.sent, Finishes(p));
    }
    if s.id.Some? && s.running.None? {
      assert t.sent == [TaskStarted(task)] + t.sent[1..];
      FilterConcat([TaskStarted(task)], t.sent[1..], Finishes(p));
      FilterShort([TaskStarted(task)], Finishes(p));
      if s.pendingFailures == 0 && StartWork(h, s.id.value, wire).Some? {
        var (wait, work) := StartWork(h, s.id.value, wire).value;
        var begun := Begun(s, task, wait, work, now);
        PollLedger(begun, now, p);
        assert t.sent[1..] == Poll(begun, now).sent;
      }
    }
  }

  ghost function HandledIn(h: Option<Handler>, s: State, es: seq<Event>, p: Which): nat
    decreases |es|
  {
    if es == [] then 0
    else (if IsHandled(s, es[0], p) then 1 else 0) + HandledIn(h, TurnOf(h, s, es[0]).next, es[1..], p)
  }

  ghost function AbsorbedIn(h: Option<Handler>, s: State, es: seq<Event>, p: Which): nat
    decreases |es|
  {
    if es == [] then 0
    else (if IsAbsorbed(s, es[0], p) then 1 else 0) + AbsorbedIn(h, TurnOf(h, s, es[0]).next, es[1..], p)
  }

  // Over every run: assignments handled = finishes sent + duplicates absorbed + the one still running,
  // for all tasks together and for each task by itself.
  lemma {:induction false} RunLedger(h: Option<Handler>, s: State, es: seq<Event>, p: Which)
    ensures Holding(s, p) + HandledIn(h, s, es, p)
         == FinishedIn(RunSent(h, s, es), p) + AbsorbedIn(h, s, es, p) + Holding(RunState(h, s, es), p)
    decreases |es|
  {
    hide TurnOf;
    if es != [] {
      var t := TurnOf(h, s, es[0]);
      TurnLedger(h, s, es[0], p);
      RunLedger(h, t.next, es[1..], p);
      FilterConcat(t.sent, RunSent(h, t.next, es[1..]), Finishes(p));
    }
  }

  // ---------- answers ----------

  // The assignments a worker has been given, with the identity it had then.
  type Given = iset<(NodeId, TaskId, WireSpec)>

  ghost function GivenAt(s: State, e: Event): Given {
    if e.Deliver? && e.message.Assign? && s.id.Some? then iset{(s.id.value, e.message.task, e.message.spec)} else iset{}
  }

  ghost function GivenIn(h: Option<Handler>, s: State, es: seq<Event>): Given
    decreases |es|
  {
    if es == [] then iset{} else GivenAt(s, es[0]) + GivenIn(h, TurnOf(h, s, es[0]).next, es[1..])
  }

  // Work on its way to the answer of the assignment it was begun for. Slicing a count does not change it.
  ghost predicate Toward(h: Option<Handler>, node: NodeId, wire: WireSpec, w: Work) {
    match w
    case Ready(output) =>
      var a := Answer(h, node, wire);
      a.Some? && !a.value.Produce? && a.value.output == output
    case Produced(output, artifact) => Answer(h, node, wire) == Some(Produce(output, artifact))
    case Counting(n, start, end, cursor, found) =>
      n == node && wire == WirePrimes(start, end) && found == PrimeCount(start, cursor)
      && start <= cursor && (cursor < end || cursor == start)
  }

  ghost predicate RunningAnswers(h: Option<Handler>, given: Given, s: State) {
    s.running.Some? ==>
      exists node, wire :: (node, s.running.value.id, wire) in given && Toward(h, node, wire, s.running.value.work)
  }

  // `work` is what some assignment of `task` that was given asks for.
  ghost predicate Asked(h: Option<Handler>, given: Given, task: TaskId, work: TaskWork) {
    exists node, wire :: (node, task, wire) in given && Answer(h, node, wire) == Some(work)
  }

  // The failures a worker may report of an assignment: injected, nobody here can run it, or too big to send.
  ghost predicate Excused(h: Option<Handler>, node: NodeId, wire: WireSpec, reason: FailureReason, detail: string) {
    var a := Answer(h, node, wire);
    || (reason == Injected && detail == INJECTED)
    || (reason == ExecutionError && a.None? && detail == CannotRun(wire))
    || (reason == ExecutionError && a.Some? && a.value.Produce? && |a.value.artifact| > MAX_ARTIFACT
        && detail == OversizeDetail(|a.value.artifact|))
  }

  // Or, of an assignment that came while another task was given, that the worker was busy.
  ghost predicate FailureExcused(h: Option<Handler>, given: Given, task: TaskId,
                                 reason: FailureReason, detail: string) {
    || (exists node, wire :: (node, task, wire) in given && Excused(h, node, wire, reason, detail))
    || (reason == ExecutionError && detail == BUSY
        && exists node, other, wire :: other != task && (node, other, wire) in given)
  }

  // A report is only ever the true answer of a given assignment of that same task.
  ghost predicate MessageAnswers(h: Option<Handler>, given: Given, m: NodeMessage) {
    match m
    case TaskFinished(task, Completed(output)) =>
      exists work :: Asked(h, given, task, work) && work.output == output
    case TaskFinished(task, Failed(reason, detail)) => FailureExcused(h, given, task, reason, detail)
    case TaskProduced(task, artifact) =>
      artifact == NewArtifact(artifact.bytes) && |artifact.bytes| <= MAX_ARTIFACT
      && exists output :: Asked(h, given, task, Produce(output, artifact.bytes))
    case _ => true
  }

  ghost predicate AllAnswer(h: Option<Handler>, given: Given, ms: seq<NodeMessage>) {
    forall i :: 0 <= i < |ms| ==> MessageAnswers(h, given, ms[i])
  }

  lemma SliceKeepsTheCount(h: Option<Handler>, node: NodeId, wire: WireSpec, w: Work)
    requires w.Counting? && Toward(h, node, wire, w)
    ensures Toward(h, node, wire, AdvanceWork(w))
  {
    var stop := Min(SatAdd(w.cursor, COMPUTE_SLICE), w.end);
    if w.cursor <= stop {
      PrimeCountSplits(w.start, w.cursor, stop);
    }
  }

  lemma AdvanceKeepsAnswers(h: Option<Handler>, given: Given, s: State)
    requires RunningAnswers(h, given, s)
    ensures RunningAnswers(h, given, Advance(s))
  {
    if Computing(s) {
      var node, wire :| (node, s.running.value.id, wire) in given && Toward(h, node, wire, s.running.value.work);
      SliceKeepsTheCount(h, node, wire, s.running.value.work);
    }
  }

  lemma ReportAnswers(h: Option<Handler>, given: Given, s: State)
    requires RunningAnswers(h, given, s) && s.running.Some? && !s.running.value.work.Counting?
    ensures AllAnswer(h, given, ReportOf(s.running.value))
  {
  }

  lemma PollKeepsAnswers(h: Option<Handler>, given: Given, s: State, now: u64)
    requires RunningAnswers(h, given, s)
    ensures RunningAnswers(h, given, Poll(s, now).next)
    ensures AllAnswer(h, given, Poll(s, now).sent)
  {
    hide Advance;
    AdvanceKeepsAnswers(h, given, s);
    var a := Advance(s);
    if Due(a, now) {
      ReportAnswers(h, given, a);
    }
  }

  lemma StartIsTowardTheAnswer(h: Option<Handler>, node: NodeId, wire: WireSpec)
    requires StartWork(h, node, wire).Some?
    ensures Toward(h, node, wire, StartWork(h, node, wire).value.1)
  {
  }

  lemma TurnKeepsAnswers(h: Option<Handler>, given: Given, s: State, e: Event)
    requires RunningAnswers(h, given, s)
    requires GivenAt(s, e) <= given
    ensures RunningAnswers(h, given, TurnOf(h, s, e).next)
    ensures AllAnswer(h, given, TurnOf(h, s, e).sent)
  {
    hide Poll, StartWork, Answer, Toward, Describe;
    match e
    case Tick(now) => PollKeepsAnswers(h, given, s, now);
    case Deliver(m, now) =>
      if m.Assign? {
        assert s.id.Some? ==> (s.id.value, m.task, m.spec) in GivenAt(s, e);
        AcceptKeepsAnswers(h, given, s, m.task, m.spec, now);
      } else if !m.Rejected? && !m.Shutdown? {
        PollKeepsAnswers(h, given, Told(s, m, now), now);
      }
  }

  lemma AcceptKeepsAnswers(h: Option<Handler>, given: Given, s: State, task: TaskId, wire: WireSpec, now: u64)
    requires RunningAnswers(h, given, s) && (s.id.Some? ==> (s.id.value, task, wire) in given)
    ensures RunningAnswers(h, given, Accept(h, s, task, wire, now).next)
    ensures AllAnswer(h, given, Accept(h, s, task, wire, now).sent)
  {
    hide Poll, StartWork, Answer, Toward, CannotRun, Excused;
    if s.id.Some? && s.running.None? {
      if s.pendingFailures > 0 {
        assert Excused(h, s.id.value, wire, Injected, INJECTED) by { InjectedIsExcused(h, s.id.value, wire); }
      } else if StartWork(h, s.id.value, wire).None? {
        CannotRunIsExcused(h, s.id.value, wire);
      } else {
        var (wait, work) := StartWork(h, s.id.value, wire).value;
        StartIsTowardTheAnswer(h, s.id.value, wire);
        var begun := Begun(s, task, wait, work, now);
        assert (s.id.value, begun.running.value.id, wire) in given
               && Toward(h, s.id.value, wire, begun.running.value.work);
        PollKeepsAnswers(h, given, begun, now);
      }
    }
  }

  lemma InjectedIsExcused(h: Option<Handler>, node: NodeId, wire: WireSpec)
    ensures Excused(h, node, wire, Injected, INJECTED)
  {
  }

  lemma CannotRunIsExcused(h: Option<Handler>, node: NodeId, wire: WireSpec)
    requires StartWork(h, node, wire).None?
    ensures Excused(h, node, wire, ExecutionError, CannotRun(wire))
  {
  }

  lemma {:induction false} RunKeepsAnswers(h: Option<Handler>, given: Given, s: State, es: seq<Event>)
    requires RunningAnswers(h, given, s) && GivenIn(h, s, es) <= given
    ensures AllAnswer(h, given, RunSent(h, s, es))
    decreases |es|
  {
    hide TurnOf, MessageAnswers, RunningAnswers, GivenAt;
    if es != [] {
      TurnKeepsAnswers(h, given, s, es[0]);
      RunKeepsAnswers(h, given, TurnOf(h, s, es[0]).next, es[1..]);
    }
  }

  // However messages and polls are scheduled, a worker reports only true answers: a completion carries the
  // output, and an artifact the bytes, of an assignment of that task, as computed under the worker's own identity;
  // and a failure has one of the four excuses.
  lemma EveryReportIsAnAnswer(h: Option<Handler>, id: Option<NodeId>, interval: u64, es: seq<Event>)
    ensures AllAnswer(h, GivenIn(h, Fresh(id, interval), es), RunSent(h, Fresh(id, interval), es))
  {
    RunKeepsAnswers(h, GivenIn(h, Fresh(id, interval), es), Fresh(id, interval), es);
  }

  // Every assignment of `task` among the events is of that spec.
  ghost predicate OnlyAs(es: seq<Event>, task: TaskId, spec: TaskSpec) {
    forall i :: 0 <= i < |es| && es[i].Deliver? && es[i].message.Assign? && es[i].message.task == task ==>
      FromWire(es[i].message.spec) == spec
  }

  lemma {:induction false} GivenOnlyAs(h: Option<Handler>, s: State, es: seq<Event>, task: TaskId, spec: TaskSpec)
    requires OnlyAs(es, task, spec)
    ensures forall node, wire :: (node, task, wire) in GivenIn(h, s, es) ==> FromWire(wire) == spec
    decreases |es|
  {
    hide TurnOf, FromWire;
    if es != [] {
      GivenOnlyAs(h, TurnOf(h, s, es[0]).next, es[1..], task, spec);
    }
  }

  // In particular a range counted in slices is reported exactly as one counted whole.
  lemma SlicedCountIsTheCount(h: Option<Handler>, id: Option<NodeId>, interval: u64, es: seq<Event>,
                              i: nat, task: TaskId, start: u64, end: u64)
    requires i < |RunSent(h, Fresh(id, interval), es)|
    requires RunSent(h, Fresh(id, interval), es)[i].TaskFinished?
             && RunSent(h, Fresh(id, interval), es)[i].task == task
             && RunSent(h, Fresh(id, interval), es)[i].outcome.Completed?
    requires OnlyAs(es, task, PrimeRange(start, end))
    ensures exists node, wire ::
              (node, task, wire) in GivenIn(h, Fresh(id, interval), es)
              && RunSent(h, Fresh(id, interval), es)[i].outcome.output
                 == PrimesOutput(node, start, end, PrimeCount(start, end))
  {
    var given := GivenIn(h, Fresh(id, interval), es);
    EveryReportIsAnAnswer(h, id, interval, es);
    GivenOnlyAs(h, Fresh(id, interval), es, task, PrimeRange(start, end));
    var m := RunSent(h, Fresh(id, interval), es)[i];
    assert MessageAnswers(h, given, m);
    var work :| Asked(h, given, task, work) && work.output == m.outcome.output;
    var node, wire :| (node, task, wire) in given && Answer(h, node, wire) == Some(work);
    assert work == Done(PrimesOutput(node, start, end, PrimeCount(start, end)));
  }

  // ---------- injected failures ----------

  predicate IsInjected(m: NodeMessage) {
    m.TaskFinished? && m.outcome.Failed? && m.outcome.reason.Injected?
  }

  function InjectedIn(ms: seq<NodeMessage>): nat { |Filter(ms, IsInjected)| }

  // The failures some events ask for.
  function OrderedIn(es: seq<Event>): nat {
    if es == [] then 0
    else (if es[0].Deliver? && es[0].message.InjectFailures? then es[0].message.count else 0) + OrderedIn(es[1..])
  }

  lemma PollInjectsNothing(s: State, now: u64)
    ensures InjectedIn(Poll(s, now).sent) == 0 && Poll(s, now).next.pendingFailures == s.pendingFailures
  {
    hide Filter;
    PollSends(s, now, IsInjected);
  }

  lemma AcceptSpends(h: Option<Handler>, s: State, task: TaskId, wire: WireSpec, now: u64)
    ensures var t := Accept(h, s, task, wire, now);
            InjectedIn(t.sent) + t.next.pendingFailures == s.pendingFailures
  {
    hide Poll, StartWork, CannotRun, Filter;
    var t := Accept(h, s, task, wire, now);
    if |t.sent| <= 2 {
      FilterShort(t.sent, IsInjected);
    }
    if s.id.Some? && s.running.None? {
      assert t.sent == [TaskStarted(task)] + t.sent[1..];
      FilterConcat([TaskStarted(task)], t.sent[1..], IsInjected);
      FilterShort([TaskStarted(task)], IsInjected);
      if s.pendingFailures == 0 && StartWork(h, s.id.value, wire).Some? {
        var (wait, work) := StartWork(h, s.id.value, wire).value;
        PollInjectsNothing(Begun(s, task, wait, work, now), now);
      }
    }
  }

  lemma TurnSpends(h: Option<Handler>, s: State, e: Event)
    ensures var t := TurnOf(h, s, e);
            InjectedIn(t.sent) + t.next.pendingFailures == Min(s.pendingFailures + OrderedIn([e]), U32_MAX)
  {
    hide Poll, Accept;
    assert OrderedIn([e]) == if e.Deliver? && e.message.InjectFailures? then e.message.count else 0;
    if e.Tick? {
      PollInjectsNothing(s, e.now);
    } else if e.message.Assign? {
      AcceptSpends(h, s, e.message.task, e.message.spec, e.now);
    } else if !e.message.Rejected? && !e.message.Shutdown? {
      PollInjectsNothing(Told(s, e.message, e.now), e.now);
    }
  }

  // Injected failures are spent one for one: over every run those reported and those still pending are at most
  // those asked for, and exactly those while the u32 counter cannot have saturated.
  lemma {:induction false} InjectionsAreSpent(h: Option<Handler>, s: State, es: seq<Event>)
    ensures var spent := InjectedIn(RunSent(h, s, es)) + RunState(h, s, es).pendingFailures;
            spent <= s.pendingFailures + OrderedIn(es)
            && (s.pendingFailures + OrderedIn(es) <= U32_MAX ==> spent == s.pendingFailures + OrderedIn(es))
    decreases |es|
  {
    hide TurnOf;
    if es != [] {
      var t := TurnOf(h, s, es[0]);
      TurnSpends(h, s, es[0]);
      assert OrderedIn([es[0]]) + OrderedIn(es[1..]) == OrderedIn(es);
      InjectionsAreSpent(h, t.next, es[1..]);
      FilterConcat(t.sent, RunSent(h, t.next, es[1..]), IsInjected);
    }
  }

  // ---------- an artifact and its completion ----------

  // Every artifact is followed at once by the completion of its task.
  ghost predicate ArtifactThenCompletion(ms: seq<NodeMessage>) {
    forall i :: 0 <= i < |ms| && ms[i].TaskProduced? ==>
      i + 1 < |ms| && ms[i + 1].TaskFinished? && ms[i + 1].task == ms[i].task && ms[i + 1].outcome.Completed?
  }

  lemma ArtifactThenCompletionConcat(a: seq<NodeMessage>, b: seq<NodeMessage>)
    requires ArtifactThenCompletion(a) && ArtifactThenCompletion(b)
    ensures ArtifactThenCompletion(a + b)
  {
  }

  lemma TurnOrdersArtifacts(h: Option<Handler>, s: State, e: Event)
    ensures ArtifactThenCompletion(TurnOf(h, s, e).sent)
  {
    hide Poll, StartWork, Describe;
    if e.Tick? {
      PollOrdersArtifacts(s, e.now);
    } else if e.message.Assign? {
      var m, now := e.message, e.now;
      if s.id.Some? && s.running.None? && s.pendingFailures == 0 && StartWork(h, s.id.value, m.spec).Some? {
        var (wait, work) := StartWork(h, s.id.value, m.spec).value;
        var begun := Begun(s, m.task, wait, work, now);
        PollOrdersArtifacts(begun, now);
        ArtifactThenCompletionConcat([TaskStarted(m.task)], Poll(begun, now).sent);
      }
    } else if !e.message.Rejected? && !e.message.Shutdown? {
      PollOrdersArtifacts(Told(s, e.message, e.now), e.now);
    }
  }

  lemma PollOrdersArtifacts(s: State, now: u64)
    ensures ArtifactThenCompletion(Poll(s, now).sent)
  {
  }

  lemma {:induction false} ArtifactPrecedesCompletion(h: Option<Handler>, s: State, es: seq<Event>)
    ensures ArtifactThenCompletion(RunSent(h, s, es))
    decreases |es|
  {
    hide TurnOf;
    if es != [] {
      TurnOrdersArtifacts(h, s, es[0]);
      ArtifactPrecedesCompletion(h, TurnOf(h, s, es[0]).next, es[1..]);
      ArtifactThenCompletionConcat(TurnOf(h, s, es[0]).sent, RunSent(h, TurnOf(h, s, es[0]).next, es[1..]));
    }
  }

  // ---------- silence before the welcome ----------

  ghost predicate NoWelcome(es: seq<Event>) {
    forall i :: 0 <= i < |es| && es[i].Deliver? ==> !es[i].message.Welcome?
  }

  ghost predicate SomeAssign(es: seq<Event>) {
    exists i :: 0 <= i < |es| && es[i].Deliver? && es[i].message.Assign?
  }

  // Before it is welcomed a worker sends something exactly when it was built with a fixed identity
  // and is handed a task anyway: an anonymous worker is silent.
  lemma SilentUntilWelcomed(h: Option<Handler>, id: Option<NodeId>, interval: u64, es: seq<Event>)
    requires NoWelcome(es)
    ensures RunSent(h, Fresh(id, interval), es) == [] <==> id.None? || !SomeAssign(es)
  {
    SilentFrom(h, Fresh(id, interval), es);
  }

  lemma OneTurnIsSilent(h: Option<Handler>, s: State, e: Event)
    requires !s.joined && s.running.None? && (e.Deliver? ==> !e.message.Welcome?)
    ensures var t := TurnOf(h, s, e);
            if e.Deliver? && e.message.Assign? && s.id.Some? then t.sent != []
            else t.sent == [] && t.next.id == s.id && !t.next.joined && t.next.running.None?
  {
    hide StartWork, Describe;
  }

  lemma {:induction false} SilentFrom(h: Option<Handler>, s: State, es: seq<Event>)
    requires NoWelcome(es) && !s.joined && s.running.None?
    ensures RunSent(h, s, es) == [] <==> s.id.None? || !SomeAssign(es)
    decreases |es|
  {
    hide TurnOf;
    if es != [] {
      var t := TurnOf(h, s, es[0]);
      OneTurnIsSilent(h, s, es[0]);
      if !(es[0].Deliver? && es[0].message.Assign? && s.id.Some?) {
        SilentFrom(h, t.next, es[1..]);
        if s.id.Some? && SomeAssign(es) {
          var i :| 0 <= i < |es| && es[i].Deliver? && es[i].message.Assign?;
          assert es[1..][i - 1].Deliver? && es[1..][i - 1].message.Assign?;
        }
      }
    }
  }
}
