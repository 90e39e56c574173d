/** The cluster's answer to a prime-counting job: what its workers report, put together. */
module Cluster {
  import opened Base
  import opened Text
  import opened Jobs
  import opened Primes
  import opened Wire
  import Agent
  import opened AgentRuns
  import AgentWake
  import opened Connection
  import opened Link
  import opened LinkIdle
  import opened LinkProgress
  import opened LinkAny

  // The number a report opens with.
  function CountRead(report: string): nat {
    DigitsValue(report[..LeadingDigits(report)])
  }

  lemma LeadingRun(digits: string, rest: string)
    requires forall i :: 0 <= i < |digits| ==> IsDigit(digits[i])
    requires rest != [] && !IsDigit(rest[0])
    ensures CountRead(digits + rest) == DigitsValue(digits)
  {
    var s := digits + rest;
    var n := LeadingDigits(s);
    assert s[|digits|] == rest[0];
    assert forall i :: 0 <= i < |digits| ==> s[i] == digits[i];
    assert s[..|digits|] == digits;
  }

  lemma ReportReadsBack(node: NodeId, start: u64, end: u64, count: nat)
    ensures CountRead(PrimesOutput(node, start, end, count)) == count
  {
    var rest := " primes in " + Decimal(start) + ".." + Decimal(end) + " on " + NodeName(node);
    assert PrimesOutput(node, start, end, count) == Decimal(count) + rest;
    assert rest[0] == ' ';
    LeadingRun(Decimal(count), rest);
    DecimalReadsBack(count);
  }

  // The whole life of one worker's connection so far, and an entry of its history.
  datatype Record = Record(cfg: Config, interval: u64, beat: u64, steps: seq<Step>, at: nat)

  // That entry is a completion the coordinator forwarded, of a task with this spec.
  ghost predicate Completes(names: Naming, r: Record, spec: TaskSpec) {
    var l0 := Initial(r.cfg, r.interval, r.beat);
    IsRun(r.cfg, l0, r.steps)
    && (forall k :: 0 <= k < |r.steps| ==> Named(names, r.steps[k]))
    && (var log := After(r.cfg, l0, r.steps).log;
        r.at < |log| && log[r.at].Finished? && log[r.at].task.spec == spec && log[r.at].outcome.Completed?)
  }

  ghost function OutputOf(names: Naming, r: Record, spec: TaskSpec): string
    requires Completes(names, r, spec)
  {
    After(r.cfg, Initial(r.cfg, r.interval, r.beat), r.steps).log[r.at].outcome.output
  }

  ghost predicate AllComplete(names: Naming, records: seq<Record>, specs: seq<TaskSpec>) {
    |records| == |specs| && forall i :: 0 <= i < |specs| ==> Completes(names, records[i], specs[i])
  }

  // The sum of the numbers in the forwarded reports.
  ghost function ReportedSum(names: Naming, records: seq<Record>, specs: seq<TaskSpec>): nat
    requires AllComplete(names, records, specs)
    decreases |records|
  {
    if records == [] then 0
    else
      assert Completes(names, records[0], specs[0]);
      CountRead(OutputOf(names, records[0], specs[0])) + ReportedSum(names, records[1..], specs[1..])
  }

  // A forwarded completion of a range says how many primes the range holds.
  lemma CompletionReadsBack(names: Naming, r: Record, spec: TaskSpec)
    requires Completes(names, r, spec) && spec.PrimeRange?
    ensures CountRead(OutputOf(names, r, spec)) == PrimeCount(spec.start, spec.end)
  {
    hide IsRun, After, Initial, PrimesOutput, CountRead, PrimeCount, RunningAnswers, AllAnswer, Asked;
    var l := After(r.cfg, Initial(r.cfg, r.interval, r.beat), r.steps);
    EveryLogIsTruthful(r.cfg, names, r.interval, r.beat, r.steps);
    var e, given := l.log[r.at], ShippedIn(r.cfg, l.log);
    assert EntryAnswers(r.cfg.handler, names, given, e);
    var work :| Asked(r.cfg.handler, given, e.task.id, work) && work.output == e.outcome.output;
    var task, wire := WhatWasAsked(r.cfg, names, l, e.task.id, work);
    RangeAnswer(r.cfg.handler, r.cfg.node, wire, spec);
    ReportReadsBack(r.cfg.node, spec.start, spec.end, PrimeCount(spec.start, spec.end));
  }

  lemma RangeAnswer(h: Option<Handler>, node: NodeId, wire: WireSpec, spec: TaskSpec)
    requires FromWire(wire) == spec && spec.PrimeRange?
    ensures Answer(h, node, wire)
         == Some(Done(PrimesOutput(node, spec.start, spec.end, PrimeCount(spec.start, spec.end))))
  {
  }

  lemma {:induction false} ReportsSum(names: Naming, records: seq<Record>, specs: seq<TaskSpec>, from: int, to: int)
    requires AllComplete(names, records, specs) && Tiles(specs, from, to)
    ensures ReportedSum(names, records, specs) == CountSum(specs)
    decreases |records|
  {
    hide Completes, OutputOf, CountRead;
    if records != [] {
      assert Completes(names, records[0], specs[0]);
      CompletionReadsBack(names, records[0], specs[0]);
      ReportsSum(names, records[1..], specs[1..], specs[0].end, to);
    }
  }

  // However a job is split, whatever else the coordinator assigns, and however each worker is fed messages and
  // polled: the numbers in the completions the coordinator forwards, one for each task of the job, add up to the
  // number of primes below the job's bound.
  lemma ClusterCountsThePrimes(names: Naming, upper: u64, tasks: u16, records: seq<Record>)
    requires AllComplete(names, records, Split(PrimesJob(upper, tasks)))
    ensures ReportedSum(names, records, Split(PrimesJob(upper, tasks))) == |PrimesIn(0, upper)|
  {
    var specs := Split(PrimesJob(upper, tasks));
    SplitTiles(upper, tasks);
    ReportsSum(names, records, specs, 0, upper);
    CountsAddUp(upper, tasks);
  }

  // ---------- every job can be finished ----------

  lemma {:induction false} LinkRunConcat(cfg: Config, l: Link, a: seq<Step>, b: seq<Step>)
    requires IsRun(cfg, l, a) && IsRun(cfg, After(cfg, l, a), b)
    ensures IsRun(cfg, l, a + b) && After(cfg, l, a + b) == After(cfg, After(cfg, l, a), b)
    decreases |a|
  {
    hide Next, Enabled;
    if a == [] {
      assert a + b == b;
    } else {
      assert (a + b)[1..] == a[1..] + b;
      LinkRunConcat(cfg, Next(cfg, l, a[0]), a[1..], b);
    }
  }

  lemma StagesConcat(cfg: Config, l: Link, a: seq<Step>, b: seq<Step>, c: seq<Step>)
    requires IsRun(cfg, l, a) && IsRun(cfg, After(cfg, l, a), b) && IsRun(cfg, After(cfg, After(cfg, l, a), b), c)
    ensures IsRun(cfg, l, a + b + c)
    ensures After(cfg, l, a + b + c) == After(cfg, After(cfg, After(cfg, l, a), b), c)
  {
    hide IsRun, After;
    LinkRunConcat(cfg, l, a, b);
    LinkRunConcat(cfg, l, a + b, c);
  }

  // A worker that has just been handed one task.
  lemma JustAssigned(cfg: Config, task: Task)
    requires task.spec.PrimeRange? && Spared(task.spec.end)
    ensures var l0 := Initial(cfg, 1, 1); var steps := [Inbox(InboxAssign(task), None)];
            && IsRun(cfg, l0, steps) && Disciplined(cfg, l0, steps) && SparesStep(steps[0])
            && After(cfg, l0, steps).held == Some(task) && Unharmed(After(cfg, l0, steps))
  {
    var steps := [Inbox(InboxAssign(task), None)];
    assert steps[1..] == [];
  }

  function Whenever(n: nat): seq<u64> { seq(n, i => U64_MAX) }

  // Polls late enough for whatever the worker is on.
  function LatePolls(s: Agent.State): seq<u64> {
    if s.running.Some? then Whenever(AgentWake.PollsNeeded(s)) else []
  }

  lemma LatePollsAreEnough(s: Agent.State)
    ensures EnoughFor(s, LatePolls(s))
  {
  }

  // Handed one range, a worker can be run until the coordinator has forwarded its completion.
  lemma CompletingRun(cfg: Config, task: Task) returns (steps: seq<Step>)
    requires task.spec.PrimeRange? && Spared(task.spec.end)
    ensures IsRun(cfg, Initial(cfg, 1, 1), [Inbox(InboxAssign(task), None)] + steps) && NoInbox(steps)
    ensures IsCompleted(After(cfg, Initial(cfg, 1, 1), [Inbox(InboxAssign(task), None)] + steps).log, task)
  {
    JustAssigned(cfg, task);
    hide IsRun, After, Disciplined, Initial, SparesStep, Spared, Unharmed, IsCompleted, EnoughFor, LatePolls;
    var l0, first := Initial(cfg, 1, 1), [Inbox(InboxAssign(task), None)];
    var l := After(cfg, l0, first);
    var deliver := Deliveries(|l.down|, 0);
    var times: seq<u64> := [];
    if IsRun(cfg, l, deliver) {
      times := LatePolls(After(cfg, l, deliver).agent);
      LatePollsAreEnough(After(cfg, l, deliver).agent);
    }
    HeldTaskIsReleased(cfg, 1, 1, first, 0, times);
    var l2 := After(cfg, After(cfg, l, deliver), Polls(times));
    var frames := Frames(|l2.up|);
    StagesConcat(cfg, l, deliver, Polls(times), frames);
    steps := deliver + Polls(times) + frames;
    LinkRunConcat(cfg, l0, first, steps);
  }

  // So some run of a link forwards the count of any range the worker can count.
  lemma RecordFor(names: Naming, id: TaskId, spec: TaskSpec) returns (r: Record)
    requires spec.PrimeRange? && Spared(spec.end) && names(id) == spec
    ensures Completes(names, r, spec)
  {
    hide IsRun, After, Initial, Spared;
    var cfg, task := Config(None, 0, false), Task(id, 0, 0, spec, 0);
    var rest := CompletingRun(cfg, task);
    var steps := [Inbox(InboxAssign(task), None)] + rest;
    var log := After(cfg, Initial(cfg, 1, 1), steps).log;
    var output :| Finished(task, Completed(output)) in log;
    var at :| 0 <= at < |log| && log[at] == Finished(task, Completed(output));
    r := Record(cfg, 1, 1, steps, at);
  }

  lemma {:induction false} RecordsFor(names: Naming, specs: seq<TaskSpec>, k: nat) returns (records: seq<Record>)
    requires k <= |specs| <= 0x1_0000
    requires forall i: nat :: i < |specs| ==> specs[i].PrimeRange? && Spared(specs[i].end) && names(i) == specs[i]
    ensures |records| == k && forall i :: 0 <= i < k ==> Completes(names, records[i], specs[i])
    decreases k
  {
    if k == 0 {
      return [];
    }
    hide Completes, Spared;
    var front := RecordsFor(names, specs, k - 1);
    var last := RecordFor(names, k - 1, specs[k - 1]);
    records := front + [last];
  }

  // What the sum above asks for can be had: for every job below the overflow there are runs of links in which each of
  // its tasks is completed.
  lemma JobCanBeFinished(upper: u64, tasks: u16) returns (names: Naming, records: seq<Record>)
    requires Spared(upper)
    ensures AllComplete(names, records, Split(PrimesJob(upper, tasks)))
  {
    var specs := Split(PrimesJob(upper, tasks));
    names := (id: TaskId) => if id < |specs| then specs[id] else Sleep(0);
    forall i: nat | i < |specs|
      ensures specs[i].PrimeRange? && Spared(specs[i].end)
    {
      RangePartIs(upper, |specs|, i);
      ChunkBound(upper, |specs|, i);
      SparedWithin(OVERFLOW_FLOOR, specs[i].end, upper);
    }
    hide Completes, Spared;
    records := RecordsFor(names, specs, |specs|);
  }
}
