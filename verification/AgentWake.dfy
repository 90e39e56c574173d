/** When a worker asks to be polled, and what polling then does. */
module AgentWake {
  import opened Base
  import opened Wire
  import opened Agent
  import opened AgentRuns

  // A joined worker has been told who it is.
  predicate Named(s: State) { s.joined ==> s.id.Some? }

  lemma PollKeepsNamed(s: State, now: u64)
    requires Named(s)
    ensures Named(Poll(s, now).next)
  {
  }

  lemma TurnKeepsNamed(h: Option<Handler>, s: State, e: Event)
    requires Named(s)
    ensures Named(TurnOf(h, s, e).next)
  {
    hide Poll, StartWork, Describe;
    if e.Tick? {
      PollKeepsNamed(s, e.now);
    } else if e.message.Assign? {
      if s.id.Some? && s.running.None? && StartWork(h, s.id.value, e.message.spec).Some? {
        var (wait, work) := StartWork(h, s.id.value, e.message.spec).value;
        PollKeepsNamed(Begun(s, e.message.task, wait, work, e.now), e.now);
      }
    } else {
      PollKeepsNamed(Told(s, e.message, e.now), e.now);
    }
  }

  // Every worker's every reachable state is named.
  lemma {:induction false} RunIsNamed(h: Option<Handler>, s: State, es: seq<Event>)
    requires Named(s)
    ensures Named(RunState(h, s, es))
    decreases |es|
  {
    hide TurnOf, Named;
    if es != [] {
      TurnKeepsNamed(h, s, es[0]);
      RunIsNamed(h, TurnOf(h, s, es[0]).next, es[1..]);
    }
  }

  // Strictly before the wake it asked for, a poll sends nothing and changes nothing;
  // and if it asked for none, that holds of every poll.
  lemma EarlyPollIsIdle(s: State, now: u64, t: u64)
    requires NextWake(s, now).None? || now <= t < now + NextWake(s, now).value
    ensures Poll(s, t).next == s && Poll(s, t).sent == []
  {
  }

  // At the wake it asked for there is something to do: a frame goes out, or a slice is counted.
  lemma PollAtWakeActs(s: State, now: u64)
    requires Named(s) && NextWake(s, now).Some?
    ensures now + NextWake(s, now).value <= U64_MAX
    ensures Poll(s, now + NextWake(s, now).value).sent != [] || Computing(s)
  {
  }

  // A slice is progress: the count finishes or its cursor moves on.
  lemma SliceMoves(s: State, now: u64)
    requires Computing(s)
    ensures var w := s.running.value.work; var a := Advance(s).running.value.work;
            a.Ready? || (a.Counting? && w.cursor < a.cursor < a.end && a.end == w.end)
  {
  }

  // How many polls the task this worker holds still takes, once its time has come.
  function PollsNeeded(s: State): (n: nat)
    requires s.running.Some?
    ensures n >= 1
  {
    if !Computing(s) then 1
    else
      var w := s.running.value.work;
      Max(1, (w.end - w.cursor + COMPUTE_SLICE - 1) / COMPUTE_SLICE)
  }

  function Ticks(times: seq<u64>): (es: seq<Event>)
    ensures |es| == |times| && forall i :: 0 <= i < |es| ==> es[i] == Tick(times[i])
  {
    seq(|times|, i requires 0 <= i < |times| => Tick(times[i]))
  }

  lemma PollIsOneFewer(s: State, now: u64)
    requires s.running.Some? && s.running.value.readyAt <= now
    ensures var after := Poll(s, now).next;
            if PollsNeeded(s) == 1 then after.running.None?
            else after.running.Some? && after.running.value.id == s.running.value.id
                 && after.running.value.readyAt == s.running.value.readyAt && PollsNeeded(after) == PollsNeeded(s) - 1
  {
  }

  // A task whose time has come is finished by exactly that many polls, whenever they happen: never by fewer,
  // and once only. Nothing else is finished meanwhile.
  lemma {:induction false} EnoughPollsReport(h: Option<Handler>, s: State, times: seq<u64>, p: Which)
    requires s.running.Some? && p(s.running.value.id)
    requires forall i :: 0 <= i < |times| ==> s.running.value.readyAt <= times[i]
    ensures FinishedIn(RunSent(h, s, Ticks(times)), p)
         == if |times| < PollsNeeded(s) then 0 else 1
    decreases |times|
  {
    hide Poll, PollsNeeded;
    if times != [] {
      var now, rest := times[0], times[1..];
      var t := Poll(s, now);
      assert Ticks(times)[1..] == Ticks(rest);
      PollLedger(s, now, p);
      PollIsOneFewer(s, now);
      FilterConcat(t.sent, RunSent(h, t.next, Ticks(rest)), Finishes(p));
      if t.next.running.Some? {
        EnoughPollsReport(h, t.next, rest, p);
      } else {
        IdleTicksFinishNothing(h, t.next, rest, p);
      }
    }
  }

  lemma {:induction false} IdleTicksFinishNothing(h: Option<Handler>, s: State, times: seq<u64>, p: Which)
    requires s.running.None?
    ensures FinishedIn(RunSent(h, s, Ticks(times)), p) == 0
    decreases |times|
  {
    if times != [] {
      var t := Poll(s, times[0]);
      assert Ticks(times)[1..] == Ticks(times[1..]);
      PollLedger(s, times[0], p);
      FilterConcat(t.sent, RunSent(h, t.next, Ticks(times[1..])), Finishes(p));
      IdleTicksFinishNothing(h, t.next, times[1..], p);
    }
  }

  // After a poll the worker asks to come straight back exactly when it is computing,
  // or when its clock stands at the end of u64 time and a heartbeat is always due.
  lemma ZeroWakeMeansComputing(s: State, now: u64)
    requires Named(s)
    ensures var after := Poll(s, now).next;
            NextWake(after, now) == Some(0)
            <==> Computing(after) || (now == U64_MAX && after.joined && !after.paused)
  {
  }

  // ---------- heartbeats ----------

  predicate IsBeat(m: NodeMessage) { m.Heartbeat? }

  // The times of the heartbeats among some messages.
  function BeatTimes(ms: seq<NodeMessage>): seq<u64> {
    var beats := Filter(ms, IsBeat);
    seq(|beats|, i requires 0 <= i < |beats| => if IsBeat(beats[i]) then beats[i].at else 0)
  }

  lemma BeatTimesConcat(a: seq<NodeMessage>, b: seq<NodeMessage>)
    ensures BeatTimes(a + b) == BeatTimes(a) + BeatTimes(b)
  {
    FilterConcat(a, b, IsBeat);
  }

  // Each time is at least `gap` after every earlier one, and the first is no earlier than `from`. Only at the last
  // u64 millisecond, where the clock has no room for the gap, may a time follow sooner.
  ghost predicate Spaced(times: seq<u64>, from: u64, gap: u64) {
    (forall i :: 0 <= i < |times| ==> from <= times[i])
    && (forall i, j :: 0 <= i < j < |times| ==>
          times[i] + gap <= times[j] || times[j] == U64_MAX < times[i] + gap)
  }

  lemma SpacedCons(first: seq<u64>, rest: seq<u64>, from: u64, next: u64, gap: u64)
    requires Spaced(rest, next, gap) && |first| <= 1
    requires first == [] ==> next == from
    requires first != [] ==> from <= first[0] && next == SatAdd(first[0], gap)
    ensures Spaced(first + rest, from, gap)
  {
  }

  lemma PollBeat(s: State, now: u64)
    ensures var t := Poll(s, now);
            t.next.interval == s.interval
            && BeatTimes(t.sent) == (if BeatDue(s, now) then [now] else [])
            && t.next.nextHeartbeat == if BeatDue(s, now) then SatAdd(now, Max(s.interval, 1)) else s.nextHeartbeat
  {
    hide Filter;
    PollSends(s, now, IsBeat);
  }

  // A turn other than a welcome beats at most once, not before the time set, and sets the next a gap later.
  lemma TurnBeat(h: Option<Handler>, s: State, e: Event)
    requires e.Deliver? ==> !e.message.Welcome?
    ensures var t := TurnOf(h, s, e); var times := BeatTimes(t.sent);
            t.next.interval == s.interval
            && (times == [] ==> t.next.nextHeartbeat == s.nextHeartbeat)
            && (times != [] ==> times == [e.now] && s.nextHeartbeat <= e.now
                                && t.next.nextHeartbeat == SatAdd(e.now, Max(s.interval, 1)))
  {
    hide Poll, Accept;
    if e.Tick? {
      PollBeat(s, e.now);
    } else if e.message.Assign? {
      AcceptBeat(h, s, e.message.task, e.message.spec, e.now);
    } else if !e.message.Rejected? && !e.message.Shutdown? {
      PollBeat(Told(s, e.message, e.now), e.now);
    }
  }

  lemma AcceptBeat(h: Option<Handler>, s: State, task: TaskId, wire: WireSpec, now: u64)
    ensures var t := Accept(h, s, task, wire, now); var times := BeatTimes(t.sent);
            t.next.interval == s.interval
            && (times == [] ==> t.next.nextHeartbeat == s.nextHeartbeat)
            && (times != [] ==> times == [now] && s.nextHeartbeat <= now
                                && t.next.nextHeartbeat == SatAdd(now, Max(s.interval, 1)))
  {
    hide Poll, StartWork, Describe, Filter;
    var t := Accept(h, s, task, wire, now);
    if |t.sent| <= 2 {
      FilterShort(t.sent, IsBeat);
    }
    if s.id.Some? && s.running.None? {
      assert t.sent == [TaskStarted(task)] + t.sent[1..];
      BeatTimesConcat([TaskStarted(task)], t.sent[1..]);
      FilterShort([TaskStarted(task)], IsBeat);
      if s.pendingFailures == 0 && StartWork(h, s.id.value, wire).Some? {
        var (wait, work) := StartWork(h, s.id.value, wire).value;
        var begun := Begun(s, task, wait, work, now);
        PollBeat(begun, now);
        assert t.sent[1..] == Poll(begun, now).sent;
      }
    }
  }

  // At the last u64 millisecond every poll beats.
  lemma LastInstantBeatsAgain(h: Option<Handler>, s: State)
    requires s.joined && s.id.Some? && !s.paused
    ensures BeatTimes(RunSent(h, s, [Tick(U64_MAX), Tick(U64_MAX)])) == [U64_MAX, U64_MAX]
  {
    hide Poll;
    var es := [Tick(U64_MAX), Tick(U64_MAX)];
    var t := Poll(s, U64_MAX);
    PollBeat(s, U64_MAX);
    PollKeepsPosture(s, U64_MAX);
    PollBeat(t.next, U64_MAX);
    assert es[1..] == [Tick(U64_MAX)] && es[1..][1..] == [];
    var t2 := Poll(t.next, U64_MAX);
    assert RunSent(h, t.next, es[1..]) == t2.sent + [] == t2.sent;
    BeatTimesConcat(t.sent, t2.sent);
  }

  lemma PollKeepsPosture(s: State, now: u64)
    ensures var t := Poll(s, now).next; t.joined == s.joined && t.id == s.id && t.paused == s.paused
  {
  }

  // Between welcomes, heartbeats are at least max(interval, 1) apart, whatever else happens and however the
  // polls are scheduled, up to the last u64 millisecond.
  lemma {:induction false} HeartbeatsAreSpaced(h: Option<Handler>, s: State, es: seq<Event>)
    requires NoWelcome(es)
    ensures Spaced(BeatTimes(RunSent(h, s, es)), s.nextHeartbeat, Max(s.interval, 1))
    decreases |es|
  {
    hide TurnOf;
    if es != [] {
      var t := TurnOf(h, s, es[0]);
      TurnBeat(h, s, es[0]);
      HeartbeatsAreSpaced(h, t.next, es[1..]);
      var rest := RunSent(h, t.next, es[1..]);
      BeatTimesConcat(t.sent, rest);
      SpacedCons(BeatTimes(t.sent), BeatTimes(rest), s.nextHeartbeat, t.next.nextHeartbeat, Max(s.interval, 1));
    }
  }
}
