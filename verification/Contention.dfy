/** Password attempts under every interleaving: each takes the global lock and then, separately, the lock on origins. */
module Contention {
  import opened Base
  import opened Throttle
  import opened Windows

  // An attempt that the global window let through waits for the second lock.
  datatype Pc = Away | Waiting(attempt: Attempt)

  datatype Outcome = Outcome(attempt: Attempt, admitted: bool)

  // The gate and its callers, with their history: the clock at the global lock, what passed it, what came of it, the
  // latest clock that has held the second lock, and how many attempts held it after a later one, or after one a whole
  // window later.
  datatype System = System(gate: Gate, threads: seq<Pc>, clock: u64, passed: seq<Attempt>, outcomes: seq<Outcome>,
                           latest: int, overtaken: nat, late: nat)

  datatype Step = TakeGlobal(i: nat, attempt: Attempt) | TakeOrigin(i: nat)

  // The clock does not go back from one holder of the global lock to the next.
  predicate Enabled(s: System, step: Step) {
    step.i < |s.threads|
    && match step
       case TakeGlobal(i, attempt) => s.threads[i].Away? && s.clock <= attempt.at
       case TakeOrigin(i) => s.threads[i].Waiting?
  }

  function Next(s: System, step: Step): System
    requires Enabled(s, step)
  {
    match step
    case TakeGlobal(i, a) =>
      var ok := GlobalOk(s.gate, a.at);
      s.(gate := s.gate.(global := Some(Take(s.gate.global, a.at))),
         threads := s.threads[i := if ok then Waiting(a) else Away],
         clock := a.at,
         passed := s.passed + if ok then [a] else [])
    case TakeOrigin(i) =>
      var a := s.threads[i].attempt;
      s.(gate := s.gate.(origins := Admit(s.gate.origins, a.origin, a.at)),
         threads := s.threads[i := Away],
         outcomes := s.outcomes + [Outcome(a, OriginOk(s.gate.origins, a.origin, a.at))],
         latest := Max(s.latest, a.at),
         overtaken := s.overtaken + (if a.at < s.latest then 1 else 0),
         late := s.late + (if a.at <= s.latest - WINDOW_MS then 1 else 0))
  }

  predicate IsRun(s: System, steps: seq<Step>)
    decreases |steps|
  {
    steps == [] || (Enabled(s, steps[0]) && IsRun(Next(s, steps[0]), steps[1..]))
  }

  function After(s: System, steps: seq<Step>): System
    requires IsRun(s, steps)
    decreases |steps|
  {
    if steps == [] then s else After(Next(s, steps[0]), steps[1..])
  }

  function Initial(threads: nat): System {
    System(Gate(None, map[]), seq(threads, i => Away), 0, [], [], -1, 0, 0)
  }

  // ---------- spans ----------

  // Attempts made in the span of a window's length from `from` on.
  predicate In(a: Attempt, from: int) { from <= a.at < from + WINDOW_MS }

  function PassedIn(from: int): Attempt -> bool { (a: Attempt) => In(a, from) }
  function WaitingIn(from: int): Pc -> bool { (pc: Pc) => pc.Waiting? && In(pc.attempt, from) }
  function ServedIn(from: int): Outcome -> bool { (d: Outcome) => In(d.attempt, from) }
  function AdmittedIn(from: int): Outcome -> bool { (d: Outcome) => d.admitted && In(d.attempt, from) }
  function AdmittedOf(o: Origin, from: int): Outcome -> bool {
    (d: Outcome) => d.admitted && d.attempt.origin == o && In(d.attempt, from)
  }

  // ---------- the global window ----------

  // What of a window's budget is spent.
  function Spent(w: Window, max: u32): int { Min(w.attempts, max) }

  // `n` attempts of the span have passed this window by `clock`: at most a budget less its opener before a window
  // opens inside the span, and a budget after it.
  predicate CellInv(cell: Option<Window>, clock: u64, n: nat, from: int, max: u32) {
    && (clock < from || cell.None? ==> n == 0)
    && (cell.Some? ==>
          var w := cell.value;
          && w.attempts >= 1 && w.started <= clock
          && n <= 2 * max - 1
          && (w.started < from ==> n <= Spent(w, max) - 1)
          && (from <= w.started < from + WINDOW_MS ==> n <= max - 1 + Spent(w, max)))
  }

  lemma CellKeeps(cell: Option<Window>, clock: u64, n: nat, now: u64, from: int, max: u32)
    requires CellInv(cell, clock, n, from, max) && clock <= now && 1 <= max < U32_MAX
    ensures CellInv(Some(Take(cell, now)),
                    now, n + (if MayProceed(cell, now, max) && from <= now < from + WINDOW_MS then 1 else 0), from, max)
  {
  }

  ghost predicate GlobalInv(s: System, from: int) {
    CellInv(s.gate.global, s.clock, Count(s.passed, PassedIn(from)), from, MAX_GLOBAL_ATTEMPTS)
  }

  // What passed the global lock has been served or is waiting.
  ghost predicate Accounted(s: System, from: int) {
    Count(s.passed, PassedIn(from)) == Count(s.outcomes, ServedIn(from)) + Count(s.threads, WaitingIn(from))
  }

  lemma GlobalKeeps(s: System, step: Step, from: int)
    requires GlobalInv(s, from) && Enabled(s, step)
    ensures GlobalInv(Next(s, step), from)
  {
    hide CellInv, Take, MayProceed, Count;
    if step.TakeGlobal? {
      CellKeeps(s.gate.global, s.clock, Count(s.passed, PassedIn(from)), step.attempt.at, from, MAX_GLOBAL_ATTEMPTS);
      CountSnoc(s.passed, step.attempt, PassedIn(from));
      assert s.passed + [] == s.passed;
    }
  }

  lemma AccountedKeeps(s: System, step: Step, from: int)
    requires Accounted(s, from) && Enabled(s, step)
    ensures Accounted(Next(s, step), from)
  {
    var t := Next(s, step);
    CountUpdate(s.threads, step.i, t.threads[step.i], WaitingIn(from));
    if step.TakeGlobal? {
      CountSnoc(s.passed, step.attempt, PassedIn(from));
      assert s.passed + [] == s.passed;
    } else {
      CountSnoc(s.outcomes, t.outcomes[|s.outcomes|], ServedIn(from));
    }
  }

  lemma ServedBound(s: System, from: int)
    requires GlobalInv(s, from) && Accounted(s, from)
    ensures Count(s.outcomes, ServedIn(from)) <= 2 * MAX_GLOBAL_ATTEMPTS - 1
  {
  }

  // ---------- the map of origins ----------

  // Each entry was opened by an attempt served at its start; those that had run out by the latest clock are no more
  // than the late attempts.
  ghost predicate MapInv(s: System) {
    && (forall o :: o in s.gate.origins ==>
          s.gate.origins[o].started <= s.latest && Opened(s.outcomes, Attempt(o, s.gate.origins[o].started)))
    && |Stale(s.gate.origins, s.latest)| <= s.late
  }

  ghost predicate Opened(outcomes: seq<Outcome>, a: Attempt) {
    exists i :: 0 <= i < |outcomes| && outcomes[i].attempt == a
  }

  function Stale(m: map<Origin, Window>, latest: int): set<Origin> {
    set o | o in m && m[o].started <= latest - WINDOW_MS
  }

  // An attempt served drops the windows that ran out by its own clock, and opens one for its origin if it has none.
  lemma AdmitShape(m: map<Origin, Window>, o: Origin, now: u64, x: Origin)
    ensures x in Admit(m, o, now) && x != o ==> x in m && Admit(m, o, now)[x] == m[x] && Open(m[x], now)
    ensures Admit(m, o, now)[o].started == (if o in m && Open(m[o], now) then m[o].started else now)
  {
  }

  lemma MapKeeps(s: System, i: nat)
    requires MapInv(s) && Enabled(s, TakeOrigin(i))
    ensures MapInv(Next(s, TakeOrigin(i)))
  {
    hide Admit, OriginOk;
    var t, a := Next(s, TakeOrigin(i)), s.threads[i].attempt;
    var m, m' := s.gate.origins, t.gate.origins;
    assert t.outcomes[|s.outcomes|].attempt == a;
    forall o | o in m'
      ensures m'[o].started <= t.latest && Opened(t.outcomes, Attempt(o, m'[o].started))
      ensures o in Stale(m', t.latest) ==>
                a.at <= s.latest
                && (o in Stale(m, s.latest) || (o == a.origin && a.at <= s.latest - WINDOW_MS))
    {
      AdmitShape(m, a.origin, a.at, o);
      if o in m && m'[o].started == m[o].started {
        var j :| 0 <= j < |s.outcomes| && s.outcomes[j].attempt == Attempt(o, m[o].started);
        assert t.outcomes[j] == s.outcomes[j];
      }
    }
    var late := if a.at <= s.latest - WINDOW_MS then {a.origin} else {};
    SubsetSize(Stale(m', t.latest), Stale(m, s.latest) + late);
  }

  // Distinct origins in a span are no more than the attempts served in it.
  function OriginsIn(outcomes: seq<Outcome>, from: int): set<Origin> {
    set d | d in outcomes && In(d.attempt, from) :: d.attempt.origin
  }

  lemma {:induction false} OriginsAreServed(outcomes: seq<Outcome>, from: int)
    ensures |OriginsIn(outcomes, from)| <= Count(outcomes, ServedIn(from))
  {
    if outcomes != [] {
      var front, d := outcomes[..|outcomes| - 1], outcomes[|outcomes| - 1];
      OriginsAreServed(front, from);
      assert outcomes == front + [d];
      var more := if In(d.attempt, from) then {d.attempt.origin} else {};
      assert OriginsIn(outcomes, from) <= OriginsIn(front, from) + more;
      SubsetSize(OriginsIn(outcomes, from), OriginsIn(front, from) + more);
    }
  }

  lemma OpenedIn(outcomes: seq<Outcome>, a: Attempt, from: int)
    requires Opened(outcomes, a) && In(a, from)
    ensures a.origin in OriginsIn(outcomes, from)
  {
  }

  lemma MapBound(s: System)
    requires MapInv(s)
    ensures |s.gate.origins| <= Count(s.outcomes, ServedIn(s.latest - WINDOW_MS + 1)) + s.late
  {
    hide Count, Opened, OriginsIn;
    var m, from := s.gate.origins, s.latest - WINDOW_MS + 1;
    var recent := m.Keys - Stale(m, s.latest);
    forall o | o in recent
      ensures o in OriginsIn(s.outcomes, from)
    {
      OpenedIn(s.outcomes, Attempt(o, m[o].started), from);
    }
    SubsetSize(recent, OriginsIn(s.outcomes, from));
    OriginsAreServed(s.outcomes, from);
    assert m.Keys == recent + Stale(m, s.latest);
  }

  // ---------- one origin ----------

  // Each overtaken attempt can add as much as a window less its opener: it may open one that runs out inside the span.
  function Slack(overtaken: nat): nat { (MAX_ORIGIN_ATTEMPTS - 1) * overtaken }

  // Until the clock at the second lock reaches the span nothing counts; while it is inside, a window opened before
  // the span can still run out, and one opened in it cannot; after that, whatever still counts was overtaken.
  ghost predicate OriginInv(s: System, o: Origin, from: int) {
    var n, cell := Count(s.outcomes, AdmittedOf(o, from)), CellOf(s.gate.origins, o);
    && (cell.Some? ==> cell.value.attempts >= 1 && cell.value.started <= s.latest)
    && (s.latest < from ==> n == 0)
    && n <= 2 * MAX_ORIGIN_ATTEMPTS - 1 + Slack(s.overtaken)
    && (from <= s.latest < from + WINDOW_MS ==>
          n <= Slack(s.overtaken)
               + if cell.None? then MAX_ORIGIN_ATTEMPTS - 1
                 else if cell.value.started < from then Spent(cell.value, MAX_ORIGIN_ATTEMPTS) - 1
                 else MAX_ORIGIN_ATTEMPTS - 1 + Spent(cell.value, MAX_ORIGIN_ATTEMPTS))
  }

  lemma OriginKeeps(s: System, step: Step, o: Origin, from: int)
    requires OriginInv(s, o, from) && Enabled(s, step)
    ensures OriginInv(Next(s, step), o, from)
  {
    if step.TakeOrigin? {
      CountSnoc(s.outcomes, Next(s, step).outcomes[|s.outcomes|], AdmittedOf(o, from));
    }
  }

  // ---------- every run ----------

  ghost predicate Inv(s: System) {
    && (forall from :: GlobalInv(s, from) && Accounted(s, from))
    && (forall o, from :: OriginInv(s, o, from))
    && MapInv(s)
  }

  lemma {:induction false} RunKeeps(s: System, steps: seq<Step>)
    requires Inv(s) && IsRun(s, steps)
    ensures Inv(After(s, steps))
    decreases |steps|
  {
    if steps != [] {
      hide GlobalInv, Accounted, OriginInv, MapInv, Next;
      forall from: int
        ensures GlobalInv(Next(s, steps[0]), from) && Accounted(Next(s, steps[0]), from)
      {
        GlobalKeeps(s, steps[0], from);
        AccountedKeeps(s, steps[0], from);
      }
      forall o: Origin, from: int
        ensures OriginInv(Next(s, steps[0]), o, from)
      {
        OriginKeeps(s, steps[0], o, from);
      }
      StepKeepsMap(s, steps[0]);
      RunKeeps(Next(s, steps[0]), steps[1..]);
    }
  }

  lemma StepKeepsMap(s: System, step: Step)
    requires MapInv(s) && Enabled(s, step)
    ensures MapInv(Next(s, step))
  {
    if step.TakeOrigin? {
      MapKeeps(s, step.i);
    }
  }

  lemma {:induction false} NobodyWaits(n: nat, from: int)
    ensures Count(Initial(n).threads, WaitingIn(from)) == 0
  {
    if n > 0 {
      assert Initial(n).threads[..n - 1] == Initial(n - 1).threads;
      NobodyWaits(n - 1, from);
    }
  }

  lemma EveryRun(n: nat, steps: seq<Step>)
    requires IsRun(Initial(n), steps)
    ensures Inv(After(Initial(n), steps))
  {
    forall from: int
      ensures Accounted(Initial(n), from)
    {
      NobodyWaits(n, from);
    }
    assert Stale(Initial(n).gate.origins, -1) == {};
    RunKeeps(Initial(n), steps);
  }

  // ---------- main results ----------

  // Under every interleaving, of the attempts made in any span of a window's length at most 2 * 100 - 1 are admitted.
  lemma AttemptsAreBounded(n: nat, steps: seq<Step>, from: int)
    requires IsRun(Initial(n), steps)
    ensures Count(After(Initial(n), steps).outcomes, AdmittedIn(from)) <= 2 * MAX_GLOBAL_ATTEMPTS - 1
  {
    EveryRun(n, steps);
    var s := After(Initial(n), steps);
    ServedBound(s, from);
    CountMore(s.outcomes, AdmittedIn(from), ServedIn(from));
  }

  // Under every interleaving at most 2 * 20 - 1 of those are of one origin, and 20 - 1 more for each attempt that took
  // the second lock after one with a later clock.
  lemma OriginAttemptsAreBounded(n: nat, steps: seq<Step>, o: Origin, from: int)
    requires IsRun(Initial(n), steps)
    ensures Count(After(Initial(n), steps).outcomes, AdmittedOf(o, from))
         <= 2 * MAX_ORIGIN_ATTEMPTS - 1 + (MAX_ORIGIN_ATTEMPTS - 1) * After(Initial(n), steps).overtaken
  {
    EveryRun(n, steps);
    assert OriginInv(After(Initial(n), steps), o, from);
  }

  // Under every interleaving the map of origins holds at most 2 * 100 - 1 entries and one for each late attempt.
  lemma OriginsAreBounded(n: nat, steps: seq<Step>)
    requires IsRun(Initial(n), steps)
    ensures |After(Initial(n), steps).gate.origins| <= 2 * MAX_GLOBAL_ATTEMPTS - 1 + After(Initial(n), steps).late
  {
    EveryRun(n, steps);
    var s := After(Initial(n), steps);
    MapBound(s);
    ServedBound(s, s.latest - WINDOW_MS + 1);
  }
}
