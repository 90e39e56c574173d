/** The gate on event streams: an atomic total and a locked map of counts, changed in separate steps. */
module SseGate {

  import opened Base
  import opened Throttle

  datatype Limits = Limits(maxTotal: nat, maxPerOrigin: nat)

  // What the threads share.
  datatype Gate = Gate(total: nat, origins: map<Origin, nat>)

  function CountOf(origins: map<Origin, nat>, o: Origin): nat {
    if o in origins then origins[o] else 0
  }

  // ---------- the atomic steps ----------

  // `fetch_add`: the slot is taken before anyone knows whether there was one.
  function Reserve(g: Gate): Gate { g.(total := g.total + 1) }

  // `fetch_sub`.
  function Unreserve(g: Gate): Gate
    requires g.total >= 1
  {
    g.(total := g.total - 1)
  }

  // Under the lock: an entry is created if there was none, and raised if the origin may have one more.
  function Register(lim: Limits, g: Gate, o: Origin): Gate {
    var count := CountOf(g.origins, o);
    g.(origins := g.origins[o := if count >= lim.maxPerOrigin then count else count + 1])
  }

  // Under the lock: the count goes down and an entry at zero goes away; an origin without one is left alone.
  function Unregister(g: Gate, o: Origin): Gate
    requires o in g.origins ==> g.origins[o] >= 1
  {
    if o !in g.origins then g
    else g.(origins := if g.origins[o] == 1 then g.origins - {o} else g.origins[o := g.origins[o] - 1])
  }

  class SseGateObject {
    const limits: Limits
    var total: nat
    var origins: map<Origin, nat>

    ghost function Abstract(): Gate
      reads this
    {
      Gate(total, origins)
    }

    constructor (limits: Limits)
      ensures this.limits == limits && Abstract() == Gate(0, map[])
    {
      this.limits := limits;
      total := 0;
      origins := map[];
    }

    method FetchAdd() returns (previous: nat)
      modifies this`total
      ensures Abstract() == Reserve(old(Abstract())) && previous == old(total)
    {
      previous := total;
      total := total + 1;
    }

    method FetchSub()
      requires total >= 1
      modifies this`total
      ensures Abstract() == Unreserve(old(Abstract()))
    {
      total := total - 1;
    }

    method EnterLocked(origin: Origin) returns (admitted: bool)
      modifies this`origins
      ensures Abstract() == Register(limits, old(Abstract()), origin)
      ensures admitted <==> CountOf(old(origins), origin) < limits.maxPerOrigin
    {
      if origin !in origins {
        origins := origins[origin := 0];
      }
      if origins[origin] >= limits.maxPerOrigin {
        return false;
      }
      origins := origins[origin := origins[origin] + 1];
      return true;
    }

    method LeaveLocked(origin: Origin)
      requires origin in origins ==> origins[origin] >= 1
      modifies this`origins
      ensures Abstract() == Unregister(old(Abstract()), origin)
    {
      if origin in origins {
        origins := origins[origin := origins[origin] - 1];
        if origins[origin] == 0 {
          origins := origins - {origin};
        }
      }
    }

    // `enter` when nothing else runs in between.
    method Enter(origin: Origin) returns (admitted: bool)
      modifies this
      ensures admitted <==> old(total) < limits.maxTotal && CountOf(old(origins), origin) < limits.maxPerOrigin
      ensures total == old(total) + if admitted then 1 else 0
      ensures forall o :: CountOf(origins, o) == CountOf(old(origins), o) + if admitted && o == origin then 1 else 0
    {
      var previous := FetchAdd();
      if previous >= limits.maxTotal {
        FetchSub();
        return false;
      }
      admitted := EnterLocked(origin);
      if !admitted {
        FetchSub();
      }
    }

    // Dropping the permit when nothing else runs in between.
    method Drop(origin: Origin)
      requires total >= 1 && (origin in origins ==> origins[origin] >= 1)
      modifies this
      ensures total == old(total) - 1
      ensures forall o ::
                CountOf(origins, o) == CountOf(old(origins), o) - if o == origin && o in old(origins) then 1 else 0
      ensures origin in origins ==> origins[origin] >= 1
    {
      FetchSub();
      LeaveLocked(origin);
    }
  }

  // ---------- any number of threads, interleaved ----------

  // Where a thread is between two atomic steps.
  datatype Pc =
    | Outside
    | Reserved(origin: Origin)
    | Backing
    | Live(origin: Origin)
    | Leaving(origin: Origin)

  datatype System = System(gate: Gate, threads: seq<Pc>)

  datatype Step = Begin(i: nat, origin: Origin) | Proceed(i: nat) | Drop(i: nat)

  predicate Enabled(s: System, step: Step) {
    step.i < |s.threads|
    && match step
       case Begin(i, _) => s.threads[i].Outside?
       case Proceed(i) => s.threads[i].Reserved? || s.threads[i].Backing? || s.threads[i].Leaving?
       case Drop(i) => s.threads[i].Live?
  }

  // The subtractions of a step find something to subtract from.
  predicate Safe(s: System, step: Step)
    requires Enabled(s, step)
  {
    var pc := s.threads[step.i];
    (pc.Backing? || step.Drop? ==> s.gate.total >= 1)
    && (pc.Leaving? ==> pc.origin in s.gate.origins && s.gate.origins[pc.origin] >= 1)
  }

  function Next(lim: Limits, s: System, step: Step): System
    requires Enabled(s, step) && Safe(s, step)
  {
    var i := step.i;
    match step
    case Begin(_, o) =>
      System(Reserve(s.gate), s.threads[i := if s.gate.total >= lim.maxTotal then Backing else Reserved(o)])
    case Drop(_) => System(Unreserve(s.gate), s.threads[i := Leaving(s.threads[i].origin)])
    case Proceed(_) =>
      match s.threads[i]
      case Reserved(o) =>
        System(Register(lim, s.gate, o),
               s.threads[i := if CountOf(s.gate.origins, o) >= lim.maxPerOrigin then Backing else Live(o)])
      case Backing => System(Unreserve(s.gate), s.threads[i := Outside])
      case Leaving(o) => System(Unregister(s.gate, o), s.threads[i := Outside])
  }

  // ---------- counting threads ----------

  lemma {:induction false} CountAtLeastOne(ts: seq<Pc>, i: nat, p: Pc -> bool)
    requires i < |ts| && p(ts[i])
    ensures Count(ts, p) >= 1
  {
    if i != |ts| - 1 { CountAtLeastOne(ts[..|ts| - 1], i, p); }
  }

  lemma {:induction false} CountSame(ts: seq<Pc>, p: Pc -> bool, q: Pc -> bool)
    requires forall i :: 0 <= i < |ts| ==> p(ts[i]) == q(ts[i])
    ensures Count(ts, p) == Count(ts, q)
  {
    if ts != [] { CountSame(ts[..|ts| - 1], p, q); }
  }

  lemma {:induction false} CountNone(n: nat, p: Pc -> bool)
    requires !p(Outside)
    ensures Count(seq(n, i => Outside), p) == 0
  {
    if n != 0 {
      assert seq(n, i => Outside)[..n - 1] == seq(n - 1, i => Outside);
      CountNone(n - 1, p);
    }
  }

  predicate HoldsSlot(pc: Pc) { pc.Reserved? || pc.Backing? || pc.Live? }
  predicate Admitted(pc: Pc) { pc.Reserved? || pc.Live? }
  predicate IsLive(pc: Pc) { pc.Live? }
  predicate Entered(pc: Pc) { pc.Live? || pc.Leaving? }
  function At(o: Origin): Pc -> bool { (pc: Pc) => Entered(pc) && pc.origin == o }
  function LiveAt(o: Origin): Pc -> bool { (pc: Pc) => pc == Live(o) }

  // ---------- summing the map ----------

  ghost function Sum(m: map<Origin, nat>): nat {
    if m == map[] then 0 else var k :| k in m; m[k] + Sum(m - {k})
  }

  lemma {:induction false} SumRemove(m: map<Origin, nat>, k: Origin)
    requires k in m
    ensures Sum(m) == m[k] + Sum(m - {k})
    decreases |m|
  {
    var j :| j in m && Sum(m) == m[j] + Sum(m - {j});
    if j != k {
      SumRemove(m - {j}, k);
      SumRemove(m - {k}, j);
      assert m - {j} - {k} == m - {k} - {j};
    }
  }

  lemma SumSet(m: map<Origin, nat>, k: Origin, n: nat)
    ensures Sum(m[k := n]) == Sum(m) - CountOf(m, k) + n
  {
    SumRemove(m[k := n], k);
    if k in m {
      SumRemove(m, k);
      assert m[k := n] - {k} == m - {k};
    } else {
      assert m[k := n] - {k} == m;
    }
  }

  // ---------- the invariant ----------

  ghost predicate Inv(lim: Limits, s: System) {
    var m := s.gate.origins;
    && s.gate.total == Count(s.threads, HoldsSlot)
    && Count(s.threads, Admitted) <= lim.maxTotal
    && Sum(m) == Count(s.threads, Entered)
    && (forall o :: CountOf(m, o) == Count(s.threads, At(o)))
    && (forall o :: o in m ==> m[o] <= lim.maxPerOrigin && (m[o] == 0 ==> lim.maxPerOrigin == 0))
  }

  lemma InvIsSafe(lim: Limits, s: System, step: Step)
    requires Inv(lim, s) && Enabled(s, step)
    ensures Safe(s, step)
  {
    var pc := s.threads[step.i];
    if pc.Backing? || step.Drop? {
      CountAtLeastOne(s.threads, step.i, HoldsSlot);
    }
    if pc.Leaving? {
      CountAtLeastOne(s.threads, step.i, At(pc.origin));
      assert CountOf(s.gate.origins, pc.origin) >= 1;
    }
  }

  lemma StepKeeps(lim: Limits, s: System, step: Step)
    requires Inv(lim, s) && Enabled(s, step) && Safe(s, step)
    ensures Inv(lim, Next(lim, s, step))
  {
    var t := Next(lim, s, step);
    var i, pc := step.i, s.threads[step.i];
    var x := t.threads[i];
    CountUpdate(s.threads, i, x, HoldsSlot);
    CountUpdate(s.threads, i, x, Admitted);
    CountUpdate(s.threads, i, x, Entered);
    if step.Begin? {
      CountMore(s.threads, Admitted, HoldsSlot);
    }
    MapStep(lim, s, step);
    forall o
      ensures CountOf(t.gate.origins, o) == Count(t.threads, At(o))
    {
      CountUpdate(s.threads, i, x, At(o));
    }
  }

  // What a step does to the map.
  lemma MapStep(lim: Limits, s: System, step: Step)
    requires Inv(lim, s) && Enabled(s, step) && Safe(s, step)
    ensures var t := Next(lim, s, step); var m := t.gate.origins; var pc, x := s.threads[step.i], t.threads[step.i];
            Sum(m) == Sum(s.gate.origins) - (if Entered(pc) then 1 else 0) + (if Entered(x) then 1 else 0)
            && (forall o ::
                  CountOf(m, o)
                  == CountOf(s.gate.origins, o) - (if At(o)(pc) then 1 else 0) + (if At(o)(x) then 1 else 0))
            && (forall o :: o in m ==> m[o] <= lim.maxPerOrigin && (m[o] == 0 ==> lim.maxPerOrigin == 0))
  {
    var m, pc := s.gate.origins, s.threads[step.i];
    if step.Proceed? && pc.Reserved? {
      RegisterSum(lim, s.gate, pc.origin);
    } else if step.Proceed? && pc.Leaving? {
      UnregisterSum(s.gate, pc.origin);
    }
  }

  lemma RegisterSum(lim: Limits, g: Gate, o: Origin)
    ensures var m := Register(lim, g, o).origins;
            var raised := if CountOf(g.origins, o) < lim.maxPerOrigin then 1 else 0;
            Sum(m) == Sum(g.origins) + raised
            && forall x :: CountOf(m, x) == CountOf(g.origins, x) + if x == o then raised else 0
  {
    SumSet(g.origins, o, Register(lim, g, o).origins[o]);
  }

  lemma UnregisterSum(g: Gate, o: Origin)
    requires o in g.origins && g.origins[o] >= 1
    ensures var m := Unregister(g, o).origins;
            Sum(m) == Sum(g.origins) - 1
            && forall x :: CountOf(m, x) == CountOf(g.origins, x) - if x == o then 1 else 0
  {
    if g.origins[o] == 1 {
      SumRemove(g.origins, o);
    } else {
      SumSet(g.origins, o, g.origins[o] - 1);
    }
  }

  // ---------- main results ----------

  ghost predicate IsRun(lim: Limits, s: System, steps: seq<Step>)
    decreases |steps|
  {
    steps == [] || (Enabled(s, steps[0]) && (Safe(s, steps[0]) ==> IsRun(lim, Next(lim, s, steps[0]), steps[1..])))
  }

  ghost predicate AllSafe(lim: Limits, s: System, steps: seq<Step>)
    requires IsRun(lim, s, steps)
    decreases |steps|
  {
    steps == [] || (Safe(s, steps[0]) && AllSafe(lim, Next(lim, s, steps[0]), steps[1..]))
  }

  ghost function After(lim: Limits, s: System, steps: seq<Step>): System
    requires IsRun(lim, s, steps) && AllSafe(lim, s, steps)
    decreases |steps|
  {
    if steps == [] then s else After(lim, Next(lim, s, steps[0]), steps[1..])
  }

  function Initial(threads: nat): System { System(Gate(0, map[]), seq(threads, i => Outside)) }

  lemma InitialHolds(lim: Limits, n: nat)
    ensures Inv(lim, Initial(n))
  {
    CountNone(n, HoldsSlot);
    CountNone(n, Admitted);
    CountNone(n, Entered);
    forall o
      ensures Count(Initial(n).threads, At(o)) == 0
    {
      CountNone(n, At(o));
    }
  }

  lemma {:induction false} RunKeeps(lim: Limits, s: System, steps: seq<Step>)
    requires Inv(lim, s) && IsRun(lim, s, steps)
    ensures AllSafe(lim, s, steps) && Inv(lim, After(lim, s, steps))
    decreases |steps|
  {
    hide Inv, Next;
    if steps != [] {
      InvIsSafe(lim, s, steps[0]);
      StepKeeps(lim, s, steps[0]);
      RunKeeps(lim, Next(lim, s, steps[0]), steps[1..]);
    }
  }

  // Under every interleaving of any number of threads: no counter underflows, the streams admitted never
  // exceed the total, and no origin ever has more than its share.
  lemma LimitsHold(lim: Limits, n: nat, steps: seq<Step>, o: Origin)
    requires IsRun(lim, Initial(n), steps)
    ensures AllSafe(lim, Initial(n), steps)
    ensures var s := After(lim, Initial(n), steps);
            Count(s.threads, IsLive) <= lim.maxTotal && Count(s.threads, LiveAt(o)) <= lim.maxPerOrigin
  {
    InitialHolds(lim, n);
    RunKeeps(lim, Initial(n), steps);
    var s := After(lim, Initial(n), steps);
    CountMore(s.threads, IsLive, Admitted);
    CountMore(s.threads, LiveAt(o), At(o));
    assert CountOf(s.gate.origins, o) == Count(s.threads, At(o));
  }

  // When no thread is between steps, the total, the sum of the map and the live streams are one number,
  // each entry is the live streams of its origin, and no entry is zero unless the limit per origin is.
  lemma QuietBooksBalance(lim: Limits, n: nat, steps: seq<Step>)
    requires IsRun(lim, Initial(n), steps) && AllSafe(lim, Initial(n), steps)
    requires var s := After(lim, Initial(n), steps);
             forall i :: 0 <= i < n && i < |s.threads| ==> s.threads[i].Outside? || s.threads[i].Live?
    ensures var s := After(lim, Initial(n), steps);
            s.gate.total == Count(s.threads, IsLive) == Sum(s.gate.origins)
            && (forall o :: CountOf(s.gate.origins, o) == Count(s.threads, LiveAt(o)))
            && (lim.maxPerOrigin >= 1 ==> forall o :: o in s.gate.origins ==> s.gate.origins[o] >= 1)
  {
    InitialHolds(lim, n);
    RunKeeps(lim, Initial(n), steps);
    ThreadsAreFixed(lim, Initial(n), steps);
    var s := After(lim, Initial(n), steps);
    CountSame(s.threads, IsLive, HoldsSlot);
    CountSame(s.threads, IsLive, Entered);
    forall o
      ensures CountOf(s.gate.origins, o) == Count(s.threads, LiveAt(o))
    {
      CountSame(s.threads, LiveAt(o), At(o));
    }
  }

  lemma {:induction false} ThreadsAreFixed(lim: Limits, s: System, steps: seq<Step>)
    requires IsRun(lim, s, steps) && AllSafe(lim, s, steps)
    ensures |After(lim, s, steps).threads| == |s.threads|
    decreases |steps|
  {
    if steps != [] { ThreadsAreFixed(lim, Next(lim, s, steps[0]), steps[1..]); }
  }

  // With a limit of zero per origin, one refused stream leaves an entry at zero behind for good.
  lemma ZeroLimitLeavesAnEntry(maxTotal: nat, o: Origin)
    requires maxTotal >= 1
    ensures var lim := Limits(maxTotal, 0); var steps := [Begin(0, o), Proceed(0), Proceed(0)];
            IsRun(lim, Initial(1), steps) && AllSafe(lim, Initial(1), steps)
            && After(lim, Initial(1), steps) == System(Gate(0, map[o := 0]), [Outside])
  {
    var lim := Limits(maxTotal, 0);
    var steps := [Begin(0, o), Proceed(0), Proceed(0)];
    var s0 := Initial(1);
    assert s0.threads == [Outside];
    var s1 := Next(lim, s0, steps[0]);
    assert s1 == System(Gate(1, map[]), [Reserved(o)]);
    var s2 := Next(lim, s1, steps[1]);
    assert s2 == System(Gate(1, map[o := 0]), [Backing]);
    var s3 := Next(lim, s2, steps[2]);
    assert s3 == System(Gate(0, map[o := 0]), [Outside]);
    var last, tail := steps[2..], steps[1..];
    assert tail[1..] == last && last[1..] == [];
    assert IsRun(lim, s2, last) && AllSafe(lim, s2, last) && After(lim, s2, last) == s3;
    assert IsRun(lim, s1, tail) && AllSafe(lim, s1, tail) && After(lim, s1, tail) == s3;
  }

  // ---------- room admits ----------

  // With no thread between steps and room in both respects, whoever enters is let in.
  lemma RoomAdmits(lim: Limits, n: nat, steps: seq<Step>, i: nat, o: Origin)
    requires IsRun(lim, Initial(n), steps) && AllSafe(lim, Initial(n), steps)
    requires var s := After(lim, Initial(n), steps);
             && i < |s.threads| && s.threads[i].Outside?
             && (forall j :: 0 <= j < |s.threads| ==> s.threads[j].Outside? || s.threads[j].Live?)
             && Count(s.threads, IsLive) < lim.maxTotal && Count(s.threads, LiveAt(o)) < lim.maxPerOrigin
    ensures var s := After(lim, Initial(n), steps);
            && Enabled(s, Begin(i, o)) && Safe(s, Begin(i, o))
            && (var s1 := Next(lim, s, Begin(i, o));
                && Enabled(s1, Proceed(i)) && Safe(s1, Proceed(i))
                && Next(lim, s1, Proceed(i)).threads == s.threads[i := Live(o)])
  {
    QuietBooksBalance(lim, n, steps);
    hide After, IsRun, AllSafe;
    var s := After(lim, Initial(n), steps);
    assert CountOf(s.gate.origins, o) == Count(s.threads, LiveAt(o));
  }
}
