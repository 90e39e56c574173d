/** Runs in which attempts are overtaken between their two locks, and how far they get. */
module Overtaking {
  import opened Base
  import opened Throttle
  import opened Windows
  import opened Contention

  lemma {:induction false} RunConcat(s: System, a: seq<Step>, b: seq<Step>)
    requires IsRun(s, a) && IsRun(After(s, a), b)
    ensures IsRun(s, a + b) && After(s, a + b) == After(After(s, a), b)
    decreases |a|
  {
    hide Next, Enabled;
    if a == [] {
      assert a + b == b;
    } else {
      assert (a + b)[1..] == a[1..] + b;
      RunConcat(Next(s, a[0]), a[1..], b);
    }
  }

  // Both steps of an attempt by the first caller.
  function Whole(a: Attempt): seq<Step> { [TakeGlobal(0, a), TakeOrigin(0)] }

  predicate Ready(s: System, at: u64) {
    s.threads != [] && s.threads[0].Away? && s.clock <= at && s.latest <= at && GlobalOk(s.gate, at)
  }

  // An uninterrupted attempt does what `take` does when nothing runs between its locks.
  lemma WholeIsAttempt(s: System, a: Attempt)
    requires Ready(s, a.at)
    ensures IsRun(s, Whole(a))
    ensures After(s, Whole(a))
         == s.(gate := AfterAttempt(s.gate, a.origin, a.at), clock := a.at, passed := s.passed + [a],
               outcomes := s.outcomes + [Outcome(a, IsAdmitted(s.gate, a.origin, a.at))], latest := a.at)
  {
    hide Admit, OriginOk, Take;
    var s1 := Next(s, TakeGlobal(0, a));
    assert s1.threads[0] == Waiting(a);
    var s2 := Next(s1, TakeOrigin(0));
    assert s2.threads == s.threads;
    assert Whole(a)[1..] == [TakeOrigin(0)] && Whole(a)[1..][1..] == [];
    assert IsRun(s1, Whole(a)[1..]) && After(s1, Whole(a)[1..]) == s2;
  }

  // What a window has counted by `at`, and when it started.
  function CountedBy(cell: Option<Window>, at: u64): u32 {
    if cell.Some? && Open(cell.value, at) then cell.value.attempts else 0
  }

  function StartedBy(cell: Option<Window>, at: u64): u64 {
    if cell.Some? && Open(cell.value, at) then cell.value.started else at
  }

  predicate Idle(s: System, at: u64) { s.threads != [] && s.threads[0].Away? && s.clock <= at && s.latest <= at }

  // ---------- many origins at once ----------

  // Attempts by the origins `base`, `base + 1`, ... at one moment.
  lemma {:induction false} Crowd(s: System, base: Origin, n: nat, at: u64) returns (steps: seq<Step>)
    requires Idle(s, at) && CountedBy(s.gate.global, at) + n <= MAX_GLOBAL_ATTEMPTS
    requires forall o :: o in s.gate.origins ==> o < base && Open(s.gate.origins[o], at)
    ensures IsRun(s, steps)
    ensures var t := After(s, steps);
            && t.threads == s.threads && t.late == s.late && Idle(t, at)
            && |t.gate.origins| == |s.gate.origins| + n
            && (forall o :: o in t.gate.origins ==>
                  (o in s.gate.origins && t.gate.origins[o] == s.gate.origins[o])
                  || (base <= o < base + n && t.gate.origins[o].started == at))
            && (if n == 0 then t == s else t.latest == at)
            && (CountedBy(s.gate.global, at) > 0 ==>
                  t.gate.global.Some? && t.gate.global.value.started == s.gate.global.value.started)
    decreases n
  {
    if n == 0 {
      return [];
    }
    hide Admit, IsRun, After, Next, Whole;
    var a := Attempt(base, at);
    WholeIsAttempt(s, a);
    var s1 := After(s, Whole(a));
    NewOrigin(s.gate.origins, base, at);
    var rest := Crowd(s1, base + 1, n - 1, at);
    RunConcat(s, Whole(a), rest);
    steps := Whole(a) + rest;
  }

  lemma NewOrigin(m: map<Origin, Window>, base: Origin, at: u64)
    requires forall o :: o in m ==> o != base && Open(m[o], at)
    ensures Admit(m, base, at) == m[base := Window(at, 1)] && |Admit(m, base, at)| == |m| + 1
  {
    assert Retained(m, at) == m;
    assert m[base := Window(at, 1)].Keys == m.Keys + {base};
  }

  // ---------- single steps ----------

  lemma One(s: System, step: Step)
    requires Enabled(s, step)
    ensures IsRun(s, [step]) && After(s, [step]) == Next(s, step)
  {
    assert [step][1..] == [];
  }

  // ---------- late attempts ----------

  // The first `j` of the callers after the first are held up between their locks: the `i`th with origin
  // `i - 1`, since the start of the window before the `i`th.
  predicate Holding(s: System, j: nat) {
    j < |s.threads|
    && forall i :: 1 <= i <= j ==>
         s.threads[i].Waiting? && s.threads[i].attempt.origin == i - 1 && s.threads[i].attempt.at == (i - 1) * WINDOW_MS
  }

  lemma {:induction false} HoldEach(h: nat, j: nat) returns (steps: seq<Step>)
    requires j <= h && h * WINDOW_MS <= U64_MAX
    ensures IsRun(Initial(h + 1), steps)
    ensures var s := After(Initial(h + 1), steps);
            && Holding(s, j) && |s.threads| == h + 1 && s.threads[0].Away? && s.late == 0 && s.latest == -1
            && (forall i :: j < i <= h ==> s.threads[i].Away?)
            && s.gate.origins == map[]
            && (if j == 0 then s == Initial(h + 1)
                else s.gate.global == Some(Window((j - 1) * WINDOW_MS, 1)) && s.clock == (j - 1) * WINDOW_MS)
    decreases j
  {
    if j == 0 {
      return [];
    }
    var front := HoldEach(h, j - 1);
    hide IsRun, After;
    var s := After(Initial(h + 1), front);
    var at: u64 := (j - 1) * WINDOW_MS;
    assert j > 1 ==> at == (j - 2) * WINDOW_MS + WINDOW_MS;
    var step := TakeGlobal(j, Attempt(j - 1, at));
    One(s, step);
    RunConcat(Initial(h + 1), front, [step]);
    steps := front + [step];
  }

  lemma ReleaseOne(s: System, j: nat)
    requires 1 <= j && Holding(s, j) && j * WINDOW_MS <= s.latest
    requires forall o :: o in s.gate.origins ==> j <= o && (j - 1) * WINDOW_MS <= s.gate.origins[o].started
    ensures Enabled(s, TakeOrigin(j))
    ensures var t := Next(s, TakeOrigin(j));
            && Holding(t, j - 1) && t.latest == s.latest && t.late == s.late + 1
            && |t.gate.origins| == |s.gate.origins| + 1
            && (forall o :: o in t.gate.origins ==> j - 1 <= o && (j - 1) * WINDOW_MS <= t.gate.origins[o].started)
  {
    hide Admit, OriginOk;
    var at := s.threads[j].attempt.at;
    assert at == (j - 1) * WINDOW_MS;
    assert forall o :: o in s.gate.origins ==> o != j - 1 && Open(s.gate.origins[o], at);
    NewOrigin(s.gate.origins, j - 1, at);
  }

  // Released latest first, each adds its entry, and takes none away.
  lemma {:induction false} ReleaseEach(s: System, j: nat) returns (steps: seq<Step>)
    requires Holding(s, j) && j * WINDOW_MS <= s.latest
    requires forall o :: o in s.gate.origins ==> j <= o && (j - 1) * WINDOW_MS <= s.gate.origins[o].started
    ensures IsRun(s, steps)
    ensures After(s, steps).late == s.late + j && |After(s, steps).gate.origins| == |s.gate.origins| + j
    decreases j
  {
    if j == 0 {
      return [];
    }
    ReleaseOne(s, j);
    hide IsRun, After, Next, Holding;
    One(s, TakeOrigin(j));
    var s1 := Next(s, TakeOrigin(j));
    assert forall o :: o in s1.gate.origins ==> j - 1 <= o && (j - 2) * WINDOW_MS <= s1.gate.origins[o].started;
    var rest := ReleaseEach(s1, j - 1);
    RunConcat(s, [TakeOrigin(j)], rest);
    steps := [TakeOrigin(j)] + rest;
  }

  // The clock has room for so many windows.
  predicate ClockHolds(windows: nat) { windows * WINDOW_MS <= U64_MAX }

  // Two full crowds around the end of the last of `h` windows.
  lemma TwoCrowds(s: System, h: nat) returns (steps: seq<Step>)
    requires 1 <= h && ClockHolds(h) && Holding(s, h) && s.threads[0].Away? && s.latest == -1 && s.gate.origins == map[]
    requires s.gate.global == Some(Window((h - 1) * WINDOW_MS, 1)) && s.clock == (h - 1) * WINDOW_MS
    ensures IsRun(s, steps)
    ensures var t := After(s, steps);
            && Holding(t, h) && t.late == s.late && t.latest == h * WINDOW_MS
            && |t.gate.origins| == 2 * MAX_GLOBAL_ATTEMPTS - 1
            && (forall o :: o in t.gate.origins ==> h <= o && (h - 1) * WINDOW_MS <= t.gate.origins[o].started)
  {
    assert s.threads != [];
    hide IsRun, After, Holding;
    var end: u64 := h * WINDOW_MS;
    assert (h - 1) * WINDOW_MS == end - WINDOW_MS;
    var before := Crowd(s, h, MAX_GLOBAL_ATTEMPTS - 1, end - 1);
    var s2 := After(s, before);
    var after := Crowd(s2, h + MAX_GLOBAL_ATTEMPTS - 1, MAX_GLOBAL_ATTEMPTS, end);
    RunConcat(s, before, after);
    steps := before + after;
    HoldingIsOfThreads(s, After(s, steps), h);
  }

  lemma HoldingIsOfThreads(s: System, t: System, j: nat)
    requires Holding(s, j) && t.threads == s.threads
    ensures Holding(t, j)
  {
  }

  // `h` attempts are held up, and the map is as full as it gets without them.
  predicate Crowded(s: System, h: nat) {
    && Holding(s, h) && s.late == 0 && s.latest == h * WINDOW_MS
    && |s.gate.origins| == 2 * MAX_GLOBAL_ATTEMPTS - 1
    && (forall o :: o in s.gate.origins ==> h <= o && (h - 1) * WINDOW_MS <= s.gate.origins[o].started)
  }

  lemma CrowdedRun(h: nat) returns (steps: seq<Step>)
    requires 1 <= h && ClockHolds(h)
    ensures IsRun(Initial(h + 1), steps) && Crowded(After(Initial(h + 1), steps), h)
  {
    var first := HoldEach(h, h);
    hide IsRun, After, Initial, Holding;
    var s := After(Initial(h + 1), first);
    var crowds := TwoCrowds(s, h);
    RunConcat(Initial(h + 1), first, crowds);
    steps := first + crowds;
  }

  lemma CrowdedIsReady(s: System, h: nat, k: nat)
    requires Crowded(s, h) && (k == 0 || k == h)
    ensures Holding(s, k) && k * WINDOW_MS <= s.latest
    ensures forall o :: o in s.gate.origins ==> k <= o && (k - 1) * WINDOW_MS <= s.gate.origins[o].started
  {
  }

  // One attempt held up in each of `k` windows, two full crowds around the end of the last, and all released.
  lemma LateAttempts(k: nat) returns (n: nat, steps: seq<Step>)
    requires ClockHolds(k)
    ensures IsRun(Initial(n), steps)
    ensures After(Initial(n), steps).late == k
    ensures |After(Initial(n), steps).gate.origins| == 2 * MAX_GLOBAL_ATTEMPTS - 1 + k
  {
    var h := if k == 0 then 1 else k;
    n := h + 1;
    assert ClockHolds(h);
    hide IsRun, After, Initial, Holding, ClockHolds;
    var front := CrowdedRun(h);
    var s := After(Initial(n), front);
    CrowdedIsReady(s, h, k);
    var last := ReleaseEach(s, k);
    RunConcat(Initial(n), front, last);
    steps := front + last;
  }

  // ---------- one origin, again and again ----------

  lemma OneMore(cell: Option<Window>, at: u64, max: u32)
    requires CountedBy(cell, at) + 1 <= max
    ensures MayProceed(cell, at, max)
    ensures Take(cell, at) == Window(StartedBy(cell, at), CountedBy(cell, at) + 1)
  {
  }

  lemma OneMoreOf(m: map<Origin, Window>, o: Origin, at: u64)
    requires CountedBy(CellOf(m, o), at) + 1 <= MAX_ORIGIN_ATTEMPTS
    ensures OriginOk(m, o, at)
    ensures CellOf(Admit(m, o, at), o) == Some(Window(StartedBy(CellOf(m, o), at), CountedBy(CellOf(m, o), at) + 1))
  {
    OneMore(CellOf(Retained(m, at), o), at, MAX_ORIGIN_ATTEMPTS);
  }

  predicate HasRoom(s: System, o: Origin, n: nat, at: u64) {
    CountedBy(s.gate.global, at) + n <= MAX_GLOBAL_ATTEMPTS
    && CountedBy(CellOf(s.gate.origins, o), at) + n <= MAX_ORIGIN_ATTEMPTS
  }

  function Advanced(cell: Option<Window>, n: u32, at: u64): Option<Window>
    requires CountedBy(cell, at) + n <= MAX_GLOBAL_ATTEMPTS
  {
    if n == 0 then cell else Some(Window(StartedBy(cell, at), CountedBy(cell, at) + n))
  }

  lemma AdvancedTwice(cell: Option<Window>, n: u32, at: u64)
    requires CountedBy(cell, at) + 1 + n <= MAX_GLOBAL_ATTEMPTS
    ensures CountedBy(Advanced(cell, 1, at), at) == CountedBy(cell, at) + 1
    ensures Advanced(Advanced(cell, 1, at), n, at) == Advanced(cell, n + 1, at)
  {
  }

  // From `s` to `t`, `n` attempts of `o` have been made at one moment, and all of them admitted.
  ghost predicate Insisted(s: System, t: System, o: Origin, n: nat, at: u64, from: int)
    requires HasRoom(s, o, n, at)
  {
    && t.threads == s.threads && t.overtaken == s.overtaken
    && (n == 0 ==> t.clock == s.clock && t.latest == s.latest)
    && (n > 0 ==> t.clock == at == t.latest)
    && Count(t.outcomes, AdmittedOf(o, from))
       == Count(s.outcomes, AdmittedOf(o, from)) + (if from <= at < from + WINDOW_MS then n else 0)
    && t.gate.global == Advanced(s.gate.global, n, at)
    && CellOf(t.gate.origins, o) == Advanced(CellOf(s.gate.origins, o), n, at)
  }

  lemma InsistOnce(s: System, o: Origin, at: u64, from: int)
    requires Idle(s, at) && HasRoom(s, o, 1, at)
    ensures IsRun(s, Whole(Attempt(o, at))) && Insisted(s, After(s, Whole(Attempt(o, at))), o, 1, at, from)
  {
    hide Admit, IsRun, After, Next, Whole, OriginOk, Count, Take, MayProceed, CountedBy, StartedBy, CellOf;
    var a := Attempt(o, at);
    OneMore(s.gate.global, at, MAX_GLOBAL_ATTEMPTS);
    OneMoreOf(s.gate.origins, o, at);
    WholeIsAttempt(s, a);
    CountSnoc(s.outcomes, Outcome(a, true), AdmittedOf(o, from));
  }

  lemma {:induction false} Insist(s: System, o: Origin, n: nat, at: u64, from: int) returns (steps: seq<Step>)
    requires Idle(s, at) && HasRoom(s, o, n, at)
    ensures IsRun(s, steps) && Insisted(s, After(s, steps), o, n, at, from)
    decreases n
  {
    if n == 0 {
      return [];
    }
    hide IsRun, After, Next, Whole, Insisted;
    var once := Whole(Attempt(o, at));
    InsistOnce(s, o, at, from);
    RoomIsLeft(s, After(s, once), o, n - 1, at, from);
    var rest := Insist(After(s, once), o, n - 1, at, from);
    InsistedMore(s, After(s, once), After(After(s, once), rest), o, n - 1, at, from);
    RunConcat(s, once, rest);
    steps := once + rest;
  }

  lemma RoomIsLeft(s: System, t: System, o: Origin, n: nat, at: u64, from: int)
    requires HasRoom(s, o, n + 1, at) && Idle(s, at) && Insisted(s, t, o, 1, at, from)
    ensures HasRoom(t, o, n, at) && Idle(t, at)
  {
    AdvancedTwice(s.gate.global, n, at);
    AdvancedTwice(CellOf(s.gate.origins, o), n, at);
  }

  lemma InsistedMore(s: System, t: System, u: System, o: Origin, n: nat, at: u64, from: int)
    requires HasRoom(s, o, n + 1, at) && Insisted(s, t, o, 1, at, from)
    requires HasRoom(t, o, n, at) && Insisted(t, u, o, n, at, from)
    ensures Insisted(s, u, o, n + 1, at, from)
  {
    hide Count, CellOf;
    AdvancedTwice(s.gate.global, n, at);
    AdvancedTwice(CellOf(s.gate.origins, o), n, at);
  }

  // ---------- overtaken attempts ----------

  // From the `i`th on, the callers after the first are held up between their locks, all with origin 0, the `j`th
  // since `j` milliseconds after the start.
  predicate Queued(s: System, k: nat, i: nat)
    requires k <= MOST
  {
    |s.threads| == k + 1 && s.threads[0].Away? && forall j :: i <= j <= k ==> s.threads[j] == Waiting(Attempt(0, j))
  }

  const MOST: nat := 4

  // Origin 0 opens a window at 0, and `k` more attempts of it are held up.
  lemma {:induction false} Queue(k: nat, j: nat, from: int) returns (steps: seq<Step>)
    requires j <= k <= MOST && from == k + 1
    ensures IsRun(Initial(k + 1), steps)
    ensures var s := After(Initial(k + 1), steps);
            && |s.threads| == k + 1 && s.threads[0].Away? && s.overtaken == 0 && s.latest == 0 && s.clock == j
            && (forall i :: 1 <= i <= j ==> s.threads[i] == Waiting(Attempt(0, i)))
            && (forall i :: j < i <= k ==> s.threads[i].Away?)
            && s.gate.global == Some(Window(0, j + 1)) && CellOf(s.gate.origins, 0) == Some(Window(0, 1))
            && Count(s.outcomes, AdmittedOf(0, from)) == 0
    decreases j
  {
    if j == 0 {
      assert Count(Initial(k + 1).outcomes, AdmittedOf(0, from)) == 0;
      hide IsRun, After, Count;
      steps := Insist(Initial(k + 1), 0, 1, 0, from);
    } else {
      var front := Queue(k, j - 1, from);
      hide IsRun, After, Count, Initial;
      var s := After(Initial(k + 1), front);
      var step := TakeGlobal(j, Attempt(0, j));
      One(s, step);
      RunConcat(Initial(k + 1), front, [step]);
      steps := front + [step];
    }
  }

  // After `i` rounds: the window of origin 0 that opened at `i` is used up, and the next runs out a millisecond later.
  ghost predicate Round(s: System, k: nat, i: nat)
    requires i <= k <= MOST
  {
    && Queued(s, k, i + 1) && Idle(s, WINDOW_MS + i) && s.overtaken == i
    && s.gate.global == Some(if i == 0 then Window(0, 20 + k) else Window(WINDOW_MS, 20 * i))
    && CellOf(s.gate.origins, 0) == Some(Window(i, MAX_ORIGIN_ATTEMPTS))
    && Count(s.outcomes, AdmittedOf(0, k + 1)) == (MAX_ORIGIN_ATTEMPTS - 1) * (i + 1)
  }

  lemma FirstRound(k: nat) returns (steps: seq<Step>)
    requires k <= MOST
    ensures IsRun(Initial(k + 1), steps) && Round(After(Initial(k + 1), steps), k, 0)
  {
    var front := Queue(k, k, k + 1);
    hide IsRun, After, Count, Initial;
    var s := After(Initial(k + 1), front);
    var rest := Insist(s, 0, MAX_ORIGIN_ATTEMPTS - 1, k + 1, k + 1);
    RunConcat(Initial(k + 1), front, rest);
    steps := front + rest;
  }

  // Origin 1 drops the window that ran out; the next held attempt, overtaken, opens one nearly as old; and 19 more
  // attempts fit into that one.
  lemma Drop(s: System, k: nat, i: nat) returns (steps: seq<Step>)
    requires i < k <= MOST && Round(s, k, i)
    ensures IsRun(s, steps)
    ensures var t := After(s, steps);
            && Queued(t, k, i + 2) && Idle(t, WINDOW_MS + i) && t.overtaken == i + 1
            && t.gate.global == Some(Window(WINDOW_MS, 20 * i + 1))
            && CellOf(t.gate.origins, 0) == Some(Window(i + 1, 1))
            && Count(t.outcomes, AdmittedOf(0, k + 1)) == Count(s.outcomes, AdmittedOf(0, k + 1))
  {
    hide IsRun, After, Count, Whole;
    var p := AdmittedOf(0, k + 1);
    var other := Attempt(1, WINDOW_MS + i);
    WholeIsAttempt(s, other);
    var s1 := After(s, Whole(other));
    CountSnoc(s.outcomes, s1.outcomes[|s.outcomes|], p);
    assert 0 !in s1.gate.origins;
    One(s1, TakeOrigin(i + 1));
    var t := Next(s1, TakeOrigin(i + 1));
    CountSnoc(s1.outcomes, t.outcomes[|s1.outcomes|], p);
    RunConcat(s, Whole(other), [TakeOrigin(i + 1)]);
    steps := Whole(other) + [TakeOrigin(i + 1)];
  }

  lemma NextRound(s: System, k: nat, i: nat) returns (steps: seq<Step>)
    requires i < k <= MOST && Round(s, k, i)
    ensures IsRun(s, steps) && Round(After(s, steps), k, i + 1)
  {
    hide IsRun, After, Count, Whole;
    var drop := Drop(s, k, i);
    var t := After(s, drop);
    var fill := Insist(t, 0, MAX_ORIGIN_ATTEMPTS - 1, WINDOW_MS + i, k + 1);
    RunConcat(s, drop, fill);
    steps := drop + fill;
  }

  lemma {:induction false} Rounds(k: nat, i: nat) returns (steps: seq<Step>)
    requires i <= k <= MOST
    ensures IsRun(Initial(k + 1), steps) && Round(After(Initial(k + 1), steps), k, i)
    decreases i
  {
    hide IsRun, After, Round, Initial;
    if i == 0 {
      steps := FirstRound(k);
    } else {
      var front := Rounds(k, i - 1);
      var rest := NextRound(After(Initial(k + 1), front), k, i - 1);
      RunConcat(Initial(k + 1), front, rest);
      steps := front + rest;
    }
  }

  // `k` overtaken attempts, and as many admissions of one origin in a span as they allow.
  lemma OvertakenAttempts(k: nat) returns (steps: seq<Step>)
    requires k <= MOST
    ensures IsRun(Initial(k + 1), steps) && After(Initial(k + 1), steps).overtaken == k
    ensures Count(After(Initial(k + 1), steps).outcomes, AdmittedOf(0, k + 1))
         == 2 * MAX_ORIGIN_ATTEMPTS - 1 + (MAX_ORIGIN_ATTEMPTS - 1) * k
  {
    hide IsRun, After, Count, Initial;
    var front := Rounds(k, k);
    var s := After(Initial(k + 1), front);
    var last := Insist(s, 0, MAX_ORIGIN_ATTEMPTS, WINDOW_MS + k, k + 1);
    RunConcat(Initial(k + 1), front, last);
    steps := front + last;
  }

  // ---------- main results ----------

  // In every run with at most `k` late attempts the map of origins holds at most `bound` entries.
  ghost predicate MapKeepsTo(k: nat, bound: nat) {
    forall n: nat, steps :: IsRun(Initial(n), steps) && After(Initial(n), steps).late <= k ==>
      |After(Initial(n), steps).gate.origins| <= bound
  }

  // That is so if and only if the bound is at least 2 * 100 - 1 + k, for every k the u64 clock has windows for.
  lemma MapBoundIs(k: nat, bound: nat)
    ensures bound >= 2 * MAX_GLOBAL_ATTEMPTS - 1 + k ==> MapKeepsTo(k, bound)
    ensures ClockHolds(k) ==> (MapKeepsTo(k, bound) <==> bound >= 2 * MAX_GLOBAL_ATTEMPTS - 1 + k)
  {
    hide IsRun, After, Initial, ClockHolds;
    if bound >= 2 * MAX_GLOBAL_ATTEMPTS - 1 + k {
      forall n: nat, steps | IsRun(Initial(n), steps) && After(Initial(n), steps).late <= k
        ensures |After(Initial(n), steps).gate.origins| <= bound
      {
        OriginsAreBounded(n, steps);
      }
    } else if ClockHolds(k) {
      var n, steps := LateAttempts(k);
    }
  }

  // In every run with at most `k` overtaken attempts an origin has at most `bound` admissions in a span.
  ghost predicate OriginKeepsTo(k: nat, bound: nat) {
    forall n: nat, steps, o, from :: IsRun(Initial(n), steps) && After(Initial(n), steps).overtaken <= k ==>
      Count(After(Initial(n), steps).outcomes, AdmittedOf(o, from)) <= bound
  }

  // That is so whenever the bound is at least 2 * 20 - 1 + (20 - 1) * k, or what the global window allows; and with up
  // to four overtaken attempts only in the first case. With more it fails below what four allow.
  lemma OriginBoundIs(k: nat, bound: nat)
    ensures bound >= 2 * MAX_ORIGIN_ATTEMPTS - 1 + (MAX_ORIGIN_ATTEMPTS - 1) * k ==> OriginKeepsTo(k, bound)
    ensures bound >= 2 * MAX_GLOBAL_ATTEMPTS - 1 ==> OriginKeepsTo(k, bound)
    ensures OriginKeepsTo(k, bound) ==> bound >= 2 * MAX_ORIGIN_ATTEMPTS - 1 + (MAX_ORIGIN_ATTEMPTS - 1) * Min(k, MOST)
  {
    hide IsRun, After, Initial, Count;
    if bound >= 2 * MAX_ORIGIN_ATTEMPTS - 1 + (MAX_ORIGIN_ATTEMPTS - 1) * k {
      forall n: nat, steps, o, from | IsRun(Initial(n), steps) && After(Initial(n), steps).overtaken <= k
        ensures Count(After(Initial(n), steps).outcomes, AdmittedOf(o, from)) <= bound
      {
        OriginAttemptsAreBounded(n, steps, o, from);
      }
    }
    if bound >= 2 * MAX_GLOBAL_ATTEMPTS - 1 {
      forall n: nat, steps, o, from | IsRun(Initial(n), steps) && After(Initial(n), steps).overtaken <= k
        ensures Count(After(Initial(n), steps).outcomes, AdmittedOf(o, from)) <= bound
      {
        AttemptsAreBounded(n, steps, from);
        CountMore(After(Initial(n), steps).outcomes, AdmittedOf(o, from), Contention.AdmittedIn(from));
      }
    }
    var steps := OvertakenAttempts(Min(k, MOST));
  }
}
