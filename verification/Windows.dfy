/** Fixed admission windows: sign-ups, and password attempts globally and per origin. */
module Windows {
  import opened Base
  import opened Throttle

  const MAX_ORIGIN_ATTEMPTS: u32 := 20
  const MAX_GLOBAL_ATTEMPTS: u32 := 100
  const MAX_SIGN_UPS: u32 := 10

  datatype Window = Window(started: u64, attempts: u32)

  predicate Open(w: Window, now: u64) { SatSub(now, w.started) < WINDOW_MS }

  // `take_window`: the cell afterwards, and whether the attempt may proceed.
  function Take(cell: Option<Window>, now: u64): Window {
    if cell.Some? && Open(cell.value, now) then Window(cell.value.started, SatAdd32(cell.value.attempts, 1))
    else Window(now, 1)
  }

  predicate MayProceed(cell: Option<Window>, now: u64, max: u32) {
    !(cell.Some? && Open(cell.value, now)) || SatAdd32(cell.value.attempts, 1) <= max
  }

  class SignUpThrottle {
    var window: Option<Window>

    constructor ()
      ensures window == None
    {
      window := None;
    }

    method Attempt(now: u64) returns (ok: bool)
      modifies this
      ensures window == Some(Take(old(window), now)) && ok == MayProceed(old(window), now, MAX_SIGN_UPS)
    {
      if window.Some? && SatSub(now, window.value.started) < WINDOW_MS {
        var attempts := SatAdd32(window.value.attempts, 1);
        window := Some(Window(window.value.started, attempts));
        return attempts <= MAX_SIGN_UPS;
      }
      window := Some(Window(now, 1));
      return true;
    }
  }

  datatype Gate = Gate(global: Option<Window>, origins: map<Origin, Window>)

  function Retained(m: map<Origin, Window>, now: u64): map<Origin, Window> {
    map o | o in m && Open(m[o], now) :: m[o]
  }

  function CellOf(m: map<Origin, Window>, o: Origin): Option<Window> {
    if o in m then Some(m[o]) else None
  }

  predicate GlobalOk(g: Gate, now: u64) { MayProceed(g.global, now, MAX_GLOBAL_ATTEMPTS) }

  // `AuthGate::take`, uninterrupted: an attempt over the global budget leaves no trace of its origin.
  function AfterAttempt(g: Gate, o: Origin, now: u64): Gate {
    Gate(Some(Take(g.global, now)),
         if GlobalOk(g, now) then Admit(g.origins, o, now) else g.origins)
  }

  function Admit(m: map<Origin, Window>, o: Origin, now: u64): map<Origin, Window> {
    var kept := Retained(m, now);
    kept[o := Take(CellOf(kept, o), now)]
  }

  predicate OriginOk(m: map<Origin, Window>, o: Origin, now: u64) {
    MayProceed(CellOf(Retained(m, now), o), now, MAX_ORIGIN_ATTEMPTS)
  }

  predicate IsAdmitted(g: Gate, o: Origin, now: u64) { GlobalOk(g, now) && OriginOk(g.origins, o, now) }

  class AuthGate {
    var global: Option<Window>
    var origins: map<Origin, Window>

    constructor ()
      ensures global == None && origins == map[]
    {
      global := None;
      origins := map[];
    }

    method TakeGlobal(now: u64) returns (ok: bool)
      modifies this`global
      ensures global == Some(Take(old(global), now)) && ok == MayProceed(old(global), now, MAX_GLOBAL_ATTEMPTS)
    {
      if global.Some? && SatSub(now, global.value.started) < WINDOW_MS {
        global := Some(Window(global.value.started, SatAdd32(global.value.attempts, 1)));
        return global.value.attempts <= MAX_GLOBAL_ATTEMPTS;
      }
      global := Some(Window(now, 1));
      return true;
    }

    method TakeOrigin(origin: Origin, now: u64) returns (ok: bool)
      modifies this`origins
      ensures origins == Admit(old(origins), origin, now) && ok == OriginOk(old(origins), origin, now)
    {
      origins := Retained(origins, now);
      if origin !in origins {
        origins := origins[origin := Window(now, 0)];
      }
      var window := origins[origin];
      origins := origins[origin := Window(window.started, SatAdd32(window.attempts, 1))];
      ok := origins[origin].attempts <= MAX_ORIGIN_ATTEMPTS;
    }

    // `take`, when nothing else runs between its two locks.
    method Attempt(origin: Origin, now: u64) returns (ok: bool)
      modifies this
      ensures Gate(global, origins) == AfterAttempt(Gate(old(global), old(origins)), origin, now)
      ensures ok == IsAdmitted(Gate(old(global), old(origins)), origin, now)
    {
      ok := TakeGlobal(now);
      if ok {
        ok := TakeOrigin(origin, now);
      }
    }
  }

  // ---------- one window over a span ----------

  // A clock that does not go back.
  ghost predicate Ordered(ts: seq<u64>) { forall i, j :: 0 <= i <= j < |ts| ==> ts[i] <= ts[j] }

  ghost predicate Within(ts: seq<u64>, from: u64, to: int) { forall i :: 0 <= i < |ts| ==> from <= ts[i] < to }

  function AdmittedIn(cell: Option<Window>, ts: seq<u64>, max: u32): nat
    decreases |ts|
  {
    if ts == [] then 0
    else (if MayProceed(cell, ts[0], max) then 1 else 0) + AdmittedIn(Some(Take(cell, ts[0])), ts[1..], max)
  }

  // A refused attempt never moves the start of its window.
  lemma RefusalKeepsTheStart(cell: Option<Window>, now: u64, max: u32)
    requires !MayProceed(cell, now, max)
    ensures cell.Some? && Take(cell, now).started == cell.value.started
  {
  }

  // Inside one window, what is left of its budget.
  lemma {:induction false} BudgetOfOneWindow(w: Window, ts: seq<u64>, max: u32)
    requires max < U32_MAX && Within(ts, w.started, w.started + WINDOW_MS)
    ensures AdmittedIn(Some(w), ts, max) <= Max(max - w.attempts, 0)
    decreases |ts|
  {
    if ts != [] {
      assert ts[0] in ts;
      BudgetOfOneWindow(Take(Some(w), ts[0]), ts[1..], max);
    }
  }

  // From any cell a run has left behind, any span shorter than a window admits at most 2 * max - 1.
  lemma {:induction false} SpanBound(cell: Option<Window>, ts: seq<u64>, max: u32)
    requires 1 <= max < U32_MAX && Ordered(ts) && (ts != [] ==> ts[|ts| - 1] < ts[0] + WINDOW_MS)
    requires cell.Some? ==> cell.value.attempts >= 1
    ensures AdmittedIn(cell, ts, max) <= 2 * max - 1
  {
    if ts != [] {
      SpanFrom(cell, ts, max, ts[0]);
    }
  }

  lemma {:induction false} SpanFrom(cell: Option<Window>, ts: seq<u64>, max: u32, from: u64)
    requires 1 <= max < U32_MAX && Ordered(ts) && Within(ts, from, from + WINDOW_MS)
    requires cell.Some? ==> cell.value.attempts >= 1
    ensures AdmittedIn(cell, ts, max) <= (if cell.Some? then Max(max - cell.value.attempts, 0) else 0) + max
    decreases |ts|
  {
    if ts != [] {
      var next, rest := Take(cell, ts[0]), ts[1..];
      assert forall i :: 0 <= i < |rest| ==> rest[i] == ts[i + 1];
      if cell.Some? && Open(cell.value, ts[0]) {
        SpanFrom(Some(next), rest, max, from);
      } else {
        BudgetOfOneWindow(next, rest, max);
      }
    }
  }

  function CellAfter(cell: Option<Window>, ts: seq<u64>): Option<Window>
    decreases |ts|
  {
    if ts == [] then cell else CellAfter(Some(Take(cell, ts[0])), ts[1..])
  }

  lemma {:induction false} CellIsUsed(cell: Option<Window>, ts: seq<u64>)
    requires cell.Some? ==> cell.value.attempts >= 1
    ensures CellAfter(cell, ts).Some? ==> CellAfter(cell, ts).value.attempts >= 1
    decreases |ts|
  {
    if ts != [] { CellIsUsed(Some(Take(cell, ts[0])), ts[1..]); }
  }

  // After any sign-up attempts, those of any span shorter than a window admit at most 2 * 10 - 1.
  lemma SignUpsAreBounded(before: seq<u64>, ts: seq<u64>)
    requires Ordered(ts) && ts != [] && ts[|ts| - 1] < ts[0] + WINDOW_MS
    ensures AdmittedIn(CellAfter(None, before), ts, MAX_SIGN_UPS) <= 2 * MAX_SIGN_UPS - 1
  {
    CellIsUsed(None, before);
    SpanBound(CellAfter(None, before), ts, MAX_SIGN_UPS);
  }

  // ---------- the bound is reached ----------

  function Repeat(n: nat, t: u64): seq<u64> { seq(n, i => t) }

  lemma {:induction false} BudgetIsSpent(w: Window, n: nat, t: u64, rest: seq<u64>, max: u32)
    requires max < U32_MAX && w.attempts + n <= max && w.started <= t < w.started + WINDOW_MS
    ensures AdmittedIn(Some(w), Repeat(n, t) + rest, max)
         == n + AdmittedIn(Some(Window(w.started, w.attempts + n)), rest, max)
    decreases n
  {
    if n == 0 {
      assert Repeat(n, t) + rest == rest;
    } else {
      var next := Take(Some(w), t);
      assert (Repeat(n, t) + rest)[1..] == Repeat(n - 1, t) + rest;
      BudgetIsSpent(next, n - 1, t, rest, max);
    }
  }

  lemma TwoTimesAreOrdered(a: nat, t: u64, b: nat, u: u64)
    requires t <= u
    ensures Ordered(Repeat(a, t) + Repeat(b, u))
  {
  }

  // After one attempt has opened a window, 2 * max - 1 more go through within two milliseconds
  // around its end.
  lemma SpanBoundIsTight(start: u64, max: u32)
    requires 1 <= max < U32_MAX && start + WINDOW_MS <= U64_MAX
    ensures var ts := Repeat(max - 1, start + WINDOW_MS - 1) + Repeat(max, start + WINDOW_MS);
            Ordered(ts) && AdmittedIn(Some(Take(None, start)), ts, max) == 2 * max - 1
  {
    var w := Take(None, start);
    var end := start + WINDOW_MS;
    hide Ordered;
    TwoTimesAreOrdered(max - 1, end - 1, max, end);
    var late := Repeat(max, end);
    BudgetIsSpent(w, max - 1, end - 1, late, max);
    assert late == [end] + Repeat(max - 1, end) && late[1..] == Repeat(max - 1, end) + [];
    BudgetIsSpent(Window(end, 1), max - 1, end, [], max);
  }

  // ---------- the authentication gate over a span ----------

  datatype Attempt = Attempt(origin: Origin, at: u64)

  function Times(xs: seq<Attempt>): (ts: seq<u64>)
    ensures |ts| == |xs| && forall i :: 0 <= i < |xs| ==> ts[i] == xs[i].at
  {
    seq(|xs|, i requires 0 <= i < |xs| => xs[i].at)
  }

  // How many attempts of one origin, among some, are admitted.
  function AdmittedBy(g: Gate, xs: seq<Attempt>, who: Origin): nat
    decreases |xs|
  {
    if xs == [] then 0
    else
      (if IsAdmitted(g, xs[0].origin, xs[0].at) && who == xs[0].origin then 1 else 0)
      + AdmittedBy(AfterAttempt(g, xs[0].origin, xs[0].at), xs[1..], who)
  }

  // The attempts of one origin that the global window lets through.
  function Passed(g: Gate, xs: seq<Attempt>, o: Origin): seq<u64>
    decreases |xs|
  {
    if xs == [] then []
    else
      (if GlobalOk(g, xs[0].at) && xs[0].origin == o then [xs[0].at] else [])
      + Passed(AfterAttempt(g, xs[0].origin, xs[0].at), xs[1..], o)
  }

  // An expired window counts as none.
  function Current(cell: Option<Window>, now: u64): Option<Window> {
    if cell.Some? && Open(cell.value, now) then cell else None
  }

  // The map keeps, for each origin, a window of its own: dropping an expired one changes no answer.
  lemma {:induction false} OriginHasItsOwnWindow(g: Gate, xs: seq<Attempt>, o: Origin, cell: Option<Window>)
    requires Ordered(Times(xs))
    requires xs != [] ==> Current(CellOf(g.origins, o), xs[0].at) == Current(cell, xs[0].at)
    ensures AdmittedBy(g, xs, o) == AdmittedIn(cell, Passed(g, xs, o), MAX_ORIGIN_ATTEMPTS)
    decreases |xs|
  {
    if xs != [] {
      var now, rest := xs[0].at, xs[1..];
      var next := AfterAttempt(g, xs[0].origin, now);
      assert Times(rest) == Times(xs)[1..];
      var mine := GlobalOk(g, now) && xs[0].origin == o;
      var cell' := if mine then Some(Take(cell, now)) else cell;
      if rest != [] {
        assert now <= rest[0].at by { assert Times(xs)[0] <= Times(xs)[1]; }
        OneAttempt(g, xs[0].origin, now, rest[0].at, o, cell);
      }
      OriginHasItsOwnWindow(next, rest, o, cell');
      if mine {
        assert Passed(g, xs, o)[0] == now && Passed(g, xs, o)[1..] == Passed(next, rest, o);
      } else {
        assert Passed(g, xs, o) == Passed(next, rest, o);
      }
    }
  }

  lemma OneAttempt(g: Gate, who: Origin, now: u64, later: u64, o: Origin, cell: Option<Window>)
    requires now <= later && Current(CellOf(g.origins, o), now) == Current(cell, now)
    ensures var cell' := if GlobalOk(g, now) && who == o then Some(Take(cell, now)) else cell;
            Current(CellOf(AfterAttempt(g, who, now).origins, o), later) == Current(cell', later)
  {
  }
}
