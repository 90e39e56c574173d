/** The per-username throttle on failed sign-ins, against the history it stands for. */
module Login {
  import opened Base
  import opened Throttle

  const MAX_FAILURES: u32 := 8

  datatype Bucket = Bucket(failures: u32, last: u64)

  type Buckets = map<string, Bucket>

  predicate Expired(b: Bucket, now: u64) { SatSub(now, b.last) >= WINDOW_MS }

  function LowerChar(c: char): char { if 'A' <= c <= 'Z' then c + ('a' - 'A') else c }

  // ASCII case folding.
  function Key(name: string): string { seq(|name|, i requires 0 <= i < |name| => LowerChar(name[i])) }

  function Swept(m: Buckets, now: u64): Buckets {
    map k | k in m && !Expired(m[k], now) :: m[k]
  }

  function AfterFailure(m: Buckets, key: string, now: u64): Buckets {
    var s := Swept(m, now);
    s[key := Bucket(if key in s then SatAdd32(s[key].failures, 1) else 1, now)]
  }

  function AfterQuestion(m: Buckets, key: string, now: u64): Buckets {
    if key in m && Expired(m[key], now) then m - {key} else m
  }

  predicate Allows(m: Buckets, key: string, now: u64) {
    key !in m || Expired(m[key], now) || m[key].failures < MAX_FAILURES
  }

  class LoginThrottle {
    var buckets: Buckets

    constructor ()
      ensures buckets == map[]
    {
      buckets := map[];
    }

    method MayTry(username: string, now: u64) returns (ok: bool)
      modifies this
      ensures ok == Allows(old(buckets), Key(username), now)
      ensures buckets == AfterQuestion(old(buckets), Key(username), now)
    {
      var key := Key(username);
      if key !in buckets {
        return true;
      }
      if Expired(buckets[key], now) {
        buckets := buckets - {key};
        return true;
      }
      return buckets[key].failures < MAX_FAILURES;
    }

    method Fail(username: string, now: u64)
      modifies this
      ensures buckets == AfterFailure(old(buckets), Key(username), now)
    {
      var key := Key(username);
      buckets := Swept(buckets, now);
      if key !in buckets {
        buckets := buckets[key := Bucket(0, now)];
      }
      buckets := buckets[key := Bucket(SatAdd32(buckets[key].failures, 1), now)];
    }

    method Succeed(username: string)
      modifies this
      ensures buckets == old(buckets) - {Key(username)}
    {
      buckets := buckets - {Key(username)};
    }
  }

  // ---------- histories ----------

  // `Sweep` is the collection `failed` performs, here also allowed at any other time.
  datatype Event = Ask(name: string, at: u64)
    | Failure(name: string, at: u64) | Success(name: string, at: u64) | Sweep(at: u64)

  function BucketsAfter(h: seq<Event>): Buckets {
    if h == [] then map[]
    else
      var m := BucketsAfter(h[..|h| - 1]);
      match h[|h| - 1]
      case Ask(name, at) => AfterQuestion(m, Key(name), at)
      case Failure(name, at) => AfterFailure(m, Key(name), at)
      case Success(name, _) => m - {Key(name)}
      case Sweep(at) => Swept(m, at)
  }

  // A clock that does not go back, and has reached `now`.
  ghost predicate Timely(h: seq<Event>, now: u64) {
    h == [] || (h[|h| - 1].at <= now && Timely(h[..|h| - 1], h[|h| - 1].at))
  }

  // ---------- the reference ----------

  // The current run of failures, read backwards: it ends at a success, or at a gap of a window or more.
  function FailureRun(h: seq<Event>, key: string, now: u64): nat {
    if h == [] then 0
    else
      var e, front := h[|h| - 1], h[..|h| - 1];
      if e.Failure? && Key(e.name) == key then
        (if SatSub(now, e.at) >= WINDOW_MS then 0 else 1 + FailureRun(front, key, e.at))
      else if e.Success? && Key(e.name) == key then 0
      else FailureRun(front, key, now)
  }

  // What a bucket counts for at a moment.
  function Counted(m: Buckets, key: string, now: u64): nat {
    if key in m && !Expired(m[key], now) then m[key].failures else 0
  }

  lemma SweepKeepsCounts(m: Buckets, key: string, at: u64, now: u64)
    requires at <= now
    ensures Counted(Swept(m, at), key, now) == Counted(m, key, now)
  {
  }

  // The map holds the run of every key, at every moment from its last event on.
  lemma {:induction false} BucketsHoldTheRun(h: seq<Event>, key: string, now: u64)
    requires Timely(h, now)
    ensures Counted(BucketsAfter(h), key, now) == Min(FailureRun(h, key, now), U32_MAX)
  {
    if h != [] {
      var e, front := h[|h| - 1], h[..|h| - 1];
      var m := BucketsAfter(front);
      TimelyLater(front, e.at, now);
      BucketsHoldTheRun(front, key, now);
      if e.Failure? {
        SweepKeepsCounts(m, key, e.at, now);
        if Key(e.name) == key {
          BucketsHoldTheRun(front, key, e.at);
        }
      }
      if e.Sweep? {
        SweepKeepsCounts(m, key, e.at, now);
      }
    }
  }

  lemma TimelyLater(h: seq<Event>, a: u64, b: u64)
    requires Timely(h, a) && a <= b
    ensures Timely(h, b)
  {
  }

  // ---------- whose failures they are ----------

  // Two characters that are the same but for ASCII case.
  predicate Alike(c: char, d: char) {
    || c == d
    || ('A' <= c <= 'Z' && d as int == c as int + 32)
    || ('A' <= d <= 'Z' && c as int == d as int + 32)
  }

  // Two names that are the same person's.
  predicate SameName(a: string, b: string) {
    |a| == |b| && forall i :: 0 <= i < |a| ==> Alike(a[i], b[i])
  }

  lemma KeyIsTheName(a: string, b: string)
    ensures Key(a) == Key(b) <==> SameName(a, b)
  {
    assert forall c, d :: LowerChar(c) == LowerChar(d) <==> Alike(c, d);
    if Key(a) == Key(b) {
      assert forall i :: 0 <= i < |a| ==> Key(a)[i] == LowerChar(a[i]) && Key(b)[i] == LowerChar(b[i]);
    }
  }

  // The current run of failures of a person, by name.
  function RunOf(h: seq<Event>, name: string, now: u64): nat {
    if h == [] then 0
    else
      var e, front := h[|h| - 1], h[..|h| - 1];
      if e.Failure? && SameName(e.name, name) then
        (if now < e.at + WINDOW_MS then 1 + RunOf(front, name, e.at) else 0)
      else if e.Success? && SameName(e.name, name) then 0
      else RunOf(front, name, now)
  }

  lemma {:induction false} RunIsByName(h: seq<Event>, name: string, now: u64)
    ensures FailureRun(h, Key(name), now) == RunOf(h, name, now)
  {
    hide Key, SameName;
    if h != [] {
      var e, front := h[|h| - 1], h[..|h| - 1];
      RunIsByName(front, name, now);
      RunIsByName(front, name, e.at);
      if !e.Sweep? {
        KeyIsTheName(e.name, name);
      }
    }
  }

  // Whether a person may try after a history.
  predicate MayTryAfter(h: seq<Event>, name: string, now: u64) { Allows(BucketsAfter(h), Key(name), now) }

  // `allows` answers as the run of that person's failures dictates, for every history and every username.
  lemma AnswersFollowTheHistory(h: seq<Event>, name: string, now: u64)
    requires Timely(h, now)
    ensures MayTryAfter(h, name, now) <==> RunOf(h, name, now) < MAX_FAILURES
  {
    BucketsHoldTheRun(h, Key(name), now);
    RunIsByName(h, name, now);
  }

  lemma {:induction false} SameRun(h: seq<Event>, a: string, b: string, now: u64)
    requires SameName(a, b)
    ensures RunOf(h, a, now) == RunOf(h, b, now)
  {
    hide SameName;
    if h != [] {
      var e, front := h[|h| - 1], h[..|h| - 1];
      SameRun(front, a, b, now);
      SameRun(front, a, b, e.at);
      if !e.Sweep? {
        KeyIsTheName(a, b);
        KeyIsTheName(e.name, a);
        KeyIsTheName(e.name, b);
      }
    }
  }

  // A name in other case gets the same answer, and what happens to anybody else changes none.
  lemma OnlyTheirOwnFailures(h: seq<Event>, e: Event, a: string, b: string, now: u64)
    requires Timely(h + [e], now)
    ensures SameName(a, b) ==> (MayTryAfter(h + [e], a, now) <==> MayTryAfter(h + [e], b, now))
    ensures e.Sweep? || e.Ask? || !SameName(e.name, a) ==> (MayTryAfter(h + [e], a, now) <==> MayTryAfter(h, a, now))
  {
    hide SameName, MayTryAfter;
    assert (h + [e])[..|h|] == h;
    TimelyLater(h, e.at, now);
    AnswersFollowTheHistory(h + [e], a, now);
    AnswersFollowTheHistory(h + [e], b, now);
    AnswersFollowTheHistory(h, a, now);
    if SameName(a, b) {
      SameRun(h + [e], a, b, now);
    }
  }

  // ---------- sweeping changes no answer ----------

  function WithoutSweeps(h: seq<Event>): seq<Event> {
    if h == [] then []
    else WithoutSweeps(h[..|h| - 1]) + (if h[|h| - 1].Sweep? then [] else [h[|h| - 1]])
  }

  lemma {:induction false} RunIgnoresSweeps(h: seq<Event>, key: string, now: u64)
    ensures FailureRun(WithoutSweeps(h), key, now) == FailureRun(h, key, now)
  {
    if h != [] {
      var e, front := h[|h| - 1], h[..|h| - 1];
      if e.Sweep? {
        assert WithoutSweeps(front) + [] == WithoutSweeps(front);
      } else {
        assert WithoutSweeps(h)[..|WithoutSweeps(h)| - 1] == WithoutSweeps(front);
      }
      RunIgnoresSweeps(front, key, now);
      RunIgnoresSweeps(front, key, e.at);
    }
  }

  // Two histories that differ only in when buckets were swept answer every later question alike.
  lemma SweepsDoNotMatter(g: seq<Event>, h: seq<Event>, name: string, now: u64)
    requires Timely(g, now) && Timely(h, now) && WithoutSweeps(g) == WithoutSweeps(h)
    ensures MayTryAfter(g, name, now) <==> MayTryAfter(h, name, now)
  {
    BucketsHoldTheRun(g, Key(name), now);
    BucketsHoldTheRun(h, Key(name), now);
    RunIgnoresSweeps(g, Key(name), now);
    RunIgnoresSweeps(h, Key(name), now);
  }
}
