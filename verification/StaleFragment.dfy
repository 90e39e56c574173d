/** A run of the fragment cache in which a key is built again although it is remembered. */
module StaleFragment {
  import opened Base
  import opened FragmentCache

  lemma {:induction false} RunConcat(render: Key -> string, s: System, a: seq<Step>, b: seq<Step>)
    requires IsRun(render, s, a) && IsRun(render, After(render, s, a), b)
    ensures IsRun(render, s, a + b) && After(render, s, a + b) == After(render, After(render, s, a), b)
    decreases |a|
  {
    hide Next, Enabled;
    if a == [] {
      assert a + b == b;
    } else {
      assert (a + b)[1..] == a[1..] + b;
      RunConcat(render, Next(render, s, a[0]), a[1..], b);
    }
  }

  // The second of two callers asks for a key, builds it and leaves.
  function Visit(key: Key): seq<Step> { [Ask(1, key), Start(1), Finish(1, true)] }

  lemma Visited(render: Key -> string, s: System, key: Key)
    requires Inv(render, s) && |s.callers| == 2 && s.callers[1].Away? && !s.callers[0].Building?
    requires key !in s.inner.entries
    ensures IsRun(render, s, Visit(key))
    ensures After(render, s, Visit(key))
         == s.(inner := Looked(s.inner, key, |s.cells|), cells := s.cells + [Some(render(key))],
               owner := s.owner + [key],
               answers := s.answers + [Answer(key, Some(render(key)))])
    ensures Inv(render, After(render, s, Visit(key)))
  {
    hide Inv;
    var steps := Visit(key);
    var s1 := Next(render, s, steps[0]);
    hide Looked;
    assert s1.cells[|s.cells|] == None && s1.callers[1] == Holding(key, |s.cells|) && s1.callers[0] == s.callers[0];
    var s2 := Next(render, s1, steps[1]);
    var s3 := Next(render, s2, steps[2]);
    assert s3.callers == s.callers && s3.cells == s.cells + [Some(render(key))];
    assert steps[1..] == [steps[1], steps[2]] && steps[1..][1..] == [steps[2]] && steps[1..][1..][1..] == [];
    assert IsRun(render, s2, [steps[2]]) && After(render, s2, [steps[2]]) == s3;
    assert IsRun(render, s1, steps[1..]) && After(render, s1, steps[1..]) == s3;
    RunKeeps(render, s, steps);
  }

  // Names of other keys, told apart by their length.
  function Name(i: nat): Key { seq(i + 2, k => 'x') }

  function Names(m: nat): seq<Key> { seq(m, i requires 0 <= i < m => Name(i)) }

  const STALE: Key := "k"

  // The first caller asked for the key and got the first cell, which is empty; after it `m` others were listed.
  ghost predicate Waiting(render: Key -> string, s: System, m: nat) {
    && Inv(render, s) && s.callers == [Holding(STALE, 0), Away]
    && s.cells != [] && s.cells[0] == None && s.inner.order == [STALE] + Names(m)
  }

  lemma NamesAreNew(m: nat)
    ensures Name(m) !in [STALE] + Names(m)
  {
    assert |Name(m)| == m + 2;
    assert forall i :: 0 <= i < m ==> |Names(m)[i]| == i + 2;
  }

  lemma InitialHolds(render: Key -> string)
    ensures Inv(render, Initial(2))
  {
  }

  lemma FirstAsk(render: Key -> string)
    ensures IsRun(render, Initial(2), [Ask(0, STALE)]) && Waiting(render, After(render, Initial(2), [Ask(0, STALE)]), 0)
  {
    InitialHolds(render);
    hide Inv, Looked, Listed;
    var s0, step := Initial(2), Ask(0, STALE);
    assert [step][1..] == [];
    assert s0.callers == [Away, Away];
    StepKeeps(render, s0, step);
    Listing(render, s0);
    LookupForgetsTheOldest(s0.inner, STALE, 0);
    assert [STALE] + Names(0) == [] + [STALE];
  }

  lemma OneMoreListed(render: Key -> string, s: System, m: nat)
    requires m + 1 < CAPACITY && Waiting(render, s, m)
    ensures IsRun(render, s, Visit(Name(m))) && Waiting(render, After(render, s, Visit(Name(m))), m + 1)
  {
    hide IsRun, After, Inv, Looked, Visit;
    Listing(render, s);
    NamesAreNew(m);
    assert Names(m + 1) == Names(m) + [Name(m)];
    assert [STALE] + Names(m + 1) == ([STALE] + Names(m)) + [Name(m)];
    hide Names, Name;
    Visited(render, s, Name(m));
    LookupForgetsTheOldest(s.inner, Name(m), |s.cells|);
  }

  lemma {:induction false} Fill(render: Key -> string, m: nat) returns (steps: seq<Step>)
    requires m < CAPACITY
    ensures IsRun(render, Initial(2), steps) && Waiting(render, After(render, Initial(2), steps), m)
    decreases m
  {
    hide IsRun, After, Initial, Waiting, Visit;
    if m == 0 {
      FirstAsk(render);
      return [Ask(0, STALE)];
    }
    var front := Fill(render, m - 1);
    OneMoreListed(render, After(render, Initial(2), front), m - 1);
    RunConcat(render, Initial(2), front, Visit(Name(m - 1)));
    steps := front + Visit(Name(m - 1));
  }

  // The last key the listing has room for pushes the first one out.
  lemma PushedOut(render: Key -> string, s: System)
    requires Waiting(render, s, CAPACITY - 1)
    ensures var last := Name(CAPACITY - 1);
            && IsRun(render, s, Visit(last))
            && (var t := After(render, s, Visit(last));
                && Inv(render, t) && STALE !in t.inner.entries
                && t.callers == [Holding(STALE, 0), Away] && t.cells != [] && t.cells[0] == None)
  {
    hide IsRun, After, Looked;
    var last := Name(CAPACITY - 1);
    NamesAreNew(CAPACITY - 1);
    Visited(render, s, last);
    LookupForgetsTheOldest(s.inner, last, |s.cells|);
    OthersOnly(After(render, s, Visit(last)).inner.order, last);
  }

  lemma AskedAnew(render: Key -> string, t: System)
    requires Inv(render, t) && STALE !in t.inner.entries
    requires t.callers == [Holding(STALE, 0), Away] && t.cells != [] && t.cells[0] == None
    ensures IsRun(render, t, Visit(STALE))
    ensures var s := After(render, t, Visit(STALE));
            && Remembers(render, s, STALE) && Answer(STALE, Some(render(STALE))) in s.answers
            && s.callers == [Holding(STALE, 0), Away] && Enabled(s, Start(0))
  {
    hide IsRun, After, Looked, Inv;
    Visited(render, t, STALE);
    Listing(render, t);
    LookupKeepsListed(t.inner, STALE, |t.cells|);
  }

  lemma Listing(render: Key -> string, s: System)
    requires Inv(render, s)
    ensures Listed(s.inner)
  {
  }

  // One caller asks and dawdles; enough others push the key out of the listing; another asks for it anew and is given
  // its answer. The key is listed and remembered, and still the first caller can start to build it.
  lemma StaleCallerBuildsAgain(render: Key -> string) returns (steps: seq<Step>)
    ensures IsRun(render, Initial(2), steps)
    ensures var s := After(render, Initial(2), steps);
            && Remembers(render, s, STALE) && Answer(STALE, Some(render(STALE))) in s.answers
            && s.callers == [Holding(STALE, 0), Away] && Enabled(s, Start(0))
  {
    hide IsRun, After, Initial, Waiting, Visit, Inv, Remembers, Enabled;
    var last := Name(CAPACITY - 1);
    var front := Fill(render, CAPACITY - 1);
    var s := After(render, Initial(2), front);
    PushedOut(render, s);
    RunConcat(render, Initial(2), front, Visit(last));
    AskedAnew(render, After(render, s, Visit(last)));
    RunConcat(render, Initial(2), front + Visit(last), Visit(STALE));
    steps := front + Visit(last) + Visit(STALE);
  }

  lemma OthersOnly(order: seq<Key>, last: Key)
    requires last == Name(CAPACITY - 1) && order == ([STALE] + Names(CAPACITY - 1))[1..] + [last]
    ensures STALE !in order
  {
    assert forall i :: 0 <= i < |order| ==> |order[i]| >= 2;
  }
}
