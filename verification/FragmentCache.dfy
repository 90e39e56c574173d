/** The bounded, coalescing cache of rendered fragments. */
module FragmentCache {
  import opened Base

  const CAPACITY: nat := 512

  type Key = string

  // A once-cell is named by the order it was created in.
  type CellId = nat

  datatype Inner = Inner(entries: map<Key, CellId>, order: seq<Key>)

  // ---------- the critical section ----------

  // Drop oldest-first until the listing fits.
  function Evict(c: Inner): (r: Inner)
    ensures |r.order| <= CAPACITY
    decreases |c.order|
  {
    if |c.order| <= CAPACITY then c else Evict(Inner(c.entries - {c.order[0]}, c.order[1..]))
  }

  // The cell for a key: the one on record, or `unused`, recorded now.
  function Looked(c: Inner, key: Key, unused: CellId): Inner {
    if key in c.entries then c else Evict(Inner(c.entries[key := unused], c.order + [key]))
  }

  function CellFor(c: Inner, key: Key, unused: CellId): CellId {
    if key in c.entries then c.entries[key] else unused
  }

  // The listing names every entry once, in order of insertion, and there are not too many.
  ghost predicate Listed(c: Inner) {
    && |c.order| <= CAPACITY
    && (forall i, j :: 0 <= i < j < |c.order| ==> c.order[i] != c.order[j])
    && (forall k :: k in c.entries <==> k in c.order)
  }

  class FragmentCacheObject {
    var entries: map<Key, CellId>
    var order: seq<Key>
    var created: nat

    constructor ()
      ensures Inner(entries, order) == Inner(map[], []) && created == 0
    {
      entries := map[];
      order := [];
      created := 0;
    }

    method Lookup(key: Key) returns (cell: CellId)
      modifies this
      ensures Inner(entries, order) == Looked(old(Inner(entries, order)), key, old(created))
      ensures cell == CellFor(old(Inner(entries, order)), key, old(created))
      ensures created == old(created) + if key in old(entries) then 0 else 1
    {
      if key in entries {
        return entries[key];
      }
      cell := created;
      created := created + 1;
      entries := entries[key := cell];
      order := order + [key];
      ghost var begun := Inner(entries, order);
      while |order| > CAPACITY
        invariant Evict(Inner(entries, order)) == Evict(begun) && created == old(created) + 1
        decreases |order|
      {
        var oldest := order[0];
        order := order[1..];
        entries := entries - {oldest};
      }
    }
  }

  // A lookup keeps the listing, records the key's cell and touches no other.
  lemma LookupKeepsListed(c: Inner, key: Key, unused: CellId)
    requires Listed(c)
    ensures Listed(Looked(c, key, unused))
    ensures key in Looked(c, key, unused).entries && Looked(c, key, unused).entries[key] == CellFor(c, key, unused)
    ensures forall k :: k in Looked(c, key, unused).entries && k != key ==>
              k in c.entries && Looked(c, key, unused).entries[k] == c.entries[k]
  {
    if key !in c.entries {
      var grown := Inner(c.entries[key := unused], c.order + [key]);
      assert forall k :: k in grown.order <==> k in c.order || k == key;
      if |grown.order| > CAPACITY {
        DropOldest(grown, key);
      }
    }
  }

  // Nothing is forgotten but the oldest key, and that only to make room for a new one.
  lemma LookupForgetsTheOldest(c: Inner, key: Key, unused: CellId)
    requires Listed(c)
    ensures Looked(c, key, unused).order
         == if key in c.order then c.order
            else if |c.order| == CAPACITY then c.order[1..] + [key]
            else c.order + [key]
  {
    if key !in c.entries && |c.order| == CAPACITY {
      var grown := Inner(c.entries[key := unused], c.order + [key]);
      DropOldest(grown, key);
      assert grown.order[1..] == c.order[1..] + [key];
    }
  }

  lemma DropOldest(c: Inner, newest: Key)
    requires |c.order| == CAPACITY + 1 && c.order[CAPACITY] == newest
    requires forall i, j :: 0 <= i < j < |c.order| ==> c.order[i] != c.order[j]
    requires forall k :: k in c.entries <==> k in c.order
    ensures Evict(c) == Inner(c.entries - {c.order[0]}, c.order[1..])
    ensures Listed(Evict(c)) && newest in Evict(c).entries
  {
  }

  // ---------- any number of callers, interleaved ----------

  // Where a caller is: looking nothing up, holding a cell, or running the build that would fill it.
  datatype Pc = Away | Holding(key: Key, cell: CellId) | Building(key: Key, cell: CellId)

  datatype Answer = Answer(key: Key, html: Option<string>)

  // `owner` remembers which key each cell was created for.
  datatype System = System(inner: Inner, cells: seq<Option<string>>, owner: seq<Key>,
                           callers: seq<Pc>, answers: seq<Answer>)

  datatype Step =
    | Ask(i: nat, key: Key)
    | Start(i: nat)
    | Finish(i: nat, ok: bool)
    | ReadCell(i: nat)

  predicate Enabled(s: System, step: Step) {
    step.i < |s.callers|
    && match step
       case Ask(i, _) => s.callers[i].Away?
       case Start(i) =>
         // The cell is empty and nobody else is filling it.
         s.callers[i].Holding? && s.callers[i].cell < |s.cells| && s.cells[s.callers[i].cell].None?
         && (forall j :: 0 <= j < |s.callers| ==> !(s.callers[j].Building? && s.callers[j].cell == s.callers[i].cell))
       case Finish(i, _) => s.callers[i].Building? && s.callers[i].cell < |s.cells|
       case ReadCell(i) =>
         s.callers[i].Holding? && s.callers[i].cell < |s.cells| && s.cells[s.callers[i].cell].Some?
  }

  // `render` is the build: a function of the key, which may also fail.
  function Next(render: Key -> string, s: System, step: Step): System
    requires Enabled(s, step)
  {
    var i := step.i;
    match step
    case Ask(_, key) =>
      var unused := |s.cells|;
      var known := key in s.inner.entries;
      s.(inner := Looked(s.inner, key, unused),
         cells := if known then s.cells else s.cells + [None],
         owner := if known then s.owner else s.owner + [key],
         callers := s.callers[i := Holding(key, CellFor(s.inner, key, unused))])
    case Start(_) => s.(callers := s.callers[i := Building(s.callers[i].key, s.callers[i].cell)])
    case Finish(_, ok) =>
      var key, cell := s.callers[i].key, s.callers[i].cell;
      s.(cells := if ok then s.cells[cell := Some(render(key))] else s.cells,
         callers := s.callers[i := Away],
         answers := s.answers + [Answer(key, if ok then Some(render(key)) else None)])
    case ReadCell(_) =>
      s.(callers := s.callers[i := Away],
         answers := s.answers + [Answer(s.callers[i].key, s.cells[s.callers[i].cell])])
  }

  ghost predicate Inv(render: Key -> string, s: System) {
    && Listed(s.inner)
    && |s.owner| == |s.cells|
    && (forall k :: k in s.inner.entries ==> s.inner.entries[k] < |s.cells| && s.owner[s.inner.entries[k]] == k)
    && (forall c :: 0 <= c < |s.cells| ==> s.cells[c].None? || s.cells[c] == Some(render(s.owner[c])))
    && (forall i :: 0 <= i < |s.callers| && !s.callers[i].Away? ==>
          s.callers[i].cell < |s.cells| && s.owner[s.callers[i].cell] == s.callers[i].key)
    && (forall i :: 0 <= i < |s.callers| && !s.callers[i].Away? && s.callers[i].key in s.inner.entries ==>
          s.callers[i].cell <= s.inner.entries[s.callers[i].key])
    && (forall i :: 0 <= i < |s.callers| && s.callers[i].Building? ==> s.cells[s.callers[i].cell].None?)
    && (forall i, j :: 0 <= i < j < |s.callers| && s.callers[i].Building? && s.callers[j].Building? ==>
          s.callers[i].cell != s.callers[j].cell)
    && (forall i :: 0 <= i < |s.answers| ==>
          s.answers[i].html.None? || s.answers[i].html == Some(render(s.answers[i].key)))
  }

  // Cells are only ever added, and a filled one is never written again.
  ghost predicate CellsOnlyFill(s: System, t: System) {
    |s.cells| <= |t.cells| && forall c :: 0 <= c < |s.cells| && s.cells[c].Some? ==> t.cells[c] == s.cells[c]
  }

  lemma StepKeeps(render: Key -> string, s: System, step: Step)
    requires Inv(render, s) && Enabled(s, step)
    ensures Inv(render, Next(render, s, step))
    ensures CellsOnlyFill(s, Next(render, s, step))
  {
    match step
    case Ask(i, key) => AskKeeps(render, s, i, key);
    case Start(i) => StartKeeps(render, s, i);
    case Finish(i, ok) => FinishKeeps(render, s, i, ok);
    case ReadCell(i) =>
      hide Listed;
  }

  lemma AskKeeps(render: Key -> string, s: System, i: nat, key: Key)
    requires Inv(render, s) && Enabled(s, Ask(i, key))
    ensures Inv(render, Next(render, s, Ask(i, key))) && CellsOnlyFill(s, Next(render, s, Ask(i, key)))
  {
    hide Looked, Listed;
    LookupKeepsListed(s.inner, key, |s.cells|);
    var t := Next(render, s, Ask(i, key));
    assert forall c :: 0 <= c < |s.cells| ==> t.cells[c] == s.cells[c] && t.owner[c] == s.owner[c];
    assert forall j :: 0 <= j < |s.callers| && j != i ==> t.callers[j] == s.callers[j];
  }

  lemma StartKeeps(render: Key -> string, s: System, i: nat)
    requires Inv(render, s) && Enabled(s, Start(i))
    ensures Inv(render, Next(render, s, Start(i))) && CellsOnlyFill(s, Next(render, s, Start(i)))
  {
  }

  lemma FinishKeeps(render: Key -> string, s: System, i: nat, ok: bool)
    requires Inv(render, s) && Enabled(s, Finish(i, ok))
    ensures Inv(render, Next(render, s, Finish(i, ok))) && CellsOnlyFill(s, Next(render, s, Finish(i, ok)))
  {
  }

  // A failed build leaves the cell empty and the entry where it was, so the next caller builds again.
  lemma FailureIsNotRemembered(render: Key -> string, s: System, i: nat)
    requires Inv(render, s) && Enabled(s, Finish(i, false))
    ensures var t := Next(render, s, Finish(i, false)); var cell := s.callers[i].cell;
            t.cells[cell].None? && t.inner == s.inner
            && (forall j :: 0 <= j < |t.callers| ==> !(t.callers[j].Building? && t.callers[j].cell == cell))
            && (forall j :: 0 <= j < |t.callers| && t.callers[j].Holding? && t.callers[j].cell == cell ==>
                  Enabled(t, Start(j)))
  {
  }

  // ---------- main results ----------

  ghost predicate IsRun(render: Key -> string, s: System, steps: seq<Step>)
    decreases |steps|
  {
    steps == [] || (Enabled(s, steps[0]) && IsRun(render, Next(render, s, steps[0]), steps[1..]))
  }

  ghost function After(render: Key -> string, s: System, steps: seq<Step>): System
    requires IsRun(render, s, steps)
    decreases |steps|
  {
    if steps == [] then s else After(render, Next(render, s, steps[0]), steps[1..])
  }

  function Initial(n: nat): System { System(Inner(map[], []), [], [], seq(n, i => Away), []) }

  lemma {:induction false} RunKeeps(render: Key -> string, s: System, steps: seq<Step>)
    requires Inv(render, s) && IsRun(render, s, steps)
    ensures Inv(render, After(render, s, steps)) && CellsOnlyFill(s, After(render, s, steps))
    decreases |steps|
  {
    hide Inv, Next, Enabled;
    if steps != [] {
      StepKeeps(render, s, steps[0]);
      RunKeeps(render, Next(render, s, steps[0]), steps[1..]);
    }
  }

  // Under every interleaving: a successful answer is what building that key gives, the listing is duplicate-free,
  // names exactly the entries and never exceeds the capacity, and no cell is being built twice at once.
  lemma CacheIsTransparent(render: Key -> string, n: nat, steps: seq<Step>)
    requires IsRun(render, Initial(n), steps)
    ensures var s := After(render, Initial(n), steps);
            Listed(s.inner)
            && (forall i :: 0 <= i < |s.answers| && s.answers[i].html.Some? ==>
                  s.answers[i].html.value == render(s.answers[i].key))
            && (forall i, j :: 0 <= i < j < |s.callers| && s.callers[i].Building? && s.callers[j].Building? ==>
                  s.callers[i].cell != s.callers[j].cell)
  {
    RunKeeps(render, Initial(n), steps);
  }

  // Whatever happens afterwards, a cell that has been filled keeps what it was filled with.
  lemma CellsAreFilledOnce(render: Key -> string, n: nat, steps: seq<Step>, more: seq<Step>, c: nat)
    requires IsRun(render, Initial(n), steps) && IsRun(render, After(render, Initial(n), steps), more)
    requires c < |After(render, Initial(n), steps).cells| && After(render, Initial(n), steps).cells[c].Some?
    ensures var s := After(render, Initial(n), steps); var t := After(render, s, more);
            c < |t.cells| && t.cells[c] == s.cells[c]
  {
    RunKeeps(render, Initial(n), steps);
    RunKeeps(render, After(render, Initial(n), steps), more);
  }

  // ---------- what is built is remembered ----------

  // The successful builds of a cell among some steps.
  ghost function FillsOf(render: Key -> string, s: System, steps: seq<Step>, c: CellId): nat
    requires IsRun(render, s, steps)
    decreases |steps|
  {
    if steps == [] then 0
    else
      (if steps[0].Finish? && steps[0].ok && s.callers[steps[0].i].cell == c then 1 else 0)
      + FillsOf(render, Next(render, s, steps[0]), steps[1..], c)
  }

  predicate IsFilled(s: System, c: CellId) { c < |s.cells| && s.cells[c].Some? }

  lemma StepFills(render: Key -> string, s: System, step: Step, c: CellId)
    requires Inv(render, s) && Enabled(s, step)
    ensures (if IsFilled(s, c) then 1 else 0)
            + (if step.Finish? && step.ok && s.callers[step.i].cell == c then 1 else 0)
         == (if IsFilled(Next(render, s, step), c) then 1 else 0)
  {
    hide Looked, Listed;
  }

  // Over every run a cell has been built successfully once if it is filled, and never if it is not.
  lemma {:induction false} OneBuildPerCell(render: Key -> string, s: System, steps: seq<Step>, c: CellId)
    requires Inv(render, s) && IsRun(render, s, steps)
    ensures (if IsFilled(s, c) then 1 else 0) + FillsOf(render, s, steps, c)
         == (if IsFilled(After(render, s, steps), c) then 1 else 0)
    decreases |steps|
  {
    hide Inv, Next, Enabled, IsFilled;
    if steps != [] {
      StepFills(render, s, steps[0], c);
      StepKeeps(render, s, steps[0]);
      OneBuildPerCell(render, Next(render, s, steps[0]), steps[1..], c);
    }
  }

  // The key is listed, and its cell holds what building it gives.
  predicate Remembers(render: Key -> string, s: System, key: Key) {
    key in s.inner.entries && IsFilled(s, s.inner.entries[key]) && s.cells[s.inner.entries[key]] == Some(render(key))
  }

  // A caller is given a successful answer for the key, out of the cell listed for it.
  predicate Answers(s: System, step: Step, key: Key) {
    ((step.Finish? && step.ok) || step.ReadCell?) && Enabled(s, step) && s.callers[step.i].key == key
    && key in s.inner.entries && s.inner.entries[key] == s.callers[step.i].cell
  }

  lemma AnswersAreRemembered(render: Key -> string, s: System, step: Step, key: Key)
    requires Inv(render, s) && Enabled(s, step) && Answers(s, step, key)
    ensures Remembers(render, Next(render, s, step), key)
    ensures Next(render, s, step).answers == s.answers + [Answer(key, Some(render(key)))]
  {
    hide Looked, Listed;
  }

  // The key is listed before every step and at the end.
  ghost predicate StaysListed(render: Key -> string, s: System, steps: seq<Step>, key: Key)
    requires IsRun(render, s, steps)
    decreases |steps|
  {
    key in s.inner.entries && (steps == [] || StaysListed(render, Next(render, s, steps[0]), steps[1..], key))
  }

  // Nobody starts to build in the cell `c`.
  ghost predicate NoBuildOf(render: Key -> string, s: System, steps: seq<Step>, c: CellId)
    requires IsRun(render, s, steps)
    decreases |steps|
  {
    steps == []
    || ((steps[0].Start? ==> s.callers[steps[0].i].cell != c)
        && NoBuildOf(render, Next(render, s, steps[0]), steps[1..], c))
  }

  lemma StepRemembers(render: Key -> string, s: System, step: Step, key: Key)
    requires Inv(render, s) && Enabled(s, step) && Remembers(render, s, key)
    requires key in Next(render, s, step).inner.entries
    ensures Remembers(render, Next(render, s, step), key)
    ensures Next(render, s, step).inner.entries[key] == s.inner.entries[key]
    ensures step.Start? ==> s.callers[step.i].cell != s.inner.entries[key]
  {
    hide Looked, Listed;
    if step.Ask? {
      LookupKeepsListed(s.inner, step.key, |s.cells|);
    }
  }

  // Once remembered, a key is remembered for as long as it stays listed, and nobody starts to build in its cell.
  lemma {:induction false} RememberedWhileListed(render: Key -> string, s: System, steps: seq<Step>, key: Key)
    requires Inv(render, s) && IsRun(render, s, steps) && Remembers(render, s, key)
             && StaysListed(render, s, steps, key)
    ensures Remembers(render, After(render, s, steps), key)
    ensures After(render, s, steps).inner.entries[key] == s.inner.entries[key]
    ensures NoBuildOf(render, s, steps, s.inner.entries[key])
    decreases |steps|
  {
    hide Inv, Enabled, Remembers;
    if steps != [] {
      StepKeeps(render, s, steps[0]);
      assert key in Next(render, s, steps[0]).inner.entries;
      hide Next;
      StepRemembers(render, s, steps[0], key);
      RememberedWhileListed(render, Next(render, s, steps[0]), steps[1..], key);
    }
  }

  // Whoever asks for a remembered key can read it at once, and cannot build it.
  lemma AskersReadAtOnce(render: Key -> string, s: System, i: nat, key: Key)
    requires Inv(render, s) && Remembers(render, s, key) && Enabled(s, Ask(i, key))
    ensures var t := Next(render, s, Ask(i, key));
            && Remembers(render, t, key) && !Enabled(t, Start(i)) && Enabled(t, ReadCell(i))
            && Next(render, t, ReadCell(i)).answers == t.answers + [Answer(key, Some(render(key)))]
  {
    hide Listed;
  }

  // While a key is remembered a caller can still start to build it exactly if it asked before the key last left the
  // listing: what it holds is an older cell, empty and not being built.
  lemma OnlyStaleCallersBuild(render: Key -> string, s: System, j: nat, key: Key)
    requires Inv(render, s) && Remembers(render, s, key)
             && j < |s.callers| && s.callers[j].Holding? && s.callers[j].key == key
    ensures var c := s.callers[j].cell;
            Enabled(s, Start(j))
            <==> c < s.inner.entries[key] && s.cells[c].None?
                 && (forall i :: 0 <= i < |s.callers| && s.callers[i].Building? ==> s.callers[i].cell != c)
  {
    hide Listed;
  }
}
