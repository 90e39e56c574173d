/** The hourly change-rate measurement of `scripts/change-rate.py`. */
module ChangeRate {
  import opened Base

  const HOUR_MS: int := 60 * 60 * 1000

  type MarketKey = string

  datatype MarketState = MarketState(minPrice: int, medianPrice: int, listings: int, steps: Option<string>)

  datatype SampleRow = SampleRow(key: MarketKey, at: int, state: MarketState)

  type States = map<int, MarketState>

  datatype Counts = Counts(compared: nat, same: nat, appeared: nat, disappeared: nat)

  datatype Measurement = Measured(counts: Counts, missingLadders: nat) | TwoInOneHour

  predicate StateChanged(a: MarketState, b: MarketState, ladders: bool) {
    a.minPrice != b.minPrice || a.medianPrice != b.medianPrice || a.listings != b.listings
    || (ladders && a.steps != b.steps)
  }

  function Bucket(at: int): int { at / HOUR_MS * HOUR_MS }

  // ---------- grouping ----------

  // A dictionary of dictionaries, with its keys in the order they were first seen.
  datatype Grouped = Grouped(order: seq<MarketKey>, markets: map<MarketKey, States>) | Clash

  function Lookup(markets: map<MarketKey, States>, key: MarketKey): States {
    if key in markets then markets[key] else map[]
  }

  function Enter(g: Grouped, r: SampleRow): Grouped {
    match g
    case Clash => Clash
    case Grouped(order, markets) =>
      var states := Lookup(markets, r.key);
      if Bucket(r.at) in states then Clash
      else Grouped(if r.key in markets then order else order + [r.key],
                   markets[r.key := states[Bucket(r.at) := r.state]])
  }

  function Group(rows: seq<SampleRow>): Grouped {
    if rows == [] then Grouped([], map[]) else Enter(Group(rows[..|rows| - 1]), rows[|rows| - 1])
  }

  function MissingLadders(rows: seq<SampleRow>): nat {
    if rows == [] then 0
    else MissingLadders(rows[..|rows| - 1]) + (if rows[|rows| - 1].state.steps.None? then 1 else 0)
  }

  // ---------- counting one market ----------

  function At(states: States, hour: int): Option<MarketState> {
    if hour in states then Some(states[hour]) else None
  }

  function Tick(c: Counts, previous: Option<MarketState>, current: Option<MarketState>,
                first: bool, ladders: bool): Counts {
    if previous.Some? && current.Some? then
      c.(compared := c.compared + 1,
         same := c.same + if StateChanged(previous.value, current.value, ladders) then 0 else 1)
    else if previous.None? && current.Some? && !first then c.(appeared := c.appeared + 1)
    else if previous.Some? && current.None? then c.(disappeared := c.disappeared + 1)
    else c
  }

  // The hours from `hour` on, after `previous`.
  function CountMarket(c: Counts, states: States, previous: Option<MarketState>, hour: int,
                       start: int, end: int, ladders: bool): Counts
    decreases end - hour
  {
    if hour >= end then c
    else
      var current := At(states, hour);
      CountMarket(Tick(c, previous, current, hour == start, ladders),
                  states, current, hour + HOUR_MS, start, end, ladders)
  }

  // The markets from the `i`th on.
  function CountAll(c: Counts, order: seq<MarketKey>, markets: map<MarketKey, States>, i: nat,
                    start: int, end: int, ladders: bool): Counts
    requires i <= |order|
    decreases |order| - i
  {
    if i == |order| then c
    else
      CountAll(CountMarket(c, Lookup(markets, order[i]), None, start, start, end, ladders),
               order, markets, i + 1, start, end, ladders)
  }

  const ZERO := Counts(0, 0, 0, 0)

  function MeasurementOf(rows: seq<SampleRow>, start: int, end: int, ladders: bool): Measurement {
    match Group(rows)
    case Clash => TwoInOneHour
    case Grouped(order, markets) =>
      Measured(CountAll(ZERO, order, markets, 0, start, end, ladders), if ladders then MissingLadders(rows) else 0)
  }

  lemma GroupIsPrefixClosed(rows: seq<SampleRow>, n: nat)
    requires n <= |rows| && Group(rows[..n]).Clash?
    ensures Group(rows).Clash?
    decreases |rows| - n
  {
    hide Bucket, Lookup;
    if n < |rows| {
      assert rows[..n + 1][..n] == rows[..n];
      GroupIsPrefixClosed(rows, n + 1);
    } else {
      assert rows[..n] == rows;
    }
  }

  method GroupRows(rows: seq<SampleRow>, ladders: bool) returns (g: Grouped, missing: nat)
    ensures g == Group(rows)
    ensures g.Grouped? ==> missing == if ladders then MissingLadders(rows) else 0
  {
    hide Bucket;
    var order: seq<MarketKey>, markets: map<MarketKey, States> := [], map[];
    missing := 0;
    for n := 0 to |rows|
      invariant Group(rows[..n]) == Grouped(order, markets)
      invariant missing == if ladders then MissingLadders(rows[..n]) else 0
    {
      assert rows[..n + 1][..n] == rows[..n];
      var r := rows[n];
      var hour := Bucket(r.at);
      if r.key !in markets {
        order := order + [r.key];
        markets := markets[r.key := map[]];
      }
      if hour in markets[r.key] {
        GroupIsPrefixClosed(rows, n + 1);
        return Clash, missing;
      }
      markets := markets[r.key := markets[r.key][hour := r.state]];
      if ladders && r.state.steps.None? {
        missing := missing + 1;
      }
    }
    assert rows[..|rows|] == rows;
    g := Grouped(order, markets);
  }

  method Measure(rows: seq<SampleRow>, start: int, end: int, ladders: bool) returns (m: Measurement)
    ensures m == MeasurementOf(rows, start, end, ladders)
  {
    hide Group, Tick;
    var g, missing := GroupRows(rows, ladders);
    if g.Clash? {
      return TwoInOneHour;
    }
    var order, markets := g.order, g.markets;
    var c := ZERO;
    for i := 0 to |order|
      invariant CountAll(c, order, markets, i, start, end, ladders)
                == CountAll(ZERO, order, markets, 0, start, end, ladders)
    {
      var states := Lookup(markets, order[i]);
      ghost var goal := CountMarket(c, states, None, start, start, end, ladders);
      var previous: Option<MarketState> := None;
      var hour := start;
      while hour < end
        invariant CountMarket(c, states, previous, hour, start, end, ladders) == goal
        decreases end - hour
      {
        var current := At(states, hour);
        c := Tick(c, previous, current, hour == start, ladders);
        previous := current;
        hour := hour + HOUR_MS;
      }
    }
    m := Measured(c, missing);
  }

  // ---------- what the counters mean ----------

  // What an observation can be counted as. `First` and `Last` are the hours at the window's two edges.
  datatype Kind = Compared | Same | Appeared | Disappeared | First | Last | Every

  datatype Window = Window(markets: map<MarketKey, States>, start: int, end: int, ladders: bool)

  // Whether an observation of `key` in `hour` is of that kind, going by its two neighbouring hours.
  predicate IsOf(x: Kind, w: Window, key: MarketKey, hour: int) {
    var states := Lookup(w.markets, key);
    match x
    case Compared => hour != w.start && hour - HOUR_MS in states
    case Same =>
      hour != w.start && hour - HOUR_MS in states && hour in states
      && !StateChanged(states[hour - HOUR_MS], states[hour], w.ladders)
    case Appeared => hour != w.start && hour - HOUR_MS !in states
    case Disappeared => hour + HOUR_MS < w.end && hour + HOUR_MS !in states
    case First => hour == w.start
    case Last => hour + HOUR_MS == w.end
    case Every => true
  }

  // How many hours from `from` on are in `states` and of that kind.
  function Weigh(x: Kind, w: Window, key: MarketKey, states: States, from: int): nat
    decreases if from < w.end then w.end - from else 0
  {
    if from >= w.end then 0
    else (if from in states && IsOf(x, w, key, from) then 1 else 0) + Weigh(x, w, key, states, from + HOUR_MS)
  }

  function WeighAll(x: Kind, w: Window, order: seq<MarketKey>, markets: map<MarketKey, States>): nat {
    if order == [] then 0
    else
      var key := order[|order| - 1];
      WeighAll(x, w, order[..|order| - 1], markets) + Weigh(x, w, key, Lookup(markets, key), w.start)
  }

  function WeighRows(x: Kind, w: Window, rows: seq<SampleRow>): nat {
    if rows == [] then 0
    else
      var r := rows[|rows| - 1];
      WeighRows(x, w, rows[..|rows| - 1])
      + (if w.start <= Bucket(r.at) < w.end && IsOf(x, w, r.key, Bucket(r.at)) then 1 else 0)
  }

  predicate Aligned(t: int) { t % HOUR_MS == 0 }

  predicate WellFormed(w: Window) { w.start < w.end && Aligned(w.start) && Aligned(w.end) }

  lemma BucketIsOnTheGrid(at: int, start: int)
    requires Aligned(start)
    ensures Aligned(Bucket(at) - start)
  {
  }

  lemma BucketIsInside(at: int, start: int, end: int)
    requires Aligned(start) && Aligned(end) && start <= at < end
    ensures start <= Bucket(at) < end
  {
  }

  predicate Counted(x: Kind) { x.Compared? || x.Same? || x.Appeared? || x.Disappeared? }

  function Of(c: Counts, x: Kind): nat
    requires Counted(x)
  {
    match x
    case Compared => c.compared
    case Same => c.same
    case Appeared => c.appeared
    case Disappeared => c.disappeared
  }

  // A market lost at `hour` was last seen in the hour before it, which the sum from `hour` on does not hold.
  function Carry(x: Kind, w: Window, states: States, previous: Option<MarketState>, hour: int): nat {
    if x.Disappeared? && hour < w.end && previous.Some? && hour !in states then 1 else 0
  }

  // One market's counters are the numbers of its hours of each kind.
  lemma {:induction false} MarketCounts(x: Kind, w: Window, c: Counts, key: MarketKey,
                                        previous: Option<MarketState>, hour: int)
    requires Counted(x) && w.start <= hour
    requires previous == if hour == w.start then None else At(Lookup(w.markets, key), hour - HOUR_MS)
    ensures var states := Lookup(w.markets, key);
            Of(CountMarket(c, states, previous, hour, w.start, w.end, w.ladders), x)
            == Of(c, x) + Weigh(x, w, key, states, hour) + Carry(x, w, states, previous, hour)
    decreases if hour < w.end then w.end - hour else 0
  {
    if hour < w.end {
      var states := Lookup(w.markets, key);
      var current := At(states, hour);
      MarketCounts(x, w, Tick(c, previous, current, hour == w.start, w.ladders), key, current, hour + HOUR_MS);
    }
  }

  lemma {:induction false} AllCount(x: Kind, w: Window, c: Counts, order: seq<MarketKey>, i: nat)
    requires Counted(x) && i <= |order|
    ensures Of(CountAll(c, order, w.markets, i, w.start, w.end, w.ladders), x)
         == Of(c, x) + WeighAll(x, w, order, w.markets) - WeighAll(x, w, order[..i], w.markets)
    decreases |order| - i
  {
    if i < |order| {
      var states := Lookup(w.markets, order[i]);
      MarketCounts(x, w, c, order[i], None, w.start);
      AllCount(x, w, CountMarket(c, states, None, w.start, w.start, w.end, w.ladders), order, i + 1);
      assert order[..i + 1][..i] == order[..i];
    } else {
      assert order[..i] == order;
    }
  }

  // A new hour on the grid adds itself and nothing else.
  lemma {:induction false} WeighGrows(x: Kind, w: Window, key: MarketKey, states: States, hour: int,
                                      state: MarketState, from: int)
    requires hour !in states && Aligned(hour - from)
    ensures Weigh(x, w, key, states[hour := state], from)
         == Weigh(x, w, key, states, from) + (if from <= hour < w.end && IsOf(x, w, key, hour) then 1 else 0)
    decreases if from < w.end then w.end - from else 0
  {
    if from < w.end {
      WeighGrows(x, w, key, states, hour, state, from + HOUR_MS);
    }
  }

  lemma {:induction false} EmptyWeighsNothing(x: Kind, w: Window, key: MarketKey, from: int)
    ensures Weigh(x, w, key, map[], from) == 0
    decreases if from < w.end then w.end - from else 0
  {
    if from < w.end {
      EmptyWeighsNothing(x, w, key, from + HOUR_MS);
    }
  }

  ghost predicate Distinct(order: seq<MarketKey>) {
    forall i, j :: 0 <= i < j < |order| ==> order[i] != order[j]
  }

  lemma {:induction false} WeighAllUpdate(x: Kind, w: Window, order: seq<MarketKey>, markets: map<MarketKey, States>,
                                          k: MarketKey, states: States)
    requires Distinct(order)
    ensures WeighAll(x, w, order, markets[k := states])
         == WeighAll(x, w, order, markets)
            + (if k in order then Weigh(x, w, k, states, w.start) - Weigh(x, w, k, Lookup(markets, k), w.start) else 0)
  {
    if order != [] {
      var front, last := order[..|order| - 1], order[|order| - 1];
      WeighAllUpdate(x, w, front, markets, k, states);
      assert order == front + [last];
      if k == last {
        assert k !in front;
      }
    }
  }

  lemma {:induction false} OrderListsTheMarkets(rows: seq<SampleRow>)
    requires Group(rows).Grouped?
    ensures Distinct(Group(rows).order) && forall k :: k in Group(rows).order <==> k in Group(rows).markets
  {
    if rows != [] {
      hide Bucket;
      OrderListsTheMarkets(rows[..|rows| - 1]);
    }
  }

  // Entering one more row adds that row and nothing else.
  lemma RowAdded(x: Kind, w: Window, g: Grouped, r: SampleRow)
    requires g.Grouped? && Enter(g, r).Grouped? && Distinct(g.order) && (forall k :: k in g.order <==> k in g.markets)
    requires Aligned(w.start)
    ensures WeighAll(x, w, Enter(g, r).order, Enter(g, r).markets)
         == WeighAll(x, w, g.order, g.markets)
            + (if w.start <= Bucket(r.at) < w.end && IsOf(x, w, r.key, Bucket(r.at)) then 1 else 0)
  {
    hide IsOf, Distinct, Weigh, Aligned, Bucket;
    var had := Lookup(g.markets, r.key);
    BucketIsOnTheGrid(r.at, w.start);
    WeighGrows(x, w, r.key, had, Bucket(r.at), r.state, w.start);
    WeighAllUpdate(x, w, g.order, g.markets, r.key, had[Bucket(r.at) := r.state]);
    if r.key !in g.markets {
      EmptyWeighsNothing(x, w, r.key, w.start);
      assert (g.order + [r.key])[..|g.order|] == g.order;
    }
  }

  // The dictionary of dictionaries holds every row exactly once.
  lemma {:induction false} GroupKeepsEveryRow(x: Kind, w: Window, rows: seq<SampleRow>)
    requires Group(rows).Grouped? && WellFormed(w)
    ensures WeighAll(x, w, Group(rows).order, Group(rows).markets) == WeighRows(x, w, rows)
  {
    if rows != [] {
      var front := rows[..|rows| - 1];
      assert Group(front).Grouped?;
      hide IsOf, Bucket, Distinct, WeighAll, Aligned, Enter;
      GroupKeepsEveryRow(x, w, front);
      OrderListsTheMarkets(front);
      RowAdded(x, w, Group(front), rows[|rows| - 1]);
    }
  }

  // ---------- when a measurement is refused ----------

  ghost predicate Clashing(rows: seq<SampleRow>) {
    exists i, j :: 0 <= i < j < |rows| && rows[i].key == rows[j].key && Bucket(rows[i].at) == Bucket(rows[j].at)
  }

  // Some row has this key and hour, and is in `state`.
  ghost predicate SeenAs(rows: seq<SampleRow>, key: MarketKey, hour: int, state: MarketState) {
    exists i :: 0 <= i < |rows| && rows[i].key == key && Bucket(rows[i].at) == hour && rows[i].state == state
  }

  ghost predicate Seen(rows: seq<SampleRow>, key: MarketKey, hour: int) {
    exists state :: SeenAs(rows, key, hour, state)
  }

  // The measurement is refused exactly when two rows of one market share an hour; otherwise the dictionary
  // holds exactly what each market was seen as in each hour.
  lemma {:induction false} RefusedOnlyOnAClash(rows: seq<SampleRow>)
    ensures Group(rows).Clash? <==> Clashing(rows)
    ensures Group(rows).Grouped? ==>
              forall key, hour, state ::
                At(Lookup(Group(rows).markets, key), hour) == Some(state) <==> SeenAs(rows, key, hour, state)
  {
    if rows != [] {
      hide Clashing, SeenAs, Bucket;
      var front, r := rows[..|rows| - 1], rows[|rows| - 1];
      RefusedOnlyOnAClash(front);
      assert rows == front + [r];
      SeenSnoc(front, r);
      ClashSnoc(front, r);
      if Group(front).Grouped? {
        SeenIsHeld(front, r.key, Bucket(r.at));
      }
    }
  }

  lemma SeenIsHeld(rows: seq<SampleRow>, key: MarketKey, hour: int)
    requires Group(rows).Grouped?
    requires forall k, h, state :: At(Lookup(Group(rows).markets, k), h) == Some(state) <==> SeenAs(rows, k, h, state)
    ensures Seen(rows, key, hour) <==> hour in Lookup(Group(rows).markets, key)
  {
    hide SeenAs, Group;
    var states := Lookup(Group(rows).markets, key);
    if hour in states {
      assert At(states, hour) == Some(states[hour]);
      assert SeenAs(rows, key, hour, states[hour]);
    }
  }

  lemma SeenSnoc(front: seq<SampleRow>, r: SampleRow)
    ensures forall key, hour, state ::
              SeenAs(front + [r], key, hour, state)
              <==> SeenAs(front, key, hour, state) || (key == r.key && hour == Bucket(r.at) && state == r.state)
  {
    var rows := front + [r];
    assert rows[|front|] == r;
    forall key, hour, state | SeenAs(front, key, hour, state)
      ensures SeenAs(rows, key, hour, state)
    {
      var i :| 0 <= i < |front| && front[i].key == key && Bucket(front[i].at) == hour && front[i].state == state;
      assert rows[i] == front[i];
    }
  }

  lemma ClashSnoc(front: seq<SampleRow>, r: SampleRow)
    ensures Clashing(front + [r]) <==> Clashing(front) || Seen(front, r.key, Bucket(r.at))
  {
    var rows := front + [r];
    assert rows[|front|] == r;
    if Clashing(front) {
      var i, j :| 0 <= i < j < |front| && front[i].key == front[j].key && Bucket(front[i].at) == Bucket(front[j].at);
      assert rows[i] == front[i] && rows[j] == front[j];
    }
    if Seen(front, r.key, Bucket(r.at)) {
      var state :| SeenAs(front, r.key, Bucket(r.at), state);
      var i :| 0 <= i < |front| && front[i].key == r.key && Bucket(front[i].at) == Bucket(r.at)
               && front[i].state == state;
      assert rows[i] == front[i];
    }
    if Clashing(rows) {
      var i, j :| 0 <= i < j < |rows| && rows[i].key == rows[j].key && Bucket(rows[i].at) == Bucket(rows[j].at);
      assert rows[i] == front[i];
      if j < |front| {
        assert rows[j] == front[j];
      } else {
        assert SeenAs(front, r.key, Bucket(r.at), front[i].state);
      }
    }
  }

  // ---------- main results ----------

  // The same kinds, read off the list of rows alone.
  ghost predicate RowIsOf(x: Kind, rows: seq<SampleRow>, r: SampleRow, start: int, end: int, ladders: bool) {
    var hour := Bucket(r.at);
    match x
    case Compared => hour != start && Seen(rows, r.key, hour - HOUR_MS)
    case Same =>
      hour != start
      && exists state :: SeenAs(rows, r.key, hour - HOUR_MS, state) && !StateChanged(state, r.state, ladders)
    case Appeared => hour != start && !Seen(rows, r.key, hour - HOUR_MS)
    case Disappeared => hour + HOUR_MS < end && !Seen(rows, r.key, hour + HOUR_MS)
    case First => hour == start
    case Last => hour + HOUR_MS == end
    case Every => true
  }

  // How many of the first `n` rows are of that kind.
  ghost function Tally(x: Kind, rows: seq<SampleRow>, n: nat, start: int, end: int, ladders: bool): nat
    requires n <= |rows|
  {
    if n == 0 then 0
    else Tally(x, rows, n - 1, start, end, ladders)
         + (if RowIsOf(x, rows, rows[n - 1], start, end, ladders) then 1 else 0)
  }

  ghost predicate InWindow(rows: seq<SampleRow>, start: int, end: int) {
    forall i :: 0 <= i < |rows| ==> start <= rows[i].at < end
  }

  lemma RowKind(x: Kind, rows: seq<SampleRow>, i: nat, start: int, end: int, ladders: bool)
    requires Group(rows).Grouped? && i < |rows|
    ensures RowIsOf(x, rows, rows[i], start, end, ladders)
         <==> IsOf(x, Window(Group(rows).markets, start, end, ladders), rows[i].key, Bucket(rows[i].at))
  {
    hide Seen, Group, Bucket, StateChanged, Clashing;
    var r := rows[i];
    var hour := Bucket(r.at);
    assert SeenAs(rows, r.key, hour, r.state);
    hide SeenAs;
    RefusedOnlyOnAClash(rows);
    SeenIsHeld(rows, r.key, hour - HOUR_MS);
    SeenIsHeld(rows, r.key, hour + HOUR_MS);
  }

  lemma {:induction false} RowsAreTallied(x: Kind, rows: seq<SampleRow>, n: nat, start: int, end: int, ladders: bool)
    requires Group(rows).Grouped? && n <= |rows| && InWindow(rows, start, end) && Aligned(start) && Aligned(end)
    ensures WeighRows(x, Window(Group(rows).markets, start, end, ladders), rows[..n])
         == Tally(x, rows, n, start, end, ladders)
  {
    hide IsOf, RowIsOf, Group, Bucket, Aligned;
    if n > 0 {
      RowsAreTallied(x, rows, n - 1, start, end, ladders);
      RowKind(x, rows, n - 1, start, end, ladders);
      BucketIsInside(rows[n - 1].at, start, end);
      assert rows[..n][..n - 1] == rows[..n - 1];
    }
  }

  // Each counter is the number of rows of its kind: with the market seen in the hour before (and in the same state
  // there), not seen in the hour before, or not seen in the hour after.
  lemma CountersAreTallies(x: Kind, rows: seq<SampleRow>, start: int, end: int, ladders: bool)
    requires Aligned(start) && Aligned(end) && start < end && InWindow(rows, start, end)
    requires Counted(x) && MeasurementOf(rows, start, end, ladders).Measured?
    ensures Of(MeasurementOf(rows, start, end, ladders).counts, x) == Tally(x, rows, |rows|, start, end, ladders)
  {
    hide Group, CountAll, WeighRows, Weigh, Tally, IsOf, RowIsOf, MissingLadders;
    var g := Group(rows);
    var w := Window(g.markets, start, end, ladders);
    AllCount(x, w, ZERO, g.order, 0);
    GroupKeepsEveryRow(x, w, rows);
    RowsAreTallied(x, rows, |rows|, start, end, ladders);
    assert rows[..|rows|] == rows;
  }

  // In one market, every hour seen is the first, newly seen or compared; and the last, about to be lost or the one
  // its next hour is compared with.
  lemma {:induction false} HoursBalance(w: Window, key: MarketKey, from: int)
    requires w.start <= from && (from < w.end ==> Aligned(w.end - from))
    ensures var states := Lookup(w.markets, key);
            var sum := (x: Kind) => Weigh(x, w, key, states, from);
            sum(Every) == sum(Compared) + sum(Appeared) + sum(First)
            && sum(Same) <= sum(Compared)
            && sum(Every) + (if from < w.end && from in states && IsOf(Compared, w, key, from) then 1 else 0)
               == sum(Compared) + sum(Disappeared) + sum(Last)
    decreases if from < w.end then w.end - from else 0
  {
    if from < w.end {
      HoursBalance(w, key, from + HOUR_MS);
    }
  }

  lemma {:induction false} MarketsBalance(w: Window, order: seq<MarketKey>)
    requires WellFormed(w)
    ensures var sum := (x: Kind) => WeighAll(x, w, order, w.markets);
            sum(Every) == sum(Compared) + sum(Appeared) + sum(First)
            && sum(Same) <= sum(Compared)
            && sum(Every) == sum(Compared) + sum(Disappeared) + sum(Last)
  {
    if order != [] {
      MarketsBalance(w, order[..|order| - 1]);
      HoursBalance(w, order[|order| - 1], w.start);
    }
  }

  lemma {:induction false} EveryRowIsTallied(rows: seq<SampleRow>, n: nat, start: int, end: int, ladders: bool)
    requires n <= |rows|
    ensures Tally(Every, rows, n, start, end, ladders) == n
  {
    if n > 0 {
      EveryRowIsTallied(rows, n - 1, start, end, ladders);
    }
  }

  // For every measured set of rows in an hour-aligned window: each row is compared with the hour before it, newly
  // appeared, or in the first hour; and compared with the hour after it, about to disappear, or in the last.
  lemma RowsAreConserved(rows: seq<SampleRow>, start: int, end: int, ladders: bool)
    requires Aligned(start) && Aligned(end) && start < end && InWindow(rows, start, end)
    requires MeasurementOf(rows, start, end, ladders).Measured?
    ensures var c := MeasurementOf(rows, start, end, ladders).counts;
            |rows| == c.compared + c.appeared + Tally(First, rows, |rows|, start, end, ladders)
            && |rows| == c.compared + c.disappeared + Tally(Last, rows, |rows|, start, end, ladders)
            && c.same <= c.compared
  {
    var g := Group(rows);
    var w := Window(g.markets, start, end, ladders);
    MarketsBalance(w, g.order);
    forall x: Kind
      ensures WeighAll(x, w, g.order, g.markets) == Tally(x, rows, |rows|, start, end, ladders)
    {
      GroupKeepsEveryRow(x, w, rows);
      RowsAreTallied(x, rows, |rows|, start, end, ladders);
      assert rows[..|rows|] == rows;
    }
    EveryRowIsTallied(rows, |rows|, start, end, ladders);
    forall x: Kind | Counted(x)
      ensures Of(MeasurementOf(rows, start, end, ladders).counts, x) == Tally(x, rows, |rows|, start, end, ladders)
    {
      CountersAreTallies(x, rows, start, end, ladders);
    }
  }

  // ---------- what counts as a change ----------

  // Two states are the same exactly when they agree in price, median and listings, and in their ladders if those count.
  lemma UnchangedMeansTheSame(a: MarketState, b: MarketState, ladders: bool)
    ensures !StateChanged(a, b, ladders) <==> a.(steps := b.steps) == b && (ladders ==> a == b)
  {
  }

  predicate HasNoLadder(r: SampleRow) { r.state.steps.None? }

  lemma {:induction false} MissingIsCounted(rows: seq<SampleRow>)
    ensures MissingLadders(rows) == Count(rows, HasNoLadder)
  {
    if rows != [] { MissingIsCounted(rows[..|rows| - 1]); }
  }

  // The missing ladders reported are the rows without one, if ladders count, and none otherwise.
  lemma MissingLaddersAreCounted(rows: seq<SampleRow>, start: int, end: int, ladders: bool)
    requires MeasurementOf(rows, start, end, ladders).Measured?
    ensures MeasurementOf(rows, start, end, ladders).missingLadders == if ladders then Count(rows, HasNoLadder) else 0
  {
    hide CountAll, Group;
    MissingIsCounted(rows);
  }
}
