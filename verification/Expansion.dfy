/** The SQL that expands change rows over the snapshots that confirm them. */
module Expansion {
  import opened Base

  // A row of `realm_price_samples`: a market's state from an instant on.
  datatype Sample = Sample(item: nat, region: string, realm: nat, variantId: nat, at: int,
                           minPrice: int, medianPrice: int, maxPrice: int, listings: int)

  // A row of `collection_snapshots`: a realm was looked at.
  datatype Snapshot = Snapshot(region: string, realm: nat, at: int)

  datatype Market = Market(item: nat, region: string, realm: nat, variantId: nat)

  function MarketOf(s: Sample): Market { Market(s.item, s.region, s.realm, s.variantId) }

  // The primary key of the samples.
  ghost predicate Keyed(samples: set<Sample>) {
    forall s, t :: s in samples && t in samples && MarketOf(s) == MarketOf(t) && s.at == t.at ==> s == t
  }

  predicate SameRealm(s: Sample, p: Snapshot) { s.region == p.region && s.realm == p.realm }

  // ---------- SQL ----------

  lemma SomeTime(ts: set<int>)
    requires ts != {}
    ensures exists t :: t in ts
  {
    assert (forall t :: t !in ts) ==> ts == {};
  }

  // `MAX`, which is null of nothing.
  ghost function SqlMax(ts: set<int>): (m: Option<int>)
    ensures m.None? <==> ts == {}
    ensures m.Some? ==> m.value in ts && forall t :: t in ts ==> t <= m.value
    decreases ts
  {
    if ts == {} then None
    else
      SomeTime(ts);
      var t :| t in ts;
      var rest := SqlMax(ts - {t});
      assert ts == (ts - {t}) + {t};
      if rest.Some? && rest.value > t then rest else Some(t)
  }

  ghost function SqlMin(ts: set<int>): (m: int)
    requires ts != {}
    ensures m in ts && forall t :: t in ts ==> m <= t
    decreases ts
  {
    SomeTime(ts);
    var t :| t in ts;
    var rest := ts - {t};
    assert ts == rest + {t};
    if rest == {} then t else Min(t, SqlMin(rest))
  }

  // `ORDER BY`.
  ghost function Ascending(ts: set<int>): seq<int>
    decreases ts
  {
    if ts == {} then []
    else
      var m := SqlMin(ts);
      [m] + Ascending(ts - {m})
  }

  lemma {:induction false} AscendingIsSorted(ts: set<int>)
    ensures forall t :: t in Ascending(ts) <==> t in ts
    ensures forall i, j :: 0 <= i < j < |Ascending(ts)| ==> Ascending(ts)[i] < Ascending(ts)[j]
    decreases ts
  {
    if ts != {} {
      var m := SqlMin(ts);
      var rest := Ascending(ts - {m});
      AscendingIsSorted(ts - {m});
      SortedCons(m, rest);
    }
  }

  lemma SortedCons(m: int, rest: seq<int>)
    requires forall t :: t in rest ==> m < t
    requires forall i, j :: 0 <= i < j < |rest| ==> rest[i] < rest[j]
    ensures var s := [m] + rest;
            (forall t :: t in s <==> t == m || t in rest) && forall i, j :: 0 <= i < j < |s| ==> s[i] < s[j]
  {
    var s := [m] + rest;
    forall i, j | 0 <= i < j < |s|
      ensures s[i] < s[j]
    {
      assert s[j] == rest[j - 1];
      if i == 0 {
        assert rest[j - 1] in rest;
      } else {
        assert s[i] == rest[i - 1];
      }
    }
  }

  // `LEAD`: the value in the following row of the ordered partition.
  function LeadIn(s: seq<int>, t: int): Option<int> {
    if |s| < 2 then None else if s[0] == t then Some(s[1]) else LeadIn(s[1..], t)
  }

  ghost function Lead(ts: set<int>, t: int): Option<int> { LeadIn(Ascending(ts), t) }

  lemma {:induction false} LeadInIsNext(s: seq<int>, t: int)
    requires t in s && forall i, j :: 0 <= i < j < |s| ==> s[i] < s[j]
    ensures LeadIn(s, t).None? ==> forall x :: x in s ==> x <= t
    ensures LeadIn(s, t).Some? ==> LeadIn(s, t).value in s && t < LeadIn(s, t).value
    ensures LeadIn(s, t).Some? ==> forall x :: x in s && t < x ==> LeadIn(s, t).value <= x
  {
    if |s| >= 2 && s[0] != t {
      assert t in s[1..];
      LeadInIsNext(s[1..], t);
      assert s[0] < t;
      assert forall x :: x in s ==> x == s[0] || x in s[1..];
    }
  }

  // LEAD is the least later time of the partition, or null where there is none.
  lemma LeadIsNext(ts: set<int>, t: int)
    requires t in ts
    ensures Lead(ts, t).None? <==> forall x :: x in ts ==> x <= t
    ensures Lead(ts, t).Some? ==>
              Lead(ts, t).value in ts && t < Lead(ts, t).value
              && forall x :: x in ts && t < x ==> Lead(ts, t).value <= x
  {
    AscendingIsSorted(ts);
    LeadInIsNext(Ascending(ts), t);
  }

  // ---------- the correlated MAX ----------

  ghost function TimesUpTo(samples: set<Sample>, m: Market, t: int): set<int> {
    set s | s in samples && MarketOf(s) == m && s.at <= t :: s.at
  }

  type Keep = Snapshot -> bool
  type Pick = Sample -> bool

  // Each kept snapshot, with the state each picked market was last seen in.
  ghost function AsOf(samples: set<Sample>, snaps: set<Snapshot>, keep: Keep, pick: Pick): set<(Sample, Snapshot)> {
    set s, p | s in samples && p in snaps && keep(p) && pick(s) && SameRealm(s, p)
               && SqlMax(TimesUpTo(samples, MarketOf(s), p.at)) == Some(s.at)
               && s.listings > 0 :: (s, p)
  }

  // ---------- the LEAD interval join ----------

  // A history query: one region, all of its items or one, all of its realms or one, since an instant.
  datatype Query = Query(region: string, item: Option<nat>, realm: Option<nat>, since: int)

  predicate Picks(q: Query, s: Sample) {
    s.region == q.region && (q.item.Some? ==> s.item == q.item.value) && (q.realm.Some? ==> s.realm == q.realm.value)
  }

  predicate InScope(q: Query, p: Snapshot) {
    p.region == q.region && (q.realm.Some? ==> p.realm == q.realm.value)
  }

  predicate Keeps(q: Query, p: Snapshot) { p.region == q.region && p.at >= q.since }

  ghost function LastLook(q: Query, snaps: set<Snapshot>): Option<int> {
    SqlMax(set p | p in snaps && InScope(q, p) :: p.at)
  }

  // The pre-filter: no snapshot can expand a later row.
  ghost function Changes(q: Query, samples: set<Sample>, snaps: set<Snapshot>): set<Sample> {
    set s | s in samples && Picks(q, s) && LastLook(q, snaps).Some? && s.at <= LastLook(q, snaps).value
  }

  ghost function PartitionTimes(changes: set<Sample>, m: Market): set<int> {
    set s | s in changes && MarketOf(s) == m :: s.at
  }

  // A snapshot falls in the interval that starts with this row.
  ghost predicate Covers(changes: set<Sample>, s: Sample, p: Snapshot) {
    var next := Lead(PartitionTimes(changes, MarketOf(s)), s.at);
    p.at >= s.at && (next.None? || p.at < next.value)
  }

  ghost function LeadOver(changes: set<Sample>, q: Query, snaps: set<Snapshot>): set<(Sample, Snapshot)> {
    set s, p | s in changes && p in snaps && SameRealm(s, p)
               && Covers(changes, s, p) && Keeps(q, p) && s.listings > 0 :: (s, p)
  }

  ghost function Expanded(q: Query, samples: set<Sample>, snaps: set<Snapshot>): set<(Sample, Snapshot)> {
    LeadOver(Changes(q, samples, snaps), q, snaps)
  }

  // ---------- the two mean the same ----------

  // Over rows that contain every earlier change of the market, covering a snapshot is being its latest change.
  lemma CoveringIsBeingLatest(samples: set<Sample>, changes: set<Sample>, s: Sample, p: Snapshot)
    requires s in changes && changes <= samples
    requires forall x :: x in samples && MarketOf(x) == MarketOf(s) && x.at <= p.at ==> x in changes
    ensures Covers(changes, s, p) <==> SqlMax(TimesUpTo(samples, MarketOf(s), p.at)) == Some(s.at)
  {
    hide SqlMax, Lead, MarketOf;
    var m := MarketOf(s);
    var part, upTo := PartitionTimes(changes, m), TimesUpTo(samples, m, p.at);
    assert s.at in part;
    LeadIsNext(part, s.at);
    assert forall t :: t in upTo <==> t in part && t <= p.at by {
      SameTimes(samples, changes, m, p.at);
    }
    LatestBefore(part, upTo, s.at, p.at);
  }

  lemma SameTimes(samples: set<Sample>, changes: set<Sample>, m: Market, t: int)
    requires changes <= samples
    requires forall x :: x in samples && MarketOf(x) == m && x.at <= t ==> x in changes
    ensures TimesUpTo(samples, m, t) == set x | x in PartitionTimes(changes, m) && x <= t
  {
  }

  // Of some times, the one whose interval holds `now` is the latest not after it.
  lemma LatestBefore(part: set<int>, upTo: set<int>, t: int, now: int)
    requires t in part && forall x :: x in upTo <==> x in part && x <= now
    ensures (t <= now && (Lead(part, t).None? || now < Lead(part, t).value)) <==> SqlMax(upTo) == Some(t)
  {
    hide SqlMax, Lead;
    LeadIsNext(part, t);
    if SqlMax(upTo) == Some(t) && Lead(part, t).Some? {
      assert Lead(part, t).value !in upTo;
    }
    if t <= now && (Lead(part, t).None? || now < Lead(part, t).value) {
      assert t in upTo;
    }
  }

  // The LEAD interval join returns exactly the pairs of the correlated MAX, for every table. (`Lead` orders the set of
  // a partition's times. It is SQL's LEAD because the primary key, `Keyed`, leaves no two rows with one time there.)
  lemma LeadIsAsOf(q: Query, samples: set<Sample>, snaps: set<Snapshot>)
    ensures Expanded(q, samples, snaps) == AsOf(samples, snaps, p => Keeps(q, p), s => Picks(q, s))
  {
    hide Covers, TimesUpTo;
    var changes := Changes(q, samples, snaps);
    forall s, p | s in samples && p in snaps && SameRealm(s, p) && Keeps(q, p) && Picks(q, s)
      ensures (s in changes && Covers(changes, s, p)) <==> SqlMax(TimesUpTo(samples, MarketOf(s), p.at)) == Some(s.at)
    {
      InReach(q, samples, snaps, p, s);
      if s in changes {
        CoveringIsBeingLatest(samples, changes, s, p);
      } else {
        LatestIsNotLater(samples, s, p);
      }
    }
  }

  // The daily rollup: every market at every snapshot of a span, by the correlated MAX.
  ghost function Rollup(samples: set<Sample>, snaps: set<Snapshot>, from: int, to: int): set<(Sample, Snapshot)> {
    AsOf(samples, snaps, (p: Snapshot) => from <= p.at < to, s => true)
  }

  // What is rolled up for a day is what the history queries show of that day: pair by pair, the rollup and the
  // windows of the regions, or the histories of the items, or of the items on one realm, agree.
  lemma RollupIsTheHistory(samples: set<Sample>, snaps: set<Snapshot>, from: int, to: int,
                           s: Sample, p: Snapshot, q: Query)
    requires q.since == from && Picks(q, s)
    ensures (s, p) in Rollup(samples, snaps, from, to) <==> p.at < to && (s, p) in Expanded(q, samples, snaps)
  {
    hide Expanded, SqlMax, TimesUpTo;
    LeadIsAsOf(q, samples, snaps);
  }

  lemma LatestIsNotLater(samples: set<Sample>, s: Sample, p: Snapshot)
    ensures SqlMax(TimesUpTo(samples, MarketOf(s), p.at)) == Some(s.at) ==> s.at <= p.at
  {
  }

  // The pre-filter keeps every change up to a snapshot of the market's own realm.
  lemma InReach(q: Query, samples: set<Sample>, snaps: set<Snapshot>, p: Snapshot, s: Sample)
    requires p in snaps && Picks(q, s) && SameRealm(s, p)
    ensures forall x :: x in samples && MarketOf(x) == MarketOf(s) && x.at <= p.at ==> x in Changes(q, samples, snaps)
  {
    assert InScope(q, p);
    var looks := set r | r in snaps && InScope(q, r) :: r.at;
    assert p.at in looks;
  }

  ghost function Picked(q: Query, samples: set<Sample>): set<Sample> { set s | s in samples && Picks(q, s) }

  // The pre-filter changes nothing.
  lemma PrefilterIsFree(q: Query, samples: set<Sample>, snaps: set<Snapshot>)
    ensures Expanded(q, samples, snaps) == LeadOver(Picked(q, samples), q, snaps)
  {
    hide Covers;
    var changes, all := Changes(q, samples, snaps), Picked(q, samples);
    forall s, p | s in samples && p in snaps && SameRealm(s, p) && Keeps(q, p) && Picks(q, s)
      ensures (s in changes && Covers(changes, s, p)) <==> Covers(all, s, p)
    {
      InReach(q, samples, snaps, p, s);
      CoveringIsBeingLatest(samples, all, s, p);
      if s in changes {
        CoveringIsBeingLatest(samples, changes, s, p);
      } else {
        LatestIsNotLater(samples, s, p);
      }
    }
  }

  // ---------- the union with unsnapshotted rows ----------

  // `variant_id` to its text; both columns are unique.
  type Variants = map<nat, string>

  ghost predicate Unambiguous(v: Variants) {
    forall a, b :: a in v && b in v && v[a] == v[b] ==> a == b
  }

  datatype Row = OnSnapshot(sample: Sample, snapshot: Snapshot) | OnItsOwn(sample: Sample)

  function Instant(r: Row): int { if r.OnSnapshot? then r.snapshot.at else r.sample.at }

  // What a reader of the result sees as one market at one instant.
  datatype Shown = Shown(item: nat, region: string, realm: nat, variant: string, at: int)

  function ShownAs(v: Variants, r: Row): Shown
    requires r.sample.variantId in v
  {
    Shown(r.sample.item, r.sample.region, r.sample.realm, v[r.sample.variantId], Instant(r))
  }

  ghost predicate Snapshotted(snaps: set<Snapshot>, s: Sample) { Snapshot(s.region, s.realm, s.at) in snaps }

  // `UNION ALL` keeps both sides apart, so a row remembers which side it came from.
  ghost function History(q: Query, samples: set<Sample>, snaps: set<Snapshot>, v: Variants): set<Row> {
    (set pair | pair in Expanded(q, samples, snaps) && pair.0.variantId in v :: OnSnapshot(pair.0, pair.1))
    + (set s | s in samples && Picks(q, s) && s.at >= q.since && s.variantId in v
             && !Snapshotted(snaps, s) :: OnItsOwn(s))
  }

  // No market is shown twice at one instant, although nothing removes duplicates.
  lemma OneRowPerMarketAndInstant(q: Query, samples: set<Sample>, snaps: set<Snapshot>, v: Variants, a: Row, b: Row)
    requires Keyed(samples) && Unambiguous(v)
    requires a in History(q, samples, snaps, v) && b in History(q, samples, snaps, v)
    requires ShownAs(v, a) == ShownAs(v, b)
    ensures a == b
  {
    hide Expanded, SqlMax, TimesUpTo;
    LeadIsAsOf(q, samples, snaps);
    assert MarketOf(a.sample) == MarketOf(b.sample);
    if a.OnSnapshot? && b.OnSnapshot? {
      assert a.snapshot == b.snapshot;
      assert a.sample.at == b.sample.at;
    }
  }

  // A picked sample since the start of the query is shown, with its own prices, at the instant it was made,
  // exactly when something was listed or no snapshot recorded that instant.
  lemma ObservationsShown(q: Query, samples: set<Sample>, snaps: set<Snapshot>, v: Variants, s: Sample)
    requires Keyed(samples) && s in samples && Picks(q, s) && s.at >= q.since && s.variantId in v
    ensures (exists r :: r in History(q, samples, snaps, v) && r.sample == s && Instant(r) == s.at)
       <==> s.listings > 0 || !Snapshotted(snaps, s)
  {
    hide Expanded;
    LeadIsAsOf(q, samples, snaps);
    if s.listings > 0 && Snapshotted(snaps, s) {
      var p := Snapshot(s.region, s.realm, s.at);
      var upTo := TimesUpTo(samples, MarketOf(s), p.at);
      assert s.at in upTo;
      assert (s, p) in Expanded(q, samples, snaps);
      assert OnSnapshot(s, p) in History(q, samples, snaps, v);
    }
    if !Snapshotted(snaps, s) {
      assert OnItsOwn(s) in History(q, samples, snaps, v);
    }
  }

  // ---------- exactly what a history shows ----------

  // What the query asks about, field by field.
  predicate Asked(q: Query, item: nat, region: string, realm: nat, at: int) {
    region == q.region && (q.item.None? || q.item == Some(item))
    && (q.realm.None? || q.realm == Some(realm)) && at >= q.since
  }

  // The sample is its market's last one at that instant.
  ghost predicate LastBy(samples: set<Sample>, s: Sample, at: int) {
    s.at <= at
    && forall x | x in samples && x.item == s.item && x.region == s.region && x.realm == s.realm
                  && x.variantId == s.variantId && x.at <= at
         :: x.at <= s.at
  }

  lemma LastIsMax(samples: set<Sample>, s: Sample, at: int)
    requires s in samples
    ensures SqlMax(TimesUpTo(samples, MarketOf(s), at)) == Some(s.at) <==> LastBy(samples, s, at)
  {
    var times := TimesUpTo(samples, MarketOf(s), at);
    if LastBy(samples, s, at) {
      assert s.at in times;
    }
    if SqlMax(times) == Some(s.at) {
      forall x | x in samples && MarketOf(x) == MarketOf(s) && x.at <= at
        ensures x.at <= s.at
      {
        assert x.at in times;
      }
    }
  }

  // The rollup of a span: every market that is listed by its last sample, at every snapshot of its realm in the span.
  lemma RollupIs(samples: set<Sample>, snaps: set<Snapshot>, from: int, to: int, s: Sample, p: Snapshot)
    ensures (s, p) in Rollup(samples, snaps, from, to)
       <==> s in samples && p in snaps && s.region == p.region && s.realm == p.realm && from <= p.at < to
            && LastBy(samples, s, p.at) && s.listings > 0
  {
    if s in samples {
      LastIsMax(samples, s, p.at);
    }
    hide SqlMax, TimesUpTo, LastBy;
  }

  // A row on a snapshot is shown exactly when the snapshot is of what was asked for, since when it was asked for, and
  // the sample is the last of its market then and has something listed. A row on its own is shown exactly when the
  // sample is of what was asked for, since when it was asked for, and no snapshot of its realm recorded its instant.
  lemma HistoryIs(q: Query, samples: set<Sample>, snaps: set<Snapshot>, v: Variants, s: Sample, p: Snapshot)
    ensures OnSnapshot(s, p) in History(q, samples, snaps, v)
       <==> s in samples && p in snaps && s.region == p.region && s.realm == p.realm
            && Asked(q, s.item, s.region, s.realm, p.at) && LastBy(samples, s, p.at)
            && s.listings > 0 && s.variantId in v
    ensures OnItsOwn(s) in History(q, samples, snaps, v)
       <==> s in samples && Asked(q, s.item, s.region, s.realm, s.at) && s.variantId in v
            && !exists x :: x in snaps && x.region == s.region && x.realm == s.realm && x.at == s.at
  {
    LeadIsAsOf(q, samples, snaps);
    if s in samples {
      LastIsMax(samples, s, p.at);
    }
    hide Expanded, SqlMax, TimesUpTo, LastBy;
    assert OnSnapshot(s, p) in History(q, samples, snaps, v)
           <==> (s, p) in Expanded(q, samples, snaps) && s.variantId in v;
    assert Snapshotted(snaps, s) ==> Snapshot(s.region, s.realm, s.at) in snaps;
    assert forall x :: x in snaps && x.region == s.region && x.realm == s.realm && x.at == s.at ==>
                         x == Snapshot(s.region, s.realm, s.at);
  }
}
