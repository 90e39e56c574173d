/** How a job is split into tasks, and what the tasks' answers add up to. */
module Jobs {
  import opened Base
  import opened Primes

  datatype JobSpec =
    | SleepJob(totalMs: u64, tasks: u16)
    | PrimesJob(upperBound: u64, tasks: u16)
    | AnalysisJob(version: u64, algorithm: u32, partitions: u16)

  datatype TaskSpec =
    | Sleep(millis: u64)
    | PrimeRange(start: u64, end: u64)
    | Analysis(version: u64, algorithm: u32, partition: u32)

  function TaskCount(job: JobSpec): (n: u16)
    ensures n >= 1
  {
    match job
    case SleepJob(_, tasks) => Max(tasks, 1)
    case PrimesJob(_, tasks) => Max(tasks, 1)
    case AnalysisJob(_, _, partitions) => Max(partitions, 1)
  }

  lemma ChunkBound(upper: u64, n: int, i: int)
    requires 0 <= i < n
    ensures i * (upper / n) + upper / n <= upper && 0 <= i * (upper / n)
  {
    var chunk := upper / n;
    assert upper == n * chunk + upper % n;
    MulGrows(i + 1, n, chunk);
    MulGrows(0, i, chunk);
  }

  lemma SleepBound(total: u64, n: int)
    requires 0 < n
    ensures total / n + (if total % n > 0 then 1 else 0) <= total
  {
    assert total == n * (total / n) + total % n;
    MulGrows(1, n, total / n);
  }

  function SleepPart(total: u64, n: int, i: int): TaskSpec
    requires 0 <= i < n
  {
    SleepBound(total, n);
    Sleep(total / n + (if i < total % n then 1 else 0))
  }

  function RangePart(upper: u64, n: int, i: int): TaskSpec
    requires 0 <= i < n
  {
    ChunkBound(upper, n, i);
    var start := i * (upper / n);
    PrimeRange(start, if i + 1 == n then upper else start + upper / n)
  }

  function Split(job: JobSpec): seq<TaskSpec> {
    var n := TaskCount(job);
    match job
    case SleepJob(total, _) => seq(n, i requires 0 <= i < n => SleepPart(total, n, i))
    case PrimesJob(upper, _) => seq(n, i requires 0 <= i < n => RangePart(upper, n, i))
    case AnalysisJob(version, algorithm, _) => seq(n, i requires 0 <= i < n => Analysis(version, algorithm, i))
  }

  // ---------- ranges ----------

  // Consecutive ranges that start at `from` and end at `to`, with no gap and no overlap.
  ghost predicate Tiles(parts: seq<TaskSpec>, from: int, to: int) {
    if parts == [] then from == to
    else parts[0].PrimeRange? && parts[0].start == from && from <= parts[0].end && Tiles(parts[1..], parts[0].end, to)
  }

  ghost function CountSum(parts: seq<TaskSpec>): nat {
    if parts == [] then 0
    else (if parts[0].PrimeRange? then PrimeCount(parts[0].start, parts[0].end) else 0) + CountSum(parts[1..])
  }

  lemma RangePartIs(upper: u64, n: int, i: int)
    requires 0 <= i < n
    ensures var part := RangePart(upper, n, i); var chunk := upper / n;
            part.PrimeRange? && part.start == i * chunk && part.start <= part.end
            && part.end == if i + 1 == n then upper else (i + 1) * chunk
  {
    ChunkBound(upper, n, i);
    assert (i + 1) * (upper / n) == i * (upper / n) + upper / n;
  }

  lemma {:induction false} TilesFrom(upper: u64, n: int, k: int, parts: seq<TaskSpec>)
    requires 0 <= k < n
    requires |parts| == n - k && forall i :: 0 <= i < n - k ==> parts[i] == RangePart(upper, n, k + i)
    ensures Tiles(parts, k * (upper / n), upper)
    decreases n - k
  {
    hide RangePart;
    RangePartIs(upper, n, k);
    assert parts[0] == RangePart(upper, n, k + 0);
    var rest := parts[1..];
    if k + 1 < n {
      forall i | 0 <= i < n - (k + 1)
        ensures rest[i] == RangePart(upper, n, k + 1 + i)
      {
        assert rest[i] == parts[i + 1] == RangePart(upper, n, k + (i + 1));
      }
      TilesFrom(upper, n, k + 1, rest);
    }
  }

  // For every bound and task count the ranges tile [0, upperBound).
  lemma SplitTiles(upper: u64, tasks: u16)
    ensures |Split(PrimesJob(upper, tasks))| == Max(tasks, 1)
    ensures Tiles(Split(PrimesJob(upper, tasks)), 0, upper)
  {
    var n := TaskCount(PrimesJob(upper, tasks));
    TilesFrom(upper, n, 0, Split(PrimesJob(upper, tasks)));
  }

  // They are of one size, but for the last, which takes what is left over.
  lemma SplitIsEven(upper: u64, tasks: u16)
    ensures var parts := Split(PrimesJob(upper, tasks)); var n := |parts|;
            && n == Max(tasks, 1)
            && (forall i :: 0 <= i < n ==> parts[i].PrimeRange?)
            && (forall i, j :: 0 <= i < n - 1 && 0 <= j < n - 1 ==>
                  parts[i].end - parts[i].start == parts[j].end - parts[j].start)
            && (forall i :: 0 <= i < n - 1 ==>
                  var more := (parts[n - 1].end - parts[n - 1].start) - (parts[i].end - parts[i].start); 0 <= more < n)
  {
    var parts := Split(PrimesJob(upper, tasks));
    var n := |parts|;
    var chunk := upper / n;
    assert upper == n * chunk + upper % n;
    hide RangePart;
    forall i | 0 <= i < n
      ensures parts[i].PrimeRange?
      ensures parts[i].end - parts[i].start == if i + 1 == n then upper - (n - 1) * chunk else chunk
    {
      RangePartIs(upper, n, i);
      assert (i + 1) * chunk == i * chunk + chunk;
    }
    assert upper - (n - 1) * chunk == chunk + upper % n;
  }

  lemma {:induction false} TilesAddUp(parts: seq<TaskSpec>, from: int, to: int)
    requires Tiles(parts, from, to)
    ensures from <= to && CountSum(parts) == PrimeCount(from, to)
  {
    if parts != [] {
      TilesAddUp(parts[1..], parts[0].end, to);
      PrimeCountSplits(from, parts[0].end, to);
    }
  }

  // The tasks' counts sum to the number of primes below the bound.
  lemma CountsAddUp(upper: u64, tasks: u16)
    ensures CountSum(Split(PrimesJob(upper, tasks))) == |PrimesIn(0, upper)|
  {
    SplitTiles(upper, tasks);
    TilesAddUp(Split(PrimesJob(upper, tasks)), 0, upper);
    PrimeCountIsCardinality(0, upper);
  }

  // ---------- sleeps ----------

  ghost function SleepSum(parts: seq<TaskSpec>): nat {
    if parts == [] then 0
    else SleepSum(parts[..|parts| - 1]) + (if parts[|parts| - 1].Sleep? then parts[|parts| - 1].millis else 0)
  }

  lemma SleepPartIs(total: u64, n: int, i: int)
    requires 0 <= i < n
    ensures SleepPart(total, n, i) == Sleep(total / n + (if i < total % n then 1 else 0))
  {
    SleepBound(total, n);
  }

  // Parts of `q`, the first `r` of them one longer.
  lemma {:induction false} SleepPrefixSum(parts: seq<TaskSpec>, q: nat, r: nat)
    requires forall i :: 0 <= i < |parts| ==> parts[i].Sleep? && parts[i].millis == q + (if i < r then 1 else 0)
    ensures SleepSum(parts) == |parts| * q + Min(|parts|, r)
  {
    if parts != [] {
      var last := |parts| - 1;
      SleepPrefixSum(parts[..last], q, r);
      assert (last + 1) * q == last * q + q;
    }
  }

  // Sleep splits conserve the total, no two parts differ by more than a millisecond, and the longer ones come first.
  lemma SleepSplitsConserve(total: u64, tasks: u16)
    ensures var parts := Split(SleepJob(total, tasks));
            |parts| == Max(tasks, 1) && SleepSum(parts) == total
            && (forall i :: 0 <= i < |parts| ==> parts[i].Sleep?)
            && (forall i, j :: 0 <= i < |parts| && 0 <= j < |parts| ==> parts[i].millis - parts[j].millis <= 1)
            && (forall i, j :: 0 <= i < j < |parts| ==> parts[j].millis <= parts[i].millis)
  {
    var parts := Split(SleepJob(total, tasks));
    var n := |parts|;
    var q, r := total / n, total % n;
    assert total == n * q + r;
    hide SleepPart, SleepSum;
    forall i | 0 <= i < n
      ensures parts[i] == SleepPart(total, n, i) == Sleep(q + (if i < r then 1 else 0))
    {
      SleepPartIs(total, n, i);
    }
    hide Split;
    SleepPrefixSum(parts, q, r);
  }

  // Every partition of an analysis is named exactly once.
  lemma AnalysisSplitNamesEachPartition(version: u64, algorithm: u32, partitions: u16, p: u32)
    ensures var parts := Split(AnalysisJob(version, algorithm, partitions));
            |parts| == Max(partitions, 1)
            && (p < |parts| ==> parts[p] == Analysis(version, algorithm, p))
            && (Analysis(version, algorithm, p) in parts ==> p < |parts|)
  {
  }
}
