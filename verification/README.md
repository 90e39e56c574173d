# Gavel, modelled and proved in Dafny

Gavel runs its market analysis on a small work cluster: a coordinator splits jobs into tasks, ships them over TCP to
workers, and collects what they produce. Around the cluster sit a handful of stateful components: login and sign-up
throttles, the gate on event streams, a cache of rendered fragments, and the SQL that expands a ledger of price changes.
This project models that core and proves what it is supposed to guarantee, for every input, every run and every
interleaving.

`dafny verify dfyconfig.toml` checks the whole project.

## How it is laid out

| modules | what they hold |
|---|---|
| `Base`, `Text` | machine integers with saturation, options, filtering and counting, decimal rendering |
| `Calendar`, `Rfc3339` | the closed-form civil calendar against one that steps day by day; the timestamp parser built on it |
| `Primes`, `Certificate`, `Jobs`, `Cluster` | the 6k±1 test, a prime on which it overflows, counting, job splitting; and the sum of what workers print |
| `Digest`, `Wire`, `Framing` | the 64-bit integrity digest, messages and task specs, length-prefixed frames |
| `Agent`, `AgentRuns`, `AgentWake`, `AgentHistory` | the worker: an object, its specification as a state machine, laws over all of its runs, and its behaviour told from what it was sent |
| `Connection`, `Link`, `LinkIdle`, `LinkProgress`, `LinkAny`, `LinkHistory` | the coordinator's end, and both ends with two FIFO streams as one transition system: safety, progress, what survives any assignments, and all that passes through |
| `Throttle`, `SseGate`, `Login`, `Windows`, `Contention`, `Overtaking` | the web server's throttles, the last two for attempts that interleave between two locks |
| `FragmentKey`, `FragmentCache`, `StaleFragment` | the web server's cache of rendered fragments |
| `Expansion`, `ChangeRate` | the ledger-expansion queries and the hourly change-rate counter |

Code that updates fields in place is a class here (`AgentObject`, `ConnectionObject`, `OutBuffer`, `SseGateObject`,
`LoginThrottle`, `AuthGate`, `SignUpThrottle`, `FragmentCacheObject`). Each of its methods is proved equal to a pure
step function, and the results about runs and interleavings are proved of those step functions.

## The main results

* **The link, used as the supervisor uses it** (`LinkIdle.DisciplinedRuns`). From a fresh worker, with assignments made
  only while no task is held, every reachable history is a sequence of task lives in a small grammar (shipped, started,
  stored if it produced bytes, finished). The held task is exactly the one the worker is on or whose frames are in
  flight, nothing is dropped as stale or bounced as busy, and shipments are finishes plus the one outstanding. It makes
  progress, too (`LinkProgress.HeldTaskIsReleased`): once the queues have run and the worker has been polled as often as
  its task needs, nothing is held.
* **The link under any assignments at all** (`LinkAny.FinishesNeverExceedShipments`,
  `LinkAny.StoredBytesBelongToTheSpec`). Every shipment is accounted for exactly once, and bytes are stored only under
  the spec they were computed for.
* **The worker over every run** (`AgentRuns`, `AgentWake`, `AgentHistory`). Assignments balance against finishes, reports
  are true answers however compute is sliced, failures are excused, waits and delays are waited out to the millisecond,
  heartbeats go out exactly when due, and the wake-up contract is exact.
* **Everything that passes through a link** (`LinkHistory`). What the supervisor says reaches the worker in order and
  takes effect; what it hears is, in order, exactly the heartbeats the worker sent and the history of its tasks.
* **The cluster's answer** (`Cluster.ClusterCountsThePrimes`). The numbers in the completions the coordinator forwards,
  one for each task of a split job, sum to the number of primes below its bound.
* **The calendar** (`Calendar.ClosedFormIsStepping`), **the digest** (`Digest.OneByteChangesTheDigest`), **the frames**
  (`Framing.PrefixReadsAPrefix`), **the event-stream gate** (`SseGate.LimitsHold`), **the throttles**
  (`Login.AnswersFollowTheHistory`, `Contention.AttemptsAreBounded`), **the cache** (`FragmentCache.CacheIsTransparent`),
  **the queries** (`Expansion.LeadIsAsOf`) and **the counter** (`ChangeRate.CountersAreTallies`).

## Where the code and what is said of it differ

The model follows the code.

* `digest` is documented as FNV-1a, but it multiplies by 0x1000_0000_01b3 (2^44 + 0x1b3). The FNV-64 prime is
  0x100_0000_01b3 (2^40 + 0x1b3). Error detection does not suffer: any odd multiplier is injective, and the proof uses
  the inverse of this one.
* `encode_frame`'s comment speaks of a u16 length; it writes four bytes, as `LENGTH_PREFIX` says.
* `is_prime` overflows at `d * d` on exactly the primes from (2^32 − 5)^2 up (`Primes.IsPrime`), so never up to 2^63
  (`Primes.WhereItDecides`). 2^64 − 2^32 + 1 is such a prime (`Certificate.SomeNumberOverflows`). The worker's methods
  answer `None` on a turn that counts one, and the link takes no such turn; a job cannot ask for one, since its bound is
  at most 50,000,000.
* `from_utc_date` is called the inverse of `to_utc_parts`; it is on valid dates from 1970 on and on no earlier one,
  since earlier dates clamp to the epoch (`Calendar.MidnightRoundTrip`).
* A comment in `poll` says nothing is sent before the welcome. That holds of an anonymous worker. One built with a fixed
  identity answers an assignment that reaches it early (`AgentRuns.SilentUntilWelcomed`).
* Between welcomes, heartbeats are spaced by the interval, except that every poll at the last u64 millisecond beats
  (`AgentWake.LastInstantBeatsAgain`).
* `AuthGate::take` holds two locks one after the other. Its global bound survives every interleaving. The map of origins
  stays below twice the global budget only if no attempt takes the second lock after one a whole window later: with k
  such late attempts it can hold 199 + k entries and no more (`Overtaking.MapBoundIs`), so two pass 200. An origin stays
  below twice its budget only if no attempt takes the second lock after any later one: with k overtaken attempts it can
  have up to 39 + 19 k admissions in a span, reached for k up to four (`Overtaking.OriginBoundIs`), so one passes 40.
* Directly after `poll`, a zero wake also occurs when the clock stands at the last u64 millisecond
  (`AgentWake.ZeroWakeMeansComputing`).
* A remembered fragment can still be built again, by a caller that asked before the key last left the listing and by no
  other (`StaleFragment.StaleCallerBuildsAgain`, `FragmentCache.OnlyStaleCallersBuild`).
* With a limit of zero per origin the stream gate leaves zero entries in its map (`SseGate.ZeroLimitLeavesAnEntry`).
* A group named `*` shares its fragment key with "no group" (`FragmentKey.KeysCollideOnlyOnTheStar`), and bars in two
  fields can collide (`FragmentKey.OnePlaceForBars`).
* The history queries drop snapshotted rows with nothing listed, but not unsnapshotted ones
  (`Expansion.ObservationsShown`).

## What is assumed

* Clocks do not go back where a lemma says so (`Ordered`, `Timely`; in `Contention`, from one holder of the global lock
  to the next); the link and the worker need no such assumption.
* A task id names one spec for good (`LinkAny.Named`, `AgentRuns.OnlyAs`).
* A market has one sample per instant (`Expansion.Keyed`), and variant texts are unique (`Expansion.Unambiguous`).
* The codec decodes what it encodes (`Framing.Sound`); only its varint widths are modelled, for the size bounds.
* The two TCP streams are lossless and first-in first-out; the host's handler and the fragment builds are functions.

## Model

| member | source | states |
|---|---|---|
| `Calendar.NextDayCountsOne` | crates/cluster-core/src/time.rs:44-53 | stepping any valid date by one day, across month and leap-year ends, raises the closed-form day number by exactly one |
| `Calendar.ClosedFormIsStepping` | crates/cluster-core/src/time.rs:61-79 | for every day from 1970-01-01, the closed-form date is the one reached by stepping one day at a time with leap-year month lengths |
| `Calendar.PartsAreTheSteppedDate` | crates/cluster-core/src/time.rs:62-87 | for every u64 millisecond, `to_utc_parts` gives the stepped date and a time of day in range that add back up to the second |
| `Calendar.EveryDateIsReached` | crates/cluster-core/src/time.rs:44-53 | every valid date from 1970 on is the date stepping reaches at its own day number |
| `Calendar.MidnightRoundTrip` | crates/cluster-core/src/time.rs:42-53 | `to_utc_parts` undoes `from_utc_date` on a valid date if and only if its year is 1970 or later; earlier dates become the epoch |
| `Calendar.DayNumbersAreOrdered` | crates/cluster-core/src/time.rs:44-53 | day numbers order valid dates exactly as the calendar does |
| `Calendar.PartsOfInstant` | crates/cluster-core/src/time.rs:62-87 | the parts of a midnight plus a time of day are that date and that time of day |
| `Rfc3339.ParseIsInverseOfFormat` | crates/app-integrations/src/tsm.rs:259-299 | a byte string parses to an instant if and only if it is the 20-byte form of valid UTC parts from 1970 to 9999 and the instant is theirs |
| `Rfc3339.FormatParses` | crates/app-integrations/src/tsm.rs:261-292 | the form of any valid parts is accepted and read as their instant; neither checked operation ever fails |
| `Rfc3339.ParsedPartsAreShown` | crates/app-integrations/src/tsm.rs:289-292 | showing a parsed instant in UTC gives back the year, month, day, hour, minute and second that were written |
| `Rfc3339.InstantsAreOrdered` | crates/app-integrations/src/tsm.rs:289-292 | the map from timestamps to instants is strictly increasing in calendar order, both ways |
| `Primes.SkippedCandidates` | crates/cluster-core/src/workload.rs:129-136 | a turn that tests d and d + 2 has excluded every divisor below d + 6 |
| `Primes.NoSmallDivisorMeansPrime` | crates/cluster-core/src/workload.rs:131-137 | with no divisor below d and d * d past n, n is prime |
| `Primes.IsPrime` | crates/cluster-core/src/workload.rs:119-138 | decides mathematical primality for every u64, and overflows on exactly the primes from (2^32 − 5)^2 up |
| `Primes.WhereItDecides` | crates/cluster-core/src/workload.rs:129-137 | no number up to 2^63, and no composite number, makes it overflow |
| `Certificate.HalfPowerIsMinusOne` | crates/cluster-core/src/workload.rs:130-131 | 7 to the half of 2^64 − 2^32 leaves −1 modulo 2^64 − 2^32 + 1, step by step |
| `Certificate.SmallFactorDividesTwo` | crates/cluster-core/src/workload.rs:130-131 | so every divisor of that number below 2^32 divides 2 |
| `Certificate.SomeNumberOverflows` | crates/cluster-core/src/workload.rs:130-131 | 2^64 − 2^32 + 1 is prime, and the test overflows on it |
| `Primes.CountPrimes` | crates/cluster-core/src/workload.rs:115-117 | counts the primes of the range, unless the range holds a prime on which the test overflows |
| `Primes.PrimeCountSplits` | crates/cluster-core/src/workload.rs:108-117 | a range counted in two pieces gives the count of the whole |
| `Primes.PrimeCountIsCardinality` | crates/cluster-core/src/workload.rs:108-117 | the count is the size of the set of primes in the range |
| `Jobs.SplitTiles` | crates/cluster-core/src/job.rs:91-104 | for every bound and task count, the ranges follow one another from 0 to the bound with no gap and no overlap |
| `Jobs.SplitIsEven` | crates/cluster-core/src/job.rs:91-104 | all ranges but the last are of one size, and the last is longer by less than the number of tasks |
| `Jobs.CountsAddUp` | crates/cluster-core/src/job.rs:91-104 | the prime counts of the parts sum to the number of primes below the bound |
| `Jobs.SleepSplitsConserve` | crates/cluster-core/src/job.rs:82-90 | sleep parts sum to the total, differ by at most one millisecond, and the longer ones come first |
| `Jobs.AnalysisSplitNamesEachPartition` | crates/cluster-core/src/job.rs:105-113 | an analysis names each partition exactly once, in order |
| `Cluster.ReportReadsBack` | crates/cluster-core/src/workload.rs:104-106 | the number a report opens with is the count that was printed |
| `Cluster.CompletionReadsBack` | crates/cluster-core/src/workload.rs:104-117 | in any run of any link, a forwarded completion of a range opens with the number of primes in that range |
| `Cluster.ClusterCountsThePrimes` | crates/cluster-core/src/job.rs:79-104 | given one forwarded completion of each task of a split job, from link runs with any assignments, messages and polls, the numbers in them sum to the number of primes below the bound |
| `Cluster.JobCanBeFinished` | crates/cluster-core/src/job.rs:79-104 | for every job whose bound is below the overflow such completions exist: there are link runs that forward one for each of its tasks |
| `Digest.ComputeDigest` | crates/cluster-core/src/protocol.rs:261-268 | the loop computes the fold of xor and wrapping multiplication from the offset basis |
| `Digest.MultiplicationIsInjective` | crates/cluster-core/src/protocol.rs:265-265 | multiplication by the constant is injective modulo 2^64 |
| `Digest.StepIsInjectiveInHash` | crates/cluster-core/src/protocol.rs:263-266 | one turn of the loop never merges two hashes |
| `Digest.StepIsInjectiveInByte` | crates/cluster-core/src/protocol.rs:263-266 | one turn of the loop never merges two bytes |
| `Digest.SuffixCancels` | crates/cluster-core/src/protocol.rs:261-268 | two byte strings with a common suffix have equal digests if and only if what precedes it does |
| `Digest.OneByteChangesTheDigest` | crates/cluster-core/src/protocol.rs:261-268 | replacing one byte keeps the digest if and only if the byte is the same |
| `Digest.DamageIsCaught` | crates/cluster-core/src/protocol.rs:247-257 | a new artifact verifies to its own bytes, and with exactly one byte changed it does not verify |
| `Digest.KnownDigests` | crates/cluster-core/src/protocol.rs:261-268 | the digests of nothing and of a single byte 1, as numbers |
| `Wire.WireKeepsTheTask` | crates/cluster-core/src/protocol.rs:324-360 | a task is refused exactly when it is an analysis whose input is gone or over the cap; otherwise what is shipped names the same task and carries exactly the registered input |
| `Wire.CountIsRead` | crates/cluster-core/src/workload.rs:104-106 | the numbers in a count's report are the count, the two ends of the range and the node, in that order |
| `Wire.SleepIsRead` | crates/cluster-core/src/workload.rs:86-89 | those in a sleep's report are the milliseconds and the node |
| `Wire.DescriptionIsRead` | crates/cluster-core/src/job.rs:144-152 | those in a task's description are what it is about |
| `Framing.PrefixReadsBack` | crates/cluster-core/src/protocol.rs:456-474 | the four-byte big-endian length reads back, for every u32 |
| `Framing.KnownPrefix` | crates/cluster-core/src/protocol.rs:456-456 | the most significant byte of a length goes first |
| `Framing.OutBuffer.EncodeFrame` | crates/cluster-core/src/protocol.rs:451-459 | appends exactly one whole frame, or refuses (unencodable, or over the cap with its size) and leaves the buffer as it was |
| `Framing.FrameReadsBack` | crates/cluster-local/src/remote.rs:471-485 | a frame followed by anything reads back as its message, leaving exactly what followed |
| `Framing.CutFrameYieldsNothing` | crates/cluster-local/src/remote.rs:471-485 | a frame cut inside its prefix reads as closed, one cut inside its body as truncated |
| `Framing.PrefixReadsAPrefix` | crates/cluster-local/src/remote.rs:471-485 | any byte prefix of a sent stream reads back as exactly the messages it holds in full, a prefix of those sent |
| `Framing.StreamRoundTrip` | crates/cluster-core/src/protocol.rs:451-474 | concatenated frames of any message list read back as that list |
| `Framing.ReadFrameIs` | crates/cluster-local/src/remote.rs:471-485 | a message is read exactly when a whole body of an allowed size follows its length and decodes to it |
| `Framing.RefusalsAre` | crates/cluster-core/src/protocol.rs:468-474 | an announced size over the cap is refused whatever follows; a stream is closed exactly inside a prefix and truncated exactly inside a body |
| `Framing.FramedIfReadable` | crates/cluster-core/src/protocol.rs:451-459 | a message can be framed exactly when the reader would take its frame |
| `Framing.ProducedFits` | crates/cluster-core/src/protocol.rs:68-79 | every result within the artifact cap fits a frame with its envelope |
| `Framing.ShippedFits` | crates/cluster-local/src/remote.rs:439-450 | every assignment `WireTaskSpec::of` agrees to ship fits a frame, so the encoder never refuses one |
| `Agent.AgentObject.constructor` | crates/cluster-core/src/agent.rs:132-152 | a new worker is idle, not joined, unpaused, with nothing pending |
| `Agent.AgentObject.Step` | crates/cluster-core/src/agent.rs:340-355 | counts one slice of a range and moves its cursor, or turns a finished count into its report; fails exactly when the slice holds a prime that overflows |
| `Agent.AgentObject.Report` | crates/cluster-core/src/agent.rs:359-409 | reports a due task, artifact first, an oversized artifact as a failure, and holds nothing afterwards; leaves anything else alone |
| `Agent.AgentObject.DoPoll` | crates/cluster-core/src/agent.rs:335-430 | a slice, then a due report, then a due heartbeat, then the wish to be woken, in that order, with the matching new state; `None` exactly on overflow |
| `Agent.AgentObject.NextWakeMs` | crates/cluster-core/src/agent.rs:437-450 | the earlier of the next heartbeat and the task's time, without changing anything |
| `Agent.AgentObject.Begin` | crates/cluster-core/src/agent.rs:282-322 | how an assignment starts: ranges sliced, waits timed, the handler run on the verified input only, or nothing when nobody can run it |
| `Agent.AgentObject.Launch` | crates/cluster-core/src/agent.rs:324-330 | holds the task until its wait and the extra delay have passed, and polls at once behind the start report |
| `Agent.AgentObject.DoAccept` | crates/cluster-core/src/agent.rs:235-331 | drops, absorbs, bounces, fails by injection, refuses or begins an assignment, with the matching actions and state, for every assignment; `None` exactly on overflow |
| `Agent.AgentObject.DoHandle` | crates/cluster-core/src/agent.rs:193-232 | welcome, controls, assignment and goodbye each do what the worker's step function says, for every message; `None` exactly on overflow |
| `AgentRuns.SparedRunsAreSound` | crates/cluster-core/src/agent.rs:340-355 | a worker handed no range with an overflowing prime in it never overflows, however it is fed and polled |
| `AgentRuns.TurnLedger` | crates/cluster-core/src/agent.rs:193-430 | in one turn, what was held or handed over is finished, absorbed as a duplicate, or still held, for any choice of tasks |
| `AgentRuns.RunLedger` | crates/cluster-core/src/agent.rs:193-430 | over every run, assignments handled with an identity = finishes sent + duplicates absorbed + the one running, for all tasks and for each |
| `AgentRuns.TurnKeepsAnswers` | crates/cluster-core/src/agent.rs:235-409 | in every turn, work in progress stays on its way to the answer of a given assignment, and whatever is sent is such an answer |
| `AgentRuns.EveryReportIsAnAnswer` | crates/cluster-core/src/agent.rs:193-430 | however messages and polls are scheduled, completions and artifacts carry the true answer of an assignment of that task under the worker's identity, and failures are injected, unrunnable, oversized or busy |
| `AgentRuns.SlicedCountIsTheCount` | crates/cluster-core/src/agent.rs:340-355 | a range counted in slices under any schedule is reported byte for byte as one counted whole |
| `AgentRuns.InjectionsAreSpent` | crates/cluster-core/src/agent.rs:222-276 | injected failures reported plus those pending equal those asked for, while their sum fits a u32; they never exceed it |
| `AgentRuns.ArtifactPrecedesCompletion` | crates/cluster-core/src/agent.rs:381-408 | over every run, each artifact is followed at once by the completion of the same task |
| `AgentRuns.SilentUntilWelcomed` | crates/cluster-core/src/agent.rs:235-242 | before a welcome a worker sends something if and only if it was built with an identity and is handed a task; an anonymous one is silent |
| `AgentWake.RunIsNamed` | crates/cluster-core/src/agent.rs:195-216 | a joined worker has an identity, in every reachable state |
| `AgentWake.EarlyPollIsIdle` | crates/cluster-core/src/agent.rs:335-450 | polling strictly before the wake asked for, or at any time when none was, sends nothing and changes nothing |
| `AgentWake.PollAtWakeActs` | crates/cluster-core/src/agent.rs:335-450 | polling at the wake sends a frame or counts a slice |
| `AgentWake.SliceMoves` | crates/cluster-core/src/agent.rs:340-355 | a slice finishes the count or moves its cursor strictly on, short of the end |
| `AgentWake.EnoughPollsReport` | crates/cluster-core/src/agent.rs:335-409 | a held task whose time has come is finished by exactly the number of polls its remaining range takes in slices: not by fewer, and once only |
| `AgentWake.ZeroWakeMeansComputing` | crates/cluster-core/src/agent.rs:426-450 | after a poll the wake is zero if and only if the worker is computing, or beats at the last u64 millisecond |
| `AgentWake.HeartbeatsAreSpaced` | crates/cluster-core/src/agent.rs:413-424 | between welcomes, heartbeats are at least max(interval, 1) apart, whatever else happens, unless the later one is at the last u64 millisecond and the gap does not fit before it |
| `AgentWake.LastInstantBeatsAgain` | crates/cluster-core/src/agent.rs:413-424 | at the last u64 millisecond every poll beats |
| `AgentHistory.ItIsAsTold` | crates/cluster-core/src/agent.rs:193-232 | after every run the delay, the pause, the name, the interval and whether it was welcomed are those last sent |
| `AgentHistory.NotBeforeItsTime` | crates/cluster-core/src/agent.rs:324-328 | over every run, no turn with a clock before min(assignment + wait + last delay, the u64 maximum) reports a task, neither the turn that begins it nor any after it |
| `AgentHistory.ReportedInTime` | crates/cluster-core/src/agent.rs:335-409 | from that instant on the first look at the clock reports it, and a range is reported by as many polls as it has slices |
| `AgentHistory.BeatsExactlyWhenDue` | crates/cluster-core/src/agent.rs:411-424 | a look at the clock sends a heartbeat exactly when the worker was welcomed, was not last told to pause, and an interval has passed since the last beat or it was just welcomed; it bears its name, the time and whether a task is held |
| `AgentHistory.InjectionsAreDue` | crates/cluster-core/src/agent.rs:267-276 | an idle worker fails the task it is handed by injection exactly while more failures were asked for than reported |
| `AgentHistory.WakeIsHandedOut` | crates/cluster-core/src/agent.rs:426-450 | the wake handed to the caller is exact: before it a poll does nothing, at it a poll does something, and without one no poll does |
| `AgentHistory.HangsUpWhenTold` | crates/cluster-core/src/agent.rs:216-217 | it disconnects exactly when rejected or dismissed, and then says and changes nothing |
| `AgentHistory.ActionsCarryTheFrames` | crates/cluster-core/src/agent.rs:335-430 | the frames among the actions are those sent, in order, ahead of everything else |
| `AgentHistory.ResultsPrecedeBeats` | crates/cluster-core/src/agent.rs:357-424 | in a turn a result goes out ahead of a heartbeat |
| `AgentHistory.DamagedInputIsRefused` | crates/cluster-core/src/agent.rs:293-322 | an assignment whose input has one byte changed is refused and not computed from |
| `AgentHistory.SizesAreRead` | crates/cluster-core/src/agent.rs:378-383 | the failure of an oversized result says its size and the cap |
| `Connection.ConnectionObject.Receive` | crates/cluster-local/src/remote.rs:285-359 | an assignment is shipped and held, or refused, reported failed and not held; controls are passed on |
| `Connection.ConnectionObject.Frame` | crates/cluster-local/src/remote.rs:361-416 | frames become reports only for the task held; verified artifacts go to the store under its spec; a finish releases it; heartbeats carry the connection's own id |
| `Connection.StoredBytesAreSound` | crates/cluster-local/src/remote.rs:383-399 | bytes are stored exactly when a frame about the held task brings them with their digest and there is a store, and then under the task's spec |
| `Connection.RefusalIsRead` | crates/cluster-core/src/protocol.rs:298-317 | a refusal of an oversized input says its size |
| `Connection.DamagedResultIsNotStored` | crates/cluster-local/src/remote.rs:378-399 | a result with one byte changed is not stored |
| `Link.IntroducedKeeps` | crates/cluster-local/src/remote.rs:225-231 | the worker goes by the coordinator's id, or the welcome that says so is the next thing it reads, through every step |
| `LinkIdle.StepKeeps` | crates/cluster-local/src/remote.rs:262-417 | every step of the link keeps the task held matched with the worker's task or the frames in flight |
| `LinkIdle.UnbrokenHistory` | crates/cluster-local/src/remote.rs:262-417 | a history in the grammar has no dropped, bounced or absorbed entry, and ships one more than it finishes exactly while a task is out |
| `LinkIdle.DisciplinedRuns` | crates/cluster-local/src/remote.rs:262-417 | over every run with idle-only assignment: matched ends, true results stored before their completion, excused failures, no stale or busy report, shipments = finishes + the one held |
| `LinkProgress.HeldTaskIsReleased` | crates/cluster-local/src/remote.rs:262-417 | from every state a disciplined run of ranges below the overflow reaches, what is queued can be delivered and the worker polled; polled as often as its task needs at or after its ready time, reading what it sent leaves no task held, every shipment finished, and a held range completed unless a failure was injected |
| `LinkProgress.Settles` | crates/cluster-local/src/remote.rs:262-417 | the same of any state both ends agree on, whatever was assigned, as long as the worker takes the deliveries and polls |
| `LinkProgress.PollsFinishTheTask` | crates/cluster-core/src/agent.rs:335-409 | polled as often as its task needs, the worker at the end of a link lets go of it |
| `LinkProgress.ClearLinksDeliver` | crates/cluster-core/src/agent.rs:340-355 | with no overflowing prime in any queued range, every delivery can be taken |
| `LinkProgress.ClearLinksPoll` | crates/cluster-core/src/agent.rs:340-355 | and so can every poll |
| `LinkAny.RunConserves` | crates/cluster-local/src/remote.rs:285-416 | over any run, shipments = queued + running + reported in flight + forwarded + absorbed + dropped, for any choice of tasks |
| `LinkAny.FinishesNeverExceedShipments` | crates/cluster-local/src/remote.rs:294-313 | under overlapping and repeated assignments, a task is never forwarded as finished more often than it was shipped |
| `LinkAny.RunTruthful` | crates/cluster-local/src/remote.rs:370-406 | over any run, whatever is queued, in flight, held or on record about results answers an assignment that was shipped |
| `LinkAny.StoredBytesBelongToTheSpec` | crates/cluster-local/src/remote.rs:383-399 | bytes handed to the store were computed by this worker's handler, under its id, for that very spec and from the input shipped with that task |
| `LinkHistory.AgentFollowsEvents` | crates/cluster-local/src/remote.rs:262-417 | the worker at the end of a link is the worker of its own events, so every law over its runs holds there |
| `LinkHistory.NothingIsLostDownward` | crates/cluster-local/src/remote.rs:285-359 | what the supervisor says reaches the worker in order, nothing lost or changed, followed by what is queued still |
| `LinkHistory.ControlsTakeEffect` | crates/cluster-local/src/remote.rs:315-335 | once the worker has read everything, its pause, delay, name and interval are those last asked for, and the failures asked for are pending or reported |
| `LinkHistory.EveryBeatIsHeard` | crates/cluster-local/src/remote.rs:363-369 | in every run the heartbeats reported, followed by those in flight, are in order exactly those the worker sent, with the load and time sent, and as this node's whatever they claim |
| `LinkHistory.EveryTaskReportIsHeard` | crates/cluster-local/src/remote.rs:336-352 | in every run the task reports are in order exactly the history's: each refused assignment once as failed, each start and finish, for that task and this node |
| `SseGate.SseGateObject.Enter` | crates/app-web/src/throttle.rs:217-234 | uninterrupted, admits exactly when both limits allow, and otherwise leaves every count as it was |
| `SseGate.SseGateObject.EnterLocked` | crates/app-web/src/throttle.rs:223-229 | under the lock, raises the origin's count exactly when it is below its limit |
| `SseGate.SseGateObject.LeaveLocked` | crates/app-web/src/throttle.rs:245-251 | under the lock, lowers the origin's count and removes it at zero; an origin without one is left alone |
| `SseGate.SseGateObject.Drop` | crates/app-web/src/throttle.rs:242-253 | uninterrupted, gives back one slot and one of the origin's, and leaves no zero entry |
| `SseGate.StepKeeps` | crates/app-web/src/throttle.rs:216-253 | every atomic step of every thread keeps the total equal to the slots taken and the map equal to the streams entered, origin by origin |
| `SseGate.LimitsHold` | crates/app-web/src/throttle.rs:216-253 | under every interleaving of any number of threads, no counter underflows, admitted streams stay within the total and live ones within their origin's share |
| `SseGate.QuietBooksBalance` | crates/app-web/src/throttle.rs:216-253 | with no thread between steps, total = sum of the map = live streams, each entry is its origin's live streams, and none is zero when an origin may have one |
| `SseGate.RoomAdmits` | crates/app-web/src/throttle.rs:217-234 | with nobody between steps and room in both respects, whoever enters is let in |
| `SseGate.ZeroLimitLeavesAnEntry` | crates/app-web/src/throttle.rs:223-229 | with no stream allowed per origin, one refusal leaves a zero entry behind |
| `Login.LoginThrottle.MayTry` | crates/app-web/src/throttle.rs:69-80 | answers from the key's bucket, and forgets it if it has expired |
| `Login.LoginThrottle.Fail` | crates/app-web/src/throttle.rs:87-97 | sweeps expired buckets and counts the failure, saturating |
| `Login.LoginThrottle.Succeed` | crates/app-web/src/throttle.rs:101-103 | forgets the key's bucket and no other |
| `Login.BucketsHoldTheRun` | crates/app-web/src/throttle.rs:69-129 | after every history, each key's live count is the length of its current failure run, capped at the u32 maximum |
| `Login.KeyIsTheName` | crates/app-web/src/throttle.rs:125-129 | two names share a bucket if and only if they agree character by character up to ASCII case |
| `Login.AnswersFollowTheHistory` | crates/app-web/src/throttle.rs:69-80 | a username may be tried if and only if the current run of failures of that name in any case (ended by a success or a gap of a window) is shorter than eight |
| `Login.OnlyTheirOwnFailures` | crates/app-web/src/throttle.rs:69-103 | after every history two names alike up to case get the same answer, and no failure or success of any other name changes it |
| `Login.SweepsDoNotMatter` | crates/app-web/src/throttle.rs:82-97 | histories that differ only in when buckets were swept answer every later question alike, for every username |
| `Windows.SignUpThrottle.Attempt` | crates/app-web/src/throttle.rs:310-327 | counts the attempt in the open window or opens one, and answers by the count |
| `Windows.AuthGate.TakeGlobal` | crates/app-web/src/throttle.rs:179-195 | counts the attempt in the global window, and answers by the count |
| `Windows.AuthGate.TakeOrigin` | crates/app-web/src/throttle.rs:162-169 | under the second lock, expired origins go, this one is charged, and the answer follows its count |
| `Windows.AuthGate.Attempt` | crates/app-web/src/throttle.rs:154-170 | uninterrupted, charges the global window first; over its budget no trace of the origin is kept; otherwise the origin is charged |
| `Windows.RefusalKeepsTheStart` | crates/app-web/src/throttle.rs:179-195 | a refused attempt never moves the start of its window |
| `Windows.SpanBound` | crates/app-web/src/throttle.rs:179-195 | any span shorter than a window admits at most 2 · max − 1, from any state a run leaves |
| `Windows.SpanBoundIsTight` | crates/app-web/src/throttle.rs:179-195 | for every budget, attempts within two neighbouring milliseconds reach that bound |
| `Windows.SignUpsAreBounded` | crates/app-web/src/throttle.rs:310-327 | after any attempts, a span shorter than a window admits at most 19 sign-ups |
| `Windows.OriginHasItsOwnWindow` | crates/app-web/src/throttle.rs:162-169 | each origin is admitted exactly as by a window of its own, so dropping expired entries changes no answer |
| `Contention.GlobalKeeps` | crates/app-web/src/throttle.rs:179-195 | every step of every caller keeps what has passed in any span within the budgets of the windows that meet it |
| `Contention.AttemptsAreBounded` | crates/app-web/src/throttle.rs:154-170 | under every interleaving of callers between the two locks, of the attempts made in any span of a window at most 199 are admitted |
| `Contention.OriginAttemptsAreBounded` | crates/app-web/src/throttle.rs:162-169 | under every interleaving at most 39 of those are of one origin, and 19 more for each attempt that took the second lock after one with a later clock |
| `Contention.OriginsAreBounded` | crates/app-web/src/throttle.rs:154-170 | under every interleaving the map of origins holds at most 199 entries plus one for each attempt that took the second lock after one a whole window later |
| `Overtaking.WholeIsAttempt` | crates/app-web/src/throttle.rs:154-170 | the two steps of one caller, uninterrupted, are the whole of `take` |
| `Overtaking.LateAttempts` | crates/app-web/src/throttle.rs:162-169 | for every k the u64 clock has windows for, a run with k late attempts and 199 + k entries |
| `Overtaking.OvertakenAttempts` | crates/app-web/src/throttle.rs:162-169 | for k up to four, a run with k overtaken attempts and 39 + 19 k admissions of one origin in a span |
| `Overtaking.MapBoundIs` | crates/app-web/src/throttle.rs:162-169 | every run with at most k late attempts keeps the map to a bound if the bound is at least 199 + k, and, for every k the u64 clock has windows for, only if |
| `Overtaking.OriginBoundIs` | crates/app-web/src/throttle.rs:162-169 | every run with at most k overtaken attempts keeps an origin to a bound if it is at least 39 + 19 k, or 199; and for k up to four only if it is at least 39 + 19 k |
| `FragmentKey.KeysCollideOnlyOnTheStar` | crates/app-web/src/fragment_cache.rs:55-70 | with no bar in any field, two keys are equal if and only if every field agrees, a group named `*` counting as no group |
| `FragmentKey.JoinIsRead` | crates/app-web/src/fragment_cache.rs:65-69 | a key is read back field by field if only one field may hold bars |
| `FragmentKey.TwoPlacesCollide` | crates/app-web/src/fragment_cache.rs:65-69 | with bars allowed in any two fields, two different requests share a key |
| `FragmentKey.OnePlaceForBars` | crates/app-web/src/fragment_cache.rs:55-70 | with bars allowed in a set of the six text fields, keys tell requests apart if and only if the set has at most one |
| `FragmentCache.FragmentCacheObject.Lookup` | crates/app-web/src/fragment_cache.rs:143-157 | hands out the recorded cell or a new one, and evicts oldest-first until the listing fits |
| `FragmentCache.LookupKeepsListed` | crates/app-web/src/fragment_cache.rs:143-157 | the listing stays duplicate-free, at most 512 long and equal to the map's keys; other entries keep their cells |
| `FragmentCache.LookupForgetsTheOldest` | crates/app-web/src/fragment_cache.rs:151-154 | a lookup forgets nothing but the oldest key, and that only to make room for a new one |
| `FragmentCache.CacheIsTransparent` | crates/app-web/src/fragment_cache.rs:139-163 | under every interleaving of callers, a successful answer is what building that key gives, the listing is sound, and no cell is built twice at once |
| `FragmentCache.CellsAreFilledOnce` | crates/app-web/src/fragment_cache.rs:159-162 | a filled cell keeps its content through every continuation |
| `FragmentCache.FailureIsNotRemembered` | crates/app-web/src/fragment_cache.rs:159-162 | a failed build leaves its cell empty and its entry in place, and every caller waiting on it may build |
| `FragmentCache.OneBuildPerCell` | crates/app-web/src/fragment_cache.rs:159-162 | over every run a cell was built successfully exactly once if it is filled and never if not |
| `FragmentCache.AnswersAreRemembered` | crates/app-web/src/fragment_cache.rs:159-162 | a successful build or read in the cell listed for a key answers with what building it gives and leaves the key remembered |
| `FragmentCache.RememberedWhileListed` | crates/app-web/src/fragment_cache.rs:139-163 | a remembered key stays remembered for as long as it is listed, and nobody starts to build in its cell |
| `FragmentCache.AskersReadAtOnce` | crates/app-web/src/fragment_cache.rs:143-162 | whoever asks for a remembered key can read the answer at once and cannot build it |
| `FragmentCache.OnlyStaleCallersBuild` | crates/app-web/src/fragment_cache.rs:139-163 | while a key is remembered a caller can start to build it if and only if it holds an older cell that is empty and not being built |
| `StaleFragment.StaleCallerBuildsAgain` | crates/app-web/src/fragment_cache.rs:151-162 | a run in which that happens |
| `Expansion.LeadIsNext` | scripts/query-plans.py:208-211 | LEAD is the least later time in its partition, and null exactly at the last |
| `Expansion.LeadIsAsOf` | scripts/query-plans.py:206-229 | for all tables, the LEAD interval join (LEAD over a partition whose times the primary key makes distinct) returns exactly the pairs of the correlated-MAX as-of join under the same filters |
| `Expansion.RollupIsTheHistory` | scripts/query-plans.py:87-102 | the daily rollup holds exactly the pairs of that day that a region window, an item history or an item-and-realm history holds |
| `Expansion.PrefilterIsFree` | scripts/query-plans.py:291-302 | the filter on the latest snapshot never changes the expansion |
| `Expansion.OneRowPerMarketAndInstant` | scripts/query-plans.py:226-238 | the union with unsnapshotted rows never shows one market twice at one instant |
| `Expansion.ObservationsShown` | scripts/query-plans.py:226-238 | a sample in the query's scope is shown at its own instant if and only if something was listed or no snapshot recorded that instant |
| `Expansion.HistoryIs` | scripts/query-plans.py:217-238 | exactly which rows a history shows, against the query's own fields: nothing older than asked for, of another region, item or realm, and nothing left out |
| `Expansion.RollupIs` | scripts/query-plans.py:87-102 | exactly which pairs a rollup holds |
| `ChangeRate.GroupRows` | scripts/change-rate.py:268-280 | the first loop groups the rows by market and hour and counts missing ladders, or refuses |
| `ChangeRate.Measure` | scripts/change-rate.py:260-297 | the grouping and the nested counting loops compute the specified measurement, or refuse two rows of one market in one hour |
| `ChangeRate.RefusedOnlyOnAClash` | scripts/change-rate.py:268-280 | a measurement is refused if and only if two rows of one market share an hour; otherwise the grouping holds exactly what each market was seen as |
| `ChangeRate.CountersAreTallies` | scripts/change-rate.py:282-295 | compared, unchanged, appeared and disappeared are the numbers of rows whose market was seen the hour before, seen there in the same state, not seen there, and not seen the hour after |
| `ChangeRate.UnchangedMeansTheSame` | scripts/change-rate.py:80-92 | two states count as unchanged exactly when price, median and listings agree, and the ladders if they count |
| `ChangeRate.MissingLaddersAreCounted` | scripts/change-rate.py:279-280 | the missing ladders are the rows without one if ladders count, and none otherwise |
| `ChangeRate.RowsAreConserved` | scripts/change-rate.py:260-297 | rows = compared + appeared + those of the first hour = compared + disappeared + those of the last, and unchanged ≤ compared |

## Left out

- The supervisor, its scheduler and telemetry: the link takes any inbox messages, or any that keep the idle-only discipline.
- Sockets, Tokio scheduling, semaphores, timeouts, the goodbye on shutdown and the teardown of a connection: the link is modelled from its welcome on, while it is up.
- The handshake that assigns an identity, the join token and its constant-time comparison.
- postcard, serde, CSV, reqwest, SQLx and Argon2 are taken at their contracts.
- What a worker does after its trial division overflows (a debug build stops, a release build wraps).
- `set_free_memory`: a plain setter; the field stays in the state.
- Calendar.MidnightRoundTrip: dates whose midnight is past the u64 milliseconds are outside its statement; the source would overflow there.
- `AuthGate::take` with clocks that go back from one holder of the global lock to the next.
- SseGate.LimitsHold: a refusal gives its slot back after the lock rather than under it, which only adds interleavings; the wrap-around of a usize counter is not modelled, since it needs 2^64 threads.
- The state transitions of `Task` and `Job`, their percentages and labels: easy members.
- `ORDER BY` of the query results, and every other query of the plan script.
- `missing_snapshot_hours`, the reports and the command lines of the scripts.
- Connection.ConnectionObject.Receive: the wording of a refusal is abbreviated.
- Overtaking.OriginBoundIs: from five overtaken attempts on, the global window limits an origin too; the exact maximum between 115 and min(39 + 19 k, 199) is not settled.
- The market engine, price ladders, the materialiser, SQLite adapters, charts, views, templates, locales and cookies.
