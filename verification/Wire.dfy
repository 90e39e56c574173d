/** The messages of the worker protocol, and the work they carry. */
module Wire {
  import opened Base
  import opened Text
  import opened Jobs
  import opened Digest
  import opened Primes

  type NodeId = u16
  type TaskId = u64

  const MAX_FRAME: nat := 256 * 1024
  const MAX_ARTIFACT: nat := MAX_FRAME - 1024

  datatype FailureReason = NodeOffline | ExecutionError | Injected | Timeout | Cancelled

  datatype TaskOutcome =
    | Completed(output: string)
    | Failed(reason: FailureReason, detail: string)

  datatype Capabilities = Capabilities(cores: byte, memoryBytes: u64)

  datatype NodeLoad = NodeLoad(loadPercent: byte, runningTasks: u16, freeMemoryBytes: u64, simulated: bool)

  // Worker to supervisor.
  datatype NodeMessage =
    | Hello(protocol: u16, node: Option<NodeId>, capabilities: Capabilities, token: Option<string>)
    | Heartbeat(from: NodeId, load: NodeLoad, at: u64)
    | TaskProduced(task: TaskId, artifact: Artifact)
    | TaskStarted(task: TaskId)
    | TaskFinished(task: TaskId, outcome: TaskOutcome)

  // A task spec in the form the codec carries; an analysis brings its input along.
  datatype WireSpec =
    | WireSleep(millis: u64)
    | WirePrimes(start: u64, end: u64)
    | WireAnalysis(version: u64, algorithm: u32, partition: u32, input: Artifact)

  // Supervisor to worker.
  datatype SupervisorMessage =
    | Welcome(protocol: u16, node: NodeId, heartbeatIntervalMs: u64)
    | Rejected
    | Assign(task: TaskId, spec: WireSpec)
    | PauseHeartbeat(paused: bool)
    | InjectFailures(count: u32)
    | SetDelay(ms: u64)
    | Shutdown

  // ---------- specs on the wire ----------

  datatype Unshippable = InputGone | TooLarge(bytes: nat)

  datatype Shipment = Ship(wire: WireSpec) | Refuse(why: Unshippable)

  // `WireTaskSpec::of`.
  ghost function ToWire(spec: TaskSpec, input: Option<Bytes>): Shipment {
    match spec
    case Sleep(millis) => Ship(WireSleep(millis))
    case PrimeRange(start, end) => Ship(WirePrimes(start, end))
    case Analysis(version, algorithm, partition) =>
      if input.None? then Refuse(InputGone)
      else if |input.value| > MAX_ARTIFACT then Refuse(TooLarge(|input.value|))
      else Ship(WireAnalysis(version, algorithm, partition, NewArtifact(input.value)))
  }

  function FromWire(wire: WireSpec): TaskSpec {
    match wire
    case WireSleep(millis) => Sleep(millis)
    case WirePrimes(start, end) => PrimeRange(start, end)
    case WireAnalysis(version, algorithm, partition, _) => Analysis(version, algorithm, partition)
  }

  // `WireTaskSpec::input`: what the handler may compute from.
  ghost function WireInput(wire: WireSpec): Option<Bytes> {
    match wire
    case WireAnalysis(_, _, _, artifact) => Verify(artifact)
    case _ => Some([])
  }

  // What is shipped names the task it was made from, and carries exactly the registered input.
  lemma WireKeepsTheTask(spec: TaskSpec, input: Option<Bytes>)
    ensures ToWire(spec, input).Refuse? <==> spec.Analysis? && (input.None? || |input.value| > MAX_ARTIFACT)
    ensures ToWire(spec, input).Ship? ==>
              FromWire(ToWire(spec, input).wire) == spec
              && WireInput(ToWire(spec, input).wire) == if spec.Analysis? then input else Some([])
  {
  }

  // ---------- work ----------

  datatype TaskWork =
    | Wait(millis: u64, output: string)
    | Done(output: string)
    | Produce(output: string, artifact: Bytes)

  // The host's handler, when one is installed.
  type Handler = (NodeId, TaskSpec, Bytes) -> Option<TaskWork>

  function NodeName(node: NodeId): string { "node-" + Pad2(node) }

  function PrimesOutput(node: NodeId, start: u64, end: u64, count: nat): string {
    Decimal(count) + " primes in " + Decimal(start) + ".." + Decimal(end) + " on " + NodeName(node)
  }

  function SleepOutput(node: NodeId, millis: u64): string {
    "slept " + Decimal(millis) + "ms on " + NodeName(node)
  }

  function Describe(spec: TaskSpec): string {
    match spec
    case Sleep(millis) => "sleep " + Decimal(millis) + "ms"
    case PrimeRange(start, end) => "primes in " + Decimal(start) + ".." + Decimal(end)
    case Analysis(version, _, partition) => "analysis " + Decimal(version) + " partition " + Decimal(partition)
  }

  // `run_task`: the whole computation in one call.
  ghost function RunTask(node: NodeId, spec: TaskSpec): Option<TaskWork> {
    match spec
    case Sleep(millis) => Some(Wait(millis, SleepOutput(node, millis)))
    case PrimeRange(start, end) => Some(Done(PrimesOutput(node, start, end, PrimeCount(start, end))))
    case Analysis(_, _, _) => None
  }

  // The answer to an assignment: built-in work first, then the host's handler on the verified input.
  ghost function Answer(handler: Option<Handler>, node: NodeId, wire: WireSpec): Option<TaskWork> {
    var own := RunTask(node, FromWire(wire));
    if own.Some? then own
    else if WireInput(wire).None? || handler.None? then None
    else handler.value(node, FromWire(wire), WireInput(wire).value)
  }

  // ---------- what reports say ----------

  lemma NameIsRead(words: string, node: NodeId)
    requires NoDigits(words)
    ensures Numbers(words + NodeName(node)) == [node]
  {
    assert words + NodeName(node) == (words + "node-") + Pad2(node);
    WordsFirst(words + "node-", Pad2(node));
    Pad2IsRead(node);
  }

  // A report of a count says how many, from where, to where and by whom.
  lemma CountIsRead(node: NodeId, start: u64, end: u64, count: nat)
    ensures Numbers(PrimesOutput(node, start, end, count)) == [count, start, end, node]
  {
    hide Numbers, Decimal, NodeName;
    var a := " on " + NodeName(node);
    var b := ".." + (Decimal(end) + a);
    var c := " primes in " + (Decimal(start) + b);
    assert PrimesOutput(node, start, end, count) == "" + (Decimal(count) + c);
    NameIsRead(" on ", node);
    PhraseIsRead("..", end, a);
    PhraseIsRead(" primes in ", start, b);
    PhraseIsRead("", count, c);
  }

  // Of a sleep, how long and by whom.
  lemma SleepIsRead(node: NodeId, millis: u64)
    ensures Numbers(SleepOutput(node, millis)) == [millis, node]
  {
    hide Numbers, Decimal, NodeName;
    var a := "ms on " + NodeName(node);
    assert SleepOutput(node, millis) == "slept " + (Decimal(millis) + a);
    NameIsRead("ms on ", node);
    PhraseIsRead("slept ", millis, a);
  }

  lemma NothingIsRead(words: string)
    requires NoDigits(words)
    ensures Numbers(words) == []
  {
    WordsFirst(words, []);
    assert words + [] == words;
  }

  lemma TwoNumbersAreRead(first: string, m: nat, second: string, n: nat)
    requires NoDigits(first) && NoDigits(second) && second != []
    ensures Numbers(first + Decimal(m) + second + Decimal(n)) == [m, n]
  {
    hide Numbers, Decimal;
    var b := second + (Decimal(n) + []);
    assert first + Decimal(m) + second + Decimal(n) == first + (Decimal(m) + b);
    PhraseIsRead(second, n, []);
    PhraseIsRead(first, m, b);
    NothingIsRead([]);
  }

  // And a refusal names the task it is about.
  lemma DescriptionIsRead(spec: TaskSpec)
    ensures Numbers(Describe(spec))
         == match spec
            case Sleep(millis) => [millis]
            case PrimeRange(start, end) => [start, end]
            case Analysis(version, _, partition) => [version, partition]
  {
    hide Numbers, Decimal;
    match spec
    case Sleep(millis) =>
      assert Describe(spec) == "sleep " + (Decimal(millis) + "ms");
      PhraseIsRead("sleep ", millis, "ms");
      NothingIsRead("ms");
    case PrimeRange(start, end) => TwoNumbersAreRead("primes in ", start, "..", end);
    case Analysis(version, _, partition) => TwoNumbersAreRead("analysis ", version, " partition ", partition);
  }
}
