/** The coordinator's side of one worker connection. */
module Connection {
  import opened Base
  import opened Text
  import opened Jobs
  import opened Digest
  import opened Wire

  datatype Task = Task(id: TaskId, jobId: u64, index: u16, spec: TaskSpec, attempt: u16)

  datatype NodeInbox =
    | InboxAssign(task: Task)
    | InboxPause(paused: bool)
    | InboxInject(count: u32)
    | InboxDelay(ms: u64)

  datatype NodeReport =
    | BeatReport(node: NodeId, load: NodeLoad, at: u64)
    | StartedReport(node: NodeId, task: Task)
    | FinishedReport(node: NodeId, task: Task, outcome: TaskOutcome)

  // ---------- the inbox arm ----------

  // The frame written, if any; the report made, if any; and the task then held.
  datatype InboxResult = InboxResult(held: Option<Task>, out: Option<SupervisorMessage>, report: Option<NodeReport>)

  // What the failed attempt says; the wording is abbreviated.
  function RefusalText(why: Unshippable): string {
    match why
    case InputGone => "input gone"
    case TooLarge(bytes) => "input of " + Decimal(bytes) + " bytes"
  }

  // `input` is what the artifact store answers for the task's spec at this moment.
  ghost function OnInbox(node: NodeId, held: Option<Task>, message: NodeInbox, input: Option<Bytes>): InboxResult {
    match message
    case InboxAssign(task) =>
      (match ToWire(task.spec, input)
       case Ship(wire) => InboxResult(Some(task), Some(Assign(task.id, wire)), None)
       case Refuse(why) =>
         InboxResult(held, None, Some(FinishedReport(node, task, Failed(ExecutionError, RefusalText(why))))))
    case InboxPause(paused) => InboxResult(held, Some(PauseHeartbeat(paused)), None)
    case InboxInject(count) => InboxResult(held, Some(InjectFailures(count)), None)
    case InboxDelay(ms) => InboxResult(held, Some(SetDelay(ms)), None)
  }

  // ---------- the frame arm ----------

  datatype FrameResult = FrameResult(held: Option<Task>, report: Option<NodeReport>, stored: Option<(TaskSpec, Bytes)>)

  // `match_task`: a reported id, resolved against the task this worker was given.
  predicate Matches(held: Option<Task>, reported: TaskId) {
    held.Some? && held.value.id == reported
  }

  ghost function OnFrame(node: NodeId, hasStore: bool, held: Option<Task>, message: NodeMessage): FrameResult {
    match message
    case Heartbeat(_, load, at) => FrameResult(held, Some(BeatReport(node, load, at)), None)
    case Hello(_, _, _, _) => FrameResult(held, None, None)
    case TaskStarted(task) =>
      FrameResult(held, if Matches(held, task) then Some(StartedReport(node, held.value)) else None, None)
    case TaskProduced(task, artifact) =>
      var bytes := Verify(artifact);
      FrameResult(held, None,
                  if Matches(held, task) && bytes.Some? && hasStore then Some((held.value.spec, bytes.value)) else None)
    case TaskFinished(task, outcome) =>
      if Matches(held, task) then FrameResult(None, Some(FinishedReport(node, held.value, outcome)), None)
      else FrameResult(held, None, None)
  }

  // ---------- the object ----------

  class ConnectionObject {
    const node: NodeId
    const hasStore: bool
    var held: Option<Task>

    constructor (node: NodeId, hasStore: bool)
      ensures this.node == node && this.hasStore == hasStore && held == None
    {
      this.node := node;
      this.hasStore := hasStore;
      held := None;
    }

    method Receive(message: NodeInbox, input: Option<Bytes>)
      returns (out: Option<SupervisorMessage>, report: Option<NodeReport>)
      modifies this
      ensures InboxResult(held, out, report) == OnInbox(node, old(held), message, input)
    {
      out, report := None, None;
      match message {
        case InboxAssign(task) =>
          var why := None;
          var wire := WireSleep(0);
          match task.spec {
            case Sleep(millis) => wire := WireSleep(millis);
            case PrimeRange(start, end) => wire := WirePrimes(start, end);
            case Analysis(version, algorithm, partition) =>
              if input.None? {
                why := Some(InputGone);
              } else if |input.value| > MAX_ARTIFACT {
                why := Some(TooLarge(|input.value|));
              } else {
                var digest := ComputeDigest(input.value);
                wire := WireAnalysis(version, algorithm, partition, Artifact(input.value, digest));
              }
          }
          if why.None? {
            out := Some(Assign(task.id, wire));
            held := Some(task);
          } else {
            report := Some(FinishedReport(node, task, Failed(ExecutionError, RefusalText(why.value))));
          }
        case InboxPause(paused) => out := Some(PauseHeartbeat(paused));
        case InboxInject(count) => out := Some(InjectFailures(count));
        case InboxDelay(ms) => out := Some(SetDelay(ms));
      }
    }

    method Frame(message: NodeMessage) returns (report: Option<NodeReport>, stored: Option<(TaskSpec, Bytes)>)
      modifies this
      ensures FrameResult(held, report, stored) == OnFrame(node, hasStore, old(held), message)
    {
      report, stored := None, None;
      match message {
        case Heartbeat(_, load, at) => report := Some(BeatReport(node, load, at));
        case Hello(_, _, _, _) =>
        case TaskStarted(task) =>
          if Matches(held, task) {
            report := Some(StartedReport(node, held.value));
          }
        case TaskProduced(task, artifact) =>
          if Matches(held, task) {
            var digest := ComputeDigest(artifact.bytes);
            if digest == artifact.digest && hasStore {
              stored := Some((held.value.spec, artifact.bytes));
            }
          }
        case TaskFinished(task, outcome) =>
          if Matches(held, task) {
            report := Some(FinishedReport(node, held.value, outcome));
            held := None;
          }
      }
    }
  }

  // ---------- damage ----------

  // A result that arrives with one byte changed is not stored, and the task stays held.
  lemma DamagedResultIsNotStored(node: NodeId, hasStore: bool, held: Option<Task>, task: TaskId,
                                 sent: Bytes, i: nat, x: byte)
    requires i < |sent| && x != sent[i]
    ensures var r := OnFrame(node, hasStore, held, TaskProduced(task, NewArtifact(sent).(bytes := sent[i := x])));
            r.stored.None? && r.held == held
  {
    hide DigestOf;
    DamageIsCaught(sent, i, x);
  }

  // Stored bytes are those of a frame about the held task, under its spec, whose digest they have.
  lemma StoredBytesAreSound(node: NodeId, hasStore: bool, held: Option<Task>, m: NodeMessage)
    ensures var r := OnFrame(node, hasStore, held, m);
            r.stored.Some?
            <==> hasStore && held.Some? && m.TaskProduced? && m.task == held.value.id
                 && DigestOf(m.artifact.bytes) == m.artifact.digest
    ensures var r := OnFrame(node, hasStore, held, m);
            r.stored.Some? ==> held.Some? && m.TaskProduced? && r.stored == Some((held.value.spec, m.artifact.bytes))
  {
    hide DigestOf;
  }

  // A refusal says how big the input was.
  lemma RefusalIsRead(bytes: nat)
    ensures Numbers(RefusalText(TooLarge(bytes))) == [bytes] && Numbers(RefusalText(InputGone)) == []
  {
    hide Numbers, Decimal;
    assert RefusalText(TooLarge(bytes)) == "input of " + (Decimal(bytes) + " bytes");
    PhraseIsRead("input of ", bytes, " bytes");
    NothingIsRead(" bytes");
    NothingIsRead("input gone");
  }
}
