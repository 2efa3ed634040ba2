/**
 The job protocol: enqueue handlers, the broker's queue, the workers and the table they report to,
 as a labelled transition system. One action is one atomic effect; a run interleaves the actions of
 any number of handlers and workers in any order.

 Faults are actions too: an RPC may fail with or without its database effect, the computation may
 fail, a worker may die holding deliveries in any phase. The broker then requeues whatever was not
 acknowledged (section 3.1.8 of the AMQP 0-9-1 specification).
 */
module JobProtocol {
  import opened Wrappers
  import opened Backups
  import opened SourcePaths
  import opened SyntheticData

  type WorkerId = nat

  /** A message is known by its position in the publish log. */
  type Tag = nat

  datatype Job = BackupJob(backupId: Uuid, tenantId: Uuid, sourcePath: seq<byte>, encryptionEnabled: bool)

  /** What lies on the wire: the JSON of a job, or bytes that do not decode to one. */
  datatype Payload = Json(job: Job) | Malformed

  function Encode(job: Job): Payload { Json(job) }

  function Decode(payload: Payload): Option<Job> {
    match payload
    case Json(job) => Some(job)
    case Malformed => None
  }

  /**
   How far a worker got with a delivery: handed over but untouched, picked up, status `running`
   confirmed, result confirmed, or failed and about to be requeued.
   */
  datatype Phase = Buffered | Started | MarkedRunning | Reported | Errored

  datatype Delivery = Delivery(worker: WorkerId, phase: Phase)

  datatype State = State(
    rows: Table,
    issued: set<Uuid>,           // every id the table ever generated
    outbox: multiset<Job>,       // read by an enqueue handler, not yet published
    published: seq<Payload>,     // every message ever published, in order
    queue: set<Tag>,
    inflight: map<Tag, Delivery>,
    acked: set<Tag>,
    dropped: set<Tag>,
    live: set<WorkerId>)

  const INITIAL := State(map[], {}, multiset{}, [], {}, map[], {}, {}, {})

  datatype Action =
      // HTTP handlers
    | Create(id: Uuid, tenant: Uuid, sourcePath: seq<byte>, encrypted: bool, now: Time)
    | Patch(id: Uuid, tenant: Uuid, status: Option<Status>, size: Option<int>, now: Time)
    | Remove(id: Uuid, tenant: Uuid)
    | ReadForEnqueue(id: Uuid, tenant: Uuid)
    | Publish(job: Job)
    | AbandonPublish(job: Job)
    | PublishForeign
      // workers coming and going
    | Join(worker: WorkerId)
    | Crash(worker: WorkerId)
      // one delivery
    | Deliver(tag: Tag, worker: WorkerId)
    | Reject(tag: Tag)
    | Start(tag: Tag)
    | MarkRunning(tag: Tag, now: Time)
    | MarkNotFound(tag: Tag)
    | MarkFailed(tag: Tag, landed: bool, now: Time)
    | ComputeFailed(tag: Tag)
    | Report(tag: Tag, now: Time)
    | ReportFailed(tag: Tag, landed: bool, now: Time)
    | Ack(tag: Tag)
    | Requeue(tag: Tag)

  // ----- guards

  predicate Holds(s: State, tag: Tag, phase: Phase) {
    tag in s.inflight && s.inflight[tag].phase == phase
  }

  /** A worker takes up one delivery at a time. */
  predicate Idle(s: State, worker: WorkerId) {
    forall tag :: tag in s.inflight && s.inflight[tag].worker == worker ==> s.inflight[tag].phase == Buffered
  }

  /** The message carries a job. */
  predicate Decodes(s: State, tag: Tag) {
    tag < |s.published| && Decode(s.published[tag]).Some?
  }

  function JobOf(s: State, tag: Tag): Job
    requires Decodes(s, tag)
  {
    Decode(s.published[tag]).value
  }

  predicate Enabled(s: State, a: Action) {
    match a
    case Create(id, _, path, _, _) => id !in s.issued && id !in s.rows && ValidateSourcePath(path).Ok?
    case Patch(id, tenant, _, _, _) => Fetch(s.rows, id, tenant).Some?
    case Remove(id, tenant) => Fetch(s.rows, id, tenant).Some?
    case ReadForEnqueue(id, tenant) => Fetch(s.rows, id, tenant).Some?
    case Publish(job) => job in s.outbox
    case AbandonPublish(job) => job in s.outbox
    case PublishForeign => true
    case Join(w) => w !in s.live
    case Crash(w) => w in s.live
    case Deliver(tag, w) => tag in s.queue && w in s.live
    case Reject(tag) =>
      Holds(s, tag, Buffered) && Idle(s, s.inflight[tag].worker) && tag < |s.published| && !Decodes(s, tag)
    case Start(tag) => Holds(s, tag, Buffered) && Idle(s, s.inflight[tag].worker) && Decodes(s, tag)
    case MarkRunning(tag, _) => Holds(s, tag, Started) && Decodes(s, tag) && JobOf(s, tag).backupId in s.rows
    case MarkNotFound(tag) => Holds(s, tag, Started) && Decodes(s, tag) && JobOf(s, tag).backupId !in s.rows
    case MarkFailed(tag, _, _) => Holds(s, tag, Started) && Decodes(s, tag)
    case ComputeFailed(tag) => Holds(s, tag, MarkedRunning)
    case Report(tag, _) => Holds(s, tag, MarkedRunning) && Decodes(s, tag)
    case ReportFailed(tag, _, _) => Holds(s, tag, MarkedRunning) && Decodes(s, tag)
    case Ack(tag) => Holds(s, tag, Reported)
    case Requeue(tag) => Holds(s, tag, Errored)
  }

  // ----- effects

  function HeldBy(s: State, w: WorkerId): set<Tag> {
    set tag | tag in s.inflight && s.inflight[tag].worker == w
  }

  function RowsNext(s: State, a: Action): Table
    requires Enabled(s, a)
  {
    match a
    case Create(id, tenant, path, encrypted, now) => s.rows[id := NewRow(id, tenant, path, encrypted, now)]
    case Patch(id, _, status, size, now) => s.rows[id := Patched(s.rows[id], status, size, now)]
    case Remove(id, _) => s.rows - {id}
    case MarkRunning(tag, now) => WithStatus(s.rows, JobOf(s, tag).backupId, Running, now)
    case MarkFailed(tag, landed, now) =>
      if landed then WithStatus(s.rows, JobOf(s, tag).backupId, Running, now) else s.rows
    case Report(tag, now) => Result(s, tag, now)
    case ReportFailed(tag, landed, now) => if landed then Result(s, tag, now) else s.rows
    case _ => s.rows
  }

  function OutboxNext(s: State, a: Action): multiset<Job>
    requires Enabled(s, a)
  {
    match a
    case ReadForEnqueue(id, _) =>
      var row := s.rows[id];
      s.outbox + multiset{BackupJob(row.id, row.tenant, row.sourcePath, row.encrypted)}
    case Publish(job) => s.outbox - multiset{job}
    case AbandonPublish(job) => s.outbox - multiset{job}
    case _ => s.outbox
  }

  function PublishedNext(s: State, a: Action): seq<Payload> {
    match a
    case Publish(job) => s.published + [Encode(job)]
    case PublishForeign => s.published + [Malformed]
    case _ => s.published
  }

  function QueueNext(s: State, a: Action): set<Tag> {
    match a
    case Publish(_) => s.queue + {|s.published|}
    case PublishForeign => s.queue + {|s.published|}
    case Deliver(tag, _) => s.queue - {tag}
    case Requeue(tag) => s.queue + {tag}
    case Crash(w) => s.queue + HeldBy(s, w)
    case _ => s.queue
  }

  /** The phase a step takes its delivery to. */
  function PhaseNext(a: Action): Option<Phase> {
    match a
    case Start(_) => Some(Started)
    case MarkRunning(_, _) => Some(MarkedRunning)
    case Report(_, _) => Some(Reported)
    case MarkNotFound(_) => Some(Errored)
    case MarkFailed(_, _, _) => Some(Errored)
    case ComputeFailed(_) => Some(Errored)
    case ReportFailed(_, _, _) => Some(Errored)
    case _ => None
  }

  function InflightNext(s: State, a: Action): map<Tag, Delivery>
    requires Enabled(s, a)
  {
    if PhaseNext(a).Some? then s.inflight[a.tag := s.inflight[a.tag].(phase := PhaseNext(a).value)]
    else
      match a
      case Deliver(tag, w) => s.inflight[tag := Delivery(w, Buffered)]
      case Reject(tag) => s.inflight - {tag}
      case Ack(tag) => s.inflight - {tag}
      case Requeue(tag) => s.inflight - {tag}
      case Crash(w) => s.inflight - HeldBy(s, w)
      case _ => s.inflight
  }

  function LiveNext(s: State, a: Action): set<WorkerId> {
    match a
    case Join(w) => s.live + {w}
    case Crash(w) => s.live - {w}
    case _ => s.live
  }

  function Apply(s: State, a: Action): State
    requires Enabled(s, a)
  {
    State(
      RowsNext(s, a),
      if a.Create? then s.issued + {a.id} else s.issued,
      OutboxNext(s, a),
      PublishedNext(s, a),
      QueueNext(s, a),
      InflightNext(s, a),
      if a.Ack? then s.acked + {a.tag} else s.acked,
      if a.Reject? then s.dropped + {a.tag} else s.dropped,
      LiveNext(s, a))
  }

  /** The table after the worker's result for `tag` has been written. */
  function Result(s: State, tag: Tag, now: Time): Table
    requires Decodes(s, tag)
  {
    var job := JobOf(s, tag);
    WithResult(s.rows, job.backupId, SimulatedSize(job.sourcePath), now)
  }

  // ----- runs

  /** `states` is the sequence of states that the actions `acts` pass through. */
  ghost predicate IsRun(states: seq<State>, acts: seq<Action>) {
    && |states| == |acts| + 1
    && forall i :: 0 <= i < |acts| ==> StepAt(states, acts, i)
  }

  ghost predicate StepAt(states: seq<State>, acts: seq<Action>, i: nat)
    requires i < |acts| && i + 1 < |states|
  {
    Step(states[i], acts[i], states[i + 1])
  }

  ghost predicate Step(s: State, a: Action, s': State) {
    Enabled(s, a) && s' == Apply(s, a)
  }

  function Last<T>(s: seq<T>): T
    requires s != []
  {
    s[|s| - 1]
  }

  /** Any chain of steps can be given a step in front. */
  lemma PrependChain<S, A>(step: (S, A, S) -> bool, s: S, a: A, states: seq<S>, acts: seq<A>)
    requires |states| == |acts| + 1 && step(s, a, states[0])
    requires forall i :: 0 <= i < |acts| ==> step(states[i], acts[i], states[i + 1])
    ensures forall i :: 0 <= i < |acts| + 1 ==> step(([s] + states)[i], ([a] + acts)[i], ([s] + states)[i + 1])
  {
    forall i | 0 <= i < |acts| + 1
      ensures step(([s] + states)[i], ([a] + acts)[i], ([s] + states)[i + 1])
    {
      if i > 0 { assert step(states[i - 1], acts[i - 1], states[i - 1 + 1]); }
    }
  }
}
