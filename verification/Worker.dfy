/**
 The worker process, as imperative code running beside any number of other handlers and workers.

 The cluster object holds the table and the broker's state together with a ghost record of everything
 that ever happened to them. Between any two remote calls of a worker, `Interleave` stands for
 whatever the rest of the system does meanwhile. The contracts say that all a worker ever does is a
 run of the job protocol, so what is proved about runs holds for this code.
 */
module Worker {
  import opened Wrappers
  import opened Backups
  import opened SyntheticData
  import opened SyntheticAnalysis
  import opened Logarithm
  import opened Entropy
  import opened EntropyLevels
  import opened JobProtocol
  import opened JobSafety
  import opened Grpc
  import opened Histories

  /** How a remote call ends: answered, or failed with or without having taken effect. */
  datatype Outcome = Answered | Lost(landed: bool)

  /** What may go wrong while one delivery is handled, and the clock readings of its two writes. */
  datatype Conditions = Conditions(
    update: Outcome,
    updateAt: Time,
    compute: bool,          // the computation returns
    report: Outcome,
    reportAt: Time,
    settle: Outcome)        // of the final ack, nack or rejection

  predicate Faultless(c: Conditions) {
    c.update.Answered? && c.compute && c.report.Answered?
  }

  /** What `select!` wakes the worker with. */
  datatype Wakeup =
    | StreamEnded
    | DeliveryError
    | Shutdown(flag: bool)
    | Next(conditions: Conditions)

  /** What became of one wakeup. */
  datatype Verdict =
    | Quiet                 // nothing was delivered
    | Dropped(tag: Tag)
    | Lingering(tag: Tag)   // the rejection failed, unnoticed; the message stays where it is
    | Acked(tag: Tag)
    | Requeued(tag: Tag)
    | Unsettled(tag: Tag)   // the ack or nack failed; the worker gives up

  // ----- what the calls of one delivery amount to

  /** The call that marks the row, as a step: by how it ends, and whether the row was found. */
  function MarkAction(tag: Tag, outcome: Outcome, now: Time, found: bool): Action {
    match outcome
    case Answered => if found then MarkRunning(tag, now) else MarkNotFound(tag)
    case Lost(landed) => MarkFailed(tag, landed, now)
  }

  function ReportAction(tag: Tag, outcome: Outcome, now: Time): Action {
    match outcome
    case Answered => Report(tag, now)
    case Lost(landed) => ReportFailed(tag, landed, now)
  }

  function FinishAction(tag: Tag, c: Conditions): Action {
    if c.compute then ReportAction(tag, c.report, c.reportAt) else ComputeFailed(tag)
  }

  /** The steps of `process_and_report`, up to the first that fails. */
  function Attempt(tag: Tag, c: Conditions, found: bool): seq<Action> {
    [MarkAction(tag, c.update, c.updateAt, found)]
    + if c.update.Answered? && found then [FinishAction(tag, c)] else []
  }

  predicate Succeeds(c: Conditions, found: bool) {
    Faultless(c) && found
  }

  /** A last ack or nack reaches the broker, or not. */
  function Settling(c: Conditions, a: Action): seq<Action> {
    if c.settle == Lost(false) then [] else [a]
  }

  /** All the steps of one delivery, by whether it decodes and its row is found. */
  function Handling(tag: Tag, c: Conditions, decodes: bool, found: bool): seq<Action> {
    if !decodes then Settling(c, Reject(tag))
    else
      [Start(tag)] + Attempt(tag, c, found)
      + Settling(c, if Succeeds(c, found) then Ack(tag) else JobProtocol.Requeue(tag))
  }

  function VerdictOn(tag: Tag, c: Conditions, decodes: bool, found: bool): Verdict {
    if !decodes then if c.settle == Lost(false) then Lingering(tag) else Dropped(tag)
    else if c.settle.Lost? then Unsettled(tag)
    else if Succeeds(c, found) then Acked(tag)
    else Requeued(tag)
  }

  /**
   An ack is preceded by the whole of the work and nothing else; a requeueing, by work that failed at the
   call that failed. Only a worker that cannot ack or nack leaves it at that.
   */
  lemma HandlingIs(tag: Tag, c: Conditions, decodes: bool, found: bool)
    ensures var own, verdict := Handling(tag, c, decodes, found), VerdictOn(tag, c, decodes, found);
      && (verdict == Dropped(tag) <==> !decodes && c.settle != Lost(false))
      && (verdict == Dropped(tag) ==> own == [Reject(tag)])
      && (verdict == Lingering(tag) <==> !decodes && c.settle == Lost(false))
      && (verdict == Lingering(tag) ==> own == [])
      && (verdict == Unsettled(tag) <==> decodes && c.settle.Lost?)
      && (verdict == Acked(tag) <==>
            decodes && found && c.update.Answered? && c.compute && c.report.Answered? && c.settle.Answered?)
      && (verdict == Acked(tag) ==>
            own == [Start(tag), MarkRunning(tag, c.updateAt), Report(tag, c.reportAt), Ack(tag)])
      && (verdict == Requeued(tag) ==>
            if c.update.Lost? then
              own == [Start(tag), MarkFailed(tag, c.update.landed, c.updateAt), JobProtocol.Requeue(tag)]
            else if !found then
              own == [Start(tag), MarkNotFound(tag), JobProtocol.Requeue(tag)]
            else if !c.compute then
              own == [Start(tag), MarkRunning(tag, c.updateAt), ComputeFailed(tag), JobProtocol.Requeue(tag)]
            else
              c.report.Lost? && own == [Start(tag), MarkRunning(tag, c.updateAt),
                                        ReportFailed(tag, c.report.landed, c.reportAt), JobProtocol.Requeue(tag)])
  {
  }

  // ----- the cluster

  class Cluster {
    const db: Database
    const service: BackupProcessorService
    var outbox: multiset<Job>
    var published: seq<Payload>
    var queue: set<Tag>
    var inflight: map<Tag, Delivery>
    var acked: set<Tag>
    var dropped: set<Tag>
    var live: set<WorkerId>
    ghost var issued: set<Uuid>
    ghost var states: seq<State>
    ghost var acts: seq<Action>
    ghost var reports: map<nat, ProcessingResult>
    ghost var own: seq<Action>   // the steps of the enqueue handler at hand

    ghost function Log(): History
      reads this
    {
      History(states, acts, reports)
    }

    ghost function View(): State
      reads this, db
    {
      State(db.rows, issued, outbox, published, queue, inflight, acked, dropped, live)
    }

    /** The cluster is where its history says it is. */
    ghost predicate Valid()
      reads this, db
    {
      && service.db == db
      && IsRun(states, acts) && ReportsRecorded(Log())
      && states[0] == INITIAL && Last(states) == View()
    }

    lemma KeepsInvariant()
      requires Valid()
      ensures Invariant(View())
    {
      InitialInvariant();
      RunKeepsInvariant(states, acts, |acts|);
    }

    constructor ()
      ensures Valid() && fresh(db)
      ensures View() == INITIAL && states == [INITIAL] && acts == []
    {
      var database := new Database();
      var grpc := new BackupProcessorService(database);
      db := database;
      service := grpc;
      outbox, published, queue, inflight, acked, dropped, live := multiset{}, [], {}, map[], {}, {}, {};
      issued, states, acts, reports, own := {}, [INITIAL], [], map[], [];
    }

    lemma OnlyInHand(w: WorkerId, tag: Tag)
      requires Valid() && HoldsFor(View(), tag, w) && InHand(View(), tag)
      ensures forall t :: t in inflight && inflight[t].worker == w && t != tag ==> inflight[t].phase == Buffered
    {
      KeepsInvariant();
      assert forall t :: InHand(View(), t) <==> t in inflight && inflight[t].phase != Buffered;
    }

    /** History only grows. */
    twostate predicate Extends()
      reads this
    {
      Longer(old(Log()), Log())
    }

    /** One action, no report, was added to the history. */
    twostate predicate Did(a: Action)
      reads this, db
    {
      Log() == History(old(states) + [View()], old(acts) + [a], old(reports))
    }

    /** A report was added to the history. */
    twostate predicate DidReport(a: Action, result: ProcessingResult)
      reads this, db
    {
      Log() == History(old(states) + [View()], old(acts) + [a], old(reports)[|old(acts)| := result])
    }

    /** Enters the step just taken into the history. */
    ghost method Record(a: Action)
      requires service.db == db && IsRun(states, acts) && ReportsRecorded(Log()) && states[0] == INITIAL
      requires Step(Last(states), a, View()) && !IsReport(a)
      modifies this`states, this`acts
      ensures Valid() && Did(a)
    {
      RunExtends(states, acts, a, View());
      states := states + [View()];
      acts := acts + [a];
    }

    ghost method RecordReport(a: Action, result: ProcessingResult)
      requires service.db == db && IsRun(states, acts) && ReportsRecorded(Log()) && states[0] == INITIAL
      requires Step(Last(states), a, View()) && IsReport(a)
      modifies this`states, this`acts, this`reports
      ensures Valid() && DidReport(a, result)
    {
      RunExtends(states, acts, a, View());
      RecordedNext(Log(), View(), a, result);
      reports := reports[|acts| := result];
      states := states + [View()];
      acts := acts + [a];
    }

    /**
     Anything the other parties do between two calls of worker `w`. Callers know only the contract; that
     nothing happens is the simplest thing that meets it.
     */
    method Interleave(w: WorkerId)
      requires Valid()
      modifies this, db
      ensures Valid() && Extends()
      ensures Foreign(states, acts, w, |old(acts)|, |acts|)
    {
    }

    // ----- the enqueue handler's calls

    /** Anything the other parties do while a handler holds `job`; each publishes only what it read itself. */
    method InterleaveHolding(job: Job)
      requires Valid() && job in outbox
      modifies this, db
      ensures Valid() && Extends() && job in outbox && own == old(own)
    {
    }

    /** SELECT for a row to enqueue; the handler now holds the job it makes of it. */
    method SelectForEnqueue(id: Uuid, tenant: Uuid) returns (job: Option<Job>)
      requires Valid()
      modifies this
      ensures Valid()
      ensures match Fetch(old(db.rows), id, tenant)
              case None => job == None && unchanged(this)
              case Some(row) =>
                && job == Some(BackupJob(id, tenant, row.sourcePath, row.encrypted))
                && job.value in outbox && Did(ReadForEnqueue(id, tenant))
                && own == old(own) + [ReadForEnqueue(id, tenant)]
    {
      if id in db.rows && db.rows[id].tenant == tenant {
        var row := db.rows[id];
        job := Some(BackupJob(row.id, row.tenant, row.sourcePath, row.encrypted));
        outbox := outbox + multiset{job.value};
        own := own + [ReadForEnqueue(id, tenant)];
        Record(ReadForEnqueue(id, tenant));
      } else {
        job := None;
      }
    }

    /** `publish_job`: the message goes to the end of the log and into the queue. */
    method PublishJob(job: Job)
      requires Valid() && job in outbox
      modifies this
      ensures Valid() && Did(Publish(job)) && own == old(own) + [Publish(job)]
      ensures published == old(published) + [Encode(job)] && |old(published)| in queue
    {
      queue := queue + {|published|};
      published := published + [Encode(job)];
      outbox, own := outbox - multiset{job}, own + [Publish(job)];
      Record(Publish(job));
    }

    /** The handler fails before anything was published. */
    method DropJob(job: Job)
      requires Valid() && job in outbox
      modifies this
      ensures Valid() && Did(AbandonPublish(job)) && published == old(published)
      ensures own == old(own) + [AbandonPublish(job)]
    {
      outbox := outbox - multiset{job};
      own := own + [AbandonPublish(job)];
      Record(AbandonPublish(job));
    }

    // ----- the worker's calls

    /** The worker connects and starts to consume. */
    method Connect(w: WorkerId)
      requires Valid() && w !in live
      modifies this
      ensures Valid() && Did(Join(w)) && w in live && Idle(View(), w)
    {
      KeepsInvariant();
      assert forall tag :: tag in inflight ==> inflight[tag].worker in live;
      live := live + {w};
      Record(Join(w));
    }

    /** The connection closes, and the broker takes back what was not settled. */
    method Disconnect(w: WorkerId)
      requires Valid() && w in live
      modifies this
      ensures Valid() && Did(Crash(w)) && w !in live
      ensures HeldBy(View(), w) == {}
    {
      var held := set tag | tag in inflight && inflight[tag].worker == w;
      assert held == HeldBy(View(), w);
      live, queue, inflight := live - {w}, queue + held, inflight - held;
      Record(Crash(w));
    }

    /** `nack` without requeueing. */
    method RejectDelivery(w: WorkerId, tag: Tag, outcome: Outcome)
      requires Valid() && HoldsFor(View(), tag, w) && Holds(View(), tag, Buffered) && Idle(View(), w)
      requires tag < |published| && Decode(published[tag]).None?
      modifies this
      ensures Valid() && live == old(live) && Idle(View(), w)
      ensures if outcome == Lost(false) then unchanged(this) else Did(Reject(tag))
    {
      if outcome != Lost(false) {
        inflight, dropped := inflight - {tag}, dropped + {tag};
        Record(Reject(tag));
      }
    }

    method Begin(w: WorkerId, tag: Tag)
      requires Valid() && HoldsFor(View(), tag, w) && Holds(View(), tag, Buffered) && Idle(View(), w)
      requires tag < |published| && Decode(published[tag]).Some?
      modifies this
      ensures Valid() && Did(Start(tag)) && published == old(published) && live == old(live)
      ensures HoldsFor(View(), tag, w) && Holds(View(), tag, Started)
    {
      inflight := inflight[tag := inflight[tag].(phase := Started)];
      Record(Start(tag));
    }

    /** `update_status` for the job of a delivery; `ok` is what the worker sees. */
    method CallUpdateStatus(w: WorkerId, tag: Tag, job: Job, outcome: Outcome, now: Time) returns (ok: bool)
      requires Valid() && HoldsFor(View(), tag, w) && Holds(View(), tag, Started)
      requires tag < |published| && Decode(published[tag]) == Some(job)
      modifies this, db
      ensures Valid() && published == old(published) && live == old(live)
      ensures HoldsFor(View(), tag, w) && Holds(View(), tag, if ok then MarkedRunning else Errored)
      ensures Did(MarkAction(tag, outcome, now, ok))
      ensures ok <==> outcome.Answered? && job.backupId in old(db.rows)
    {
      match outcome
      case Answered =>
        ok := MarkAnswered(w, tag, job, now);
      case Lost(landed) =>
        MarkLost(w, tag, job, landed, now);
        ok := false;
    }

    method MarkAnswered(w: WorkerId, tag: Tag, job: Job, now: Time) returns (ok: bool)
      requires Valid() && HoldsFor(View(), tag, w) && Holds(View(), tag, Started)
      requires tag < |published| && Decode(published[tag]) == Some(job)
      modifies this, db
      ensures Valid() && published == old(published) && live == old(live)
      ensures HoldsFor(View(), tag, w) && Holds(View(), tag, if ok then MarkedRunning else Errored)
      ensures Did(if ok then MarkRunning(tag, now) else MarkNotFound(tag))
      ensures ok <==> job.backupId in old(db.rows)
    {
      var r := service.UpdateStatus(Some(job.backupId), RUNNING_TEXT, now);
      ok := r.Ok?;
      inflight := inflight[tag := inflight[tag].(phase := if ok then MarkedRunning else Errored)];
      Record(if ok then MarkRunning(tag, now) else MarkNotFound(tag));
    }

    method MarkLost(w: WorkerId, tag: Tag, job: Job, landed: bool, now: Time)
      requires Valid() && HoldsFor(View(), tag, w) && Holds(View(), tag, Started)
      requires tag < |published| && Decode(published[tag]) == Some(job)
      modifies this, db
      ensures Valid() && published == old(published) && live == old(live)
      ensures HoldsFor(View(), tag, w) && Holds(View(), tag, Errored)
      ensures Did(MarkFailed(tag, landed, now))
    {
      if landed {
        var _ := service.UpdateStatus(Some(job.backupId), RUNNING_TEXT, now);
      }
      inflight := inflight[tag := inflight[tag].(phase := Errored)];
      Record(MarkFailed(tag, landed, now));
    }

    /** The computation for a delivery did not return. */
    method AbandonJob(w: WorkerId, tag: Tag)
      requires Valid() && HoldsFor(View(), tag, w) && Holds(View(), tag, MarkedRunning)
      modifies this
      ensures Valid() && Did(ComputeFailed(tag)) && live == old(live)
      ensures HoldsFor(View(), tag, w) && Holds(View(), tag, Errored)
    {
      inflight := inflight[tag := inflight[tag].(phase := Errored)];
      Record(ComputeFailed(tag));
    }

    /** `report_result` for the job of a delivery; `ok` is what the worker sees. */
    method CallReportResult(w: WorkerId, tag: Tag, job: Job, result: ProcessingResult, outcome: Outcome, now: Time)
      returns (ok: bool)
      requires Valid() && HoldsFor(View(), tag, w) && Holds(View(), tag, MarkedRunning)
      requires tag < |published| && Decode(published[tag]) == Some(job)
      requires result.backupId == Some(job.backupId) && result.status == COMPLETED_TEXT
      requires result.sizeBytes == SimulatedSize(job.sourcePath)
      modifies this, db
      ensures Valid() && live == old(live)
      ensures HoldsFor(View(), tag, w) && Holds(View(), tag, if ok then Reported else Errored)
      ensures DidReport(ReportAction(tag, outcome, now), result)
      ensures ok <==> outcome.Answered?
    {
      match outcome
      case Answered =>
        var r, _ := service.ReportResult(result, now);
        ok := r.Ok?;
        inflight := inflight[tag := inflight[tag].(phase := Reported)];
        RecordReport(Report(tag, now), result);
      case Lost(landed) =>
        if landed {
          var _, _ := service.ReportResult(result, now);
        }
        ok := false;
        inflight := inflight[tag := inflight[tag].(phase := Errored)];
        RecordReport(ReportFailed(tag, landed, now), result);
    }

    /** Acknowledges a reported delivery. A lost ack may still have reached the broker. */
    method BasicAck(w: WorkerId, tag: Tag, outcome: Outcome)
      requires Valid() && HoldsFor(View(), tag, w) && Holds(View(), tag, Reported)
      modifies this
      ensures Valid() && live == old(live)
      ensures if outcome == Lost(false) then unchanged(this) else Did(Ack(tag)) && Idle(View(), w)
    {
      OnlyInHand(w, tag);
      if outcome != Lost(false) {
        inflight, acked := inflight - {tag}, acked + {tag};
        Record(Ack(tag));
      }
    }

    /** Gives a failed delivery back to the queue. */
    method BasicNackRequeue(w: WorkerId, tag: Tag, outcome: Outcome)
      requires Valid() && HoldsFor(View(), tag, w) && Holds(View(), tag, Errored)
      modifies this
      ensures Valid() && live == old(live)
      ensures if outcome == Lost(false) then unchanged(this) else Did(JobProtocol.Requeue(tag)) && Idle(View(), w)
    {
      OnlyInHand(w, tag);
      if outcome != Lost(false) {
        inflight, queue := inflight - {tag}, queue + {tag};
        Record(JobProtocol.Requeue(tag));
      }
    }
  }

  // ----- the worker

  /** The message of the delivery carries this job. */
  predicate Carries(published: seq<Payload>, tag: Tag, job: Job) {
    tag < |published| && Decode(published[tag]) == Some(job)
  }

  /** The rest of the system goes on; the delivery in hand is still there afterwards. */
  method Pause(cluster: Cluster, w: WorkerId, ghost ln: real -> real, tag: Tag)
    requires cluster.Valid() && HoldsFor(cluster.View(), tag, w) && w in cluster.live && ln(2.0) > 0.0
    modifies cluster, cluster.db
    ensures cluster.Valid() && cluster.Extends() && w in cluster.live
    ensures HoldsFor(cluster.View(), tag, w) && cluster.inflight[tag] == old(cluster.inflight[tag])
    ensures old(cluster.published) <= cluster.published
    ensures Acted(ln, cluster.Log(), w, |old(cluster.acts)|, |cluster.acts|, [])
  {
    ghost var before := |cluster.acts|;
    cluster.KeepsInvariant();
    cluster.Interleave(w);
    ForeignRunKeeps(cluster.states, cluster.acts, w, before, |cluster.acts|, tag);
    ForeignRunKeepsWorker(cluster.states, cluster.acts, w, before, |cluster.acts|);
    ActedNothing(ln, cluster.Log(), w, before, |cluster.acts|);
  }

  /** First call: tell the service that the job is running. */
  method MarkJob(cluster: Cluster, w: WorkerId, ghost ln: real -> real, tag: Tag, job: Job, c: Conditions)
    returns (ok: bool)
    requires cluster.Valid() && w in cluster.live && Carries(cluster.published, tag, job) && ln(2.0) > 0.0
    requires HoldsFor(cluster.View(), tag, w) && Holds(cluster.View(), tag, Started)
    modifies cluster, cluster.db
    ensures cluster.Valid() && cluster.Extends() && w in cluster.live && Carries(cluster.published, tag, job)
    ensures HoldsFor(cluster.View(), tag, w) && Holds(cluster.View(), tag, if ok then MarkedRunning else Errored)
    ensures ok ==> c.update.Answered?
    ensures Acted(ln, cluster.Log(), w, |old(cluster.acts)|, |cluster.acts|,
                  [MarkAction(tag, c.update, c.updateAt, ok)])
  {
    ghost var n := |cluster.acts|;
    Pause(cluster, w, ln, tag);
    ghost var h := cluster.Log();
    ok := cluster.CallUpdateStatus(w, tag, job, c.update, c.updateAt);
    ActedNext(ln, h, cluster.Log(), w, n, [], MarkAction(tag, c.update, c.updateAt, ok), cluster.View());
  }

  /** The analysis itself: the size to report, the entropy, and whether to flag it. */
  method AnalyzeJob(ln: real -> real, job: Job) returns (size: int, entropy: real, suspicious: bool)
    requires IsLn(ln)
    ensures size == SimulatedSize(job.sourcePath)
    ensures ln(2.0) > 0.0 && entropy == ShannonEntropy(ln, Cycled(job.sourcePath, WORKER_BYTES))
    ensures 0.0 <= entropy <= 8.0
    ensures suspicious <==> entropy >= 7.5
    ensures suspicious ==> !IsAscii(job.sourcePath)
  {
    var syntheticData := Cycled(job.sourcePath, WORKER_BYTES);
    size := |syntheticData| * SIZE_FACTOR;
    LnTwoIsPositive(ln);
    entropy := ComputeShannonEntropy(ln, syntheticData);
    var level := Classify(entropy);
    suspicious := level.IsSuspicious();
    LevelOfFewBytes(ln, syntheticData);
    if IsAscii(job.sourcePath) {
      AsciiIsNeverSuspicious(ln, job.sourcePath, WORKER_BYTES);
    }
  }

  /** Second call: report the result, unless the computation broke down. */
  method FinishJob(
    cluster: Cluster, w: WorkerId, ghost ln: real -> real, tag: Tag, job: Job, result: ProcessingResult,
    c: Conditions)
    returns (ok: bool)
    requires cluster.Valid() && w in cluster.live && Carries(cluster.published, tag, job)
    requires HoldsFor(cluster.View(), tag, w) && Holds(cluster.View(), tag, MarkedRunning)
    requires ln(2.0) > 0.0 && result == ReportOn(ln, job)
    modifies cluster, cluster.db
    ensures cluster.Valid() && cluster.Extends() && w in cluster.live
    ensures HoldsFor(cluster.View(), tag, w) && Holds(cluster.View(), tag, if ok then Reported else Errored)
    ensures ok <==> c.compute && c.report.Answered?
    ensures Acted(ln, cluster.Log(), w, |old(cluster.acts)|, |cluster.acts|, [FinishAction(tag, c)])
  {
    ghost var n := |cluster.acts|;
    Pause(cluster, w, ln, tag);
    ghost var h := cluster.Log();
    if c.compute {
      ok := SendResult(cluster, w, ln, tag, job, result, c.report, c.reportAt);
    } else {
      GiveUpJob(cluster, w, ln, tag);
      ok := false;
    }
    ActedThen(ln, h, cluster.Log(), w, n, |h.acts|, |cluster.acts|, [], [FinishAction(tag, c)]);
  }

  method GiveUpJob(cluster: Cluster, w: WorkerId, ghost ln: real -> real, tag: Tag)
    requires cluster.Valid() && w in cluster.live && ln(2.0) > 0.0
    requires HoldsFor(cluster.View(), tag, w) && Holds(cluster.View(), tag, MarkedRunning)
    modifies cluster
    ensures cluster.Valid() && cluster.Extends() && w in cluster.live
    ensures HoldsFor(cluster.View(), tag, w) && Holds(cluster.View(), tag, Errored)
    ensures Acted(ln, cluster.Log(), w, |old(cluster.acts)|, |cluster.acts|, [ComputeFailed(tag)])
  {
    ghost var h := cluster.Log();
    ActedNothing(ln, h, w, |h.acts|, |h.acts|);
    cluster.AbandonJob(w, tag);
    ActedNext(ln, h, cluster.Log(), w, |h.acts|, [], ComputeFailed(tag), cluster.View());
  }

  method SendResult(
    cluster: Cluster, w: WorkerId, ghost ln: real -> real, tag: Tag, job: Job, result: ProcessingResult,
    outcome: Outcome, now: Time)
    returns (ok: bool)
    requires cluster.Valid() && w in cluster.live && Carries(cluster.published, tag, job)
    requires HoldsFor(cluster.View(), tag, w) && Holds(cluster.View(), tag, MarkedRunning)
    requires ln(2.0) > 0.0 && result == ReportOn(ln, job)
    modifies cluster, cluster.db
    ensures cluster.Valid() && cluster.Extends() && w in cluster.live
    ensures HoldsFor(cluster.View(), tag, w) && Holds(cluster.View(), tag, if ok then Reported else Errored)
    ensures ok <==> outcome.Answered?
    ensures Acted(ln, cluster.Log(), w, |old(cluster.acts)|, |cluster.acts|, [ReportAction(tag, outcome, now)])
  {
    ghost var h := cluster.Log();
    ActedNothing(ln, h, w, |h.acts|, |h.acts|);
    assert Decodes(Last(h.states), tag) && JobOf(Last(h.states), tag) == job;
    ok := cluster.CallReportResult(w, tag, job, result, outcome, now);
    ReportedNext(ln, h, cluster.Log(), w, |h.acts|, [], ReportAction(tag, outcome, now), cluster.View(), job);
  }

  /** Processes one job and reports the result; the first call that fails ends it. */
  method ProcessAndReport(
    cluster: Cluster, w: WorkerId, ln: real -> real, tag: Tag, job: Job, c: Conditions)
    returns (ok: bool, ghost found: bool)
    requires cluster.Valid() && w in cluster.live && Carries(cluster.published, tag, job) && IsLn(ln)
    requires HoldsFor(cluster.View(), tag, w) && Holds(cluster.View(), tag, Started)
    modifies cluster, cluster.db
    ensures cluster.Valid() && cluster.Extends() && w in cluster.live
    ensures HoldsFor(cluster.View(), tag, w) && Holds(cluster.View(), tag, if ok then Reported else Errored)
    ensures ok <==> Succeeds(c, found)
    ensures Acted(ln, cluster.Log(), w, |old(cluster.acts)|, |cluster.acts|, Attempt(tag, c, found))
  {
    ghost var n := |cluster.acts|;
    LnTwoIsPositive(ln);
    ok := MarkJob(cluster, w, ln, tag, job, c);
    found := ok;
    if ok {
      ghost var h := cluster.Log();
      var size, entropy, suspicious := AnalyzeJob(ln, job);
      var result := ProcessingResult(Some(job.backupId), COMPLETED_TEXT, size, entropy, suspicious);
      ok := FinishJob(cluster, w, ln, tag, job, result, c);
      ActedThen(ln, h, cluster.Log(), w, n, |h.acts|, |cluster.acts|,
                [MarkAction(tag, c.update, c.updateAt, true)], [FinishAction(tag, c)]);
    }
  }

  /** Acks a job that was processed, requeues one that was not. */
  method Settle(cluster: Cluster, w: WorkerId, ghost ln: real -> real, tag: Tag, ok: bool, c: Conditions)
    requires cluster.Valid() && w in cluster.live && ln(2.0) > 0.0
    requires HoldsFor(cluster.View(), tag, w) && Holds(cluster.View(), tag, if ok then Reported else Errored)
    modifies cluster
    ensures cluster.Valid() && cluster.Extends() && w in cluster.live
    ensures c.settle.Answered? ==> Idle(cluster.View(), w)
    ensures Acted(ln, cluster.Log(), w, |old(cluster.acts)|, |cluster.acts|,
                  Settling(c, if ok then Ack(tag) else JobProtocol.Requeue(tag)))
  {
    ghost var h := cluster.Log();
    ActedNothing(ln, h, w, |h.acts|, |h.acts|);
    if ok {
      cluster.BasicAck(w, tag, c.settle);
    } else {
      cluster.BasicNackRequeue(w, tag, c.settle);
    }
    if c.settle != Lost(false) {
      ActedNext(ln, h, cluster.Log(), w, |h.acts|, [], if ok then Ack(tag) else JobProtocol.Requeue(tag),
                cluster.View());
    }
  }

  /** What the worker did from position `i` to `k` is one delivery handled, with this verdict. */
  ghost predicate Handled(
    ln: real -> real, h: History, w: WorkerId, c: Conditions, tag: Tag, verdict: Verdict, i: nat, k: nat)
  {
    && Spans(h, i, k)
    && exists found: bool ::
         && Acted(ln, h, w, i, k, Handling(tag, c, Decodes(h.states[k], tag), found))
         && verdict == VerdictOn(tag, c, Decodes(h.states[k], tag), found)
  }

  /** Handles one delivery to the end. */
  method HandleDelivery(cluster: Cluster, w: WorkerId, ln: real -> real, tag: Tag, c: Conditions)
    returns (verdict: Verdict)
    requires cluster.Valid() && w in cluster.live && IsLn(ln)
    requires HoldsFor(cluster.View(), tag, w) && Holds(cluster.View(), tag, Buffered)
    requires Idle(cluster.View(), w)
    modifies cluster, cluster.db
    ensures cluster.Valid() && cluster.Extends() && w in cluster.live
    ensures Handled(ln, cluster.Log(), w, c, tag, verdict, |old(cluster.acts)|, |cluster.acts|)
    ensures !verdict.Unsettled? ==> Idle(cluster.View(), w)
    ensures verdict.Lingering? ==> tag in cluster.inflight && cluster.inflight[tag] == Delivery(w, Buffered)
  {
    ghost var h := cluster.Log();
    cluster.KeepsInvariant();
    assert Alive(cluster.View(), tag);
    match Decode(cluster.published[tag])
    case None =>
      RejectMalformed(cluster, w, ln, tag, c.settle);
      LogKeeps(cluster.states, cluster.acts, |h.acts|, |cluster.acts|);
      HandledSo(ln, cluster.Log(), w, c, tag, |h.acts|, |cluster.acts|, false, false);
      return if c.settle == Lost(false) then Lingering(tag) else Dropped(tag);
    case Some(job) =>
      verdict := HandleJob(cluster, w, ln, tag, job, c);
  }

  method RejectMalformed(cluster: Cluster, w: WorkerId, ghost ln: real -> real, tag: Tag, outcome: Outcome)
    requires cluster.Valid() && w in cluster.live && IsLn(ln)
    requires HoldsFor(cluster.View(), tag, w) && Holds(cluster.View(), tag, Buffered)
    requires Idle(cluster.View(), w) && tag < |cluster.published| && Decode(cluster.published[tag]).None?
    modifies cluster
    ensures cluster.Valid() && cluster.Extends() && w in cluster.live && Idle(cluster.View(), w)
    ensures Acted(ln, cluster.Log(), w, |old(cluster.acts)|, |cluster.acts|,
                  if outcome == Lost(false) then [] else [Reject(tag)])
    ensures outcome == Lost(false) ==> cluster.inflight == old(cluster.inflight)
  {
    ghost var h := cluster.Log();
    LnTwoIsPositive(ln);
    ActedNothing(ln, h, w, |h.acts|, |h.acts|);
    cluster.RejectDelivery(w, tag, outcome);
    if outcome != Lost(false) {
      ActedNext(ln, h, cluster.Log(), w, |h.acts|, [], Reject(tag), cluster.View());
    }
  }

  lemma HandledSo(
    ln: real -> real, h: History, w: WorkerId, c: Conditions, tag: Tag, i: nat, k: nat, decodes: bool, found: bool)
    requires Spans(h, i, k) && Acted(ln, h, w, i, k, Handling(tag, c, decodes, found))
    requires Decodes(h.states[k], tag) <==> decodes
    ensures Handled(ln, h, w, c, tag, VerdictOn(tag, c, decodes, found), i, k)
  {
  }

  method HandleJob(cluster: Cluster, w: WorkerId, ln: real -> real, tag: Tag, job: Job, c: Conditions)
    returns (verdict: Verdict)
    requires cluster.Valid() && w in cluster.live && Carries(cluster.published, tag, job) && IsLn(ln)
    requires HoldsFor(cluster.View(), tag, w) && Holds(cluster.View(), tag, Buffered)
    requires Idle(cluster.View(), w)
    modifies cluster, cluster.db
    ensures cluster.Valid() && cluster.Extends() && w in cluster.live
    ensures Handled(ln, cluster.Log(), w, c, tag, verdict, |old(cluster.acts)|, |cluster.acts|)
    ensures !verdict.Unsettled? ==> Idle(cluster.View(), w)
    ensures !verdict.Lingering?
  {
    ghost var h := cluster.Log();
    ghost var found;
    var ok;
    ok, found := BeginJob(cluster, w, ln, tag, job, c);
    ghost var h' := cluster.Log();
    LnTwoIsPositive(ln);
    Settle(cluster, w, ln, tag, ok, c);
    verdict := if c.settle.Lost? then Unsettled(tag) else if ok then Acked(tag) else Requeued(tag);
    ActedThen(ln, h', cluster.Log(), w, |h.acts|, |h'.acts|, |cluster.acts|, [Start(tag)] + Attempt(tag, c, found),
              Settling(c, if ok then Ack(tag) else JobProtocol.Requeue(tag)));
    LogKeeps(cluster.states, cluster.acts, |h.acts|, |cluster.acts|);
    HandledSo(ln, cluster.Log(), w, c, tag, |h.acts|, |cluster.acts|, true, found);
  }

  /** Takes the delivery up and works on it. */
  method BeginJob(cluster: Cluster, w: WorkerId, ln: real -> real, tag: Tag, job: Job, c: Conditions)
    returns (ok: bool, ghost found: bool)
    requires cluster.Valid() && w in cluster.live && Carries(cluster.published, tag, job) && IsLn(ln)
    requires HoldsFor(cluster.View(), tag, w) && Holds(cluster.View(), tag, Buffered)
    requires Idle(cluster.View(), w)
    modifies cluster, cluster.db
    ensures cluster.Valid() && cluster.Extends() && w in cluster.live
    ensures HoldsFor(cluster.View(), tag, w) && Holds(cluster.View(), tag, if ok then Reported else Errored)
    ensures ok <==> Succeeds(c, found)
    ensures Acted(ln, cluster.Log(), w, |old(cluster.acts)|, |cluster.acts|, [Start(tag)] + Attempt(tag, c, found))
  {
    ghost var n := |cluster.acts|;
    TakeUp(cluster, w, ln, tag);
    ghost var h' := cluster.Log();
    ok, found := ProcessAndReport(cluster, w, ln, tag, job, c);
    ActedThen(ln, h', cluster.Log(), w, n, |h'.acts|, |cluster.acts|, [Start(tag)], Attempt(tag, c, found));
  }

  method TakeUp(cluster: Cluster, w: WorkerId, ghost ln: real -> real, tag: Tag)
    requires cluster.Valid() && w in cluster.live && IsLn(ln)
    requires HoldsFor(cluster.View(), tag, w) && Holds(cluster.View(), tag, Buffered)
    requires Idle(cluster.View(), w) && tag < |cluster.published| && Decode(cluster.published[tag]).Some?
    modifies cluster
    ensures cluster.Valid() && cluster.Extends() && w in cluster.live && cluster.published == old(cluster.published)
    ensures HoldsFor(cluster.View(), tag, w) && Holds(cluster.View(), tag, Started)
    ensures Acted(ln, cluster.Log(), w, |old(cluster.acts)|, |cluster.acts|, [Start(tag)])
  {
    ghost var h := cluster.Log();
    LnTwoIsPositive(ln);
    ActedNothing(ln, h, w, |h.acts|, |h.acts|);
    cluster.Begin(w, tag);
    ActedNext(ln, h, cluster.Log(), w, |h.acts|, [], Start(tag), cluster.View());
  }

  /** How `run_worker` ends: asked to or out of messages, or because an ack or nack failed. */
  datatype Exit = Stopped | GaveUp

  /** Nothing waits for the worker but the messages it has already turned to. */
  predicate NothingBuffered(s: State, w: WorkerId, passed: set<Tag>) {
    forall tag :: tag in s.inflight && tag !in passed ==> s.inflight[tag] != Delivery(w, Buffered)
  }

  /** The messages that the worker has turned to but that are still with it: each is delivered only once. */
  function PassedBy(verdicts: seq<Verdict>): set<Tag> {
    set v | v in verdicts && v.Lingering? :: v.tag
  }

  /**
   The verdict accounts for the wakeup, given the history between positions `from` and `to`. A worker
   woken for a message lets it pass only if there is none; woken for anything else, it does nothing.
   */
  ghost predicate Accounted(
    ln: real -> real, h: History, w: WorkerId, wakeup: Wakeup, passed: set<Tag>, verdict: Verdict, from: nat, to: nat)
  {
    && Spans(h, from, to)
    && if verdict.Quiet? then
         (wakeup.Next? ==> NothingBuffered(h.states[to], w, passed)) && Acted(ln, h, w, from, to, [])
       else
         && wakeup.Next? && verdict.tag !in passed
         && Handled(ln, h, w, wakeup.conditions, verdict.tag, verdict, from, to)
         && (verdict.Lingering? ==>
               verdict.tag in h.states[to].inflight && h.states[to].inflight[verdict.tag] == Delivery(w, Buffered))
  }

  lemma HandledLater(
    ln: real -> real, h: History, h': History, w: WorkerId, c: Conditions, tag: Tag, verdict: Verdict,
    i: nat, k: nat)
    requires Handled(ln, h, w, c, tag, verdict, i, k) && Longer(h, h') && Spans(h', i, k)
    ensures Handled(ln, h', w, c, tag, verdict, i, k)
  {
    var decodes := Decodes(h.states[k], tag);
    var found: bool :| Acted(ln, h, w, i, k, Handling(tag, c, decodes, found))
                       && verdict == VerdictOn(tag, c, decodes, found);
    ActedLater(ln, h, h', w, i, k, Handling(tag, c, decodes, found));
    HandledSo(ln, h', w, c, tag, i, k, decodes, found);
  }

  lemma AccountedLater(
    ln: real -> real, h: History, h': History, w: WorkerId, wakeup: Wakeup, passed: set<Tag>, verdict: Verdict,
    from: nat, to: nat)
    requires Accounted(ln, h, w, wakeup, passed, verdict, from, to) && Longer(h, h') && Spans(h', from, to)
    ensures Accounted(ln, h', w, wakeup, passed, verdict, from, to)
  {
    if verdict.Quiet? {
      ActedLater(ln, h, h', w, from, to, []);
    } else {
      HandledLater(ln, h, h', w, wakeup.conditions, verdict.tag, verdict, from, to);
    }
  }

  /** One turn of the worker's loop. */
  method Turn(cluster: Cluster, w: WorkerId, ln: real -> real, wakeup: Wakeup, passed: set<Tag>)
    returns (verdict: Verdict)
    requires cluster.Valid() && w in cluster.live && Idle(cluster.View(), w) && IsLn(ln)
    modifies cluster, cluster.db
    ensures cluster.Valid() && cluster.Extends() && w in cluster.live
    ensures !verdict.Unsettled? ==> Idle(cluster.View(), w)
    ensures Accounted(ln, cluster.Log(), w, wakeup, passed, verdict, |old(cluster.acts)|, |cluster.acts|)
  {
    ghost var n := |cluster.acts|;
    cluster.Interleave(w);
    ghost var h := cluster.Log();
    ForeignRunKeepsWorker(h.states, h.acts, w, n, |h.acts|);
    LnTwoIsPositive(ln);
    ActedNothing(ln, h, w, n, |h.acts|);
    if !wakeup.Next? {
      return Quiet;
    }
    verdict := TakeNext(cluster, w, ln, wakeup.conditions, passed);
    if !verdict.Quiet? {
      HandledAfterPause(ln, h, cluster.Log(), w, wakeup.conditions, verdict.tag, verdict, n, |h.acts|, |cluster.acts|);
    }
  }

  lemma HandledAfterPause(
    ln: real -> real, h: History, h': History, w: WorkerId, c: Conditions, tag: Tag, verdict: Verdict,
    n: nat, i: nat, k: nat)
    requires Acted(ln, h, w, n, i, []) && Longer(h, h') && Handled(ln, h', w, c, tag, verdict, i, k)
    ensures Handled(ln, h', w, c, tag, verdict, n, k)
  {
    var decodes := Decodes(h'.states[k], tag);
    var found: bool :| Acted(ln, h', w, i, k, Handling(tag, c, decodes, found))
                       && verdict == VerdictOn(tag, c, decodes, found);
    var own := Handling(tag, c, decodes, found);
    ActedThen(ln, h, h', w, n, i, k, [], own);
    assert [] + own == own;
    HandledSo(ln, h', w, c, tag, n, k, decodes, found);
  }

  /** Handles a message that waits for the worker, if there is one. */
  method TakeNext(cluster: Cluster, w: WorkerId, ln: real -> real, c: Conditions, passed: set<Tag>)
    returns (verdict: Verdict)
    requires cluster.Valid() && w in cluster.live && Idle(cluster.View(), w) && IsLn(ln)
    modifies cluster, cluster.db
    ensures cluster.Valid() && cluster.Extends() && w in cluster.live
    ensures !verdict.Unsettled? ==> Idle(cluster.View(), w)
    ensures if verdict.Quiet? then cluster.Log() == old(cluster.Log()) && NothingBuffered(cluster.View(), w, passed)
            else
              && verdict.tag !in passed
              && Handled(ln, cluster.Log(), w, c, verdict.tag, verdict, |old(cluster.acts)|, |cluster.acts|)
    ensures verdict.Lingering? ==>
      verdict.tag in cluster.inflight && cluster.inflight[verdict.tag] == Delivery(w, Buffered)
  {
    verdict := Quiet;
    if tag :| tag in cluster.inflight && cluster.inflight[tag] == Delivery(w, Buffered) && tag !in passed {
      verdict := HandleDelivery(cluster, w, ln, tag, c);
    }
  }

  /** Every verdict so far accounts for its wakeup; `marks` says where in the history each turn began and ended. */
  ghost predicate AllAccounted(
    ln: real -> real, h: History, w: WorkerId, wakeups: seq<Wakeup>, verdicts: seq<Verdict>, marks: seq<nat>)
  {
    && |verdicts| <= |wakeups| && |marks| == |verdicts| + 1
    && forall i :: 0 <= i < |verdicts| ==>
         Accounted(ln, h, w, wakeups[i], PassedBy(verdicts[..i]), verdicts[i], marks[i], marks[i + 1])
  }

  lemma AllAccountedNext(
    ln: real -> real, h: History, h': History, w: WorkerId,
    wakeups: seq<Wakeup>, verdicts: seq<Verdict>, marks: seq<nat>, verdict: Verdict)
    requires AllAccounted(ln, h, w, wakeups, verdicts, marks) && |verdicts| < |wakeups|
    requires Longer(h, h') && |h'.acts| < |h'.states|
    requires Accounted(ln, h', w, wakeups[|verdicts|], PassedBy(verdicts), verdict, marks[|verdicts|], |h'.acts|)
    ensures AllAccounted(ln, h', w, wakeups, verdicts + [verdict], marks + [|h'.acts|])
  {
    var verdicts', marks' := verdicts + [verdict], marks + [|h'.acts|];
    AllAccountedLater(ln, h, h', w, wakeups, verdicts, marks);
    forall i | 0 <= i < |verdicts'|
      ensures Accounted(ln, h', w, wakeups[i], PassedBy(verdicts'[..i]), verdicts'[i], marks'[i], marks'[i + 1])
    {
      assert verdicts'[..i] == verdicts[..i];
      if i == |verdicts| {
        assert verdicts[..i] == verdicts;
      }
    }
  }

  lemma AllAccountedLater(
    ln: real -> real, h: History, h': History, w: WorkerId,
    wakeups: seq<Wakeup>, verdicts: seq<Verdict>, marks: seq<nat>)
    requires AllAccounted(ln, h, w, wakeups, verdicts, marks) && Longer(h, h') && |h'.acts| < |h'.states|
    ensures AllAccounted(ln, h', w, wakeups, verdicts, marks)
  {
    forall i | 0 <= i < |verdicts|
      ensures Accounted(ln, h', w, wakeups[i], PassedBy(verdicts[..i]), verdicts[i], marks[i], marks[i + 1])
    {
      AccountedLater(ln, h, h', w, wakeups[i], PassedBy(verdicts[..i]), verdicts[i], marks[i], marks[i + 1]);
    }
  }

  /** The next turn, and the account of all turns with it. */
  method NextTurn(
    cluster: Cluster, w: WorkerId, ln: real -> real, wakeups: seq<Wakeup>, verdicts: seq<Verdict>,
    ghost marks: seq<nat>)
    returns (verdict: Verdict)
    requires cluster.Valid() && w in cluster.live && Idle(cluster.View(), w) && IsLn(ln)
    requires |verdicts| < |wakeups| && AllAccounted(ln, cluster.Log(), w, wakeups, verdicts, marks)
    requires marks[|verdicts|] == |cluster.acts|
    modifies cluster, cluster.db
    ensures cluster.Valid() && cluster.Extends() && w in cluster.live
    ensures !verdict.Unsettled? ==> Idle(cluster.View(), w)
    ensures AllAccounted(ln, cluster.Log(), w, wakeups, verdicts + [verdict], marks + [|cluster.acts|])
  {
    ghost var h := cluster.Log();
    verdict := Turn(cluster, w, ln, wakeups[|verdicts|], PassedBy(verdicts));
    AllAccountedNext(ln, h, cluster.Log(), w, wakeups, verdicts, marks, verdict);
  }

  /** The wakeup ends the loop: no more messages, or the flag to shut down is up. */
  predicate EndsLoop(wakeup: Wakeup) {
    wakeup.StreamEnded? || wakeup == Shutdown(true)
  }

  /** The loop ended where it had to: at the first wakeup that ends it, or that leaves a delivery unsettled. */
  predicate EndedInTime(wakeups: seq<Wakeup>, verdicts: seq<Verdict>, exit: Exit) {
    && |verdicts| <= |wakeups|
    && (forall i :: 0 <= i < |verdicts| - 1 ==>
          !wakeups[i].StreamEnded? && wakeups[i] != Shutdown(true) && !verdicts[i].Unsettled?)
    && (|verdicts| < |wakeups| ==>
          verdicts != [] && (EndsLoop(wakeups[|verdicts| - 1]) || verdicts[|verdicts| - 1].Unsettled?))
    && (exit.GaveUp? <==> verdicts != [] && verdicts[|verdicts| - 1].Unsettled?)
  }

  /**
   The consumer loop. All the worker does is what its turns account for; it turns to no message after the
   stream has ended, the flag has gone up or an ack or nack has failed, and stops for nothing else.
   */
  method RunWorker(cluster: Cluster, w: WorkerId, ln: real -> real, wakeups: seq<Wakeup>)
    returns (exit: Exit, verdicts: seq<Verdict>, ghost marks: seq<nat>)
    requires cluster.Valid() && w in cluster.live && Idle(cluster.View(), w) && IsLn(ln)
    modifies cluster, cluster.db
    ensures cluster.Valid() && cluster.Extends() && w in cluster.live
    ensures exit.Stopped? ==> Idle(cluster.View(), w)
    ensures AllAccounted(ln, cluster.Log(), w, wakeups, verdicts, marks)
    ensures marks[0] == |old(cluster.acts)| && marks[|verdicts|] == |cluster.acts|
    ensures EndedInTime(wakeups, verdicts, exit)
  {
    verdicts, marks := [], [|cluster.acts|];
    exit := Stopped;
    while |verdicts| < |wakeups|
      invariant cluster.Valid() && cluster.Extends() && w in cluster.live && Idle(cluster.View(), w)
      invariant AllAccounted(ln, cluster.Log(), w, wakeups, verdicts, marks)
      invariant marks[0] == |old(cluster.acts)| && marks[|verdicts|] == |cluster.acts|
      invariant forall i :: 0 <= i < |verdicts| ==> !EndsLoop(wakeups[i]) && !verdicts[i].Unsettled?
      decreases |wakeups| - |verdicts|
    {
      var wakeup := wakeups[|verdicts|];
      var verdict := NextTurn(cluster, w, ln, wakeups, verdicts, marks);
      verdicts, marks := verdicts + [verdict], marks + [|cluster.acts|];
      if verdict.Unsettled? {
        return GaveUp, verdicts, marks;
      }
      if EndsLoop(wakeup) {
        return Stopped, verdicts, marks;
      }
    }
  }

  /**
   The whole life of a worker process: whatever happens to it, it leaves nothing in its hands. A shutdown
   that runs into its time limit cuts the last delivery short: its remaining calls are lost.
   */
  method RunProcess(cluster: Cluster, w: WorkerId, ln: real -> real, wakeups: seq<Wakeup>)
    returns (exit: Exit, verdicts: seq<Verdict>, ghost marks: seq<nat>)
    requires cluster.Valid() && w !in cluster.live && IsLn(ln)
    modifies cluster, cluster.db
    ensures cluster.Valid() && cluster.Extends()
    ensures w !in cluster.live && HeldBy(cluster.View(), w) == {}
    ensures AllAccounted(ln, cluster.Log(), w, wakeups, verdicts, marks)
    ensures old(cluster.acts) + [Join(w)] <= cluster.acts && Last(cluster.acts) == Crash(w)
    ensures marks[0] == |old(cluster.acts)| + 1 && marks[|verdicts|] == |cluster.acts| - 1
    ensures EndedInTime(wakeups, verdicts, exit)
  {
    cluster.Connect(w);
    exit, verdicts, marks := RunWorker(cluster, w, ln, wakeups);
    ghost var h := cluster.Log();
    cluster.Disconnect(w);
    AllAccountedLater(ln, h, cluster.Log(), w, wakeups, verdicts, marks);
  }
}
