/** The handler that turns a row into a queued job. */
module Enqueue {
  import opened Wrappers
  import opened Backups
  import opened SourcePaths
  import opened JobProtocol
  import opened JobSafety
  import opened Worker

  datatype EnqueueError = RowNotFound | QueueNotConfigured | PublishFailed

  function JobFor(row: Row): Job {
    BackupJob(row.id, row.tenant, row.sourcePath, row.encrypted)
  }

  /**
   Reads the row, then publishes a job made from it. `configured` says whether there is a channel to
   RabbitMQ, `outcome` how the publication ends: it may come back as an error and yet have landed.
   */
  method EnqueueBackup(cluster: Cluster, tenant: Uuid, id: Uuid, configured: bool, outcome: Outcome)
    returns (r: Result<Job, EnqueueError>)
    requires cluster.Valid()
    modifies cluster, cluster.db
    ensures cluster.Valid() && cluster.Extends()
    ensures match Fetch(old(cluster.db.rows), id, tenant)
            case None => r == Err(RowNotFound) && unchanged(cluster)
            case Some(row) =>
              && r == (if !configured then Err(QueueNotConfigured)
                       else if outcome.Answered? then Ok(JobFor(row))
                       else Err(PublishFailed))
              && cluster.own == old(cluster.own)
                 + [ReadForEnqueue(id, tenant),
                    if configured && outcome != Lost(false) then Publish(JobFor(row)) else AbandonPublish(JobFor(row))]
              && Last(cluster.acts) == Last(cluster.own)
              && ValidateSourcePath(JobFor(row).sourcePath).Ok?
  {
    var selected := cluster.SelectForEnqueue(id, tenant);
    if selected.None? {
      return Err(RowNotFound);
    }
    var job := selected.value;
    r := EnqueueJob(cluster, job, configured, outcome);
  }

  /** The rest of the request, while others go on. */
  method EnqueueJob(cluster: Cluster, job: Job, configured: bool, outcome: Outcome)
    returns (r: Result<Job, EnqueueError>)
    requires cluster.Valid() && job in cluster.outbox
    modifies cluster, cluster.db
    ensures cluster.Valid() && cluster.Extends() && |cluster.acts| > |old(cluster.acts)|
    ensures Last(cluster.acts)
         == if configured && outcome != Lost(false) then Publish(job) else AbandonPublish(job)
    ensures cluster.own == old(cluster.own) + [Last(cluster.acts)]
    ensures r == (if !configured then Err(QueueNotConfigured)
                  else if outcome.Answered? then Ok(job)
                  else Err(PublishFailed))
    ensures ValidateSourcePath(job.sourcePath).Ok?
  {
    cluster.InterleaveHolding(job);
    r := PublishHeld(cluster, job, configured, outcome);
  }

  /** Publishes the job that the handler holds, or gives it up. */
  method PublishHeld(cluster: Cluster, job: Job, configured: bool, outcome: Outcome)
    returns (r: Result<Job, EnqueueError>)
    requires cluster.Valid() && job in cluster.outbox
    modifies cluster
    ensures cluster.Valid() && cluster.Extends()
    ensures r == (if !configured then Err(QueueNotConfigured)
                  else if outcome.Answered? then Ok(job)
                  else Err(PublishFailed))
    ensures cluster.acts == old(cluster.acts)
            + [if configured && outcome != Lost(false) then Publish(job) else AbandonPublish(job)]
    ensures cluster.own == old(cluster.own) + [Last(cluster.acts)]
    ensures ValidateSourcePath(job.sourcePath).Ok?
  {
    cluster.KeepsInvariant();
    assert Faithful(cluster.View(), job);
    if !configured {
      cluster.DropJob(job);
      return Err(QueueNotConfigured);
    }
    if outcome == Lost(false) {
      cluster.DropJob(job);
    } else {
      cluster.PublishJob(job);
    }
    return if outcome.Answered? then Ok(job) else Err(PublishFailed);
  }
}
