/** The table as a shared object, and the gRPC service through which workers write to it. */
module Grpc {
  import opened Wrappers
  import opened Backups

  class Database {
    var rows: Table

    constructor ()
      ensures rows == map[]
    {
      rows := map[];
    }
  }

  datatype RpcStatus = InvalidArgument | RpcNotFound | Internal

  /** What a worker reports about a finished job. */
  datatype ProcessingResult = ProcessingResult(
    backupId: Option<Uuid>,
    status: string,
    sizeBytes: int,
    entropy: real,
    suspicious: bool)

  /** Text the worker sends for the two outcomes it knows. */
  const RUNNING_TEXT := "running"
  const COMPLETED_TEXT := "completed"

  class BackupProcessorService {
    const db: Database

    constructor (db: Database)
      ensures this.db == db
    {
      this.db := db;
    }

    /**
     Sets the status of a row. `backupId` is the id the request's text parses to. A status outside the
     CHECK constraint makes the statement fail, but only if there is a row to check.
     */
    method UpdateStatus(backupId: Option<Uuid>, status: string, now: Time) returns (r: Result<(), RpcStatus>)
      modifies db
      ensures r == (
        if backupId.None? then Err(InvalidArgument)
        else if backupId.value !in old(db.rows) then Err(RpcNotFound)
        else if ParseStatus(status).None? then Err(Internal)
        else Ok(()))
      ensures db.rows ==
        if r.Err? then old(db.rows)
        else
          var id := backupId.value;
          old(db.rows)[id := old(db.rows)[id].(status := ParseStatus(status).value, updatedAt := now)]
    {
      if backupId.None? {
        return Err(InvalidArgument);
      }
      var id := backupId.value;
      var rowsAffected := if id in db.rows then 1 else 0;
      if rowsAffected == 1 {
        var parsed := ParseStatus(status);
        if parsed.None? {
          return Err(Internal);
        }
        db.rows := db.rows[id := db.rows[id].(status := parsed.value, updatedAt := now)];
      }
      if rowsAffected == 0 {
        return Err(RpcNotFound);
      }
      return Ok(());
    }

    /**
     Records the outcome of a job, and warns of possible ransomware if it is flagged. Unlike a status
     update it succeeds even if the row is gone.
     */
    method ReportResult(result: ProcessingResult, now: Time) returns (r: Result<(), RpcStatus>, warned: bool)
      modifies db
      ensures r == if result.backupId.None? then Err(InvalidArgument) else Ok(())
      ensures db.rows ==
        if r.Err? || result.backupId.value !in old(db.rows) then old(db.rows)
        else
          var row := old(db.rows)[result.backupId.value];
          old(db.rows)[row.id :=
            if result.status == "completed"
            then row.(status := Completed, sizeBytes := result.sizeBytes, updatedAt := now)
            else row.(status := Failed, updatedAt := now)]
      ensures warned <==> r.Ok? && result.status == "completed" && result.suspicious
    {
      warned := false;
      if result.backupId.None? {
        return Err(InvalidArgument), warned;
      }
      var id := result.backupId.value;
      if result.status == COMPLETED_TEXT {
        if id in db.rows {
          db.rows := db.rows[id := db.rows[id].(status := Completed, sizeBytes := result.sizeBytes, updatedAt := now)];
        }
        if result.suspicious {
          warned := true;
        }
      } else {
        if id in db.rows {
          db.rows := db.rows[id := db.rows[id].(status := Failed, updatedAt := now)];
        }
      }
      return Ok(()), warned;
    }
  }
}
