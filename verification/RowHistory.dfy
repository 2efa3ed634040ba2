/**
 The table after any run of requests and gRPC writes, told from the run alone: every field of a row is
 what the last event to write it wrote, and a row is there if the last event to decide so put it there.
 The events' effects are spelt out here, apart from the statements that the service executes.
 */
module RowHistory {
  import opened Wrappers
  import opened Backups
  import opened SourcePaths
  import opened Cache
  import opened Handlers
  import opened Transparency
  import opened Answers
  import P = JobProtocol

  // ----- what an event writes

  /** The id of the row that a request creates, if it creates one. */
  ghost predicate Creates(rows: Table, e: Event, id: Uuid) {
    && e.Http? && e.call.request.Create? && e.call.env.freshId == id && id !in rows
    && GoodPath(e.call.request.sourcePath)
  }

  ghost predicate Deletes(rows: Table, e: Event, id: Uuid) {
    && e.Http? && e.call.request.Remove? && e.call.request.id == id
    && id in rows && rows[id].tenant == e.call.tenant
  }

  ghost predicate Patches(rows: Table, e: Event, id: Uuid) {
    && e.Http? && e.call.request.Update? && e.call.request.id == id
    && id in rows && rows[id].tenant == e.call.tenant
  }

  ghost predicate Reports(rows: Table, e: Event, id: Uuid) {
    !e.Http? && e.id == id && id in rows
  }

  ghost function PresenceWritten(rows: Table, e: Event, id: Uuid): Option<bool> {
    if Creates(rows, e, id) then Some(true)
    else if Deletes(rows, e, id) then Some(false)
    else None
  }

  ghost function StatusWritten(rows: Table, e: Event, id: Uuid): Option<Status> {
    if Creates(rows, e, id) then Some(Pending)
    else if Patches(rows, e, id) then e.call.request.newStatus
    else if Reports(rows, e, id) then if e.RpcStatus? then Some(e.status) else Some(Completed)
    else None
  }

  ghost function SizeWritten(rows: Table, e: Event, id: Uuid): Option<int> {
    if Creates(rows, e, id) then Some(0)
    else if Patches(rows, e, id) then e.call.request.size
    else if Reports(rows, e, id) && e.RpcResult? then Some(e.size)
    else None
  }

  ghost function UpdateTimeWritten(rows: Table, e: Event, id: Uuid): Option<Time> {
    if Creates(rows, e, id) || Patches(rows, e, id) then Some(e.call.env.now)
    else if Reports(rows, e, id) then Some(e.now)
    else None
  }

  /** The fields that are fixed when a row is created. */
  datatype Identity = Identity(tenant: Uuid, sourcePath: seq<byte>, encrypted: bool, createdAt: Time)

  function IdentityOf(row: Row): Identity {
    Identity(row.tenant, row.sourcePath, row.encrypted, row.createdAt)
  }

  ghost function IdentityWritten(rows: Table, e: Event, id: Uuid): Option<Identity> {
    if Creates(rows, e, id) then
      Some(Identity(e.call.tenant, e.call.request.sourcePath, e.call.request.encrypted, e.call.env.now))
    else None
  }

  // ----- runs

  function TableAfterAll(rows: Table, events: seq<Event>): Table {
    if events == [] then rows
    else TableAfter(TableAfterAll(rows, events[..|events| - 1]), events[|events| - 1])
  }

  /** The service with its cache goes through the same tables. */
  lemma {:induction false} CacheLeavesTable(s: ServiceState, e: Event)
    ensures StateAfter(s, e).rows == TableAfter(s.rows, e)
  {
    if e.Http? {
      ServeKeepsSettings(s, e.call);
    }
  }

  /** What the last event to write it wrote. */
  ghost function Latest<T>(
    rows: Table, events: seq<Event>, id: Uuid, written: (Table, Event, Uuid) -> Option<T>): Option<T>
  {
    if events == [] then None
    else
      var n := |events| - 1;
      var w := written(TableAfterAll(rows, events[..n]), events[n], id);
      if w.Some? then w else Latest(rows, events[..n], id, written)
  }

  /** What was last written, or else what was there to begin with. */
  ghost predicate IsLatest<T>(value: T, latest: Option<T>, start: Option<T>) {
    Some(value) == if latest.Some? then latest else start
  }

  /** One event: presence and each field are as written, or else as before. */
  lemma EventWrites(rows: Table, e: Event, id: Uuid)
    ensures var rows' := TableAfter(rows, e);
      && (id in rows' <==>
            match PresenceWritten(rows, e, id) { case Some(there) => there case None => id in rows })
      && (id in rows' && id !in rows ==> Creates(rows, e, id))
      && (id in rows' ==>
            var start := if id in rows then Some(rows[id]) else None;
            && IsLatest(rows'[id].status, StatusWritten(rows, e, id), Field(start, (r: Row) => r.status))
            && IsLatest(rows'[id].sizeBytes, SizeWritten(rows, e, id), Field(start, (r: Row) => r.sizeBytes))
            && IsLatest(rows'[id].updatedAt, UpdateTimeWritten(rows, e, id), Field(start, (r: Row) => r.updatedAt))
            && IsLatest(IdentityOf(rows'[id]), IdentityWritten(rows, e, id), Field(start, (r: Row) => IdentityOf(r))))
  {
    if e.Http? && e.call.request.Create? {
      CreateAnswer(ServiceState(rows, Contents(false, map[], map[]), 0, 0, 0), e.call);
    }
  }

  function Field<T>(row: Option<Row>, field: Row -> T): Option<T> {
    if row.Some? then Some(field(row.value)) else None
  }

  /**
   Main result. After any run from any table, a row is there exactly if the last event that created or
   deleted it created it, or it was there and none did; and each of its fields is what was last written.
   */
  lemma {:induction false} LastWriterWins(rows: Table, events: seq<Event>, id: Uuid)
    ensures var rows' := TableAfterAll(rows, events);
      && (id in rows' <==>
            match Latest(rows, events, id, PresenceWritten) { case Some(there) => there case None => id in rows })
      && (id in rows' ==>
            var start := if id in rows then Some(rows[id]) else None;
            && IsLatest(rows'[id].status, Latest(rows, events, id, StatusWritten), Field(start, (r: Row) => r.status))
            && IsLatest(rows'[id].sizeBytes, Latest(rows, events, id, SizeWritten),
                        Field(start, (r: Row) => r.sizeBytes))
            && IsLatest(rows'[id].updatedAt, Latest(rows, events, id, UpdateTimeWritten),
                        Field(start, (r: Row) => r.updatedAt))
            && IsLatest(IdentityOf(rows'[id]), Latest(rows, events, id, IdentityWritten),
                        Field(start, (r: Row) => IdentityOf(r))))
    decreases |events|
  {
    if events != [] {
      var n := |events| - 1;
      LastWriterWins(rows, events[..n], id);
      EventWrites(TableAfterAll(rows, events[..n]), events[n], id);
    }
  }

  ghost predicate GoodPaths(rows: Table) {
    forall id :: id in rows ==> GoodPath(rows[id].sourcePath)
  }

  /** No run ever holds a row whose path is empty, relative or has `..` in it. */
  lemma {:induction false} PathsStayGood(rows: Table, events: seq<Event>)
    requires GoodPaths(rows)
    ensures GoodPaths(TableAfterAll(rows, events))
    decreases |events|
  {
    if events != [] {
      var n := |events| - 1;
      PathsStayGood(rows, events[..n]);
      var before := TableAfterAll(rows, events[..n]);
      forall id | id in TableAfter(before, events[n])
        ensures GoodPath(TableAfter(before, events[n])[id].sourcePath)
      {
        EventWrites(before, events[n], id);
      }
    }
  }

  // ----- the job protocol writes to the same table

  /** What a step of the job protocol is to the table. */
  ghost function EventOf(s: P.State, a: P.Action): Option<Event>
    requires P.Enabled(s, a)
  {
    match a
    case Create(id, tenant, path, encrypted, now) =>
      Some(Http(Call(tenant, Create(path, encrypted), Env(now, id, true, true, true, true))))
    case Patch(id, tenant, status, size, now) =>
      Some(Http(Call(tenant, Update(id, status, size), Env(now, 0, true, true, true, true))))
    case Remove(id, tenant) => Some(Http(Call(tenant, Remove(id), Env(0, 0, true, true, true, true))))
    case MarkRunning(tag, now) => Some(RpcStatus(P.JobOf(s, tag).backupId, Running, now))
    case MarkFailed(tag, landed, now) =>
      if landed then Some(RpcStatus(P.JobOf(s, tag).backupId, Running, now)) else None
    case Report(tag, now) => Some(ResultOf(P.JobOf(s, tag), now))
    case ReportFailed(tag, landed, now) => if landed then Some(ResultOf(P.JobOf(s, tag), now)) else None
    case _ => None
  }

  ghost function ResultOf(job: P.Job, now: Time): Event {
    RpcResult(job.backupId, if job.sourcePath == [] then 0 else 8192 * 128, now)
  }

  /** The protocol's steps change the rows just as those requests and gRPC calls do. */
  lemma ProtocolWritesAlike(s: P.State, a: P.Action)
    requires P.Enabled(s, a)
    ensures P.RowsNext(s, a) == if EventOf(s, a).Some? then TableAfter(s.rows, EventOf(s, a).value) else s.rows
  {
  }

  /** A step of the protocol for each request that is answered with success, and for no other. */
  function StepOf(call: Call): P.Action
    requires call.request.Create? || call.request.Update? || call.request.Remove?
  {
    match call.request
    case Create(path, encrypted) => P.Create(call.env.freshId, call.tenant, path, encrypted, call.env.now)
    case Update(id, status, size) => P.Patch(id, call.tenant, status, size, call.env.now)
    case Remove(id) => P.Remove(id, call.tenant)
  }

  lemma RequestsAreSteps(s: P.State, call: Call)
    requires call.request.Create? || call.request.Update? || call.request.Remove?
    requires s.rows.Keys <= s.issued
    requires call.request.Create? && call.env.freshId in s.issued ==> call.env.freshId in s.rows
    ensures var (rows', r) := Direct(s.rows, call);
      && (P.Enabled(s, StepOf(call)) <==> r.Created? || r.Updated? || r.NoContent?)
      && rows' == if P.Enabled(s, StepOf(call)) then P.RowsNext(s, StepOf(call)) else s.rows
  {
  }
}
