/**
 The `backups` table and the SQL statements the service runs against it.

 A table maps each primary key to its row. The list order is `created_at` descending; rows created
 at the same instant are kept in one fixed order, by id, so that the order is total.
 */
module Backups {
  import opened Wrappers

  type Uuid = nat

  /** Ticks of the database clock; one second is `TICKS_PER_SEC` of them. */
  type Time = int

  const TICKS_PER_SEC := 1_000_000

  type byte = b: int | 0 <= b < 256

  datatype Status = Pending | Running | Completed | Failed {
    function Text(): string {
      match this
      case Pending => "pending"
      case Running => "running"
      case Completed => "completed"
      case Failed => "failed"
    }
  }

  /** The status a text stands for; texts outside the CHECK constraint of the table have none. */
  function ParseStatus(text: string): (status: Option<Status>)
    ensures status.Some? ==> status.value.Text() == text
    ensures status.None? ==> forall s: Status :: s.Text() != text
    ensures status == Some(Pending) <==> text == "pending"
    ensures status == Some(Running) <==> text == "running"
    ensures status == Some(Completed) <==> text == "completed"
    ensures status == Some(Failed) <==> text == "failed"
  {
    if text == "pending" then Some(Pending)
    else if text == "running" then Some(Running)
    else if text == "completed" then Some(Completed)
    else if text == "failed" then Some(Failed)
    else None
  }

  datatype Row = Row(
    id: Uuid,
    tenant: Uuid,
    sourcePath: seq<byte>,
    sizeBytes: int,
    status: Status,
    encrypted: bool,
    createdAt: Time,
    updatedAt: Time)

  type Table = m: map<Uuid, Row> | forall id :: id in m ==> m[id].id == id

  // ----- single-row statements

  /** A new row as the column defaults make it. */
  function NewRow(id: Uuid, tenant: Uuid, sourcePath: seq<byte>, encrypted: bool, now: Time): Row {
    Row(id, tenant, sourcePath, 0, Pending, encrypted, now, now)
  }

  /** SELECT ... WHERE id = $1 AND tenant_id = $2 */
  function Fetch(rows: Table, id: Uuid, tenant: Uuid): Option<Row> {
    if id in rows && rows[id].tenant == tenant then Some(rows[id]) else None
  }

  /** The row a PATCH leaves behind: absent fields keep their value. */
  function Patched(row: Row, status: Option<Status>, size: Option<int>, now: Time): Row {
    row.(status := if status.Some? then status.value else row.status,
         sizeBytes := if size.Some? then size.value else row.sizeBytes,
         updatedAt := now)
  }

  /** UPDATE ... SET status = $2 WHERE id = $1: no row, no effect. */
  function WithStatus(rows: Table, id: Uuid, status: Status, now: Time): Table {
    if id in rows then rows[id := rows[id].(status := status, updatedAt := now)] else rows
  }

  /** UPDATE ... SET status = 'completed', size_bytes = $2 WHERE id = $1: no row, no effect. */
  function WithResult(rows: Table, id: Uuid, size: int, now: Time): Table {
    if id in rows
    then rows[id := rows[id].(status := Completed, sizeBytes := size, updatedAt := now)]
    else rows
  }
}
