/**
 The cache under handlers that interleave step by step: how old can a cached answer be?

 A read that misses runs SELECT, then SETEX; a list read runs two SELECTs, then SETEX. Between these
 steps the table may be written in any way, entries deleted, the lifetime reconfigured, and other
 handlers may do the same. Handlers may also stop half way, and invalidations may be missing.
 */
module Staleness {
  import opened Wrappers
  import opened Backups
  import opened Listing
  import opened Cache

  type HandlerId = nat

  /** What a handler has read from the table and not yet stored. */
  datatype Reading =
    | RowRead(row: Row, at: Time)
    | ItemsRead(tenant: Uuid, limit: nat, offset: nat, items: seq<Row>, at: Time)
    | ListRead(tenant: Uuid, limit: nat, offset: nat, items: seq<Row>, total: nat, at: Time)

  datatype State = State(
    now: Time,
    rows: Table,
    ttl: nat,
    backups: map<Uuid, Entry<Row>>,
    lists: map<Uuid, Entry<CachedList>>,
    reading: map<HandlerId, Reading>)

  datatype Action =
    | Tick(elapsed: nat)
    | Write(rows: Table)                 // any statement of any handler or RPC
    | SetTtl(ttl: nat)
    | SelectRow(h: HandlerId, id: Uuid, tenant: Uuid)
    | SelectItems(h: HandlerId, tenant: Uuid, limit: nat, offset: nat)
    | SelectTotal(h: HandlerId)
    | Fill(h: HandlerId, works: bool)    // SETEX, and the handler answers with what it read
    | Abort(h: HandlerId)
    | DropBackup(id: Uuid)
    | DropList(tenant: Uuid)
    | HitBackup(id: Uuid, tenant: Uuid)  // answered from the cache
    | HitList(tenant: Uuid)

  predicate Enabled(s: State, a: Action) {
    match a
    case SelectRow(h, id, tenant) => h !in s.reading && Fetch(s.rows, id, tenant).Some?
    case SelectItems(h, _, _, _) => h !in s.reading
    case SelectTotal(h) => h in s.reading && s.reading[h].ItemsRead?
    case Fill(h, _) => h in s.reading && !s.reading[h].ItemsRead?
    case Abort(h) => h in s.reading
    case HitBackup(id, tenant) => Lookup(s.backups, id, s.now, true).Some? && s.backups[id].value.tenant == tenant
    case HitList(tenant) => Lookup(s.lists, tenant, s.now, true).Some?
    case _ => true
  }

  function Apply(s: State, a: Action): State
    requires Enabled(s, a)
  {
    match a
    case Tick(elapsed) => s.(now := s.now + elapsed)
    case Write(rows) => s.(rows := rows)
    case SetTtl(ttl) => s.(ttl := ttl)
    case SelectRow(h, id, _) => s.(reading := s.reading[h := RowRead(s.rows[id], s.now)])
    case SelectItems(h, tenant, limit, offset) =>
      s.(reading := s.reading[h :=
        ItemsRead(tenant, limit, offset, SelectPage(s.rows, tenant, None, limit, offset), s.now)])
    case SelectTotal(h) =>
      var r := s.reading[h];
      s.(reading := s.reading[h :=
        ListRead(r.tenant, r.limit, r.offset, r.items, Total(s.rows, r.tenant, None), r.at)])
    case Fill(h, works) =>
      var rest := s.(reading := s.reading - {h});
      (match s.reading[h]
       case RowRead(row, _) => rest.(backups := Store(s.backups, row.id, row, s.ttl, s.now, works))
       case ListRead(tenant, _, _, items, total, _) =>
         rest.(lists := Store(s.lists, tenant, CachedList(items, total), s.ttl, s.now, works)))
    case Abort(h) => s.(reading := s.reading - {h})
    case DropBackup(id) => s.(backups := s.backups - {id})
    case DropList(tenant) => s.(lists := s.lists - {tenant})
    case HitBackup(_, _) => s
    case HitList(_) => s
  }

  ghost predicate Step(s: State, a: Action, s': State) {
    Enabled(s, a) && s' == Apply(s, a)
  }

  ghost predicate IsRun(states: seq<State>, acts: seq<Action>) {
    && |states| == |acts| + 1
    && forall i :: 0 <= i < |acts| ==> Step(states[i], acts[i], states[i + 1])
  }

  /** Nothing is cached and nobody is reading. */
  predicate Cold(s: State) {
    s.backups == map[] && s.lists == map[] && s.reading == map[]
  }

  /** No handler took longer than `delay` from its first SELECT to its SETEX, and none used a longer ttl. */
  ghost predicate Bounded(states: seq<State>, acts: seq<Action>, ttl: nat, delay: nat) {
    |acts| <= |states| && forall i :: 0 <= i < |acts| ==> FillWithin(states[i], acts[i], ttl, delay)
  }

  predicate FillWithin(s: State, a: Action, ttl: nat, delay: nat) {
    a.Fill? && a.h in s.reading ==> s.ttl <= ttl && s.now - s.reading[a.h].at <= delay
  }

  // ----- where things were read

  /** The row was in the table at point `i` of the run. */
  predicate RowAt(states: seq<State>, i: nat, row: Row) {
    i < |states| && row.id in states[i].rows && states[i].rows[row.id] == row
  }

  predicate ItemsAt(states: seq<State>, i: nat, tenant: Uuid, limit: nat, offset: nat, items: seq<Row>) {
    i < |states| && items == SelectPage(states[i].rows, tenant, None, limit, offset)
  }

  predicate TotalAt(states: seq<State>, i: nat, tenant: Uuid, total: nat) {
    i < |states| && total == Total(states[i].rows, tenant, None)
  }

  /** Time does not run backwards. */
  lemma {:induction false} ClockAdvances(states: seq<State>, acts: seq<Action>, i: nat, k: nat)
    requires IsRun(states, acts) && i <= k <= |acts|
    ensures states[i].now <= states[k].now
  {
    if i < k {
      ClockAdvances(states, acts, i, k - 1);
      assert Step(states[k - 1], acts[k - 1], states[k]);
    }
  }

  /** What a handler holds came from its own select, or was there before. */
  lemma ReadingAfter(s: State, a: Action, s': State, h: HandlerId)
    requires Step(s, a, s') && h in s'.reading
    ensures
      || (h in s.reading && s'.reading[h] == s.reading[h])
      || (a.SelectRow? && a.h == h && a.id in s.rows && s'.reading[h] == RowRead(s.rows[a.id], s.now))
      || (a.SelectItems? && a.h == h && s'.reading[h] ==
            ItemsRead(a.tenant, a.limit, a.offset, SelectPage(s.rows, a.tenant, None, a.limit, a.offset), s.now))
      || (a.SelectTotal? && a.h == h && h in s.reading && s.reading[h].ItemsRead? && var r := s.reading[h];
            s'.reading[h] == ListRead(r.tenant, r.limit, r.offset, r.items, Total(s.rows, r.tenant, None), r.at))
  {
  }

  /** The points of the run at which a handler's reading was true: of the row or items, and of the total. */
  lemma {:induction false} ReadingOrigin(states: seq<State>, acts: seq<Action>, k: nat, h: HandlerId)
    returns (i: nat, j: nat)
    requires IsRun(states, acts) && Cold(states[0]) && k <= |acts| && h in states[k].reading
    ensures i <= j <= k && states[i].now == states[k].reading[h].at
    ensures match states[k].reading[h]
            case RowRead(row, _) => RowAt(states, i, row)
            case ItemsRead(tenant, limit, offset, items, _) => ItemsAt(states, i, tenant, limit, offset, items)
            case ListRead(tenant, limit, offset, items, total, _) =>
              ItemsAt(states, i, tenant, limit, offset, items) && TotalAt(states, j, tenant, total)
  {
    var s, a := states[k - 1], acts[k - 1];
    ReadingAfter(s, a, states[k], h);
    if h in s.reading && states[k].reading[h] == s.reading[h] {
      i, j := ReadingOrigin(states, acts, k - 1, h);
    } else if a.SelectTotal? {
      i, j := ReadingOrigin(states, acts, k - 1, h);
      j := k - 1;
    } else {
      i, j := k - 1, k - 1;
    }
  }

  /** A backup entry was filled by the last step, or was there before. */
  lemma BackupAfter(s: State, a: Action, s': State, id: Uuid)
    requires Step(s, a, s') && id in s'.backups
    ensures
      || (id in s.backups && s'.backups[id] == s.backups[id])
      || (a.Fill? && a.h in s.reading && s.reading[a.h].RowRead? && s.reading[a.h].row.id == id
          && s'.backups[id] == Entry(s.reading[a.h].row, s.now + s.ttl * TICKS_PER_SEC))
  {
  }

  lemma ListAfter(s: State, a: Action, s': State, tenant: Uuid)
    requires Step(s, a, s') && tenant in s'.lists
    ensures
      || (tenant in s.lists && s'.lists[tenant] == s.lists[tenant])
      || (a.Fill? && a.h in s.reading && s.reading[a.h].ListRead? && s.reading[a.h].tenant == tenant
          && s'.lists[tenant]
             == Entry(CachedList(s.reading[a.h].items, s.reading[a.h].total), s.now + s.ttl * TICKS_PER_SEC))
  {
  }

  lemma {:induction false} BackupOrigin(
    states: seq<State>, acts: seq<Action>, k: nat, id: Uuid, ttl: nat, delay: nat) returns (i: nat)
    requires IsRun(states, acts) && Cold(states[0]) && Bounded(states, acts, ttl, delay)
    requires k <= |acts| && id in states[k].backups
    ensures i <= k && RowAt(states, i, states[k].backups[id].value) && states[k].backups[id].value.id == id
    ensures states[k].backups[id].expires <= states[i].now + delay + ttl * TICKS_PER_SEC
  {
    var s, a := states[k - 1], acts[k - 1];
    BackupAfter(s, a, states[k], id);
    if id in s.backups && states[k].backups[id] == s.backups[id] {
      i := BackupOrigin(states, acts, k - 1, id, ttl, delay);
    } else {
      assert FillWithin(s, a, ttl, delay);
      var j: nat;
      i, j := ReadingOrigin(states, acts, k - 1, a.h);
    }
  }

  lemma {:induction false} ListOrigin(
    states: seq<State>, acts: seq<Action>, k: nat, tenant: Uuid, ttl: nat, delay: nat)
    returns (i: nat, j: nat, limit: nat, offset: nat)
    requires IsRun(states, acts) && Cold(states[0]) && Bounded(states, acts, ttl, delay)
    requires k <= |acts| && tenant in states[k].lists
    ensures i <= j <= k
    ensures ItemsAt(states, i, tenant, limit, offset, states[k].lists[tenant].value.items)
    ensures TotalAt(states, j, tenant, states[k].lists[tenant].value.total)
    ensures states[k].lists[tenant].expires <= states[i].now + delay + ttl * TICKS_PER_SEC
  {
    var s, a := states[k - 1], acts[k - 1];
    ListAfter(s, a, states[k], tenant);
    if tenant in s.lists && states[k].lists[tenant] == s.lists[tenant] {
      i, j, limit, offset := ListOrigin(states, acts, k - 1, tenant, ttl, delay);
    } else {
      assert FillWithin(s, a, ttl, delay);
      i, j := ReadingOrigin(states, acts, k - 1, a.h);
      limit, offset := s.reading[a.h].limit, s.reading[a.h].offset;
    }
  }

  // ----- the bounds

  /**
   Main result. A row answered from the cache was exactly the table's row at some point of the run less
   than the longest lifetime plus the longest fill delay ago.
   */
  lemma {:induction false} BackupStaleness(
    states: seq<State>, acts: seq<Action>, k: nat, ttl: nat, delay: nat) returns (i: nat)
    requires IsRun(states, acts) && Cold(states[0]) && Bounded(states, acts, ttl, delay)
    requires k < |acts| && acts[k].HitBackup?
    ensures acts[k].id in states[k].backups
    ensures var row := states[k].backups[acts[k].id].value;
      && i <= k && RowAt(states, i, row) && row.id == acts[k].id && row.tenant == acts[k].tenant
      && states[k].now - states[i].now < delay + ttl * TICKS_PER_SEC
  {
    assert Step(states[k], acts[k], states[k + 1]);
    i := BackupOrigin(states, acts, k, acts[k].id, ttl, delay);
  }

  /** The same for lists: the items were one page of the table, and the total its count, both that recently. */
  lemma {:induction false} ListStaleness(
    states: seq<State>, acts: seq<Action>, k: nat, ttl: nat, delay: nat)
    returns (i: nat, j: nat, limit: nat, offset: nat)
    requires IsRun(states, acts) && Cold(states[0]) && Bounded(states, acts, ttl, delay)
    requires k < |acts| && acts[k].HitList?
    ensures acts[k].tenant in states[k].lists
    ensures var list := states[k].lists[acts[k].tenant].value;
      && i <= j <= k
      && ItemsAt(states, i, acts[k].tenant, limit, offset, list.items)
      && TotalAt(states, j, acts[k].tenant, list.total)
      && states[k].now - states[i].now < delay + ttl * TICKS_PER_SEC
      && states[k].now - states[j].now < delay + ttl * TICKS_PER_SEC
  {
    assert Step(states[k], acts[k], states[k + 1]);
    i, j, limit, offset := ListOrigin(states, acts, k, acts[k].tenant, ttl, delay);
    ClockAdvances(states, acts, i, j);
  }

  /** A row answered on a miss is no older than the handler's own delay. */
  lemma {:induction false} MissStaleness(states: seq<State>, acts: seq<Action>, k: nat, ttl: nat, delay: nat)
    returns (i: nat)
    requires IsRun(states, acts) && Cold(states[0]) && Bounded(states, acts, ttl, delay)
    requires k < |acts| && acts[k].Fill?
    requires acts[k].h in states[k].reading && states[k].reading[acts[k].h].RowRead?
    ensures i <= k && RowAt(states, i, states[k].reading[acts[k].h].row)
    ensures states[k].now - states[i].now <= delay
  {
    assert Step(states[k], acts[k], states[k + 1]);
    assert FillWithin(states[k], acts[k], ttl, delay);
    var j: nat;
    i, j := ReadingOrigin(states, acts, k, acts[k].h);
  }

  // ----- the bound cannot be improved

  /** A row is read, deleted at once, stored after `delay`, and served in the last tick of its lifetime. */
  function WorstCase(row: Row, delay: nat, ttl: nat): seq<Action>
    requires ttl > 0
  {
    [SelectRow(0, row.id, row.tenant), Write(map[]), Tick(delay), Fill(0, true),
     Tick(ttl * TICKS_PER_SEC - 1), HitBackup(row.id, row.tenant)]
  }

  /** The states this passes through. */
  function WorstStates(row: Row, delay: nat, ttl: nat): seq<State> {
    var cold := State(0, map[row.id := row], ttl, map[], map[], map[]);
    var held := cold.(reading := map[0 := RowRead(row, 0)]);
    var gone := held.(rows := map[]);
    var late := gone.(now := delay);
    var full := late.(reading := map[], backups := map[row.id := Entry(row, delay + ttl * TICKS_PER_SEC)]);
    var stale := full.(now := delay + ttl * TICKS_PER_SEC - 1);
    [cold, held, gone, late, full, stale, stale]
  }

  lemma WorstSteps(row: Row, delay: nat, ttl: nat, i: nat)
    requires ttl > 0 && i < 6
    ensures Step(WorstStates(row, delay, ttl)[i], WorstCase(row, delay, ttl)[i], WorstStates(row, delay, ttl)[i + 1])
  {
    var s, a, s' := WorstStates(row, delay, ttl)[i], WorstCase(row, delay, ttl)[i], WorstStates(row, delay, ttl)[i + 1];
    if i == 3 { assert Apply(s, a).backups == s'.backups && Apply(s, a).reading == s'.reading; }
  }

  /**
   For every delay and lifetime some run serves a row that left the table that long ago, less one tick:
   it was there only while the clock showed the time at which it was selected.
   */
  lemma {:induction false} BoundIsTight(row: Row, delay: nat, ttl: nat)
    returns (states: seq<State>, acts: seq<Action>)
    requires ttl > 0
    ensures IsRun(states, acts) && Cold(states[0]) && Bounded(states, acts, ttl, delay)
    ensures |acts| == 6 && acts[5] == HitBackup(row.id, row.tenant)
    ensures row.id in states[5].backups && states[5].backups[row.id].value == row
    ensures states[5].now == states[0].now + delay + ttl * TICKS_PER_SEC - 1
    ensures forall i :: 0 <= i < |states| && RowAt(states, i, row) ==> states[i].now == states[0].now
  {
    states, acts := WorstStates(row, delay, ttl), WorstCase(row, delay, ttl);
    forall i | 0 <= i < |acts|
      ensures Step(states[i], acts[i], states[i + 1])
    {
      WorstSteps(row, delay, ttl, i);
    }
  }
}
