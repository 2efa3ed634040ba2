/** An acknowledgement is earned, and a job whose row is gone never earns one. */
module AckEarned {
  import opened Wrappers
  import opened Backups
  import opened SourcePaths
  import opened JobProtocol
  import opened JobSafety

  // ----- what precedes an ack

  /** From state `i` to state `k` the message never left its worker: it is one and the same delivery. */
  predicate SameDelivery(states: seq<State>, tag: Tag, i: nat, k: nat)
    requires i <= k < |states|
  {
    forall m :: i <= m <= k ==> tag in states[m].inflight
  }

  /** Action `i` set an existing row to `running` on behalf of this delivery, and the caller was told so. */
  predicate MarkedAt(states: seq<State>, acts: seq<Action>, tag: Tag, i: nat)
    requires |states| == |acts| + 1
  {
    && i < |acts| && acts[i].MarkRunning? && acts[i].tag == tag
    && Decodes(states[i], tag)
    && var id := JobOf(states[i], tag).backupId;
       id in states[i].rows && id in states[i + 1].rows && states[i + 1].rows[id].status == Running
  }

  predicate ReportedAt(acts: seq<Action>, tag: Tag, j: nat) {
    j < |acts| && acts[j].Report? && acts[j].tag == tag
  }

  /**
   What a step tells about how far a delivery has got: it is marked or reported only if this step did it
   or it was so before; only what is marked is reported; and marking hits an existing row.
   */
  ghost predicate Traced(s: State, a: Action, s': State, tag: Tag) {
    && (Holds(s', tag, MarkedRunning) ==>
          tag in s.inflight && ((a.MarkRunning? && a.tag == tag) || Holds(s, tag, MarkedRunning)))
    && (Holds(s', tag, Reported) ==>
          tag in s.inflight && ((a.Report? && a.tag == tag) || Holds(s, tag, Reported)))
    && (a.Report? && a.tag == tag ==> Holds(s, tag, MarkedRunning))
    && (a.MarkRunning? && a.tag == tag ==>
          && Decodes(s, tag)
          && var id := JobOf(s, tag).backupId; id in s.rows && id in s'.rows && s'.rows[id].status == Running)
  }

  lemma StepIsTraced(s: State, a: Action, s': State, tag: Tag)
    requires Step(s, a, s')
    ensures Traced(s, a, s', tag)
  {
  }

  ghost predicate RunTraced(states: seq<State>, acts: seq<Action>, tag: Tag) {
    && |states| == |acts| + 1
    && forall i :: 0 <= i < |acts| ==> Traced(states[i], acts[i], states[i + 1], tag)
  }

  lemma {:induction false} MarkedBefore(states: seq<State>, acts: seq<Action>, tag: Tag, k: nat) returns (i: nat)
    requires RunTraced(states, acts, tag) && states[0].inflight == map[] && k <= |acts|
    requires Holds(states[k], tag, MarkedRunning)
    ensures i < k && MarkedAt(states, acts, tag, i) && SameDelivery(states, tag, i, k)
  {
    assert Traced(states[k - 1], acts[k - 1], states[k], tag);
    if acts[k - 1].MarkRunning? && acts[k - 1].tag == tag {
      i := k - 1;
    } else {
      i := MarkedBefore(states, acts, tag, k - 1);
    }
  }

  lemma {:induction false} ReportedBefore(states: seq<State>, acts: seq<Action>, tag: Tag, k: nat)
    returns (i: nat, j: nat)
    requires RunTraced(states, acts, tag) && states[0].inflight == map[] && k <= |acts|
    requires Holds(states[k], tag, Reported)
    ensures i < j < k && MarkedAt(states, acts, tag, i) && ReportedAt(acts, tag, j)
    ensures SameDelivery(states, tag, i, k)
  {
    assert Traced(states[k - 1], acts[k - 1], states[k], tag);
    if acts[k - 1].Report? && acts[k - 1].tag == tag {
      j := k - 1;
      i := MarkedBefore(states, acts, tag, k - 1);
    } else {
      i, j := ReportedBefore(states, acts, tag, k - 1);
    }
  }

  lemma RunIsTraced(states: seq<State>, acts: seq<Action>, tag: Tag)
    requires IsRun(states, acts)
    ensures RunTraced(states, acts, tag)
  {
    forall i | 0 <= i < |acts|
      ensures Traced(states[i], acts[i], states[i + 1], tag)
    {
      assert StepAt(states, acts, i);
      StepIsTraced(states[i], acts[i], states[i + 1], tag);
    }
  }

  /**
   A job is acknowledged only if, within that same delivery, `update_status` hit an existing row and
   `report_result` succeeded after it.
   */
  lemma AckIsEarned(states: seq<State>, acts: seq<Action>, k: nat) returns (i: nat, j: nat)
    requires IsRun(states, acts) && states[0].inflight == map[] && k < |acts| && acts[k].Ack?
    ensures i < j < k && MarkedAt(states, acts, acts[k].tag, i) && ReportedAt(acts, acts[k].tag, j)
    ensures SameDelivery(states, acts[k].tag, i, k)
  {
    assert StepAt(states, acts, k);
    RunIsTraced(states, acts, acts[k].tag);
    i, j := ReportedBefore(states, acts, acts[k].tag, k);
  }

  // ----- jobs whose row is gone

  /** A live job for a deleted row. */
  predicate Orphan(s: State, tag: Tag, id: Uuid) {
    && Alive(s, tag) && Decodes(s, tag) && JobOf(s, tag).backupId == id
    && id in s.issued && id !in s.rows
  }

  /** The delivery in progress has already got past the existence check. */
  predicate PastCheck(s: State, tag: Tag) {
    Holds(s, tag, MarkedRunning) || Holds(s, tag, Reported)
  }

  /** Ids are not reused: a deleted row does not come back. */
  lemma RowStaysGone(s: State, a: Action, s': State, id: Uuid)
    requires Step(s, a, s') && id in s.issued && id !in s.rows
    ensures id in s'.issued && id !in s'.rows
  {
  }

  /** Without a row the message can only move between queue, buffer and the failed existence check. */
  lemma OrphanMoves(s: State, a: Action, s': State, tag: Tag)
    requires Step(s, a, s') && Alive(s, tag) && Decodes(s, tag) && JobOf(s, tag).backupId !in s.rows
    requires !PastCheck(s, tag)
    ensures Alive(s', tag) && !PastCheck(s', tag)
  {
    OrphanStaysBehind(s, a, s', tag);
  }

  lemma OrphanStaysBehind(s: State, a: Action, s': State, tag: Tag)
    requires Step(s, a, s') && Decodes(s, tag) && JobOf(s, tag).backupId !in s.rows && !PastCheck(s, tag)
    ensures !PastCheck(s', tag)
  {
  }

  lemma {:induction false} StepKeepsOrphan(s: State, a: Action, s': State, tag: Tag, id: Uuid)
    requires Step(s, a, s') && Orphan(s, tag, id) && !PastCheck(s, tag)
    ensures Orphan(s', tag, id) && !PastCheck(s', tag)
  {
    RowStaysGone(s, a, s', id);
    OrphanMoves(s, a, s', tag);
    LogGrows(s, a, s');
  }

  lemma {:induction false} OrphanForever(states: seq<State>, acts: seq<Action>, tag: Tag, id: Uuid, i: nat, k: nat)
    requires IsRun(states, acts) && i <= k <= |acts|
    requires Orphan(states[i], tag, id) && !PastCheck(states[i], tag)
    ensures Orphan(states[k], tag, id) && !PastCheck(states[k], tag)
  {
    if i < k {
      OrphanForever(states, acts, tag, id, i, k - 1);
      assert StepAt(states, acts, k - 1);
      StepKeepsOrphan(states[k - 1], acts[k - 1], states[k], tag, id);
    }
  }

  /** It does happen: a backup is created and enqueued, and its row deleted before any worker gets to it. */
  lemma JobGetsOrphaned(s: State, id: Uuid, tenant: Uuid, path: seq<byte>, encrypted: bool, now: Time)
    returns (states: seq<State>, acts: seq<Action>)
    requires Invariant(s) && id !in s.issued && ValidateSourcePath(path).Ok?
    ensures IsRun(states, acts) && states[0] == s
    ensures var tag := |s.published|; Orphan(Last(states), tag, id) && !PastCheck(Last(states), tag)
  {
    var create := Create(id, tenant, path, encrypted, now);
    var s' := Apply(s, create);
    assert !Alive(s, |s.published|) by {
      assert OnePlace(s, |s.published|);
    }
    assert s' == s.(rows := s.rows[id := NewRow(id, tenant, path, encrypted, now)], issued := s.issued + {id});
    states, acts := OrphanedAfterRead(s', id);
    RunAfter(s, create, states, acts);
    states, acts := [s] + states, [create] + acts;
  }

  lemma RunAfter(s: State, a: Action, states: seq<State>, acts: seq<Action>)
    requires IsRun(states, acts) && Step(s, a, states[0])
    ensures IsRun([s] + states, [a] + acts) && Last([s] + states) == Last(states)
  {
    forall i | 0 <= i < |acts|
      ensures Step(states[i], acts[i], states[i + 1])
    {
      assert StepAt(states, acts, i);
    }
    PrependChain((x, y, z) => Step(x, y, z), s, a, states, acts);
    forall i | 0 <= i < |acts| + 1
      ensures StepAt([s] + states, [a] + acts, i)
    {
    }
  }

  lemma OrphanedAfterRead(s: State, id: Uuid) returns (states: seq<State>, acts: seq<Action>)
    requires id in s.rows && id in s.issued && !Alive(s, |s.published|)
    ensures IsRun(states, acts) && states[0] == s
    ensures var tag := |s.published|; Orphan(Last(states), tag, id) && !PastCheck(Last(states), tag)
  {
    var row := s.rows[id];
    var read := ReadForEnqueue(id, row.tenant);
    var job := BackupJob(id, row.tenant, row.sourcePath, row.encrypted);
    var s' := Apply(s, read);
    assert s' == s.(outbox := s.outbox + multiset{job});
    states, acts := OrphanedAfterPublish(s', job);
    RunAfter(s, read, states, acts);
    states, acts := [s] + states, [read] + acts;
  }

  lemma OrphanedAfterPublish(s: State, job: Job) returns (states: seq<State>, acts: seq<Action>)
    requires job in s.outbox && Fetch(s.rows, job.backupId, job.tenantId).Some? && job.backupId in s.issued
    requires !Alive(s, |s.published|)
    ensures IsRun(states, acts) && states[0] == s
    ensures var tag := |s.published|; Orphan(Last(states), tag, job.backupId) && !PastCheck(Last(states), tag)
  {
    var publish, remove := Publish(job), Remove(job.backupId, job.tenantId);
    var s1 := Apply(s, publish);
    var s2 := Apply(s1, remove);
    states, acts := [s, s1, s2], [publish, remove];
  }

  /** Both failures are within reach of an empty system. */
  lemma FailuresAreReachable()
    ensures exists states, acts :: IsRun(states, acts) && states[0] == INITIAL && !NoStuckRows(Last(states))
    ensures exists states, acts, tag, id ::
      IsRun(states, acts) && states[0] == INITIAL && Orphan(Last(states), tag, id) && !PastCheck(Last(states), tag)
  {
    InitialInvariant();
    var path := [SLASH];
    var _, _ := RowGetsStuck(INITIAL, 0, 0, path, false, 0, 0);
    var _, _ := JobGetsOrphaned(INITIAL, 0, 0, path, false, 0);
  }

  /** Some continuation from `s` acknowledges the message. */
  ghost predicate CanBeAcked(s: State, tag: Tag) {
    exists states, acts :: IsRun(states, acts) && states[0] == s && tag in Last(states).acked
  }

  lemma ReportedCanBeAcked(s: State, tag: Tag)
    requires Holds(s, tag, Reported)
    ensures CanBeAcked(s, tag)
  {
    var s1 := Apply(s, Ack(tag));
    assert IsRun([s, s1], [Ack(tag)]);
    assert tag in Last([s, s1]).acked;
  }

  /** What can be acked after a step can be acked with that step in front. */
  lemma CanBeAckedBefore(s: State, a: Action, s': State, tag: Tag)
    requires Step(s, a, s') && CanBeAcked(s', tag)
    ensures CanBeAcked(s, tag)
  {
    var states, acts :| IsRun(states, acts) && states[0] == s' && tag in Last(states).acked;
    RunAfter(s, a, states, acts);
  }

  lemma PastCheckCanBeAcked(s: State, tag: Tag)
    requires Decodes(s, tag) && PastCheck(s, tag)
    ensures CanBeAcked(s, tag)
  {
    if Holds(s, tag, Reported) {
      ReportedCanBeAcked(s, tag);
    } else {
      var s' := Apply(s, Report(tag, 0));
      ReportedCanBeAcked(s', tag);
      CanBeAckedBefore(s, Report(tag, 0), s', tag);
    }
  }

  /**
   Once its row is deleted, a job is acknowledged in some continuation exactly if its current delivery
   is already past the existence check. Otherwise it circulates between queue and workers for ever.
   */
  lemma OrphanIsAckedIffPastCheck(s: State, tag: Tag, id: Uuid)
    requires Conserved(s) && Orphan(s, tag, id)
    ensures CanBeAcked(s, tag) <==> PastCheck(s, tag)
  {
    if PastCheck(s, tag) {
      PastCheckCanBeAcked(s, tag);
    } else if CanBeAcked(s, tag) {
      var states, acts :| IsRun(states, acts) && states[0] == s && tag in Last(states).acked;
      OrphanForever(states, acts, tag, id, 0, |acts|);
      RunKeepsConserved(states, acts, |acts|);
    }
  }
}
