/** What every reachable state of the job protocol keeps. */
module JobSafety {
  import opened Wrappers
  import opened Backups
  import opened SourcePaths
  import opened SyntheticData
  import opened JobProtocol

  // ----- conservation of messages

  /** A message that was published and neither acknowledged nor thrown away. */
  predicate Alive(s: State, tag: Tag) {
    tag in s.queue || tag in s.inflight
  }

  /** A published message is in exactly one of the four places, any other tag in none. */
  predicate OnePlace(s: State, tag: Tag) {
    && (tag < |s.published| <==> Alive(s, tag) || tag in s.acked || tag in s.dropped)
    && !(tag in s.queue && tag in s.inflight)
    && !(Alive(s, tag) && tag in s.acked)
    && !(Alive(s, tag) && tag in s.dropped)
    && !(tag in s.acked && tag in s.dropped)
  }

  /** Every published message is in exactly one of queued, in flight, acked and dropped. */
  ghost predicate Conserved(s: State) {
    forall tag: Tag {:trigger OnePlace(s, tag)} {:trigger Alive(s, tag)} {:trigger tag in s.queue}
      {:trigger tag in s.inflight} {:trigger tag in s.acked} {:trigger tag in s.dropped} :: OnePlace(s, tag)
  }

  /** The worker has started on the delivery. */
  predicate InHand(s: State, tag: Tag) {
    tag in s.inflight && s.inflight[tag].phase != Buffered
  }

  /** A dropped message never held a job; one past its buffer, or acked, always does. */
  ghost predicate JobsNotDropped(s: State) {
    && (forall tag :: tag in s.dropped ==> !Decodes(s, tag))
    && (forall tag :: tag in s.acked ==> Decodes(s, tag))
    && (forall tag :: InHand(s, tag) ==> Decodes(s, tag))
  }

  /** Deliveries belong to live workers, and a worker has at most one of them in hand. */
  ghost predicate OneInHand(s: State) {
    && (forall tag :: tag in s.inflight ==> s.inflight[tag].worker in s.live)
    && (forall t, u :: InHand(s, t) && InHand(s, u) && s.inflight[t].worker == s.inflight[u].worker ==> t == u)
  }

  // ----- jobs and rows

  /** The job was read from a row with this id, and still agrees with it if it exists. */
  predicate Faithful(s: State, job: Job) {
    && job.backupId in s.issued
    && ValidateSourcePath(job.sourcePath).Ok?
    && (job.backupId in s.rows ==>
          var row := s.rows[job.backupId];
          job.tenantId == row.tenant && job.sourcePath == row.sourcePath && job.encryptionEnabled == row.encrypted)
  }

  ghost predicate JobsFaithful(s: State) {
    && s.rows.Keys <= s.issued
    && (forall id :: id in s.rows ==> ValidateSourcePath(s.rows[id].sourcePath).Ok?)
    && (forall job :: job in s.outbox ==> Faithful(s, job))
    && (forall tag: Tag :: Decodes(s, tag) ==> Faithful(s, JobOf(s, tag)))
  }

  /** A live message for `id` whose delivery has not reported a result. */
  predicate Unreported(s: State, tag: Tag, id: Uuid) {
    && Alive(s, tag)
    && !Holds(s, tag, Reported)
    && Decodes(s, tag) && JobOf(s, tag).backupId == id
  }

  /** Somebody will still report on `id`. */
  ghost predicate Expected(s: State, id: Uuid) {
    exists tag :: Unreported(s, tag, id)
  }

  /** No row is left `running` with nobody to finish it. */
  ghost predicate NoStuckRows(s: State) {
    forall id :: id in s.rows && s.rows[id].status == Running ==> Expected(s, id)
  }

  ghost predicate Invariant(s: State) {
    Conserved(s) && JobsNotDropped(s) && OneInHand(s) && JobsFaithful(s)
  }

  lemma InitialInvariant()
    ensures Invariant(INITIAL) && NoStuckRows(INITIAL)
  {
  }

  /** The publish log only grows, and `Publish` appends its job to it. */
  lemma LogGrows(s: State, a: Action, s': State)
    requires Step(s, a, s')
    ensures s.published <= s'.published
    ensures a.Publish? ==> |s.published| < |s'.published| && s'.published[|s.published|] == Encode(a.job)
  {
  }

  /** A step moves a message from one place to one other, or leaves it where it is. */
  lemma PlaceAfter(s: State, a: Action, tag: Tag)
    requires OnePlace(s, tag) && Enabled(s, a)
    ensures OnePlace(Apply(s, a), tag)
  {
  }

  lemma {:induction false} StepKeepsConserved(s: State, a: Action)
    requires Conserved(s) && Enabled(s, a)
    ensures Conserved(Apply(s, a))
  {
    forall tag: Tag {
      PlaceAfter(s, a, tag);
    }
  }

  /** Messages are acked out of a worker's hand, and dropped only when they do not decode. */
  lemma SettledAfter(s: State, a: Action, tag: Tag)
    requires Enabled(s, a)
    ensures var s' := Apply(s, a);
      && (tag in s'.dropped ==> tag in s.dropped || (tag < |s.published| && !Decodes(s, tag)))
      && (tag in s'.acked ==> tag in s.acked || InHand(s, tag))
      && (InHand(s', tag) ==> InHand(s, tag) || Decodes(s, tag))
  {
  }

  lemma {:induction false} StepKeepsJobs(s: State, a: Action)
    requires Conserved(s) && JobsNotDropped(s) && Enabled(s, a)
    ensures JobsNotDropped(Apply(s, a))
  {
    LogGrows(s, a, Apply(s, a));
    forall tag: Tag {
      SettledAfter(s, a, tag);
    }
  }

  /** A delivery comes into its worker's hand only by `Start`, and only into an empty one. */
  lemma HandsAfter(s: State, a: Action, tag: Tag)
    requires Enabled(s, a) && InHand(Apply(s, a), tag)
    ensures tag in s.inflight && Apply(s, a).inflight[tag].worker == s.inflight[tag].worker
    ensures InHand(s, tag) || (a == Start(tag) && Idle(s, s.inflight[tag].worker))
  {
  }

  lemma {:induction false} StepKeepsHands(s: State, a: Action)
    requires OneInHand(s) && Enabled(s, a)
    ensures OneInHand(Apply(s, a))
  {
    var s' := Apply(s, a);
    forall t, u | InHand(s', t) && InHand(s', u) && s'.inflight[t].worker == s'.inflight[u].worker
      ensures t == u
    {
      HandsAfter(s, a, t);
      HandsAfter(s, a, u);
      assert InHand(s, t) ==> !Idle(s, s.inflight[t].worker);
      assert InHand(s, u) ==> !Idle(s, s.inflight[u].worker);
    }
  }

  lemma FaithfulAfter(s: State, a: Action, job: Job)
    requires Enabled(s, a) && Faithful(s, job)
    ensures Faithful(Apply(s, a), job)
  {
  }

  /** Jobs come from rows by way of the outbox, and nothing else makes one. */
  lemma JobsAfter(s: State, a: Action)
    requires Enabled(s, a)
    ensures var s' := Apply(s, a);
      && (forall job :: job in s'.outbox && job !in s.outbox ==>
            && a.ReadForEnqueue?
            && var row := s.rows[a.id]; job == BackupJob(row.id, row.tenant, row.sourcePath, row.encrypted))
      && (forall tag: Tag :: Decodes(s', tag) ==>
            (Decodes(s, tag) && JobOf(s', tag) == JobOf(s, tag)) || (a.Publish? && JobOf(s', tag) == a.job))
  {
  }

  lemma RowAfter(s: State, a: Action, id: Uuid)
    requires Enabled(s, a) && id in Apply(s, a).rows
    ensures var s' := Apply(s, a);
      if a.Create? && a.id == id then id in s'.issued && s'.rows[id].sourcePath == a.sourcePath
      else id in s.rows && s'.rows[id].sourcePath == s.rows[id].sourcePath && (id in s.issued ==> id in s'.issued)
  {
  }

  lemma {:induction false} StepKeepsFaithful(s: State, a: Action)
    requires JobsFaithful(s) && Enabled(s, a)
    ensures JobsFaithful(Apply(s, a))
  {
    var s' := Apply(s, a);
    forall id | id in s'.rows
      ensures id in s'.issued && ValidateSourcePath(s'.rows[id].sourcePath).Ok?
    {
      RowAfter(s, a, id);
    }
    JobsAfter(s, a);
    forall job | job in s'.outbox
      ensures Faithful(s', job)
    {
      if job in s.outbox { FaithfulAfter(s, a, job); }
    }
    forall tag: Tag | Decodes(s', tag)
      ensures Faithful(s', JobOf(s', tag))
    {
      FaithfulAfter(s, a, JobOf(s', tag));
    }
  }

  lemma {:induction false} StepKeepsInvariant(s: State, a: Action)
    requires Invariant(s) && Enabled(s, a)
    ensures Invariant(Apply(s, a))
  {
    StepKeepsConserved(s, a);
    StepKeepsJobs(s, a);
    StepKeepsHands(s, a);
    StepKeepsFaithful(s, a);
  }

  /** A message stops being awaited only when its own result is written, which completes the row. */
  lemma UnreportedAfter(s: State, a: Action, tag: Tag, id: Uuid)
    requires Enabled(s, a) && Unreported(s, tag, id)
    ensures var s' := Apply(s, a);
      Unreported(s', tag, id) || (a.Report? && (id in s'.rows ==> s'.rows[id].status == Completed))
  {
  }

  /** Short of a PATCH, only a delivery of that very row makes it `running`. */
  lemma RunningAfter(s: State, a: Action, id: Uuid)
    requires Enabled(s, a) && !(a.Patch? && a.status == Some(Running))
    requires var s' := Apply(s, a); id in s'.rows && s'.rows[id].status == Running
    ensures (id in s.rows && s.rows[id].status == Running)
         || ((a.MarkRunning? || a.MarkFailed?) && Unreported(Apply(s, a), a.tag, id))
  {
  }

  lemma {:induction false} StepKeepsNoStuckRows(s: State, a: Action)
    requires NoStuckRows(s) && Enabled(s, a)
    requires !(a.Patch? && a.status == Some(Running))
    ensures NoStuckRows(Apply(s, a))
  {
    var s' := Apply(s, a);
    forall id | id in s'.rows && s'.rows[id].status == Running
      ensures Expected(s', id)
    {
      RunningAfter(s, a, id);
      if id in s.rows && s.rows[id].status == Running {
        var t :| Unreported(s, t, id);
        UnreportedAfter(s, a, t, id);
      }
    }
  }

  /**
   A PATCH to `running` is the one step that can strand a row, and it does so exactly when no message
   for that row is still awaited.
   */
  lemma PatchToRunning(s: State, a: Action)
    requires NoStuckRows(s) && Enabled(s, a)
    requires a.Patch? && a.status == Some(Running)
    ensures NoStuckRows(Apply(s, a)) <==> Expected(s, a.id)
  {
    var s' := Apply(s, a);
    assert forall tag, id :: Unreported(s', tag, id) <==> Unreported(s, tag, id);
    assert forall id :: Expected(s', id) <==> Expected(s, id);
    assert s'.rows[a.id].status == Running;
  }

  // ----- row states

  const REPORTED_SIZE := 1_048_576

  /** The (status, size) pairs a row can show while no client has patched it. */
  predicate UnpatchedRow(row: Row) {
    || (row.status == Pending && row.sizeBytes == 0)
    || (row.status == Running && (row.sizeBytes == 0 || row.sizeBytes == REPORTED_SIZE))
    || (row.status == Completed && row.sizeBytes == REPORTED_SIZE)
  }

  ghost predicate UnpatchedRows(s: State) {
    forall id :: id in s.rows ==> UnpatchedRow(s.rows[id])
  }

  /** A job that came from a validated path is always reported with the same size. */
  lemma ValidatedSize(path: seq<byte>)
    ensures SimulatedSize(path) == if path == [] then 0 else REPORTED_SIZE
  {
  }

  lemma UnpatchedAfter(s: State, a: Action, id: Uuid)
    requires Enabled(s, a) && !a.Patch? && id in RowsNext(s, a)
    requires id in s.rows ==> UnpatchedRow(s.rows[id])
    requires (a.Report? || a.ReportFailed?) && JobOf(s, a.tag).backupId == id ==>
      SimulatedSize(JobOf(s, a.tag).sourcePath) == REPORTED_SIZE
    ensures UnpatchedRow(RowsNext(s, a)[id])
  {
  }

  lemma {:induction false} StepKeepsUnpatched(s: State, a: Action)
    requires JobsFaithful(s) && UnpatchedRows(s) && Enabled(s, a) && !a.Patch?
    ensures UnpatchedRows(Apply(s, a))
  {
    if a.Report? || a.ReportFailed? {
      ValidatedSize(JobOf(s, a.tag).sourcePath);
    }
    forall id | id in RowsNext(s, a)
      ensures UnpatchedRow(RowsNext(s, a)[id])
    {
      UnpatchedAfter(s, a, id);
    }
  }

  // ----- all runs

  lemma {:induction false} RunKeepsConserved(states: seq<State>, acts: seq<Action>, k: nat)
    requires IsRun(states, acts) && Conserved(states[0]) && k <= |acts|
    ensures Conserved(states[k])
  {
    if k > 0 {
      RunKeepsConserved(states, acts, k - 1);
      assert StepAt(states, acts, k - 1);
      StepKeepsConserved(states[k - 1], acts[k - 1]);
    }
  }

  /** The claims that hold of every state of every run. */
  lemma {:induction false} RunKeepsInvariant(states: seq<State>, acts: seq<Action>, k: nat)
    requires IsRun(states, acts) && Invariant(states[0]) && k <= |acts|
    ensures Invariant(states[k])
  {
    if k > 0 {
      RunKeepsInvariant(states, acts, k - 1);
      assert StepAt(states, acts, k - 1);
      StepKeepsInvariant(states[k - 1], acts[k - 1]);
    }
  }

  /** A client patches a row to `running` for which no message is awaited. */
  ghost predicate Strands(s: State, a: Action) {
    a.Patch? && a.status == Some(Running) && !Expected(s, a.id)
  }

  lemma StepStrandsOrKeeps(s: State, a: Action)
    requires NoStuckRows(s) && Enabled(s, a)
    ensures NoStuckRows(Apply(s, a)) <==> !Strands(s, a)
  {
    if a.Patch? && a.status == Some(Running) {
      PatchToRunning(s, a);
    } else {
      StepKeepsNoStuckRows(s, a);
    }
  }

  /**
   Up to any point of a run no row was ever left `running` with nobody to finish it, exactly if no client
   had patched to `running` a row for which no message was awaited.
   */
  lemma {:induction false} NoRowIsStuck(states: seq<State>, acts: seq<Action>, k: nat)
    requires IsRun(states, acts) && NoStuckRows(states[0]) && k <= |acts|
    ensures (forall j :: 0 <= j <= k ==> NoStuckRows(states[j]))
       <==> (forall i :: 0 <= i < k ==> !Strands(states[i], acts[i]))
  {
    if k > 0 {
      NoRowIsStuck(states, acts, k - 1);
      var s, a := states[k - 1], acts[k - 1];
      assert StepAt(states, acts, k - 1);
      if NoStuckRows(s) {
        StepStrandsOrKeeps(s, a);
      }
    }
  }

  /** It does happen: from any state, by creating a row and patching it before its job is enqueued. */
  lemma RowGetsStuck(s: State, id: Uuid, tenant: Uuid, path: seq<byte>, encrypted: bool, now: Time, later: Time)
    returns (states: seq<State>, acts: seq<Action>)
    requires Invariant(s) && id !in s.issued && ValidateSourcePath(path).Ok?
    ensures IsRun(states, acts) && states[0] == s && !NoStuckRows(Last(states))
  {
    var create, patch := Create(id, tenant, path, encrypted, now), Patch(id, tenant, Some(Running), None, later);
    var s1 := Apply(s, create);
    var s2 := Apply(s1, patch);
    states, acts := [s, s1, s2], [create, patch];
    NobodyExpects(s, s2, id);
    assert s2.rows[id].status == Running;
  }

  /** No message is about an id that the table has not generated. */
  lemma NobodyExpects(s: State, s': State, id: Uuid)
    requires JobsFaithful(s) && id !in s.issued && s'.published == s.published
    ensures !Expected(s', id)
  {
    forall tag | Decodes(s', tag)
      ensures JobOf(s', tag).backupId != id
    {
      assert Decodes(s, tag) && Faithful(s, JobOf(s, tag));
    }
  }

  /** Without PATCH a row only ever shows one of four (status, size) pairs. */
  lemma {:induction false} RowStates(states: seq<State>, acts: seq<Action>, k: nat)
    requires IsRun(states, acts) && Invariant(states[0]) && UnpatchedRows(states[0]) && k <= |acts|
    requires forall i :: 0 <= i < k ==> !acts[i].Patch?
    ensures UnpatchedRows(states[k])
  {
    if k > 0 {
      RowStates(states, acts, k - 1);
      RunKeepsInvariant(states, acts, k - 1);
      assert StepAt(states, acts, k - 1);
      StepKeepsUnpatched(states[k - 1], acts[k - 1]);
    }
  }

  lemma {:induction false} LogKeeps(states: seq<State>, acts: seq<Action>, i: nat, k: nat)
    requires IsRun(states, acts) && i <= k <= |acts|
    ensures states[i].published <= states[k].published
  {
    if i < k {
      LogKeeps(states, acts, i, k - 1);
      assert StepAt(states, acts, k - 1);
      LogGrows(states[k - 1], acts[k - 1], states[k]);
    }
  }

  // ----- conservation of jobs

  /** The job that a handler picks up from a row by this step. */
  function PickedUp(s: State, a: Action): multiset<Job> {
    if a.ReadForEnqueue? && a.id in s.rows then
      var row := s.rows[a.id];
      multiset{BackupJob(row.id, row.tenant, row.sourcePath, row.encrypted)}
    else multiset{}
  }

  /** The job that a handler lays down: published, or given up. */
  function LaidDown(a: Action): multiset<Job> {
    if a.Publish? || a.AbandonPublish? then multiset{a.job} else multiset{}
  }

  lemma OutboxBalance(s: State, a: Action)
    requires Enabled(s, a)
    ensures OutboxNext(s, a) + LaidDown(a) == s.outbox + PickedUp(s, a)
  {
  }

  function AllPickedUp(states: seq<State>, acts: seq<Action>, k: nat): multiset<Job>
    requires k <= |acts| && k <= |states|
  {
    if k == 0 then multiset{} else AllPickedUp(states, acts, k - 1) + PickedUp(states[k - 1], acts[k - 1])
  }

  function AllLaidDown(acts: seq<Action>, k: nat): multiset<Job>
    requires k <= |acts|
  {
    if k == 0 then multiset{} else AllLaidDown(acts, k - 1) + LaidDown(acts[k - 1])
  }

  /** Every job ever picked up from a row is published once, given up once, or still held by its handler. */
  lemma {:induction false} JobsBalance(states: seq<State>, acts: seq<Action>, k: nat)
    requires IsRun(states, acts) && states[0].outbox == multiset{} && k <= |acts|
    ensures AllPickedUp(states, acts, k) == states[k].outbox + AllLaidDown(acts, k)
  {
    if k > 0 {
      JobsBalance(states, acts, k - 1);
      assert StepAt(states, acts, k - 1);
      OutboxBalance(states[k - 1], acts[k - 1]);
    }
  }

  /** A message that `publish_job` made is never thrown away, in any continuation of any run. */
  lemma PublishedJobSurvives(states: seq<State>, acts: seq<Action>, i: nat, k: nat)
    requires IsRun(states, acts) && Invariant(states[0]) && i < k <= |acts| && acts[i].Publish?
    ensures var tag := |states[i].published|;
      && Decodes(states[k], tag) && JobOf(states[k], tag) == acts[i].job
      && (Alive(states[k], tag) || tag in states[k].acked)
      && tag !in states[k].dropped
  {
    RunKeepsInvariant(states, acts, k);
    assert StepAt(states, acts, i);
    LogGrows(states[i], acts[i], states[i + 1]);
    LogKeeps(states, acts, i + 1, k);
  }
}
