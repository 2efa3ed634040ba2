/**
 Convergence of the job protocol once clients stop sending requests.

 What remains then are the steps of handlers that still have a job to publish, of the broker and of the
 workers. Each of them brings the system nearer to rest, except for the disturbances: failed RPCs,
 failed computations, workers dying or joining.
 */
module Drain {
  import opened Backups
  import opened JobProtocol
  import opened JobSafety
  import opened AckEarned

  // ----- the steps that go on after the last request

  predicate Progress(a: Action) {
    a.Publish? || a.Deliver? || a.Reject? || a.Start? || a.MarkRunning? || a.Report? || a.Ack? || a.Requeue?
  }

  predicate Disturbance(a: Action) {
    a.MarkFailed? || a.ComputeFailed? || a.ReportFailed? || a.Crash? || a.Join?
  }

  /** A step of a system to which no request is sent; an RPC for a missing row counts as one too. */
  predicate Internal(a: Action) {
    Progress(a) || Disturbance(a) || a.MarkNotFound?
  }

  ghost predicate IsInternalRun(states: seq<State>, acts: seq<Action>) {
    IsRun(states, acts) && forall i :: 0 <= i < |acts| ==> Internal(acts[i])
  }

  /** The rows of all jobs still on their way exist. */
  ghost predicate RowsPresent(s: State) {
    && (forall tag :: Alive(s, tag) && Decodes(s, tag) ==> JobOf(s, tag).backupId in s.rows)
    && (forall job :: job in s.outbox ==> job.backupId in s.rows)
  }

  /** Nothing is left to do. */
  predicate AtRest(s: State) {
    s.outbox == multiset{} && s.queue == {} && s.inflight == map[]
  }

  // ----- the measure

  const HEAVIEST := 6

  /** Steps a delivery in this phase still needs, at least, before its message is settled. */
  function PhaseWeight(phase: Phase): nat {
    match phase
    case Buffered => 4
    case Started => 3
    case MarkedRunning => 2
    case Reported => 1
    case Errored => HEAVIEST
  }

  function Weight(s: State, tag: Tag): nat {
    if tag in s.inflight then PhaseWeight(s.inflight[tag].phase)
    else if tag in s.queue then 5
    else 0
  }

  /** The weight of the first `n` messages. */
  function Load(s: State, n: nat): nat {
    if n == 0 then 0 else Load(s, n - 1) + Weight(s, n - 1)
  }

  /** Phases left over all messages, published or about to be. */
  function PhasesLeft(s: State): nat {
    Load(s, |s.published|) + HEAVIEST * |s.outbox|
  }

  /** The most that `PhasesLeft` can be; no internal step changes it. */
  function Capacity(s: State): nat {
    HEAVIEST * (|s.published| + |s.outbox|)
  }

  lemma {:induction false} LoadIsBounded(s: State, n: nat)
    ensures Load(s, n) <= HEAVIEST * n
  {
    if n > 0 { LoadIsBounded(s, n - 1); }
  }

  lemma {:induction false} SameLoad(s: State, s': State, n: nat)
    requires forall tag: Tag :: tag < n ==> Weight(s', tag) == Weight(s, tag)
    ensures Load(s', n) == Load(s, n)
  {
    if n > 0 { SameLoad(s, s', n - 1); }
  }

  lemma {:induction false} LoadChangesAt(s: State, s': State, t: Tag, n: nat)
    requires t < n
    requires forall tag: Tag :: tag < n && tag != t ==> Weight(s', tag) == Weight(s, tag)
    ensures Load(s', n) == Load(s, n) - Weight(s, t) + Weight(s', t)
  {
    if t < n - 1 {
      LoadChangesAt(s, s', t, n - 1);
    } else {
      SameLoad(s, s', n - 1);
    }
  }

  /** A progress step on a delivery lightens that message and touches no other. */
  lemma WeightAfter(s: State, a: Action, s': State)
    requires Step(s, a, s') && Progress(a) && !a.Publish? && Conserved(s)
    ensures a.tag < |s.published| == |s'.published| && s'.outbox == s.outbox
    ensures Weight(s', a.tag) < Weight(s, a.tag)
    ensures forall tag: Tag :: tag != a.tag ==> Weight(s', tag) == Weight(s, tag)
  {
    assert Alive(s, a.tag);
  }

  lemma PublishEffect(s: State, a: Action, s': State)
    requires Step(s, a, s') && a.Publish? && Conserved(s)
    ensures |s'.published| == |s.published| + 1 && |s'.outbox| == |s.outbox| - 1
    ensures Weight(s', |s.published|) == 5
    ensures forall tag: Tag :: tag < |s.published| ==> Weight(s', tag) == Weight(s, tag)
  {
    assert !Alive(s, |s.published|);
  }

  /** Every progress step strictly lowers the phases left. */
  lemma {:induction false} ProgressLowers(s: State, a: Action, s': State)
    requires Step(s, a, s') && Progress(a) && Conserved(s)
    ensures PhasesLeft(s') < PhasesLeft(s) && Capacity(s') == Capacity(s)
  {
    var n := |s.published|;
    if a.Publish? {
      PublishEffect(s, a, s');
      SameLoad(s, s', n);
    } else {
      WeightAfter(s, a, s');
      LoadChangesAt(s, s', a.tag, n);
    }
  }

  lemma DisturbanceEffect(s: State, a: Action, s': State)
    requires Step(s, a, s') && Disturbance(a)
    ensures s'.published == s.published && s'.outbox == s.outbox
  {
  }

  /** A disturbance may raise the phases left, but never above the capacity. */
  lemma {:induction false} DisturbanceIsBounded(s: State, a: Action, s': State)
    requires Step(s, a, s') && Disturbance(a)
    ensures PhasesLeft(s') <= Capacity(s') == Capacity(s)
  {
    DisturbanceEffect(s, a, s');
    LoadIsBounded(s', |s'.published|);
  }

  // ----- what internal steps keep

  /** With the rows present no update misses its row, and no internal step removes one. */
  lemma {:induction false} StepKeepsRowsPresent(s: State, a: Action, s': State)
    requires Step(s, a, s') && Internal(a) && RowsPresent(s)
    ensures RowsPresent(s') && !a.MarkNotFound?
  {
    InternalEffect(s, a, s');
    LogGrows(s, a, s');
    assert a.MarkNotFound? ==> Alive(s, a.tag);
    forall tag | Alive(s', tag) && Decodes(s', tag)
      ensures JobOf(s', tag).backupId in s'.rows
    {
      AliveBefore(s, a, s', tag);
      JobsAfter(s, a);
    }
  }

  lemma InternalEffect(s: State, a: Action, s': State)
    requires Step(s, a, s') && Internal(a)
    ensures forall id :: id in s'.rows <==> id in s.rows
    ensures forall job :: job in s'.outbox ==> job in s.outbox
  {
    assert s'.rows.Keys == s.rows.Keys by {
      InternalKeys(s, a);
    }
    InternalOutbox(s, a);
  }

  lemma InternalKeys(s: State, a: Action)
    requires Enabled(s, a) && Internal(a)
    ensures RowsNext(s, a).Keys == s.rows.Keys
  {
  }

  lemma InternalOutbox(s: State, a: Action)
    requires Enabled(s, a) && Internal(a)
    ensures OutboxNext(s, a) <= s.outbox
  {
  }

  /** An internal step brings no message to life but the one it publishes. */
  lemma AliveBefore(s: State, a: Action, s': State, tag: Tag)
    requires Step(s, a, s') && Internal(a) && Alive(s', tag)
    ensures Alive(s, tag) || (a.Publish? && tag == |s.published| && a.job in s.outbox)
  {
  }

  /** A job for `id` is still to be reported on, or even to be published. */
  ghost predicate Awaited(s: State, id: Uuid) {
    Expected(s, id) || InOutbox(s, id)
  }

  ghost predicate InOutbox(s: State, id: Uuid) {
    exists job :: job in s.outbox && job.backupId == id
  }

  /** The row is done, or somebody will still report on it. */
  ghost predicate Settling(s: State, id: Uuid) {
    id in s.rows && (s.rows[id].status == Completed || Awaited(s, id))
  }

  /** A completed row stays so, unless a delivery for it starts over. */
  lemma CompletedAfter(s: State, a: Action, s': State, id: Uuid)
    requires Step(s, a, s') && Internal(a) && id in s.rows && s.rows[id].status == Completed
    ensures id in s'.rows
    ensures s'.rows[id].status == Completed || ((a.MarkRunning? || a.MarkFailed?) && Unreported(s', a.tag, id))
  {
  }

  /** A job leaves the outbox only into the queue. */
  lemma OutboxAfter(s: State, a: Action, s': State, job: Job)
    requires Step(s, a, s') && Internal(a) && Conserved(s) && job in s.outbox
    ensures job in s'.outbox
         || (Unreported(s', |s.published|, job.backupId) && |s.published| in s'.queue && |s.published| !in s'.inflight)
  {
    assert !Alive(s, |s.published|);
  }

  lemma {:induction false} StepKeepsSettling(s: State, a: Action, s': State, id: Uuid)
    requires Step(s, a, s') && Internal(a) && Conserved(s) && Settling(s, id)
    ensures Settling(s', id)
  {
    InternalEffect(s, a, s');
    if s.rows[id].status == Completed {
      CompletedAfter(s, a, s', id);
    } else if Expected(s, id) {
      var t :| Unreported(s, t, id);
      UnreportedAfter(s, a, t, id);
    } else {
      var job :| job in s.outbox && job.backupId == id;
      OutboxAfter(s, a, s', job);
    }
  }

  // ----- runs

  function CountTrue(flags: seq<bool>): nat {
    if flags == [] then 0 else CountTrue(flags[..|flags| - 1]) + if flags[|flags| - 1] then 1 else 0
  }

  function Disturbances(acts: seq<Action>): nat {
    CountTrue(seq(|acts|, i requires 0 <= i < |acts| => Disturbance(acts[i])))
  }

  lemma {:induction false} InternalRunKeeps(states: seq<State>, acts: seq<Action>, k: nat)
    requires IsInternalRun(states, acts) && Invariant(states[0]) && RowsPresent(states[0]) && k <= |acts|
    ensures Invariant(states[k]) && RowsPresent(states[k])
  {
    if k > 0 {
      InternalRunKeeps(states, acts, k - 1);
      assert StepAt(states, acts, k - 1);
      InternalStepKeeps(states[k - 1], acts[k - 1], states[k]);
    }
  }

  lemma InternalStepKeeps(s: State, a: Action, s': State)
    requires Step(s, a, s') && Internal(a) && Invariant(s) && RowsPresent(s)
    ensures Invariant(s') && RowsPresent(s')
  {
    StepKeepsInvariant(s, a);
    StepKeepsRowsPresent(s, a, s');
  }

  lemma StepBudget(s: State, a: Action, s': State)
    requires Step(s, a, s') && Internal(a) && Conserved(s) && RowsPresent(s)
    ensures Capacity(s') == Capacity(s)
    ensures 1 + PhasesLeft(s') <= PhasesLeft(s) + if Disturbance(a) then Capacity(s) + 1 else 0
  {
    StepKeepsRowsPresent(s, a, s');
    if Disturbance(a) {
      DisturbanceIsBounded(s, a, s');
    } else {
      ProgressLowers(s, a, s');
    }
  }

  lemma {:induction false} CapacityIsConstant(states: seq<State>, acts: seq<Action>, k: nat)
    requires IsInternalRun(states, acts) && Invariant(states[0]) && RowsPresent(states[0]) && k <= |acts|
    ensures Capacity(states[k]) == Capacity(states[0])
  {
    if k > 0 {
      CapacityIsConstant(states, acts, k - 1);
      InternalRunKeeps(states, acts, k - 1);
      assert StepAt(states, acts, k - 1);
      StepBudget(states[k - 1], acts[k - 1], states[k]);
    }
  }

  /** `refill` for every flag that is set. */
  function Refills(flags: seq<bool>, refill: nat): nat {
    if flags == [] then 0 else Refills(flags[..|flags| - 1], refill) + if flags[|flags| - 1] then refill else 0
  }

  lemma {:induction false} RefillsIsProduct(flags: seq<bool>, refill: nat)
    ensures Refills(flags, refill) == CountTrue(flags) * refill
  {
    if flags != [] {
      var before := flags[..|flags| - 1];
      RefillsIsProduct(before, refill);
      assert (CountTrue(before) + 1) * refill == CountTrue(before) * refill + refill;
    }
  }

  /** Numbers that fall at every step, except for flagged steps that may add `refill` to them. */
  lemma {:induction false} Budget(numbers: seq<nat>, flags: seq<bool>, refill: nat)
    requires |numbers| == |flags| + 1
    requires forall i :: 0 <= i < |flags| ==> 1 + numbers[i + 1] <= numbers[i] + if flags[i] then refill else 0
    ensures |flags| + numbers[|flags|] <= numbers[0] + Refills(flags, refill)
  {
    if flags != [] {
      var k := |flags| - 1;
      Budget(numbers[..k + 1], flags[..k], refill);
      assert 1 + numbers[k + 1] <= numbers[k] + if flags[k] then refill else 0;
    }
  }

  lemma RunBudget(states: seq<State>, acts: seq<Action>, i: nat)
    requires IsInternalRun(states, acts) && Invariant(states[0]) && RowsPresent(states[0]) && i < |acts|
    ensures 1 + PhasesLeft(states[i + 1])
         <= PhasesLeft(states[i]) + if Disturbance(acts[i]) then Capacity(states[0]) + 1 else 0
  {
    InternalRunKeeps(states, acts, i);
    CapacityIsConstant(states, acts, i);
    assert StepAt(states, acts, i);
    StepBudget(states[i], acts[i], states[i + 1]);
  }

  /**
   A run that is never disturbed has at most as many steps as there are phases left; each disturbance
   adds at most the capacity. So no run goes on for ever unless it is disturbed for ever.
   */
  lemma {:induction false} RunLengthIsBounded(states: seq<State>, acts: seq<Action>)
    requires IsInternalRun(states, acts) && Invariant(states[0]) && RowsPresent(states[0])
    ensures |acts| + PhasesLeft(Last(states))
         <= PhasesLeft(states[0]) + Disturbances(acts) * (Capacity(states[0]) + 1)
  {
    var numbers := seq(|states|, i requires 0 <= i < |states| => PhasesLeft(states[i]));
    var flags := seq(|acts|, i requires 0 <= i < |acts| => Disturbance(acts[i]));
    var refill := Capacity(states[0]) + 1;
    forall i | 0 <= i < |flags|
      ensures 1 + numbers[i + 1] <= numbers[i] + if flags[i] then refill else 0
    {
      RunBudget(states, acts, i);
    }
    Budget(numbers, flags, refill);
    RefillsIsProduct(flags, refill);
  }

  lemma {:induction false} RunKeepsSettling(states: seq<State>, acts: seq<Action>, id: Uuid, k: nat)
    requires IsInternalRun(states, acts) && Conserved(states[0]) && Settling(states[0], id) && k <= |acts|
    ensures Settling(states[k], id)
  {
    if k > 0 {
      RunKeepsSettling(states, acts, id, k - 1);
      RunKeepsConserved(states, acts, k - 1);
      assert StepAt(states, acts, k - 1);
      StepKeepsSettling(states[k - 1], acts[k - 1], states[k], id);
    }
  }

  // ----- coming to rest

  /** Every job still on its way has its row, or is past the check for it. */
  ghost predicate Clear(s: State) {
    && (forall tag :: Alive(s, tag) && Decodes(s, tag) ==> JobOf(s, tag).backupId in s.rows || PastCheck(s, tag))
    && (forall job :: job in s.outbox ==> job.backupId in s.rows)
  }

  /** While something is left to do and somebody is there to do it, some progress step can be taken. */
  lemma SomeProgress(s: State) returns (a: Action)
    requires Invariant(s) && Clear(s) && !AtRest(s) && s.live != {}
    ensures Progress(a) && Enabled(s, a)
  {
    if s.outbox != multiset{} {
      var job :| job in s.outbox;
      a := Publish(job);
    } else if s.queue != {} {
      var tag :| tag in s.queue;
      var w :| w in s.live;
      a := Deliver(tag, w);
    } else {
      var tag :| tag in s.inflight;
      assert Alive(s, tag);
      var w := s.inflight[tag].worker;
      if Idle(s, w) {
        a := if Decodes(s, tag) then Start(tag) else Reject(tag);
      } else {
        var t :| t in s.inflight && s.inflight[t].worker == w && s.inflight[t].phase != Buffered;
        a := NextStep(s, t);
      }
    }
  }

  lemma NextStep(s: State, tag: Tag) returns (a: Action)
    requires Invariant(s) && Clear(s) && InHand(s, tag)
    ensures Progress(a) && Enabled(s, a)
  {
    assert Alive(s, tag);
    a := match s.inflight[tag].phase
      case Started => MarkRunning(tag, 0)
      case MarkedRunning => Report(tag, 0)
      case Reported => Ack(tag)
      case _ => Requeue(tag);
  }

  /**
   Main result. Whenever an internal run has gone as far as progress steps can take it, with a worker
   left, every queue and buffer is empty and every row that was still awaited, or already completed,
   when the requests stopped is `completed`.
   */
  lemma {:induction false} DrainCompletes(states: seq<State>, acts: seq<Action>)
    requires IsInternalRun(states, acts) && Invariant(states[0]) && RowsPresent(states[0])
    requires Last(states).live != {}
    requires forall a :: Progress(a) ==> !Enabled(Last(states), a)
    ensures AtRest(Last(states))
    ensures forall id :: Settling(states[0], id) ==>
      id in Last(states).rows && Last(states).rows[id].status == Completed
  {
    var k := |acts|;
    InternalRunKeeps(states, acts, k);
    if !AtRest(states[k]) {
      var a := SomeProgress(states[k]);
    }
    forall id | Settling(states[0], id)
      ensures id in states[k].rows && states[k].rows[id].status == Completed
    {
      RunKeepsSettling(states, acts, id, k);
    }
  }

  // ----- exactly when the system can come to rest

  lemma {:induction false} StepKeepsClear(s: State, a: Action, s': State)
    requires Step(s, a, s') && Progress(a) && Conserved(s) && Clear(s)
    ensures Clear(s')
  {
    InternalEffect(s, a, s');
    LogGrows(s, a, s');
    forall tag | Alive(s', tag) && Decodes(s', tag)
      ensures JobOf(s', tag).backupId in s'.rows || PastCheck(s', tag)
    {
      AliveBefore(s, a, s', tag);
      JobsAfter(s, a);
      if PastCheck(s, tag) { PastCheckAfter(s, a, s', tag); }
    }
  }

  lemma PastCheckAfter(s: State, a: Action, s': State, tag: Tag)
    requires Step(s, a, s') && Progress(a) && PastCheck(s, tag) && Alive(s', tag) && tag !in s.queue
    ensures PastCheck(s', tag)
  {
  }

  lemma ProgressStep(s: State) returns (a: Action, s': State)
    requires Invariant(s) && Clear(s) && !AtRest(s) && s.live != {}
    ensures Progress(a) && Step(s, a, s')
    ensures Invariant(s') && Clear(s') && s'.live == s.live && PhasesLeft(s') < PhasesLeft(s)
  {
    a := SomeProgress(s);
    s' := Apply(s, a);
    ProgressLowers(s, a, s');
    StepKeepsClear(s, a, s');
    StepKeepsInvariant(s, a);
    LiveAfter(s, a, s');
  }

  lemma Prepend(s: State, a: Action, states: seq<State>, acts: seq<Action>)
    requires IsInternalRun(states, acts) && Internal(a) && Step(s, a, states[0])
    ensures IsInternalRun([s] + states, [a] + acts)
  {
    RunAfter(s, a, states, acts);
  }

  lemma {:induction false} ClearCanRest(s: State) returns (states: seq<State>, acts: seq<Action>)
    requires Invariant(s) && Clear(s) && s.live != {}
    ensures IsInternalRun(states, acts) && states[0] == s && AtRest(Last(states))
    decreases PhasesLeft(s)
  {
    if AtRest(s) {
      states, acts := [s], [];
    } else {
      var a, s' := ProgressStep(s);
      states, acts := ClearCanRest(s');
      Prepend(s, a, states, acts);
      states, acts := [s] + states, [a] + acts;
    }
  }

  /** With no worker connected, one joins first. */
  lemma ClearCanRestOnceJoined(s: State) returns (states: seq<State>, acts: seq<Action>)
    requires Invariant(s) && Clear(s) && s.live == {}
    ensures IsInternalRun(states, acts) && states[0] == s && AtRest(Last(states))
  {
    var s' := Apply(s, Join(0));
    StepKeepsInvariant(s, Join(0));
    JoinKeepsClear(s, 0);
    states, acts := ClearCanRest(s');
    Prepend(s, Join(0), states, acts);
    states, acts := [s] + states, [Join(0)] + acts;
  }

  lemma JoinKeepsClear(s: State, worker: WorkerId)
    requires Clear(s) && worker !in s.live
    ensures Clear(Apply(s, Join(worker)))
  {
    var s' := Apply(s, Join(worker));
    assert s' == s.(live := s.live + {worker});
    assert forall tag :: Decodes(s', tag) <==> Decodes(s, tag);
  }

  lemma LiveAfter(s: State, a: Action, s': State)
    requires Step(s, a, s') && Progress(a)
    ensures s'.live == s.live
  {
  }

  /** A job without a row that is not past the check keeps the system busy for ever. */
  ghost predicate Restless(s: State, id: Uuid) {
    && id in s.issued && id !in s.rows
    && (InOutbox(s, id) || exists tag :: Orphan(s, tag, id) && !PastCheck(s, tag))
  }

  lemma {:induction false} StepKeepsRestless(s: State, a: Action, s': State, id: Uuid)
    requires Step(s, a, s') && Internal(a) && Conserved(s) && Restless(s, id)
    ensures Restless(s', id)
  {
    RowStaysGone(s, a, s', id);
    if InOutbox(s, id) {
      var job :| job in s.outbox && job.backupId == id;
      OutboxAfter(s, a, s', job);
      if job !in s'.outbox {
        assert Orphan(s', |s.published|, id) && !PastCheck(s', |s.published|);
      }
    } else {
      var tag :| Orphan(s, tag, id) && !PastCheck(s, tag);
      StepKeepsOrphan(s, a, s', tag, id);
    }
  }

  lemma {:induction false} RunKeepsRestless(states: seq<State>, acts: seq<Action>, id: Uuid, k: nat)
    requires IsInternalRun(states, acts) && Conserved(states[0]) && Restless(states[0], id) && k <= |acts|
    ensures Restless(states[k], id)
  {
    if k > 0 {
      RunKeepsRestless(states, acts, id, k - 1);
      RunKeepsConserved(states, acts, k - 1);
      assert StepAt(states, acts, k - 1);
      StepKeepsRestless(states[k - 1], acts[k - 1], states[k], id);
    }
  }

  ghost predicate CanComeToRest(s: State) {
    exists states, acts :: IsInternalRun(states, acts) && states[0] == s && AtRest(Last(states))
  }

  /** The system can come to rest exactly if every job on its way has its row or is past the check for it. */
  lemma {:induction false} RestIffClear(s: State)
    requires Invariant(s)
    ensures CanComeToRest(s) <==> Clear(s)
  {
    if Clear(s) {
      if s.live != {} {
        var states, acts := ClearCanRest(s);
      } else {
        var states, acts := ClearCanRestOnceJoined(s);
      }
    } else if CanComeToRest(s) {
      var states, acts :| IsInternalRun(states, acts) && states[0] == s && AtRest(Last(states));
      var id := RestlessId(s);
      RunKeepsRestless(states, acts, id, |acts|);
    }
  }

  lemma RestlessId(s: State) returns (id: Uuid)
    requires Invariant(s) && !Clear(s)
    ensures Restless(s, id)
  {
    if job :| job in s.outbox && job.backupId !in s.rows {
      assert Faithful(s, job);
      id := job.backupId;
    } else {
      var tag :| Alive(s, tag) && Decodes(s, tag) && JobOf(s, tag).backupId !in s.rows && !PastCheck(s, tag);
      assert Faithful(s, JobOf(s, tag));
      id := JobOf(s, tag).backupId;
      assert Orphan(s, tag, id);
    }
  }
}
