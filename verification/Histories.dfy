/**
 Histories of the cluster, and what one worker did in them. Others act in between; what counts as the
 worker's own is every action on a delivery it holds, and its own connection's end.
 */
module Histories {
  import opened Wrappers
  import opened Backups
  import opened SyntheticData
  import opened SyntheticAnalysis
  import opened Logarithm
  import opened Entropy
  import opened EntropyLevels
  import opened JobProtocol
  import opened JobSafety
  import opened Grpc

  // ----- one worker and all the others

  /** An action that is not worker `w`'s own and leaves what `w` holds alone. */
  predicate ForeignAction(s: State, a: Action, w: WorkerId) {
    (OnDelivery(a) ==> !HoldsFor(s, a.tag, w)) && a != Crash(w)
  }

  /** What a worker does with a delivery it holds. */
  predicate OnDelivery(a: Action) {
    a.Reject? || a.Start? || a.MarkRunning? || a.MarkNotFound? || a.MarkFailed? || a.ComputeFailed?
    || a.Report? || a.ReportFailed? || a.Ack? || a.Requeue?
  }

  predicate HoldsFor(s: State, tag: Tag, w: WorkerId) {
    tag in s.inflight && s.inflight[tag].worker == w
  }

  lemma ForeignStepKeeps(s: State, a: Action, s': State, w: WorkerId, tag: Tag)
    requires Step(s, a, s') && ForeignAction(s, a, w) && Conserved(s) && HoldsFor(s, tag, w)
    ensures HoldsFor(s', tag, w) && s'.inflight[tag] == s.inflight[tag]
  {
  }

  lemma ForeignStepKeepsAll(s: State, a: Action, s': State, w: WorkerId, tag: Tag)
    requires Step(s, a, s') && ForeignAction(s, a, w) && Invariant(s) && HoldsFor(s, tag, w)
    ensures Invariant(s') && HoldsFor(s', tag, w) && s'.inflight[tag] == s.inflight[tag]
    ensures s.published <= s'.published
  {
    StepKeepsInvariant(s, a);
    ForeignStepKeeps(s, a, s', w, tag);
    LogGrows(s, a, s');
  }

  lemma ForeignStepKeepsWorker(s: State, a: Action, s': State, w: WorkerId)
    requires Step(s, a, s') && ForeignAction(s, a, w) && w in s.live
    ensures w in s'.live
    ensures Idle(s, w) ==> Idle(s', w)
  {
  }

  /** From state `i` to state `k` of the run, only others acted. */
  ghost predicate Foreign(states: seq<State>, acts: seq<Action>, w: WorkerId, i: nat, k: nat)
    requires i <= k <= |acts| && |states| == |acts| + 1
  {
    forall m :: i <= m < k ==> ForeignAction(states[m], acts[m], w)
  }

  /** While others act, worker `w` keeps its connection and what it holds, unchanged. */
  lemma {:induction false} ForeignRunKeeps(
    states: seq<State>, acts: seq<Action>, w: WorkerId, i: nat, k: nat, tag: Tag)
    requires IsRun(states, acts) && i <= k <= |acts| && Foreign(states, acts, w, i, k)
    requires Invariant(states[i]) && HoldsFor(states[i], tag, w)
    ensures Invariant(states[k]) && HoldsFor(states[k], tag, w)
    ensures states[k].inflight[tag] == states[i].inflight[tag]
    ensures states[i].published <= states[k].published
  {
    if i < k {
      ForeignRunKeeps(states, acts, w, i, k - 1, tag);
      var s, a, s' := states[k - 1], acts[k - 1], states[k];
      assert StepAt(states, acts, k - 1) && ForeignAction(s, a, w);
      ForeignStepKeepsAll(s, a, s', w, tag);
    }
  }

  lemma {:induction false} ForeignRunKeepsWorker(states: seq<State>, acts: seq<Action>, w: WorkerId, i: nat, k: nat)
    requires IsRun(states, acts) && i <= k <= |acts| && Foreign(states, acts, w, i, k)
    requires w in states[i].live
    ensures w in states[k].live
    ensures Idle(states[i], w) ==> Idle(states[k], w)
  {
    if i < k {
      ForeignRunKeepsWorker(states, acts, w, i, k - 1);
      assert StepAt(states, acts, k - 1);
      ForeignStepKeepsWorker(states[k - 1], acts[k - 1], states[k], w);
    }
  }

  lemma RunExtends(states: seq<State>, acts: seq<Action>, a: Action, s': State)
    requires IsRun(states, acts) && Step(Last(states), a, s')
    ensures IsRun(states + [s'], acts + [a])
  {
    forall i | 0 <= i < |acts| + 1
      ensures StepAt(states + [s'], acts + [a], i)
    {
      if i < |acts| { assert StepAt(states, acts, i); }
    }
  }

  // ----- histories

  /** A run, and at the position of each report, answered or not, what was sent. */
  datatype History = History(states: seq<State>, acts: seq<Action>, reports: map<nat, ProcessingResult>)

  predicate IsReport(a: Action) {
    a.Report? || a.ReportFailed?
  }

  ghost predicate ReportsRecorded(h: History) {
    forall m: nat :: m in h.reports <==> m < |h.acts| && IsReport(h.acts[m])
  }

  lemma RecordedNext(h: History, s: State, a: Action, result: ProcessingResult)
    requires ReportsRecorded(h)
    ensures !IsReport(a) ==> ReportsRecorded(History(h.states + [s], h.acts + [a], h.reports))
    ensures IsReport(a) ==> ReportsRecorded(History(h.states + [s], h.acts + [a], h.reports[|h.acts| := result]))
  {
  }

  /** `h'` continues `h`. */
  ghost predicate Longer(h: History, h': History) {
    && h.states <= h'.states && h.acts <= h'.acts
    && (forall m :: m in h.reports ==> m in h'.reports && h'.reports[m] == h.reports[m])
  }

  /** Positions `i` to `k` are ones of the history. */
  predicate Spans(h: History, i: nat, k: nat) {
    i <= k <= |h.acts| < |h.states|
  }

  /** The worker's own actions from position `i` to `k`, in order. */
  function OwnActs(h: History, w: WorkerId, i: nat, k: nat): seq<Action>
    requires Spans(h, i, k)
    decreases k - i
  {
    if i == k then []
    else OwnActs(h, w, i, k - 1) + if ForeignAction(h.states[k - 1], h.acts[k - 1], w) then [] else [h.acts[k - 1]]
  }

  lemma {:induction false} OwnActsOfOthers(h: History, w: WorkerId, i: nat, k: nat)
    requires Spans(h, i, k) && |h.states| == |h.acts| + 1 && Foreign(h.states, h.acts, w, i, k)
    ensures OwnActs(h, w, i, k) == []
    decreases k - i
  {
    if i < k { OwnActsOfOthers(h, w, i, k - 1); }
  }

  lemma {:induction false} OwnActsLater(h: History, h': History, w: WorkerId, i: nat, k: nat)
    requires Longer(h, h') && Spans(h, i, k) && Spans(h', i, k)
    ensures OwnActs(h', w, i, k) == OwnActs(h, w, i, k)
    decreases k - i
  {
    if i < k { OwnActsLater(h, h', w, i, k - 1); }
  }

  lemma {:induction false} OwnActsJoin(h: History, w: WorkerId, i: nat, j: nat, k: nat)
    requires Spans(h, i, j) && Spans(h, j, k)
    ensures OwnActs(h, w, i, k) == OwnActs(h, w, i, j) + OwnActs(h, w, j, k)
    decreases k - j
  {
    if j < k { OwnActsJoin(h, w, i, j, k - 1); }
  }

  // ----- reports

  /** What a worker has to report on a job it has processed. */
  function ReportOn(ln: real -> real, job: Job): ProcessingResult
    requires ln(2.0) > 0.0
  {
    var entropy := ShannonEntropy(ln, Cycled(job.sourcePath, WORKER_BYTES));
    ProcessingResult(Some(job.backupId), COMPLETED_TEXT, SimulatedSize(job.sourcePath), entropy,
                     Classify(entropy).IsSuspicious())
  }

  /**
   That is: the job's own id, completed, 128 times as many bytes as were analysed, the entropy of 8192
   bytes of the job's own path repeated, flagged exactly from 7.5 and so never for an ASCII path.
   */
  lemma ReportIsHonest(ln: real -> real, job: Job)
    requires IsLn(ln)
    ensures ln(2.0) > 0.0
    ensures var r, path := ReportOn(ln, job), job.sourcePath;
      && r.backupId == Some(job.backupId) && r.status == "completed"
      && r.sizeBytes == (if path == [] then 0 else 1_048_576)
      && r.entropy == ShannonEntropy(ln, Cycled(path, 8192)) && 0.0 <= r.entropy <= 8.0
      && (r.suspicious <==> r.entropy >= 7.5)
      && (IsAscii(path) ==> !r.suspicious)
      && (path != [] && 4096 % |path| == 0 ==> r.entropy == ShannonEntropy(ln, path))
  {
    LevelOfFewBytes(ln, Cycled(job.sourcePath, WORKER_BYTES));
    if IsAscii(job.sourcePath) {
      AsciiIsNeverSuspicious(ln, job.sourcePath, WORKER_BYTES);
    }
    if job.sourcePath != [] && 4096 % |job.sourcePath| == 0 {
      SameVerdict(ln, job.sourcePath);
    }
  }

  /** Action `m` is a report of the worker; what it sent is what is to be said of the delivery's job. */
  ghost predicate TrueReport(ln: real -> real, h: History, w: WorkerId, m: nat)
    requires m < |h.acts| && m < |h.states| && ln(2.0) > 0.0
  {
    IsReport(h.acts[m]) && !ForeignAction(h.states[m], h.acts[m], w) ==>
      && Decodes(h.states[m], h.acts[m].tag) && m in h.reports
      && h.reports[m] == ReportOn(ln, JobOf(h.states[m], h.acts[m].tag))
  }

  /** From position `i` to `k` the worker did just `own`, and all it reported is true. */
  ghost predicate Acted(ln: real -> real, h: History, w: WorkerId, i: nat, k: nat, own: seq<Action>) {
    && Spans(h, i, k) && ln(2.0) > 0.0
    && OwnActs(h, w, i, k) == own
    && forall m :: i <= m < k ==> TrueReport(ln, h, w, m)
  }

  lemma ActedLater(ln: real -> real, h: History, h': History, w: WorkerId, i: nat, k: nat, own: seq<Action>)
    requires Acted(ln, h, w, i, k, own) && Longer(h, h') && Spans(h', i, k)
    ensures Acted(ln, h', w, i, k, own)
  {
    OwnActsLater(h, h', w, i, k);
    forall m | i <= m < k
      ensures TrueReport(ln, h', w, m)
    {
      assert TrueReport(ln, h, w, m);
    }
  }

  lemma ActedNothing(ln: real -> real, h: History, w: WorkerId, i: nat, k: nat)
    requires ln(2.0) > 0.0 && Spans(h, i, k) && |h.states| == |h.acts| + 1 && Foreign(h.states, h.acts, w, i, k)
    ensures Acted(ln, h, w, i, k, [])
  {
    OwnActsOfOthers(h, w, i, k);
  }

  /** And then, as the last thing so far, one action more on a delivery; here, no report. */
  lemma ActedNext(
    ln: real -> real, h: History, h': History, w: WorkerId, i: nat, own: seq<Action>, a: Action, s': State)
    requires |h.states| == |h.acts| + 1 && Acted(ln, h, w, i, |h.acts|, own)
    requires h' == History(h.states + [s'], h.acts + [a], h.reports)
    requires OnDelivery(a) && !IsReport(a) && HoldsFor(Last(h.states), a.tag, w)
    ensures Acted(ln, h', w, i, |h'.acts|, own + [a])
  {
    ActedLater(ln, h, h', w, i, |h.acts|, own);
  }

  /** And here, a report on the delivery's job. */
  lemma ReportedNext(
    ln: real -> real, h: History, h': History, w: WorkerId, i: nat, own: seq<Action>, a: Action, s': State, job: Job)
    requires |h.states| == |h.acts| + 1 && Acted(ln, h, w, i, |h.acts|, own)
    requires (forall m :: m in h.reports ==> m < |h.acts|)
    requires h' == History(h.states + [s'], h.acts + [a], h.reports[|h.acts| := ReportOn(ln, job)])
    requires IsReport(a) && HoldsFor(Last(h.states), a.tag, w)
    requires Decodes(Last(h.states), a.tag) && JobOf(Last(h.states), a.tag) == job
    ensures Acted(ln, h', w, i, |h'.acts|, own + [a])
  {
    ActedLater(ln, h, h', w, i, |h.acts|, own);
  }

  /** First one thing, and, once the history has gone on to `h'`, another. */
  lemma ActedThen(
    ln: real -> real, h: History, h': History, w: WorkerId, i: nat, j: nat, k: nat,
    own: seq<Action>, own': seq<Action>)
    requires Acted(ln, h, w, i, j, own) && Longer(h, h') && Acted(ln, h', w, j, k, own')
    ensures Acted(ln, h', w, i, k, own + own')
  {
    ActedLater(ln, h, h', w, i, j, own);
    OwnActsJoin(h', w, i, j, k);
  }
}
