/** What a batch-delete job records: one outcome per requested ID, counted and listed. */
module Batch {
  import opened Types

  datatype Outcome = Removed | Absent | Broken(message: string)

  const MAX_JOB_ERRORS := 100
  const MAX_ERROR_BYTES := 512

  /** Message text is taken byte by byte. */
  function TruncateError(msg: string): (r: string)
    ensures |r| <= MAX_ERROR_BYTES + 3
    ensures |msg| <= MAX_ERROR_BYTES ==> r == msg
    ensures |msg| > MAX_ERROR_BYTES ==> |r| == MAX_ERROR_BYTES + 3 && r[..MAX_ERROR_BYTES] == msg[..MAX_ERROR_BYTES] && r[MAX_ERROR_BYTES..] == "..."
  {
    if |msg| <= MAX_ERROR_BYTES then msg
    else
      var r := msg[..MAX_ERROR_BYTES] + "...";
      assert r[..MAX_ERROR_BYTES] == msg[..MAX_ERROR_BYTES] && r[MAX_ERROR_BYTES..] == "...";
      r
  }

  /** How many outcomes are of one kind: 0 removed, 1 absent, 2 broken. */
  function Kind(o: Outcome): nat {
    match o
    case Removed => 0
    case Absent => 1
    case Broken(_) => 2
  }

  function Count(outcomes: seq<Outcome>, kind: nat): nat {
    if outcomes == [] then 0
    else Count(outcomes[..|outcomes| - 1], kind) + (if Kind(outcomes[|outcomes| - 1]) == kind then 1 else 0)
  }

  /** The failures among the outcomes, in the order of the requests. */
  function Failures(ids: seq<string>, outcomes: seq<Outcome>): seq<JobError>
    requires |ids| == |outcomes|
  {
    if ids == [] then []
    else
      var n := |ids| - 1;
      Failures(ids[..n], outcomes[..n])
      + (if outcomes[n].Broken? then [JobError(ids[n], TruncateError(outcomes[n].message))] else [])
  }

  function FirstErrors(failures: seq<JobError>): seq<JobError> {
    if |failures| <= MAX_JOB_ERRORS then failures else failures[..MAX_JOB_ERRORS]
  }

  /** A job before its worker has started. */
  predicate IsQueued(job: BatchDeleteJob, ids: seq<string>) {
    && job.status == JOB_QUEUED && job.total == |ids|
    && job.deleted == job.notFound == job.failed == 0 && job.errors == []
  }

  /** The job with the given outcomes counted. */
  ghost predicate Tallies(job: BatchDeleteJob, start: BatchDeleteJob, ids: seq<string>, outcomes: seq<Outcome>)
    requires |ids| == |outcomes|
  {
    && job.jobID == start.jobID && job.total == start.total && job.createdAt == start.createdAt
    && job.deleted == Count(outcomes, 0) && job.notFound == Count(outcomes, 1) && job.failed == Count(outcomes, 2)
    && job.errors == FirstErrors(Failures(ids, outcomes))
  }

  /** The snapshot written after `k` requests. */
  ghost predicate IsSnapshot(job: BatchDeleteJob, start: BatchDeleteJob, ids: seq<string>, outcomes: seq<Outcome>, k: nat)
    requires k <= |ids| && k <= |outcomes|
  {
    job.status == JOB_RUNNING && Tallies(job, start, ids[..k], outcomes[..k])
  }

  /** What the worker has written after some requests: a running snapshot before the first and after each. */
  ghost predicate IsPartialLog(written: seq<BatchDeleteJob>, start: BatchDeleteJob, ids: seq<string>, outcomes: seq<Outcome>) {
    && |outcomes| <= |ids| && |written| == |outcomes| + 1
    && forall k :: 0 <= k <= |outcomes| ==> IsSnapshot(written[k], start, ids, outcomes, k)
  }

  /** Everything the worker writes: the running snapshots, then the final one. */
  ghost predicate IsLog(written: seq<BatchDeleteJob>, start: BatchDeleteJob, ids: seq<string>, outcomes: seq<Outcome>) {
    && |outcomes| == |ids| && |written| == |ids| + 2
    && IsPartialLog(written[..|ids| + 1], start, ids, outcomes)
    && Tallies(written[|ids| + 1], start, ids, outcomes)
    && written[|ids| + 1].status == (if Count(outcomes, 2) == |ids| > 0 then JOB_FAILED else JOB_COMPLETED)
  }

  lemma {:induction false} CountsAddUp(outcomes: seq<Outcome>)
    ensures Count(outcomes, 0) + Count(outcomes, 1) + Count(outcomes, 2) == |outcomes|
  {
    if outcomes != [] { CountsAddUp(outcomes[..|outcomes| - 1]); }
  }

  lemma {:induction false} FailuresCounted(ids: seq<string>, outcomes: seq<Outcome>)
    requires |ids| == |outcomes|
    ensures |Failures(ids, outcomes)| == Count(outcomes, 2)
    ensures forall i :: 0 <= i < |Failures(ids, outcomes)| ==> |Failures(ids, outcomes)[i].error| <= 515
  {
    if ids != [] { FailuresCounted(ids[..|ids| - 1], outcomes[..|ids| - 1]); }
  }

  lemma {:induction false} AllBroken(outcomes: seq<Outcome>)
    ensures Count(outcomes, 2) == |outcomes| <==> forall i :: 0 <= i < |outcomes| ==> outcomes[i].Broken?
  {
    CountsAddUp(outcomes);
    if outcomes != [] {
      var n := |outcomes| - 1;
      AllBroken(outcomes[..n]);
      CountsAddUp(outcomes[..n]);
      assert forall i :: 0 <= i < n ==> outcomes[..n][i] == outcomes[i];
    }
  }

  /**
   Every snapshot accounts for exactly the requests processed so far; the last one for all of
   them, with the first hundred failures in order, and failed exactly when every delete failed.
   */
  lemma LogBalances(written: seq<BatchDeleteJob>, start: BatchDeleteJob, ids: seq<string>, outcomes: seq<Outcome>)
    requires IsLog(written, start, ids, outcomes) && start.total == |ids|
    ensures forall k :: 0 <= k <= |ids| ==> written[k].deleted + written[k].notFound + written[k].failed == k
    ensures var last := written[|ids| + 1];
            && last.deleted + last.notFound + last.failed == last.total
            && |last.errors| == (if last.failed < MAX_JOB_ERRORS then last.failed else MAX_JOB_ERRORS)
            && last.errors == Failures(ids, outcomes)[..|last.errors|]
            && (forall i :: 0 <= i < |last.errors| ==> |last.errors[i].error| <= 515)
            && (last.status == JOB_FAILED <==> ids != [] && forall i :: 0 <= i < |ids| ==> outcomes[i].Broken?)
  {
    forall k | 0 <= k <= |ids| ensures written[k].deleted + written[k].notFound + written[k].failed == k {
      CountsAddUp(outcomes[..k]);
      assert written[..|ids| + 1][k] == written[k];
    }
    CountsAddUp(outcomes);
    FailuresCounted(ids, outcomes);
    AllBroken(outcomes);
  }

  /** One more outcome on a job that records those before it. */
  function AddOutcome(job: BatchDeleteJob, id: string, o: Outcome): BatchDeleteJob {
    match o
    case Removed => job.(deleted := job.deleted + 1)
    case Absent => job.(notFound := job.notFound + 1)
    case Broken(message) =>
      job.(failed := job.failed + 1,
           errors := if |job.errors| < MAX_JOB_ERRORS then job.errors + [JobError(id, TruncateError(message))] else job.errors)
  }

  lemma TallyOneMore(job: BatchDeleteJob, start: BatchDeleteJob, ids: seq<string>, outcomes: seq<Outcome>, id: string, o: Outcome)
    requires |ids| == |outcomes| && Tallies(job, start, ids, outcomes)
    ensures Tallies(AddOutcome(job, id, o), start, ids + [id], outcomes + [o])
  {
    assert (ids + [id])[..|ids|] == ids && (outcomes + [o])[..|ids|] == outcomes;
  }

  lemma LogStarts(start: BatchDeleteJob, ids: seq<string>, first: BatchDeleteJob)
    requires IsQueued(start, ids) && first == start.(status := JOB_RUNNING, updatedAt := first.updatedAt)
    ensures IsPartialLog([first], start, ids, [])
  {
  }

  lemma SnapshotKept(job: BatchDeleteJob, start: BatchDeleteJob, ids: seq<string>, outcomes: seq<Outcome>, o: Outcome, k: nat)
    requires k <= |ids| && k <= |outcomes| && IsSnapshot(job, start, ids, outcomes, k)
    ensures IsSnapshot(job, start, ids, outcomes + [o], k)
  {
    assert (outcomes + [o])[..k] == outcomes[..k];
  }

  lemma NextSnapshot(last: BatchDeleteJob, start: BatchDeleteJob, ids: seq<string>, outcomes: seq<Outcome>, o: Outcome, job: BatchDeleteJob)
    requires |outcomes| < |ids| && IsSnapshot(last, start, ids, outcomes, |outcomes|)
    requires var next := AddOutcome(last, ids[|outcomes|], o); job == next.(updatedAt := job.updatedAt)
    ensures IsSnapshot(job, start, ids, outcomes + [o], |outcomes| + 1)
  {
    var n := |outcomes|;
    assert outcomes[..n] == outcomes && (outcomes + [o])[..n + 1] == outcomes + [o];
    assert ids[..n + 1] == ids[..n] + [ids[n]];
    TallyOneMore(last, start, ids[..n], outcomes, ids[n], o);
  }

  lemma LogOneMore(written: seq<BatchDeleteJob>, start: BatchDeleteJob, ids: seq<string>, outcomes: seq<Outcome>, o: Outcome, job: BatchDeleteJob)
    requires IsPartialLog(written, start, ids, outcomes) && |outcomes| < |ids|
    requires var next := AddOutcome(written[|outcomes|], ids[|outcomes|], o); job == next.(updatedAt := job.updatedAt)
    ensures IsPartialLog(written + [job], start, ids, outcomes + [o])
  {
    var n := |outcomes|;
    NextSnapshot(written[n], start, ids, outcomes, o, job);
    forall k | 0 <= k <= n + 1 ensures IsSnapshot((written + [job])[k], start, ids, outcomes + [o], k) {
      if k <= n { SnapshotKept(written[k], start, ids, outcomes, o, k); }
    }
  }

  lemma LogEnds(written: seq<BatchDeleteJob>, start: BatchDeleteJob, ids: seq<string>, outcomes: seq<Outcome>, job: BatchDeleteJob)
    requires IsPartialLog(written, start, ids, outcomes) && |outcomes| == |ids|
    requires var last := written[|ids|];
             job == last.(status := job.status, updatedAt := job.updatedAt)
             && job.status == if last.failed > 0 && last.deleted == 0 && last.notFound == 0 then JOB_FAILED else JOB_COMPLETED
    ensures IsLog(written + [job], start, ids, outcomes)
  {
    CountsAddUp(outcomes);
    assert (written + [job])[..|ids| + 1] == written;
    assert ids[..|ids|] == ids && outcomes[..|ids|] == outcomes;
  }
}
