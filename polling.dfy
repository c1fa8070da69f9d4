/** `_get_job_result`: wait for an export job to succeed, then download its
    first output. The status requests are not modelled; what the server
    answers to the successive polls is given as a sequence, and when that
    sequence runs out before a success the job is still being polled (the
    source polls forever). */
module Polling {
  import opened Common
  import opened DownloadName

  const SUCCEEDED: string := "esriJobSucceeded"

  /** The part of a job-status answer the loop looks at: `jobStatus` and the
      list `output.outputUrl`. */
  datatype JobStatus = JobStatus(jobStatus: string, outputUrls: seq<string>)

  /** Where a finished job's artifact goes, as `_download_file(url)` names it. */
  datatype Download = Download(url: string, dir: string, name: string)

  datatype JobResult =
    | Done(file: Download)   // the job succeeded and its first output was fetched
    | Failed(error: Error)   // an exception ended the call
    | Pending                // no success among the statuses observed so far

  /** The index of the first successful status, if any. */
  function FirstSucceeded(statuses: seq<JobStatus>): (r: Option<nat>)
    ensures r.Some? ==> r.value < |statuses| && statuses[r.value].jobStatus == SUCCEEDED
    ensures r.Some? ==> forall k :: 0 <= k < r.value ==> statuses[k].jobStatus != SUCCEEDED
    ensures r.None? ==> forall k :: 0 <= k < |statuses| ==> statuses[k].jobStatus != SUCCEEDED
  {
    if statuses == [] then None
    else if statuses[0].jobStatus == SUCCEEDED then Some(0)
    else
      match FirstSucceeded(statuses[1..])
      case None => None
      case Some(k) => Some(k + 1)
  }

  /** What `_get_job_result` returns for a submit response with job id `jobId`
      whose polls are answered by `statuses`; `tempDir` is the system
      temporary directory the download goes to. */
  function JobResultOf(jobId: Option<string>, statuses: seq<JobStatus>, tempDir: string): (r: JobResult)
    ensures r == Failed(MissingJobId) <==> jobId.None?
    ensures r == Pending <==> jobId.Some? && FirstSucceeded(statuses).None?
    ensures r.Done? ==> r.file.dir == tempDir && '/' !in r.file.name && '?' !in r.file.name
    ensures jobId.Some? && FirstSucceeded(statuses).Some? ==>
      var urls := statuses[FirstSucceeded(statuses).value].outputUrls;
      r == (if urls == [] then Failed(NoOutputUrl) else Done(Download(urls[0], tempDir, DefaultFileName(urls[0]))))
  {
    if jobId.None? then Failed(MissingJobId)
    else match FirstSucceeded(statuses)
      case None => Pending
      case Some(k) =>
        var urls := statuses[k].outputUrls;
        if urls == [] then Failed(NoOutputUrl)
        else
          var target := OutputTarget(urls[0], None, None, tempDir);
          Done(Download(urls[0], target.0, target.1))
  }

  /** A downloaded artifact comes from the first output URL of the first
      successful status, and is written under the temporary directory with
      the URL's default file name. */
  lemma DoneComesFromFirstSuccess(jobId: Option<string>, statuses: seq<JobStatus>, tempDir: string)
    requires JobResultOf(jobId, statuses, tempDir).Done?
    ensures exists k :: (
      && 0 <= k < |statuses|
      && statuses[k].jobStatus == SUCCEEDED
      && (forall j :: 0 <= j < k ==> statuses[j].jobStatus != SUCCEEDED)
      && |statuses[k].outputUrls| > 0
      && JobResultOf(jobId, statuses, tempDir).file
        == Download(statuses[k].outputUrls[0], tempDir, DefaultFileName(statuses[k].outputUrls[0])))
  {
    var k := FirstSucceeded(statuses).value;
    assert 0 <= k < |statuses|;
  }

  /** The loop keeps polling exactly as long as no status is a success. */
  lemma PendingIffNoSuccess(jobId: string, statuses: seq<JobStatus>, tempDir: string)
    ensures JobResultOf(Some(jobId), statuses, tempDir) == Pending
      <==> forall k :: 0 <= k < |statuses| ==> statuses[k].jobStatus != SUCCEEDED
  {
    if FirstSucceeded(statuses).Some? {
      var k := FirstSucceeded(statuses).value;
      assert statuses[k].jobStatus == SUCCEEDED;
    }
  }

  /** `_get_job_result`: check the job id, poll until a status is a success,
      sleeping after every other status, then download the first output.
      `polls` counts the status requests made and `sleeps` the waits. */
  method GetJobResult(jobId: Option<string>, statuses: seq<JobStatus>, tempDir: string)
    returns (r: JobResult, polls: nat, sleeps: nat)
    ensures r == JobResultOf(jobId, statuses, tempDir)
    ensures jobId.Some? && FirstSucceeded(statuses).Some? ==>
      polls == FirstSucceeded(statuses).value + 1 && sleeps == polls - 1
    ensures jobId.Some? && FirstSucceeded(statuses).None? ==> polls == sleeps == |statuses|
    ensures jobId.None? ==> polls == 0 && sleeps == 0
  {
    polls, sleeps := 0, 0;
    if jobId.None? {
      return Failed(MissingJobId), polls, sleeps;
    }
    var complete := false;
    var job := JobStatus("", []);
    while !complete && polls < |statuses|
      invariant 0 <= polls <= |statuses|
      invariant complete ==> polls >= 1 && job == statuses[polls - 1] && job.jobStatus == SUCCEEDED
      invariant forall k :: 0 <= k < polls - (if complete then 1 else 0) ==> statuses[k].jobStatus != SUCCEEDED
      invariant sleeps == polls - (if complete then 1 else 0)
      decreases |statuses| - polls, if complete then 0 else 1
    {
      job := statuses[polls];
      polls := polls + 1;
      if job.jobStatus != SUCCEEDED {
        sleeps := sleeps + 1;
      } else {
        complete := true;
      }
    }
    if !complete {
      return Pending, polls, sleeps;
    }
    FirstSucceededIs(statuses, polls - 1);
    if job.outputUrls == [] {
      return Failed(NoOutputUrl), polls, sleeps;
    }
    var url := job.outputUrls[0];
    var target := OutputTarget(url, None, None, tempDir);
    r := Done(Download(url, target.0, target.1));
  }

  /** The first success is at `k` when `k` is a success and nothing before it is. */
  lemma {:induction false} FirstSucceededIs(statuses: seq<JobStatus>, k: nat)
    requires k < |statuses| && statuses[k].jobStatus == SUCCEEDED
    requires forall j :: 0 <= j < k ==> statuses[j].jobStatus != SUCCEEDED
    ensures FirstSucceeded(statuses) == Some(k)
  {
    if k > 0 {
      assert statuses[0].jobStatus != SUCCEEDED;
      FirstSucceededIs(statuses[1..], k - 1);
    }
  }
}
