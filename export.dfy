/** `VectorTileLayer.export_tiles`: submit the export, and when the service
    answers that the estimated tile count exceeds its maximum, split the
    extent into a `f` by `f` grid and submit one export per cell. */
module Export {
  import opened Common
  import opened Decimal
  import opened Partition
  import opened Extents
  import opened SplitFactor
  import opened OverflowPattern
  import opened ExportParams
  import opened Polling

  /** The `error` member of the service's answer to `exportTiles`. */
  datatype ServiceError = ServiceError(code: int, message: string)

  datatype ExportResponse = ExportResponse(error: Option<ServiceError>)

  /** What `export_tiles` does after the first submission. */
  datatype Plan =
    | SingleJob                                 // wait for the submitted job
    | FanOut(factor: nat, extents: seq<Extent>) // resubmit once per sub-extent

  /** `extent[key]` as a number, with the exception Python raises when it
      is not one: looking up both keys of an axis comes before the
      arithmetic on them. */
  function Lookup(extent: Value, key: string): Result<Value> {
    if !extent.Dict? then Failure(NotSubscriptable)
    else if key !in extent.fields then Failure(MissingKey(key))
    else Success(extent.fields[key])
  }

  /** `_slice_extent_axis(extent[loKey], extent[hiKey], f)`: the lower key is
      looked up first, then the upper one, then their difference is taken. */
  function AxisSlices(extent: Value, loKey: string, hiKey: string, f: nat): (r: Result<seq<Span>>)
    ensures r.Success? ==> (
      && extent.Dict? && loKey in extent.fields && hiKey in extent.fields
      && extent.fields[loKey].Num? && extent.fields[hiKey].Num?
      && r == SliceAxis(extent.fields[loKey].n, extent.fields[hiKey].n, f))
    ensures !extent.Dict? ==> r == Failure(NotSubscriptable)
    ensures extent.Dict? && loKey !in extent.fields ==> r == Failure(MissingKey(loKey))
    ensures extent.Dict? && loKey in extent.fields && hiKey !in extent.fields ==> r == Failure(MissingKey(hiKey))
    ensures extent.Dict? && loKey in extent.fields && hiKey in extent.fields ==> (
      if extent.fields[loKey].Num? && extent.fields[hiKey].Num?
      then r == SliceAxis(extent.fields[loKey].n, extent.fields[hiKey].n, f)
      else r == Failure(NotNumeric))
  {
    var lo := Lookup(extent, loKey);
    if lo.Failure? then Failure(lo.error)
    else
      var hi := Lookup(extent, hiKey);
      if hi.Failure? then Failure(hi.error)
      else if !(lo.value.Num? && hi.value.Num?) then Failure(NotNumeric)
      else SliceAxis(lo.value.n, hi.value.n, f)
  }

  /** The decision `export_tiles` takes on the first response, in the order
      the source evaluates it. */
  function ExportPlan(resp: ExportResponse, extent: Value): (r: Result<Plan>)
    ensures r.Success? && r.value.FanOut? ==>
      r.value.factor >= 1 && |r.value.extents| == r.value.factor * r.value.factor
  {
    if resp.error.None? then Success(SingleJob)
    else if resp.error.value.code != 500 then Failure(UnboundResult)
    else
      var msg := resp.error.value.message;
      match OverflowCounts(msg)
      case None => Failure(ServerError(msg))
      case Some((estText, maxText)) =>
        if estText == "" || maxText == "" then Failure(EmptyCount)
        else
          var est, max := ParseNat(estText), ParseNat(maxText);
          if max == 0 then Failure(ZeroDivision)
          else
            var f := Factor(est, max);
            var xs := AxisSlices(extent, "xmin", "xmax", f);
            if xs.Failure? then Failure(xs.error)
            else
              var ys := AxisSlices(extent, "ymin", "ymax", f);
              if ys.Failure? then Failure(ys.error)
              else Success(FanOut(f, Subextents(extent.fields, xs.value, ys.value)))
  }

  /** The four outcomes of the first response: no error means a single job,
      a non-500 error leaves the result unbound, a 500 error whose message is
      not the overflow message is re-raised, and only the overflow message
      (with its counts in the order estimated, maximum) leads to a split. */
  lemma Dispatch(resp: ExportResponse, extent: Value)
    ensures ExportPlan(resp, extent) == Success(SingleJob) <==> resp.error.None?
    ensures ExportPlan(resp, extent) == Failure(UnboundResult)
      <==> resp.error.Some? && resp.error.value.code != 500
    ensures ExportPlan(resp, extent).Failure? && ExportPlan(resp, extent).error.ServerError?
      <==> resp.error.Some? && resp.error.value.code == 500 && OverflowCounts(resp.error.value.message).None?
    ensures ExportPlan(resp, extent).Failure? && ExportPlan(resp, extent).error.ServerError? ==>
      ExportPlan(resp, extent).error.message == resp.error.value.message
    ensures ExportPlan(resp, extent).Success? && ExportPlan(resp, extent).value.FanOut? ==>
      && resp.error.Some? && resp.error.value.code == 500
      && var counts := OverflowCounts(resp.error.value.message);
      && counts.Some? && counts.value.0 != "" && counts.value.1 != "" && ParseNat(counts.value.1) > 0
      && ExportPlan(resp, extent).value.factor == Factor(ParseNat(counts.value.0), ParseNat(counts.value.1))
  {
  }

  /** An extent with all four coordinates given as numbers. */
  predicate HasCoordinates(extent: Value) {
    && extent.Dict?
    && "xmin" in extent.fields && "xmax" in extent.fields && "ymin" in extent.fields && "ymax" in extent.fields
    && extent.fields["xmin"].Num? && extent.fields["xmax"].Num?
    && extent.fields["ymin"].Num? && extent.fields["ymax"].Num?
  }

  /** A 500 error whose message matches the overflow pattern: an empty capture
      fails in `int('')`, a zero maximum in the division, a zero estimate in
      the slicing (factor 0); otherwise an extent with coordinates is split
      into the `f` by `f` grid, and the split happens exactly then. */
  lemma OverflowDispatch(msg: string, extent: Value)
    requires OverflowCounts(msg).Some?
    ensures var plan := ExportPlan(ExportResponse(Some(ServiceError(500, msg))), extent);
      var (e, m) := OverflowCounts(msg).value;
      && (e == "" || m == "" ==> plan == Failure(EmptyCount))
      && (e != "" && m != "" && ParseNat(m) == 0 ==> plan == Failure(ZeroDivision))
      && (e != "" && m != "" && ParseNat(m) > 0 && ParseNat(e) == 0 && HasCoordinates(extent) ==>
            plan == Failure(ZeroDivision))
      && (e != "" && m != "" && ParseNat(m) > 0 && ParseNat(e) > 0 && HasCoordinates(extent) ==>
            var f := Factor(ParseNat(e), ParseNat(m));
            plan == Success(FanOut(f, Grid(extent.fields, extent.fields["xmin"].n, extent.fields["xmax"].n,
                                           extent.fields["ymin"].n, extent.fields["ymax"].n, f))))
      && (plan.Success? <==> e != "" && m != "" && ParseNat(m) > 0 && ParseNat(e) > 0 && HasCoordinates(extent))
  {
    var (e, m) := OverflowCounts(msg).value;
    if e != "" && m != "" && ParseNat(m) > 0 {
      FactorIsCeilSqrt(ParseNat(e), ParseNat(m));
    }
  }

  /** A split happens only for an extent with numeric coordinates; its factor
      is at least 1 and its sub-extents are the grid of `f` x-slices by `f`
      y-slices of that extent (see `Extents.GridCell`, `Extents.GridCovers`
      and `Extents.GridDistinct`). */
  lemma FanOutPlan(resp: ExportResponse, extent: Value)
    requires ExportPlan(resp, extent).Success? && ExportPlan(resp, extent).value.FanOut?
    ensures var plan := ExportPlan(resp, extent).value;
      && HasCoordinates(extent)
      && plan.factor >= 1
      && plan.extents == Grid(extent.fields, extent.fields["xmin"].n, extent.fields["xmax"].n,
                              extent.fields["ymin"].n, extent.fields["ymax"].n, plan.factor)
  {
  }

  /** The estimate of each cell is within the maximum: `est / (f * f) <= max`. */
  lemma FanOutWithinBudget(msg: string, extent: Value)
    requires ExportPlan(ExportResponse(Some(ServiceError(500, msg))), extent).Success?
    ensures var counts := OverflowCounts(msg).value;
      var est, max := ParseNat(counts.0), ParseNat(counts.1);
      var f := ExportPlan(ExportResponse(Some(ServiceError(500, msg))), extent).value.factor;
      && max > 0 && est > 0
      && (est as real) / ((f * f) as real) <= max as real
      && (est > max ==> f >= 2)
  {
    var counts := OverflowCounts(msg).value;
    var est, max := ParseNat(counts.0), ParseNat(counts.1);
    assert Factor(est, max) != 0;
    FactorIsCeilSqrt(est, max);
    FactorWithinBudget(est, max);
    if est > max {
      FactorSplitsOverflow(est, max);
    }
  }

  /** An estimate of 15000 tiles against a maximum of 5000 splits the extent
      into 2 by 2 cells. */
  lemma OverflowExample(extent: Value)
    requires HasCoordinates(extent)
    ensures var plan := ExportPlan(ExportResponse(Some(ServiceError(500, OverflowMessage("15000", "5000")))), extent);
      && plan.Success? && plan.value.FanOut?
      && plan.value.factor == 2 && |plan.value.extents| == 4
  {
    assert AllDigits("15000") && AllDigits("5000");
    OverflowMessageCounts("15000", "5000");
    ParseExampleCounts();
    FactorExample();
    var resp := ExportResponse(Some(ServiceError(500, OverflowMessage("15000", "5000"))));
    FanOutPlan(resp, extent);
    GridCell(extent.fields, extent.fields["xmin"].n, extent.fields["xmax"].n,
             extent.fields["ymin"].n, extent.fields["ymax"].n, 2, 0, 0);
  }

  lemma ParseExampleCounts()
    ensures ParseNat("15000") == 15000 && ParseNat("5000") == 5000
  {
    assert "15000"[..4] == "1500" && "1500"[..3] == "150" && "150"[..2] == "15" && "15"[..1] == "1";
    assert "5000"[..3] == "500" && "500"[..2] == "50" && "50"[..1] == "5";
    assert ParseNat("1") == 1 && ParseNat("5") == 5;
  }

  /** What the export service answers to one posted parameter dictionary:
      the submit response, the job id it carries, and the statuses its job
      reports to successive polls. */
  datatype Reply = Reply(response: ExportResponse, jobId: Option<string>, statuses: seq<JobStatus>)

  /** `export_tiles`' return value: one job's result, or the results of the
      fan-out jobs in no particular order. A `Failed` result stands for the
      exception that ends `export_tiles` instead of a return value (when
      several fan-out jobs fail, only one of their exceptions reaches the
      caller), and a `Pending` result for a job that is polled forever. */
  datatype ExportOutcome = Single(result: JobResult) | Many(results: multiset<JobResult>)

  /** The result of polling the job the service starts for `body`. */
  function JobFor(body: map<string, Value>, tempDir: string, server: map<string, Value> -> Reply): JobResult {
    var reply := server(body);
    JobResultOf(reply.jobId, reply.statuses, tempDir)
  }

  /** The results of the fan-out jobs, one per sub-extent, in submission order. */
  function FanOutResults(entries: map<string, Value>, levels: seq<int>, exts: seq<Extent>, token: Value,
                         tempDir: string, server: map<string, Value> -> Reply): seq<JobResult> {
    seq(|exts|, k requires 0 <= k < |exts| =>
      JobFor(RequestEntries(entries, levels, Dict(exts[k]), token), tempDir, server))
  }

  /** What `export_tiles` returns once its arguments have passed the checks of
      `_call_export_tiles`; `entries` is the caller's `params` (or empty). */
  function ExportOutcomeOf(entries: map<string, Value>, levels: seq<int>, extent: Value, token: Value,
                           tempDir: string, server: map<string, Value> -> Reply): (r: Result<ExportOutcome>)
    ensures var plan := ExportPlan(server(RequestEntries(entries, levels, extent, token)).response, extent);
      && (r.Failure? <==> plan.Failure?)
      && (plan.Failure? ==> r.error == plan.error)
      && (r.Success? ==> (r.value.Many? <==> plan.value.FanOut?))
      && (r.Success? && r.value.Many? ==> |r.value.results| == plan.value.factor * plan.value.factor)
  {
    var reply := server(RequestEntries(entries, levels, extent, token));
    OutcomeOfPlan(ExportPlan(reply.response, extent), reply, entries, levels, token, tempDir, server)
  }

  /** The result once the plan for the first answer `reply` is known. */
  function OutcomeOfPlan(plan: Result<Plan>, reply: Reply, entries: map<string, Value>, levels: seq<int>, token: Value,
                         tempDir: string, server: map<string, Value> -> Reply): (r: Result<ExportOutcome>)
    ensures r.Failure? <==> plan.Failure?
    ensures plan.Failure? ==> r.error == plan.error
    ensures r.Success? ==> (r.value.Many? <==> plan.value.FanOut?)
    ensures r.Success? && r.value.Many? ==> |r.value.results| == |plan.value.extents|
  {
    match plan
    case Failure(e) => Failure(e)
    case Success(SingleJob) => Success(Single(JobResultOf(reply.jobId, reply.statuses, tempDir)))
    case Success(FanOut(_, exts)) => Success(Many(multiset(FanOutResults(entries, levels, exts, token, tempDir, server))))
  }

  /** A split export waits for exactly `f * f` jobs, and each result is that
      of the job submitted for one of the sub-extents, with the caller's
      parameters and that sub-extent as its `exportExtent`. */
  lemma FanOutOutcome(entries: map<string, Value>, levels: seq<int>, extent: Value, token: Value,
                      tempDir: string, server: map<string, Value> -> Reply)
    requires var reply := server(RequestEntries(entries, levels, extent, token));
      ExportPlan(reply.response, extent).Success? && ExportPlan(reply.response, extent).value.FanOut?
    ensures var reply := server(RequestEntries(entries, levels, extent, token));
      var plan := ExportPlan(reply.response, extent).value;
      var outcome := ExportOutcomeOf(entries, levels, extent, token, tempDir, server);
      && outcome.Success? && outcome.value.Many?
      && |outcome.value.results| == plan.factor * plan.factor
      && outcome.value.results == multiset(seq(|plan.extents|, k requires 0 <= k < |plan.extents| =>
           JobFor(RequestEntries(entries, levels, Dict(plan.extents[k]), token), tempDir, server)))
      && forall res :: res in outcome.value.results ==>
           exists k :: 0 <= k < |plan.extents|
             && res == JobFor(RequestEntries(entries, levels, Dict(plan.extents[k]), token), tempDir, server)
  {
    var reply := server(RequestEntries(entries, levels, extent, token));
    var plan := ExportPlan(reply.response, extent).value;
    var results := FanOutResults(entries, levels, plan.extents, token, tempDir, server);
    assert ExportOutcomeOf(entries, levels, extent, token, tempDir, server) == Success(Many(multiset(results)));
    assert |multiset(results)| == |results|;
    forall res | res in multiset(results)
      ensures exists k :: (
        && 0 <= k < |plan.extents|
        && res == JobFor(RequestEntries(entries, levels, Dict(plan.extents[k]), token), tempDir, server))
    {
      var k :| 0 <= k < |results| && results[k] == res;
    }
  }

  /** Without an error the export waits for the one job it submitted; a 500
      error that is not the overflow message fails with that message and no
      job is awaited; any other error code ends in the unbound result. */
  lemma FirstAnswerOutcome(entries: map<string, Value>, levels: seq<int>, extent: Value, token: Value,
                           tempDir: string, server: map<string, Value> -> Reply)
    ensures var reply := server(RequestEntries(entries, levels, extent, token));
      var outcome := ExportOutcomeOf(entries, levels, extent, token, tempDir, server);
      && (reply.response.error.None? ==> outcome == Success(Single(JobResultOf(reply.jobId, reply.statuses, tempDir))))
      && (reply.response.error.Some? && reply.response.error.value.code == 500
          && OverflowCounts(reply.response.error.value.message).None? ==>
            outcome == Failure(ServerError(reply.response.error.value.message)))
      && (reply.response.error.Some? && reply.response.error.value.code != 500 ==> outcome == Failure(UnboundResult))
  {
  }

  /** A reply whose job gets a job id and whose first successful status
      lists at least one output URL. */
  predicate SucceedsWithOutput(reply: Reply) {
    && reply.jobId.Some?
    && FirstSucceeded(reply.statuses).Some?
    && reply.statuses[FirstSucceeded(reply.statuses).value].outputUrls != []
  }

  /** A service that first reports an estimate of 15000 tiles against a
      maximum of 5000 makes `export_tiles` wait for exactly 4 jobs, and when
      every job the service starts succeeds with an output, all 4 results
      are downloads. */
  lemma OverflowScenario(entries: map<string, Value>, levels: seq<int>, extent: Value, token: Value,
                         tempDir: string, server: map<string, Value> -> Reply)
    requires HasCoordinates(extent)
    requires server(RequestEntries(entries, levels, extent, token)).response
      == ExportResponse(Some(ServiceError(500, OverflowMessage("15000", "5000"))))
    ensures var outcome := ExportOutcomeOf(entries, levels, extent, token, tempDir, server);
      var plan := ExportPlan(server(RequestEntries(entries, levels, extent, token)).response, extent);
      && plan.Success? && plan.value.FanOut? && |plan.value.extents| == 4
      && plan.value.extents == Grid(extent.fields, extent.fields["xmin"].n, extent.fields["xmax"].n,
                                    extent.fields["ymin"].n, extent.fields["ymax"].n, 2)
      && outcome.Success? && outcome.value.Many?
      && |outcome.value.results| == 4
      && outcome.value.results == multiset(seq(4, k requires 0 <= k < 4 =>
           JobFor(RequestEntries(entries, levels, Dict(plan.value.extents[k]), token), tempDir, server)))
      && ((forall body :: SucceedsWithOutput(server(body))) ==> forall res :: res in outcome.value.results ==> res.Done?)
  {
    OverflowExample(extent);
    FanOutOutcome(entries, levels, extent, token, tempDir, server);
    FanOutPlan(server(RequestEntries(entries, levels, extent, token)).response, extent);
    if forall body :: SucceedsWithOutput(server(body)) {
      var outcome := ExportOutcomeOf(entries, levels, extent, token, tempDir, server);
      forall res | res in outcome.value.results
        ensures res.Done?
      {
        var plan := ExportPlan(server(RequestEntries(entries, levels, extent, token)).response, extent).value;
        var k :| 0 <= k < |plan.extents|
          && res == JobFor(RequestEntries(entries, levels, Dict(plan.extents[k]), token), tempDir, server);
        assert SucceedsWithOutput(server(RequestEntries(entries, levels, Dict(plan.extents[k]), token)));
      }
    }
  }

  /** The caller's parameters after `export_tiles`: the reserved keys of the
      last submission, which for a split is the last sub-extent's. */
  function FinalEntries(entries: map<string, Value>, levels: seq<int>, extent: Value, token: Value,
                        server: map<string, Value> -> Reply): map<string, Value> {
    var reply := server(RequestEntries(entries, levels, extent, token));
    EntriesAfterPlan(ExportPlan(reply.response, extent), entries, levels, extent, token)
  }

  function EntriesAfterPlan(plan: Result<Plan>, entries: map<string, Value>, levels: seq<int>, extent: Value, token: Value): map<string, Value> {
    if plan.Success? && plan.value.FanOut? && plan.value.extents != [] then
      RequestEntries(entries, levels, Dict(plan.value.extents[|plan.value.extents| - 1]), token)
    else RequestEntries(entries, levels, extent, token)
  }

  /** `export_tiles`: submit, decide on the answer, and either wait for the one
      job or submit one job per cell of the split and wait for all of them.
      `server` stands for the export service, `tempDir` for the system
      temporary directory, `minLOD`, `maxLOD` and `token` for the layer's
      properties and connection. */
  method ExportTiles(levelsArg: LevelsArg, extent: Value, params: ParamsArg, minLOD: int, maxLOD: int, token: Value,
                     tempDir: string, server: map<string, Value> -> Reply)
    returns (r: Result<ExportOutcome>)
    modifies if params.DictParams? then {params.dict} else {}
    ensures params.OtherParams? ==> r == Failure(ParamsNotDict(params.typeName))
    ensures !params.OtherParams? && levelsArg.OtherLevels? ==> r == Failure(LevelsNotList(levelsArg.typeName))
    ensures !params.OtherParams? && !levelsArg.OtherLevels? ==>
      r == ExportOutcomeOf(old(InitialEntries(params)), RequestLevels(levelsArg, minLOD, maxLOD), extent, token, tempDir, server)
    ensures !params.OtherParams? && !levelsArg.OtherLevels? && params.DictParams? ==>
      params.dict.entries == FinalEntries(old(params.dict.entries), RequestLevels(levelsArg, minLOD, maxLOD), extent, token, server)
    ensures (params.OtherParams? || levelsArg.OtherLevels?) && params.DictParams? ==>
      params.dict.entries == old(params.dict.entries)
  {
    var first := CallExportTiles(levelsArg, extent, params, minLOD, maxLOD, token);
    if first.Failure? {
      return Failure(first.error);
    }
    ghost var initial := old(InitialEntries(params));
    var reply := server(first.value.entries);
    r := FollowPlan(ExportPlan(reply.response, extent), reply, levelsArg, extent, params, minLOD, maxLOD, token,
                    tempDir, server, initial);
  }

  /** The rest of `export_tiles` once the first answer `reply` has been turned
      into a plan: fail, wait for the one job, or fan out. */
  method FollowPlan(plan: Result<Plan>, reply: Reply, levelsArg: LevelsArg, extent: Value, params: ParamsArg,
                    minLOD: int, maxLOD: int, token: Value, tempDir: string, server: map<string, Value> -> Reply,
                    ghost initial: map<string, Value>)
    returns (r: Result<ExportOutcome>)
    requires !params.OtherParams? && !levelsArg.OtherLevels?
    requires params.NoParams? ==> initial == map[]
    requires params.DictParams? ==>
      params.dict.entries == RequestEntries(initial, RequestLevels(levelsArg, minLOD, maxLOD), extent, token)
    modifies if params.DictParams? then {params.dict} else {}
    ensures r == OutcomeOfPlan(plan, reply, initial, RequestLevels(levelsArg, minLOD, maxLOD), token, tempDir, server)
    ensures params.DictParams? ==>
      params.dict.entries == EntriesAfterPlan(plan, initial, RequestLevels(levelsArg, minLOD, maxLOD), extent, token)
  {
    ghost var levels := RequestLevels(levelsArg, minLOD, maxLOD);
    if plan.Failure? {
      return Failure(plan.error);
    }
    if plan.value.SingleJob? {
      var res, _, _ := GetJobResult(reply.jobId, reply.statuses, tempDir);
      return Success(Single(res));
    }
    var exts := plan.value.extents;
    var jobs := SubmitAll(levelsArg, exts, params, minLOD, maxLOD, token, server, initial, extent);
    var results := AwaitAll(jobs, tempDir);
    assert results == FanOutResults(initial, levels, exts, token, tempDir, server);
    return Success(Many(multiset(results)));
  }

  /** The list comprehension that submits one job per sub-extent, reusing the
      caller's `params` dict (or a fresh one each time): every job is posted
      with the caller's parameters and its own sub-extent. */
  method SubmitAll(levelsArg: LevelsArg, exts: seq<Extent>, params: ParamsArg, minLOD: int, maxLOD: int, token: Value,
                   server: map<string, Value> -> Reply, ghost initial: map<string, Value>, ghost previous: Value)
    returns (jobs: seq<Reply>)
    requires !params.OtherParams? && !levelsArg.OtherLevels?
    requires params.NoParams? ==> initial == map[]
    requires params.DictParams? ==>
      params.dict.entries == RequestEntries(initial, RequestLevels(levelsArg, minLOD, maxLOD), previous, token)
    modifies if params.DictParams? then {params.dict} else {}
    ensures |jobs| == |exts|
    ensures forall k :: 0 <= k < |exts| ==>
      jobs[k] == server(RequestEntries(initial, RequestLevels(levelsArg, minLOD, maxLOD), Dict(exts[k]), token))
    ensures params.DictParams? ==> (params.dict.entries
      == RequestEntries(initial, RequestLevels(levelsArg, minLOD, maxLOD), if exts == [] then previous else Dict(exts[|exts| - 1]), token))
  {
    ghost var levels := RequestLevels(levelsArg, minLOD, maxLOD);
    jobs := [];
    var i := 0;
    while i < |exts|
      invariant 0 <= i <= |exts| && |jobs| == i
      invariant forall k :: 0 <= k < i ==> jobs[k] == server(RequestEntries(initial, levels, Dict(exts[k]), token))
      invariant params.DictParams? ==>
        params.dict.entries == RequestEntries(initial, levels, if i == 0 then previous else Dict(exts[i - 1]), token)
    {
      ghost var before := if i == 0 then previous else Dict(exts[i - 1]);
      var submitted := CallExportTiles(levelsArg, Dict(exts[i]), params, minLOD, maxLOD, token);
      RequestEntriesReuse(initial, levels, before, Dict(exts[i]), token);
      jobs := jobs + [server(submitted.value.entries)];
      i := i + 1;
    }
  }

  /** `db.from_sequence(jobs).map(_get_job_result).compute()`: poll every
      submitted job and collect the results. */
  method AwaitAll(jobs: seq<Reply>, tempDir: string) returns (results: seq<JobResult>)
    ensures |results| == |jobs|
    ensures forall k :: 0 <= k < |jobs| ==> results[k] == JobResultOf(jobs[k].jobId, jobs[k].statuses, tempDir)
  {
    results := [];
    var j := 0;
    while j < |jobs|
      invariant 0 <= j <= |jobs| && |results| == j
      invariant forall k :: 0 <= k < j ==> results[k] == JobResultOf(jobs[k].jobId, jobs[k].statuses, tempDir)
    {
      var res, _, _ := GetJobResult(jobs[j].jobId, jobs[j].statuses, tempDir);
      results := results + [res];
      j := j + 1;
    }
  }
}
