# vtpk-export core in Dafny

A model of `vtpk_export`, which exports a vector tile service's tiles to
vector tile packages. Its centre is `VectorTileLayer.export_tiles`. It
submits one `exportTiles` job with the caller's levels of detail, extent and
extra parameters. When the service refuses because the estimated tile count
exceeds its maximum, it reads both counts from the error message. It then
computes the factor `ceil(sqrt(estimated / maximum))`, cuts the extent into
`factor` by `factor` sub-extents, and submits one job per sub-extent. Each
job is polled until the service reports `esriJobSucceeded`, and its first
output URL is downloaded.

The modules follow the helpers of `src/vtpk_export/__init__.py`:

- `Common`: the error kinds (one per exception the code raises), `Result`,
  `Option`, and the JSON-like `Value` of parameters and extents.
- `Decimal`: `str(i)` and `int(s)` on integers.
- `DownloadName`: the output name and directory `_download_file` chooses.
- `Partition`: `_slice_extent_axis`.
- `Extents`: `_new_extent` (a loop over the coordinate keys, as a method)
  and the `itertools.product` grid of sub-extents.
- `SplitFactor`: the split factor, over exact integer arithmetic.
- `OverflowPattern`: the `re.search` for the overflow message, as a
  backtracking matcher for this one pattern.
- `ExportParams`: `_call_export_tiles`. The caller's `params` dict is a
  `ParamDict` object that the method updates in place.
- `Polling`: `_get_job_result` and its poll loop.
- `Export`: `export_tiles`, as a decision function `ExportPlan`, an
  outcome function `ExportOutcomeOf`, and a method `ExportTiles` proved
  against both.

The export service is a parameter `server` that maps a posted parameter
dictionary to a `Reply`. A `Reply` holds the submit response, the job id,
and the job statuses returned by successive polls. The system temporary
directory, the layer's `minLOD`/`maxLOD` and its token are parameters too.

## Model

| member | source | states |
|---|---|---|
| Decimal.ParseNatToString | src/vtpk_export/__init__.py:155 | `int` of the decimal text `str` gives for a natural number is that number |
| Decimal.IntToStringRoundTrip | src/vtpk_export/__init__.py:123 | `int(str(i)) == i` for every integer level, negative ones included |
| Decimal.ParseNat | src/vtpk_export/__init__.py:155 | `int(s)` of a digit string is 0 exactly when every digit is `0` |
| Decimal.NatToString | src/vtpk_export/__init__.py:123 | `str(n)` of a natural number is a non-empty digit string with no leading zero |
| Decimal.IntToString | src/vtpk_export/__init__.py:123 | `str(i)` is non-empty, starts with `-` exactly for a negative `i`, and never holds a comma, so the comma-joined levels stay separable |
| DownloadName.BeforeFirst | src/vtpk_export/__init__.py:19 | `url.split('?')[0]` is a prefix without `?`, ends at the first `?`, and is all of the text when there is no `?` |
| DownloadName.AfterLast | src/vtpk_export/__init__.py:20 | `split('/')[-1]` is a suffix without `/`, starts right after the last `/`, and is all of the text when there is no `/` |
| DownloadName.DefaultFileName | src/vtpk_export/__init__.py:18-20 | the name taken from a URL holds no `/` and no `?`, and a URL with neither character is its own name |
| DownloadName.OutputTarget | src/vtpk_export/__init__.py:18-24 | the directory is the given one or else the temporary directory; a given name is kept, and without one the name is the URL's default file name |
| DownloadName.DefaultFileNameDecomposition | src/vtpk_export/__init__.py:18-20 | every URL is a directory part (empty or ending in `/`), then the derived name, then a query (empty or starting at the first `?`) |
| DownloadName.BeforeFirstAtSeparator | src/vtpk_export/__init__.py:19 | splitting at `?` stops at the first separator, whatever follows it |
| DownloadName.AfterLastAtSeparator | src/vtpk_export/__init__.py:20 | taking the last `/`-segment stops at the last separator, whatever precedes it |
| Partition.SliceAxis | src/vtpk_export/__init__.py:43-46 | a zero factor fails with the division by zero; otherwise exactly `fctr` spans, the first starting at `lo` and the last ending at `hi` |
| Partition.SpanAt | src/vtpk_export/__init__.py:45-46 | span `i` is `[lo + i*w, lo + (i+1)*w]` with `w = (hi-lo)/fctr`: the end written from `hi` agrees with the end written from `lo` |
| Partition.SliceContiguous | src/vtpk_export/__init__.py:46 | each span ends exactly where the next one starts |
| Partition.SliceWidth | src/vtpk_export/__init__.py:45-46 | every span has width `(hi-lo)/fctr`, and it is non-empty exactly when `lo < hi` |
| Partition.SliceNoOverlap | src/vtpk_export/__init__.py:45-46 | for `lo <= hi` an earlier span ends no later than any later span starts, so spans share at most an end point |
| Partition.ChainCovers | src/vtpk_export/__init__.py:43-46 | a contiguous chain of ordered spans covers every point from its first start to its last end |
| Partition.SliceCovers | src/vtpk_export/__init__.py:43-46 | every point of `[lo, hi]` lies in some span: the slicing leaves no gap |
| Partition.SliceStartsDiffer | src/vtpk_export/__init__.py:45-46 | on an axis of positive length, distinct spans start at distinct points |
| Extents.NewExtent | src/vtpk_export/__init__.py:49-57 | the loop over the coordinate keys returns the extent `WithCoords` describes: the copy with each non-`None` coordinate written, in parameter order |
| Extents.WithCoords | src/vtpk_export/__init__.py:49-57 | a given coordinate holds its new value; a `None` coordinate and every other key (the spatial reference among them) keep the original value; no key is lost |
| Extents.Product | src/vtpk_export/__init__.py:166 | every pair of `itertools.product(xs, ys)` takes its first item from `xs` and its second from `ys` |
| Extents.ProductAt | src/vtpk_export/__init__.py:166 | `itertools.product(xs, ys)` has `len(xs)*len(ys)` pairs, and pair `i*len(ys)+j` is `(xs[i], ys[j])` |
| Extents.ProductLength | src/vtpk_export/__init__.py:166 | the product has `len(xs)*len(ys)` pairs |
| Extents.ProductIndex | src/vtpk_export/__init__.py:166 | pair `k` of the product is `(xs[k // len(ys)], ys[k % len(ys)])`: the first factor varies slowest |
| Extents.Cell | src/vtpk_export/__init__.py:165 | a sub-extent takes its four coordinates from its x-span and y-span and keeps every other key of the extent |
| Extents.Subextents | src/vtpk_export/__init__.py:165-166 | the comprehension over the product yields one sub-extent per pair, `len(xs)*len(ys)` in all |
| Extents.Grid | src/vtpk_export/__init__.py:161-166 | the grid of an `f` by `f` split has `f*f` sub-extents |
| Extents.GridCell | src/vtpk_export/__init__.py:161-166 | the grid has `f*f` cells, and cell `i*f+j` is built from x-slice `i` and y-slice `j` |
| Extents.GridPosition | src/vtpk_export/__init__.py:161-166 | every cell index `k` is `i*f+j` for one x-slice `i` and one y-slice `j` |
| Extents.GridCovers | src/vtpk_export/__init__.py:161-166 | every point of the extent's rectangle lies in some cell |
| Extents.GridDistinct | src/vtpk_export/__init__.py:161-166 | on an extent of positive width and height, no two cells are equal |
| Extents.CellStarts | src/vtpk_export/__init__.py:165 | equal cells come from spans with equal starts |
| SplitFactor.LeastFitFrom | src/vtpk_export/__init__.py:158 | the search upwards from `f` returns the least factor whose square grid fits the estimate |
| SplitFactor.Factor | src/vtpk_export/__init__.py:158 | the factor fits (`f*f*max >= est`) and no smaller factor does |
| SplitFactor.FactorIsCeilSqrt | src/vtpk_export/__init__.py:158 | the factor is `ceil(sqrt(est/max))`: its square reaches the ratio, its predecessor's square does not, and it is 0 exactly when `est` is 0 |
| SplitFactor.FactorWithinBudget | src/vtpk_export/__init__.py:155-158 | for a positive estimate the factor is at least 1, and `est/(f*f) <= max` |
| SplitFactor.FactorSplitsOverflow | src/vtpk_export/__init__.py:158 | an overflow (`est > max`) always gives a factor of at least 2 |
| SplitFactor.FactorExample | src/vtpk_export/__init__.py:158 | 15000 tiles against a maximum of 5000 give factor 2 |
| SplitFactor.FitsMonotone | src/vtpk_export/__init__.py:158 | a factor larger than a fitting one fits too |
| OverflowPattern.MatchAt | src/vtpk_export/__init__.py:147-150 | a match at a position yields one capture per group of the pattern, each a string of digits |
| OverflowPattern.SearchFrom | src/vtpk_export/__init__.py:147-150 | the leftmost match yields as many digit captures as the pattern has groups |
| OverflowPattern.OverflowCounts | src/vtpk_export/__init__.py:147-155 | a match gives two captures, estimate then maximum, each made of digits only |
| OverflowPattern.PatternHasTwoGroups | src/vtpk_export/__init__.py:148 | the pattern has exactly two capturing groups |
| OverflowPattern.OverflowMessageInText | src/vtpk_export/__init__.py:147-155 | the overflow message with counts `est` and `max`, after any text in which "estimated tile count" never starts and before any text at all, yields exactly `(est, max)` |
| OverflowPattern.OverflowMessageCounts | src/vtpk_export/__init__.py:147-155 | the service's overflow message on its own with counts `est` and `max` yields exactly `(est, max)` |
| OverflowPattern.SearchSkips | src/vtpk_export/__init__.py:147-150 | `re.search` moves past every position where the pattern does not match: the leftmost match is found further on |
| OverflowPattern.CharsMismatch | src/vtpk_export/__init__.py:148 | literal text in the pattern fails wherever the input does not hold that text |
| OverflowPattern.NoKeywordBefore | src/vtpk_export/__init__.py:147-150 | a start position inside a text free of "estimated tile count" stays free of it when the message follows, since the phrase cannot overlap itself |
| OverflowPattern.NoKeywordNoMatch | src/vtpk_export/__init__.py:147-150 | a message in which "estimated tile count" starts nowhere gives no match, so a 500 error with such a message is re-raised |
| OverflowPattern.CharsStep | src/vtpk_export/__init__.py:148 | literal text in the pattern matches exactly that text |
| OverflowPattern.LazyStops | src/vtpk_export/__init__.py:148 | a lazy gap first tries to match nothing |
| OverflowPattern.LazySkips | src/vtpk_export/__init__.py:148 | a lazy gap skips text without newlines while the rest does not match earlier |
| OverflowPattern.OptionalTaken | src/vtpk_export/__init__.py:148 | the optional `s` is taken when present and the rest matches after it |
| OverflowPattern.CountGroupStep | src/vtpk_export/__init__.py:148 | a parenthesised digit run is captured whole when the rest matches after the closing parenthesis |
| OverflowPattern.DigitRunEndAt | src/vtpk_export/__init__.py:148 | the greedy digit run stops at the first character that is not a digit |
| OverflowPattern.GroupsAppend | src/vtpk_export/__init__.py:148 | the groups of two concatenated pattern pieces add up |
| ExportParams.CallExportTiles | src/vtpk_export/__init__.py:106-125 | a non-dict `params` fails first, then a non-list `levels_of_detail`, leaving the dict unchanged; otherwise the caller's own dict (or a fresh one) is returned holding the caller's entries with the three reserved keys set |
| ExportParams.Join | src/vtpk_export/__init__.py:123 | `",".join(pieces)`; its partner is `SplitJoin` |
| ExportParams.SplitJoin | src/vtpk_export/__init__.py:123 | splitting a comma join at commas gives back the pieces when none holds a comma |
| ExportParams.LevelsText | src/vtpk_export/__init__.py:123 | the `levels` value `",".join(str(l) for l in levels)`; its partner is `LevelsTextRoundTrip` |
| ExportParams.LevelsTextRoundTrip | src/vtpk_export/__init__.py:123 | the `levels` text is empty for no levels, and otherwise splits and parses back to exactly the given levels, in order |
| ExportParams.LodRange | src/vtpk_export/__init__.py:118 | `range(minLOD, maxLOD + 1)`; its partner is `LodRangeSpec` |
| ExportParams.LodRangeSpec | src/vtpk_export/__init__.py:117-118 | the default levels are every level from `minLOD` to `maxLOD` inclusive, strictly increasing |
| ExportParams.RequestLevels | src/vtpk_export/__init__.py:117-120 | the caller's list, or else `range(minLOD, maxLOD + 1)`; its partners are `LodRangeSpec` and `CallExportTiles` |
| ExportParams.Split | src/vtpk_export/__init__.py:123 | `s.split(',')`, which the code never calls: it is the reference inverse of the join, used by `SplitJoin`; it always yields at least one piece |
| ExportParams.RequestEntries | src/vtpk_export/__init__.py:122-125 | the caller's entries with the three reserved keys written; its partner is `RequestEntriesSpec` |
| ExportParams.ExportExtentValue | src/vtpk_export/__init__.py:115 | `json.dumps(extent)` for a dict and the extent itself otherwise; its partner is `RequestEntriesSpec` |
| ExportParams.RequestEntriesSpec | src/vtpk_export/__init__.py:122-125 | the reserved keys hold the levels text, the JSON extent and the token whatever the caller put there; every other caller key is kept and no other key is added |
| ExportParams.RequestEntriesReuse | src/vtpk_export/__init__.py:169-170 | rebuilding the parameters over an already used dict only replaces the extent: nothing of the earlier extent survives |
| Polling.FirstSucceeded | src/vtpk_export/__init__.py:70-81 | the index found is a success with no success before it; no index means no status is a success |
| Polling.FirstSucceededIs | src/vtpk_export/__init__.py:70-81 | a success with no success before it is the first success |
| Polling.PendingIffNoSuccess | src/vtpk_export/__init__.py:70-81 | polling goes on exactly as long as no status is `esriJobSucceeded` |
| Polling.JobResultOf | src/vtpk_export/__init__.py:59-84 | a missing job id fails exactly then; the result is pending exactly when a job id exists and no status is a success; with a job id and a first success, an empty URL list fails and otherwise the result is the download of its first URL into the temporary directory under the URL's default name, which holds no `/` or `?` |
| Polling.DoneComesFromFirstSuccess | src/vtpk_export/__init__.py:78-84 | a download takes the first output URL of the first successful status, and writes it to the temporary directory under the URL's default file name |
| Polling.GetJobResult | src/vtpk_export/__init__.py:59-84 | the loop returns `JobResultOf`; it polls up to and including the first success and sleeps after every other status; without a job id it polls nothing |
| Export.Lookup | src/vtpk_export/__init__.py:161-162 | `extent[key]`, failing as not subscriptable or with the missing key; its partner is `AxisSlices` |
| Export.AxisSlices | src/vtpk_export/__init__.py:161-162 | a non-dict extent fails as not subscriptable, then a missing lower key, then a missing upper key, then a non-numeric value; with both numbers present the result is exactly `_slice_extent_axis` of them, and only then can it succeed |
| Export.ExportPlan | src/vtpk_export/__init__.py:141-166 | a split has a factor of at least 1 and `factor*factor` sub-extents |
| Export.Dispatch | src/vtpk_export/__init__.py:141-184 | no error gives a single job and only it does; a non-500 error leaves the result unbound and only it does; a 500 error re-raises its message exactly when the overflow pattern does not match; a split takes its factor from the two parsed counts |
| Export.OverflowDispatch | src/vtpk_export/__init__.py:141-166 | for an overflow message: an empty count fails in `int`, a zero maximum divides by zero, a zero estimate divides by zero in the slicing, and otherwise an extent with coordinates is split into the `f` by `f` grid; the split happens exactly in that last case |
| Export.FanOutPlan | src/vtpk_export/__init__.py:155-166 | a split needs all four numeric coordinates, has a factor of at least 1, and its sub-extents are the `f` by `f` grid over the extent |
| Export.FanOutWithinBudget | src/vtpk_export/__init__.py:155-158 | after a split each cell's share of the estimate is at most the maximum, and an overflow splits at least 2 by 2 |
| Export.OverflowExample | src/vtpk_export/__init__.py:141-166 | the overflow message with 15000 and 5000 splits any extent with coordinates into 2 by 2, that is 4 sub-extents |
| Export.ExportOutcomeOf | src/vtpk_export/__init__.py:135-184 | the export fails exactly when its plan fails, with the plan's error; it waits for many jobs exactly when it splits, `factor*factor` of them |
| Export.OutcomeOfPlan | src/vtpk_export/__init__.py:141-182 | the result fails exactly when the plan does, with its error; it holds many results exactly for a split, as many as there are sub-extents |
| Export.JobFor | src/vtpk_export/__init__.py:176 | the poll result of the job the service starts for one parameter dictionary; its partner is `FanOutOutcome` |
| Export.FanOutResults | src/vtpk_export/__init__.py:169-176 | one job result per sub-extent, in submission order; its partner is `FanOutOutcome` |
| Export.FanOutOutcome | src/vtpk_export/__init__.py:165-176 | a split's results are, as a multiset, exactly one result per sub-extent: that of the job posted with the caller's parameters and that sub-extent; `f*f` in all |
| Export.FirstAnswerOutcome | src/vtpk_export/__init__.py:141-184 | without an error the result is the one submitted job's; a 500 error that is not the overflow message fails with that message; any other code ends unbound |
| Export.OverflowScenario | src/vtpk_export/__init__.py:141-184 | a first answer reporting 15000 tiles against 5000 splits the extent into its 2 by 2 grid and yields exactly the results of the 4 jobs posted for those sub-extents; when every reply carries a job id and its first successful status lists an output URL, all 4 results are downloads |
| Export.ExportTiles | src/vtpk_export/__init__.py:135-184 | the argument errors come first; otherwise the result is `ExportOutcomeOf`, and the caller's dict ends holding the reserved keys of the last submission |
| Export.FollowPlan | src/vtpk_export/__init__.py:141-182 | fails with the plan's error, waits for the single job, or submits and waits for one job per sub-extent |
| Export.SubmitAll | src/vtpk_export/__init__.py:169-173 | job `k` is the service's answer to the caller's parameters with sub-extent `k`, and the reused dict ends with the last sub-extent |
| Export.AwaitAll | src/vtpk_export/__init__.py:176 | result `k` is the poll result of job `k` |

## Left out

- Network I/O is not modelled: the POSTs to `exportTiles`, the status GETs and the streamed download. The export service is the `server` parameter.
- Download failures from `raise_for_status` are not modelled, and neither is the written file. A download is described by its URL, directory and name.
- `sleep(5)` is only counted (`sleeps` in `Polling.GetJobResult`); no time passes.
- Polling never ends while no status is a success. The model polls a finite sequence of statuses and returns `Pending` when it runs out.
- `dask.bag` parallelism is not modelled. The jobs are awaited one after another and their results are kept as a multiset, so no order is promised.
- Exceptions and endless polling are results, not control flow. A `Failed` job result (or an export `Failure`) stands for the exception that ends `export_tiles` with no return value. When several fan-out jobs fail, the code surfaces only one of their exceptions, while the model keeps every `Failed` result in the multiset. A `Pending` result stands for a job that is polled forever.
- `VectorTileLayer.__init__` (its URL suffix check and the `FeatureLayer` base) and the `_post` and `_get_job_result` wrappers are not modelled. The layer's URL, token and LOD range are parameters.
- `tempfile.gettempdir`, `Path` joining and `.absolute()` are not modelled. The temporary directory is a parameter, and the result keeps the directory and name apart.
- `json.dumps` is not modelled: a dict extent becomes the symbolic value `Json(extent)`.
- Extents are not validated or canonicalised before submission, because the code has no such step. An extent is passed on as given.
- The unused `output_vtpk` and `status` arguments of `export_tiles` are not modelled.
- Missing `jobStatus`, `output`, `code` or `message` keys in a service answer are not modelled: those answers always carry them here. A missing `jobId` (the failed `assert`) and an empty `outputUrl` list are modelled.
- Levels of detail are integers. A list holding other values is not modelled.
- `Partition.SliceAxis`: coordinates are exact reals, not IEEE doubles, so contiguity and coverage hold exactly and rounding is not modelled.
- `SplitFactor.Factor`: computes the exact integer ceiling of the square root. `math.sqrt` on floats could round differently for very large counts.
- `OverflowPattern.MatchAt`: `\d` matches ASCII digits only, where Python also accepts other Unicode decimal digits. A lazy gap never crosses a newline, as in Python without `re.DOTALL`.
- The model keeps these behaviours of the code:
  - The factor is 0 when the estimate is 0. The slicing then divides by zero (`ZeroDivision`).
  - Caller keys named `levels`, `exportExtent` or `token` are overwritten silently, not rejected.
  - A single job returns one path, not a one-element list.
  - A sub-extent that overflows again is not split further: the fan-out results are never inspected.
  - A non-500 error leaves `vtpk_lst` unbound (`UnboundResult`) instead of reporting the error.
