/** `_call_export_tiles`: the request parameters of an `exportTiles` call.
    The caller's `params` dictionary is updated in place with the reserved keys
    `levels`, `exportExtent` and `token`; without one a fresh dictionary is
    used. The POST itself is not part of this model: the method returns the
    dictionary it would send. */
module ExportParams {
  import opened Common
  import opened Decimal
  import opened DownloadName

  /** A Python dict the caller owns and the export updates in place. */
  class ParamDict {
    var entries: map<string, Value>

    constructor (initial: map<string, Value>)
      ensures entries == initial
    {
      entries := initial;
    }
  }

  /** The `params` argument: `None`, a dict, or a value of some other type. */
  datatype ParamsArg = NoParams | DictParams(dict: ParamDict) | OtherParams(typeName: string)

  /** The `levels_of_detail` argument: `None`, a list of levels, or a value of
      some other type. */
  datatype LevelsArg = DefaultLevels | LevelList(levels: seq<int>) | OtherLevels(typeName: string)

  /** `','.join(pieces)`. */
  function Join(pieces: seq<string>): string {
    if |pieces| == 0 then ""
    else if |pieces| == 1 then pieces[0]
    else pieces[0] + "," + Join(pieces[1..])
  }

  /** `s.split(',')`: Python always returns at least one piece. */
  function Split(s: string): (pieces: seq<string>)
    ensures |pieces| >= 1
    decreases |s|
  {
    var head := BeforeFirst(s, ',');
    if |head| == |s| then [s] else [head] + Split(s[|head| + 1..])
  }

  predicate NoCommas(pieces: seq<string>) {
    forall k :: 0 <= k < |pieces| ==> ',' !in pieces[k]
  }

  /** Splitting a join gives back the pieces, as long as none of them holds a
      comma; a join of no pieces is the empty string, which splits as `['']`. */
  lemma {:induction false} SplitJoin(pieces: seq<string>)
    requires |pieces| >= 1 && NoCommas(pieces)
    ensures Split(Join(pieces)) == pieces
  {
    if |pieces| > 1 {
      var rest := Join(pieces[1..]);
      var s := pieces[0] + [','] + rest;
      assert Join(pieces) == s;
      BeforeFirstAtSeparator(pieces[0], rest, ',');
      assert s[|pieces[0]| + 1..] == rest;
      SplitJoin(pieces[1..]);
    }
  }

  /** `[str(i) for i in levels]`. */
  function LevelStrings(levels: seq<int>): seq<string> {
    seq(|levels|, k requires 0 <= k < |levels| => IntToString(levels[k]))
  }

  /** The value `_call_export_tiles` stores under `levels`. */
  function LevelsText(levels: seq<int>): string {
    Join(LevelStrings(levels))
  }

  /** The `levels` text lists the levels in order: it is empty for no levels,
      and otherwise splitting it at commas and parsing each piece gives back
      exactly the given levels. */
  lemma LevelsTextRoundTrip(levels: seq<int>)
    ensures levels == [] ==> LevelsText(levels) == ""
    ensures levels != [] ==>
      var pieces := Split(LevelsText(levels));
      && |pieces| == |levels|
      && forall k :: 0 <= k < |levels| ==> ParseInt(pieces[k]) == Some(levels[k])
  {
    if levels != [] {
      var strs := LevelStrings(levels);
      SplitJoin(strs);
      forall k | 0 <= k < |levels| ensures ParseInt(strs[k]) == Some(levels[k]) {
        IntToStringRoundTrip(levels[k]);
      }
    }
  }

  /** `range(minLOD, maxLOD + 1)`. */
  function LodRange(minLOD: int, maxLOD: int): seq<int> {
    if maxLOD < minLOD then [] else seq(maxLOD - minLOD + 1, k requires 0 <= k <= maxLOD - minLOD => minLOD + k)
  }

  /** The default levels are every level from `minLOD` to `maxLOD` inclusive,
      once each and in increasing order. */
  lemma LodRangeSpec(minLOD: int, maxLOD: int)
    ensures forall x :: x in LodRange(minLOD, maxLOD) <==> minLOD <= x <= maxLOD
    ensures forall i, j :: 0 <= i < j < |LodRange(minLOD, maxLOD)| ==> LodRange(minLOD, maxLOD)[i] < LodRange(minLOD, maxLOD)[j]
  {
    var r := LodRange(minLOD, maxLOD);
    forall x | minLOD <= x <= maxLOD ensures x in r {
      assert r[x - minLOD] == x;
    }
  }

  /** The levels that go into the request, for an argument that is not rejected. */
  function RequestLevels(levelsArg: LevelsArg, minLOD: int, maxLOD: int): seq<int>
    requires !levelsArg.OtherLevels?
  {
    if levelsArg.LevelList? then levelsArg.levels else LodRange(minLOD, maxLOD)
  }

  /** `json.dumps(extent) if isinstance(extent, dict) else extent`. */
  function ExportExtentValue(extent: Value): Value {
    if extent.Dict? then Json(extent) else extent
  }

  /** The parameters after the three reserved keys are set. */
  function RequestEntries(entries: map<string, Value>, levels: seq<int>, extent: Value, token: Value): map<string, Value> {
    entries["levels" := Str(LevelsText(levels))]["exportExtent" := ExportExtentValue(extent)]["token" := token]
  }

  /** The reserved keys always hold the system's values, whatever the caller
      put there; every other key the caller gave is kept unchanged and no key
      is added besides the reserved ones. */
  lemma RequestEntriesSpec(entries: map<string, Value>, levels: seq<int>, extent: Value, token: Value)
    ensures var r := RequestEntries(entries, levels, extent, token);
      && r.Keys == entries.Keys + {"levels", "exportExtent", "token"}
      && r["levels"] == Str(LevelsText(levels))
      && r["exportExtent"] == ExportExtentValue(extent)
      && r["token"] == token
      && forall k :: k in entries && k != "levels" && k != "exportExtent" && k != "token" ==> r[k] == entries[k]
  {
    assert "levels" != "exportExtent" && "levels" != "token" by {
      assert "levels"[0] != "exportExtent"[0] && "levels"[0] != "token"[0];
    }
    assert "exportExtent" != "token" by {
      assert "exportExtent"[0] != "token"[0];
    }
  }

  /** Building the parameters again over parameters already built only
      replaces the extent: a dict reused for several calls carries no trace of
      the earlier extents. */
  lemma RequestEntriesReuse(entries: map<string, Value>, levels: seq<int>, e1: Value, e2: Value, token: Value)
    ensures RequestEntries(RequestEntries(entries, levels, e1, token), levels, e2, token)
      == RequestEntries(entries, levels, e2, token)
  {
    var a := RequestEntries(RequestEntries(entries, levels, e1, token), levels, e2, token);
    var b := RequestEntries(entries, levels, e2, token);
    RequestEntriesSpec(RequestEntries(entries, levels, e1, token), levels, e2, token);
    RequestEntriesSpec(entries, levels, e1, token);
    RequestEntriesSpec(entries, levels, e2, token);
    assert a.Keys == b.Keys;
  }

  /** The dictionary `_call_export_tiles` starts from: the caller's own, or a
      fresh empty one. */
  function InitialEntries(params: ParamsArg): map<string, Value>
    reads if params.DictParams? then {params.dict} else {}
  {
    if params.DictParams? then params.dict.entries else map[]
  }

  /** `_call_export_tiles` up to the POST: check the arguments, then write the
      reserved keys into the parameter dictionary and return it. `minLOD` and
      `maxLOD` are the layer's properties, `token` its connection token. */
  method CallExportTiles(levelsArg: LevelsArg, extent: Value, params: ParamsArg, minLOD: int, maxLOD: int, token: Value)
    returns (r: Result<ParamDict>)
    modifies if params.DictParams? then {params.dict} else {}
    ensures params.OtherParams? ==> r == Failure(ParamsNotDict(params.typeName))
    ensures !params.OtherParams? && levelsArg.OtherLevels? ==> r == Failure(LevelsNotList(levelsArg.typeName))
    ensures r.Success? <==> !params.OtherParams? && !levelsArg.OtherLevels?
    ensures r.Failure? && params.DictParams? ==> params.dict.entries == old(params.dict.entries)
    ensures r.Success? && params.DictParams? ==> r.value == params.dict
    ensures r.Success? && params.NoParams? ==> fresh(r.value)
    ensures r.Success? ==> r.value.entries == RequestEntries(old(InitialEntries(params)), RequestLevels(levelsArg, minLOD, maxLOD), extent, token)
  {
    if params.OtherParams? {
      return Failure(ParamsNotDict(params.typeName));
    }
    var dict: ParamDict;
    if params.NoParams? {
      dict := new ParamDict(map[]);
    } else {
      dict := params.dict;
    }
    var exportExtent := ExportExtentValue(extent);
    var levels: seq<int>;
    match levelsArg {
      case DefaultLevels =>
        levels := LodRange(minLOD, maxLOD);
      case LevelList(given) =>
        levels := given;
      case OtherLevels(typeName) =>
        return Failure(LevelsNotList(typeName));
    }
    dict.entries := dict.entries["levels" := Str(LevelsText(levels))];
    dict.entries := dict.entries["exportExtent" := exportExtent];
    dict.entries := dict.entries["token" := token];
    return Success(dict);
  }
}
