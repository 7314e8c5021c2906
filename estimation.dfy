/** The bookkeeping of `estimation` in geedar_lib/geedar.py: which parameter
    names each estimation algorithm adds to the module-level `export_bands`. The
    estimation formulas themselves run on the remote engine and are not modelled. */
module Estimation {
  import opened Registry
  import opened Wrappers

  /** `algos` is an int or a list of ints. */
  datatype Algos = OneAlgo(id: int) | AlgoList(ids: seq<int>)

  /** `if not isinstance(algos, list): algos = [algos]`. */
  function AsList(algos: Algos): seq<int>
  {
    match algos
    case OneAlgo(id) => [id]
    case AlgoList(ids) => ids
  }

  /** `if not isinstance(varName, list): varName = [varName]`. */
  function ParamNames(p: ParamName): seq<string>
  {
    match p
    case OneName(n) => [n]
    case NameList(ns) => ns
  }

  predicate AllRegistered(reg: Registries, ids: seq<int>)
  {
    forall i :: 0 <= i < |ids| ==> ids[i] in reg.estimationAlgos
  }

  /** The product has every band the algorithm requires. */
  predicate Applicable(reg: Registries, algo: int, bandKeys: set<string>)
    requires algo in reg.estimationAlgos
  {
    forall b :: b in reg.estimationAlgos[algo].requiredBands ==> b in bandKeys
  }

  /** What one algorithm appends: its parameter names, unless it is not
      applicable or its only name is "". */
  function Contribution(reg: Registries, algo: int, bandKeys: set<string>): seq<string>
    requires algo in reg.estimationAlgos
  {
    var names := ParamNames(reg.estimationAlgos[algo].paramName);
    if Applicable(reg, algo, bandKeys) && names != [""] then names else []
  }

  /** The names appended by the algorithms `ids[..n]`, in order. */
  function AddedParams(reg: Registries, ids: seq<int>, bandKeys: set<string>, n: nat): seq<string>
    requires n <= |ids| && AllRegistered(reg, ids)
  {
    if n == 0 then [] else AddedParams(reg, ids, bandKeys, n - 1) + Contribution(reg, ids[n - 1], bandKeys)
  }

  /** A name is appended exactly when some applicable algorithm with a
      non-empty name list declares it. */
  lemma {:induction false} AddedParamsExact(reg: Registries, ids: seq<int>, bandKeys: set<string>, n: nat, x: string)
    requires n <= |ids| && AllRegistered(reg, ids)
    ensures x in AddedParams(reg, ids, bandKeys, n) <==>
      exists i :: 0 <= i < n && Applicable(reg, ids[i], bandKeys) &&
        ParamNames(reg.estimationAlgos[ids[i]].paramName) != [""] &&
        x in ParamNames(reg.estimationAlgos[ids[i]].paramName)
  {
    if n > 0 {
      AddedParamsExact(reg, ids, bandKeys, n - 1, x);
    }
  }

  datatype EstimationError = UnaryPlusOnStr

  /** Lines 1335-1365 as written: the warning message for an inapplicable
      algorithm is built by a statement that ends after its first string, so
      the next line applies unary `+` to a str and raises TypeError. */
  function EstimationAsWritten(reg: Registries, algos: Algos, bandKeys: set<string>): (r: Result<seq<string>, EstimationError>)
    requires AllRegistered(reg, AsList(algos))
    ensures r.Err? <==> exists i :: 0 <= i < |AsList(algos)| && !Applicable(reg, AsList(algos)[i], bandKeys)
    ensures r.Ok? ==> r.value == AddedParams(reg, AsList(algos), bandKeys, |AsList(algos)|)
  {
    var ids := AsList(algos);
    if exists i :: 0 <= i < |ids| && !Applicable(reg, ids[i], bandKeys) then Err(UnaryPlusOnStr)
    else Ok(AddedParams(reg, ids, bandKeys, |ids|))
  }

  /** The registry of a missing-band algorithm: #7 needs "red", which the bands lack. */
  function MissingRedRegistry(): Registries
  {
    Registries(map[], map[], map[7 := EstimationAlgoSpec(["red"], OneName("turbidity"))], map[])
  }

  /** The defect: an algorithm whose bands are missing aborts the run instead
      of being skipped with a message. */
  lemma {:induction false} InapplicableAlgorithmRaisesAsWritten()
    ensures EstimationAsWritten(MissingRedRegistry(), OneAlgo(7), {"NIR"}) == Err(UnaryPlusOnStr)
    ensures AddedParams(MissingRedRegistry(), [7], {"NIR"}, 1) == []
  {
    var reg := MissingRedRegistry();
    assert !Applicable(reg, 7, {"NIR"}) by { assert "red" in reg.estimationAlgos[7].requiredBands; }
  }

  /** The module-level state `estimation` reads and extends. */
  class Session {
    /** The keys of the global `bands` dictionary. */
    var bandKeys: set<string>
    /** The global `export_bands` list. */
    var exportBands: seq<string>

    constructor (keys: set<string>)
      ensures bandKeys == keys && exportBands == []
    {
      bandKeys := keys;
      exportBands := [];
    }

    /** `estimation` with the message built as one expression: an inapplicable
        algorithm is skipped; each applicable one extends `export_bands` with
        its parameter names unless they are [""]. */
    method Estimation(reg: Registries, algos: Algos)
      requires AllRegistered(reg, AsList(algos))
      modifies this`exportBands
      ensures exportBands == old(exportBands) + AddedParams(reg, AsList(algos), bandKeys, |AsList(algos)|)
    {
      var ids := AsList(algos);
      var i := 0;
      while i < |ids|
        invariant 0 <= i <= |ids|
        invariant exportBands == old(exportBands) + AddedParams(reg, ids, bandKeys, i)
      {
        var algo := ids[i];
        if !(forall b :: b in reg.estimationAlgos[algo].requiredBands ==> b in bandKeys) {
          i := i + 1;
          continue;
        }
        var varName := ParamNames(reg.estimationAlgos[algo].paramName);
        if varName != [""] {
          exportBands := exportBands + varName;
        }
        i := i + 1;
      }
    }
  }
}
