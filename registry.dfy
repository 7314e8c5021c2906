/** The static registries imported from `utils` (PRODUCT_SPECS, IMG_PROC_ALGO_SPECS,
    ESTIMATION_ALGO_SPECS, REDUCTION_SPECS), reduced to the fields the
    orchestration reads, and the processing plan a decoded code stands for.
    Their contents are not part of this model: every operation takes them as a parameter. */
module Registry {

  /** A calendar date, as a day number counted from 1970-01-01. */
  type Date = int

  /** 1960-01-01, the start date used for "auto" or blank ranges. */
  const Jan1st1960: Date := -3653

  datatype ProductSpec = ProductSpec(
    sensor: string,
    bandList: seq<string>,
    commonBands: map<string, int>,   // common name -> index into bandList, negative when absent
    spectralBandInds: seq<int>,
    qaLayer: seq<string>,
    startDate: Date,
    roughScale: real)

  datatype ImgProcAlgoSpec = ImgProcAlgoSpec(applicableTo: set<int>, nSimImgs: int)

  /** `paramName` is a single name or a list of names. */
  datatype ParamName = OneName(name: string) | NameList(names: seq<string>)

  datatype EstimationAlgoSpec = EstimationAlgoSpec(requiredBands: seq<string>, paramName: ParamName)

  datatype ReductionSpec = ReductionSpec(sufix: seq<string>)

  datatype Registries = Registries(
    products: map<int, ProductSpec>,
    imgProcAlgos: map<int, ImgProcAlgoSpec>,
    estimationAlgos: map<int, EstimationAlgoSpec>,
    reductions: map<int, ReductionSpec>)

  /** One processing code with the identifiers it unfolds to. */
  datatype Plan = Plan(code: nat, productID: int, imgProcAlgo: int, estimationAlgo: int, reducer: int)

  /** Every identifier of the plan is in its registry (what unfolding the code checks). */
  predicate Registered(reg: Registries, p: Plan)
  {
    p.productID in reg.products && p.imgProcAlgo in reg.imgProcAlgos &&
    p.estimationAlgo in reg.estimationAlgos && p.reducer in reg.reductions
  }

  /** Band indices of a product point into its band list. */
  predicate WellIndexed(spec: ProductSpec)
  {
    (forall k :: k in spec.commonBands ==> spec.commonBands[k] < |spec.bandList|) &&
    (forall i :: 0 <= i < |spec.spectralBandInds| ==> 0 <= spec.spectralBandInds[i] < |spec.bandList|)
  }
}
