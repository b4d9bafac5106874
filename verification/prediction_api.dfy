/**
 * The unified prediction endpoint: a registry of two trained predictors,
 * loaded once at startup, and a dispatcher that checks each request against
 * its task (model available, feature count) before invoking the predictor
 * and normalising its raw output into the response envelope.
 *
 * The predictors are opaque: a classifier from a feature vector to a class
 * index and a regressor from a feature vector to a price.
 */
module PredictionApi {
  import opened Wrappers

  type IrisPredictor = seq<real> -> int
  type HousingPredictor = seq<real> -> real

  // ---------------------------------------------------------------------
  // Model registry (startup)
  // ---------------------------------------------------------------------

  /** The two ways loading a model artifact can fail at startup. */
  datatype LoadFailure = FileMissing | LoadError

  /** What loading one artifact produced. */
  datatype LoadOutcome<M> = Loaded(model: M) | Failed(failure: LoadFailure)

  /** The process-wide models; `None` when unavailable. */
  datatype Registry = Registry(iris: Option<IrisPredictor>, housing: Option<HousingPredictor>)

  /**
   * Startup: the classifier is loaded first, then the regressor, inside one
   * guarded block; whichever load fails, both models end up unavailable.
   * `housingLoad` is only consulted when the classifier loaded.
   */
  function Startup(irisLoad: LoadOutcome<IrisPredictor>, housingLoad: LoadOutcome<HousingPredictor>): (reg: Registry)
    ensures reg.iris.Some? <==> reg.housing.Some?
    ensures reg.iris.Some? <==> irisLoad.Loaded? && housingLoad.Loaded?
    ensures reg.iris.Some? ==> reg.iris.value == irisLoad.model && reg.housing.value == housingLoad.model
  {
    match irisLoad
    case Failed(_) => Registry(None, None)
    case Loaded(irisModel) =>
      match housingLoad
      case Failed(_) => Registry(None, None)
      case Loaded(housingModel) => Registry(Some(irisModel), Some(housingModel))
  }

  // ---------------------------------------------------------------------
  // Request, response and errors
  // ---------------------------------------------------------------------

  const IrisTask := "iris"
  const HousingTask := "housing"
  const IrisFeatureCount: nat := 4
  const HousingFeatureCount: nat := 8

  /** Class index order fixed by the training of the classifier. */
  const SpeciesNames: seq<string> := ["setosa", "versicolor", "virginica"]

  datatype Request = Request(taskType: string, features: seq<real>)

  /** `prediction` is a species name for the classifier, a number for the regressor. */
  datatype PredictionValue = Species(name: string) | Price(amount: real)

  datatype Response = Response(taskType: string, prediction: PredictionValue, labelText: Option<string>)

  datatype ApiError =
    | ModelNotLoaded(task: string)
    | WrongFeatureCount(task: string, expected: nat, received: nat)
    | ClassIndexOutOfRange(index: int)
    | UnknownTaskType(taskType: string)

  /** The HTTP outcome: a response, or a status code with the error detail. */
  datatype Reply = Ok(response: Response) | Err(status: int, error: ApiError)

  /** Client errors are 400; a missing model or a bad class index is 500. */
  predicate IsClientError(e: ApiError) {
    e.WrongFeatureCount? || e.UnknownTaskType?
  }

  // ---------------------------------------------------------------------
  // Output normalisation
  // ---------------------------------------------------------------------

  /**
   * The class-index lookup as the code writes it: indexing a Python list,
   * where -1, -2 and -3 count from the end and anything else out of range
   * raises. Kept to exhibit the finding below; `DecodeSpecies` is used instead.
   */
  function PyLabelAt(i: int): (decoded: Option<string>)
    ensures decoded.Some? <==> -|SpeciesNames| <= i < |SpeciesNames|
    ensures decoded.Some? ==> decoded.value in SpeciesNames
  {
    if 0 <= i < |SpeciesNames| then Some(SpeciesNames[i])
    else if -|SpeciesNames| <= i < 0 then Some(SpeciesNames[|SpeciesNames| + i])
    else None
  }

  /** The as-written lookup maps the never-valid index -1 to a real species. */
  lemma PyLabelAtAcceptsNegativeIndex()
    ensures PyLabelAt(-1) == Some("virginica")
  {
  }

  /** Class-index decoding: only the indices of the label list decode. */
  function DecodeSpecies(i: int): (decoded: Option<string>)
    ensures decoded.Some? <==> 0 <= i < |SpeciesNames|
    ensures decoded.Some? ==> decoded.value == SpeciesNames[i]
  {
    if 0 <= i < |SpeciesNames| then Some(SpeciesNames[i]) else None
  }

  /** Decoding agrees with the list lookup on every valid index and is injective. */
  lemma DecodeSpeciesAgreesAndIsInjective(i: int, j: int)
    requires DecodeSpecies(i).Some? && DecodeSpecies(j).Some?
    ensures DecodeSpecies(i) == PyLabelAt(i)
    ensures DecodeSpecies(i) == DecodeSpecies(j) ==> i == j
  {
  }

  /** Python's `max(0.0, x)`. */
  function Clamp(x: real): (y: real)
    ensures y >= 0.0 && y >= x
    ensures y == 0.0 || y == x
  {
    if 0.0 < x then x else 0.0
  }

  /** `y` is a whole number of hundredths. */
  predicate IsHundredths(y: real) {
    (y * 100.0).Floor as real == y * 100.0
  }

  /** Rounding to 2 decimals: the nearest hundredth, halves rounded up. */
  function Round2(x: real): (y: real)
    ensures IsHundredths(y)
    ensures x - 0.005 < y <= x + 0.005
    ensures x >= 0.0 ==> y >= 0.0
  {
    ((x * 100.0 + 0.5).Floor as real) / 100.0
  }

  /** The regressor's output made business-safe: clamp first, then round. */
  function NormalizePrice(raw: real): (price: real)
    ensures price >= 0.0 && IsHundredths(price)
    ensures raw <= 0.0 ==> price == 0.0
    ensures raw > 0.0 ==> raw - 0.005 < price <= raw + 0.005
  {
    Round2(Clamp(raw))
  }

  // ---------------------------------------------------------------------
  // The endpoint
  // ---------------------------------------------------------------------

  /**
   * POST /predict. For each task: model availability (500), then the feature
   * count (400), then the predictor and the normaliser. Any other task type
   * is a 400.
   */
  function Predict(reg: Registry, req: Request): (reply: Reply)
    ensures reply.Ok? ==> reply.response.taskType == req.taskType
    ensures reply.Ok? && req.taskType == IrisTask ==>
      reply.response.prediction.Species? &&
      reply.response.prediction.name in SpeciesNames &&
      reply.response.labelText == Some(reply.response.prediction.name)
    ensures reply.Ok? && req.taskType == HousingTask ==>
      reply.response.prediction.Price? &&
      reply.response.prediction.amount >= 0.0 &&
      IsHundredths(reply.response.prediction.amount) &&
      reply.response.labelText.None?
    ensures reply.Err? ==> (reply.status == 400 <==> IsClientError(reply.error))
    ensures reply.Err? ==> (reply.status == 500 <==> !IsClientError(reply.error))
  {
    if req.taskType == IrisTask then
      match reg.iris
      case None => Err(500, ModelNotLoaded(IrisTask))
      case Some(model) =>
        if |req.features| != IrisFeatureCount then
          Err(400, WrongFeatureCount(IrisTask, IrisFeatureCount, |req.features|))
        else
          var index := model(req.features);
          match DecodeSpecies(index)
          case None => Err(500, ClassIndexOutOfRange(index))
          case Some(species) => Ok(Response(IrisTask, Species(species), Some(species)))
    else if req.taskType == HousingTask then
      match reg.housing
      case None => Err(500, ModelNotLoaded(HousingTask))
      case Some(model) =>
        if |req.features| != HousingFeatureCount then
          Err(400, WrongFeatureCount(HousingTask, HousingFeatureCount, |req.features|))
        else
          Ok(Response(HousingTask, Price(NormalizePrice(model(req.features))), None))
    else
      Err(400, UnknownTaskType(req.taskType))
  }

  // ---------------------------------------------------------------------
  // Properties of the endpoint
  // ---------------------------------------------------------------------

  /** The feature count the task's predictor expects. */
  function ExpectedCount(task: string): nat {
    if task == IrisTask then IrisFeatureCount else HousingFeatureCount
  }

  /** Whether the task's model is loaded in `reg`. */
  predicate TaskModelLoaded(reg: Registry, task: string) {
    if task == IrisTask then reg.iris.Some? else reg.housing.Some?
  }

  /** Availability is checked first: an unloaded model is a 500 whatever the features. */
  lemma UnloadedModelIsServerError(reg: Registry, req: Request)
    requires req.taskType == IrisTask || req.taskType == HousingTask
    requires !TaskModelLoaded(reg, req.taskType)
    ensures Predict(reg, req) == Err(500, ModelNotLoaded(req.taskType))
  {
  }

  /** With the model loaded, a wrong feature count is a 400 naming both counts. */
  lemma WrongCountIsClientError(reg: Registry, req: Request)
    requires req.taskType == IrisTask || req.taskType == HousingTask
    requires TaskModelLoaded(reg, req.taskType)
    requires |req.features| != ExpectedCount(req.taskType)
    ensures Predict(reg, req) ==
      Err(400, WrongFeatureCount(req.taskType, ExpectedCount(req.taskType), |req.features|))
  {
  }

  /**
   * The predictors are consulted only once every check passed: when they
   * fail, two registries that differ only in their predictors (not in which
   * are loaded) give the same reply.
   */
  lemma ChecksPrecedeInvocation(reg1: Registry, reg2: Registry, req: Request)
    requires reg1.iris.Some? == reg2.iris.Some? && reg1.housing.Some? == reg2.housing.Some?
    requires !((req.taskType == IrisTask || req.taskType == HousingTask) &&
               TaskModelLoaded(reg1, req.taskType) &&
               |req.features| == ExpectedCount(req.taskType))
    ensures Predict(reg1, req) == Predict(reg2, req)
    ensures Predict(reg1, req).Err?
  {
  }

  /** An iris reply is a success exactly for a valid class index, and then names that species twice. */
  lemma IrisReply(reg: Registry, req: Request)
    requires req.taskType == IrisTask && reg.iris.Some? && |req.features| == IrisFeatureCount
    ensures var i := reg.iris.value(req.features);
      (Predict(reg, req).Ok? <==> 0 <= i < |SpeciesNames|) &&
      (0 <= i < |SpeciesNames| ==>
        Predict(reg, req) == Ok(Response(IrisTask, Species(SpeciesNames[i]), Some(SpeciesNames[i])))) &&
      (!(0 <= i < |SpeciesNames|) ==> Predict(reg, req) == Err(500, ClassIndexOutOfRange(i)))
  {
  }

  /** A housing reply with the right count always succeeds with the normalised price and no label. */
  lemma HousingReply(reg: Registry, req: Request)
    requires req.taskType == HousingTask && reg.housing.Some? && |req.features| == HousingFeatureCount
    ensures Predict(reg, req) ==
      Ok(Response(HousingTask, Price(NormalizePrice(reg.housing.value(req.features))), None))
    ensures Predict(reg, req).response.prediction.amount >= 0.0
  {
  }

  /** A task type other than the two known ones is a 400 whatever the registry. */
  lemma UnknownTaskIsClientError(reg: Registry, req: Request)
    requires req.taskType != IrisTask && req.taskType != HousingTask
    ensures Predict(reg, req) == Err(400, UnknownTaskType(req.taskType))
  {
  }

  /**
   * No isolation between tasks: a regressor that fails to load also takes
   * the classifier down, so every iris request is then a 500.
   */
  lemma HousingLoadFailureDisablesIris(irisLoad: LoadOutcome<IrisPredictor>,
                                       housingLoad: LoadOutcome<HousingPredictor>,
                                       req: Request)
    requires housingLoad.Failed? && req.taskType == IrisTask
    ensures Predict(Startup(irisLoad, housingLoad), req) == Err(500, ModelNotLoaded(IrisTask))
  {
  }

  /** The classifier's index 0 on the example flower gives "setosa". */
  lemma SetosaExample(reg: Registry)
    requires reg.iris.Some? && reg.iris.value([5.1, 3.5, 1.4, 0.2]) == 0
    ensures Predict(reg, Request(IrisTask, [5.1, 3.5, 1.4, 0.2])) ==
      Ok(Response(IrisTask, Species("setosa"), Some("setosa")))
  {
  }

  /** Two iris features are refused with both counts in the error. */
  lemma ShortIrisExample(reg: Registry)
    requires reg.iris.Some?
    ensures Predict(reg, Request(IrisTask, [1.0, 2.0])) == Err(400, WrongFeatureCount(IrisTask, 4, 2))
  {
  }
}
