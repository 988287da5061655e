/** The skin analyzer: which of its four artifacts load at start-up, the measurement
    prediction for one local image, and the analysis that binds the prediction to the fixed
    measurement schema and classifies the skin type. The regression network, the target
    scaler, the classifier pipeline and the label encoder are opaque functions carried by
    the artifacts that hold them. */
module SkinAnalyzer {
  import opened Wrappers
  import opened Exceptions

  /** Names of the 15 measurements, in the order shared by the regression output, the
      scaler and the classifier input. */
  const MeasurementColumns: seq<string> := [
    "수분_이마", "수분_오른쪽볼", "수분_왼쪽볼", "수분_턱",
    "탄력_턱_R2", "탄력_왼쪽볼_R2", "탄력_오른쪽볼_R2", "탄력_이마_R2",
    "모공개수_오른쪽볼", "모공개수_왼쪽볼",
    "스팟개수_정면",
    "주름_왼쪽눈가_Ra", "주름_왼쪽눈가_Rmax",
    "주름_오른쪽눈가_Ra", "주름_오른쪽눈가_Rmax"
  ]

  const NumTargetMeasurements: nat := |MeasurementColumns|

  /** The schema has fifteen distinct names, so binding values to it yields a well-formed
      dictionary with one entry per measurement. */
  lemma SchemaShape()
    ensures NumTargetMeasurements == 15
    ensures forall i, j :: 0 <= i < j < NumTargetMeasurements ==> MeasurementColumns[i] != MeasurementColumns[j]
  {
  }

  // ---------------------------------------------------------------------------------------
  // Artifacts and the loader

  /** A decoded RGB raster of a photograph. */
  datatype Raster = Raster(pixels: seq<bv8>)

  /** The regression network with its weights; `forward` stands for the resize/normalise
      transform followed by inference, yielding the scaled measurement vector. */
  datatype Network = Network(forward: Raster -> Result<seq<real>, Exc>)

  /** The target scaler; `inverseTransform` maps scaled values back to physical units. */
  datatype Scaler = Scaler(inverseTransform: seq<real> -> Result<seq<real>, Exc>)

  /** The skin-type classifier pipeline; `predict` yields an encoded class. */
  datatype Pipeline = Pipeline(predict: seq<real> -> Result<int, Exc>)

  /** The label encoder; `inverseTransform` decodes a class into its label. */
  datatype LabelEncoder = LabelEncoder(inverseTransform: int -> Result<string, Exc>)

  /** What the analyzer holds after start-up: each artifact present or absent. */
  datatype Bundle = Bundle(
    network: Option<Network>,
    scaler: Option<Scaler>,
    pipeline: Option<Pipeline>,
    encoder: Option<LabelEncoder>)
  {
    /** The gate of the analysis: every artifact is present. */
    predicate FullyLoaded() {
      network.Some? && scaler.Some? && pipeline.Some? && encoder.Some?
    }
  }

  /** The state of one artifact file: absent, present but failing to load, or loadable. */
  datatype ArtifactFile<T> = Missing | Unloadable(error: Exc) | Loadable(artifact: T)

  datatype ArtifactFiles = ArtifactFiles(
    network: ArtifactFile<Network>,
    scaler: ArtifactFile<Scaler>,
    pipeline: ArtifactFile<Pipeline>,
    encoder: ArtifactFile<LabelEncoder>)

  /** The network slot: any failure while building or loading it leaves the slot empty. */
  function LoadNetwork(file: ArtifactFile<Network>): Option<Network> {
    match file
    case Loadable(n) => Some(n)
    case _ => None
  }

  /** The classifier slots share one guarded block: the encoder is looked at only once the
      pipeline has loaded, and any failure empties both slots. */
  function LoadClassifier(pipeline: ArtifactFile<Pipeline>, encoder: ArtifactFile<LabelEncoder>)
    : (Option<Pipeline>, Option<LabelEncoder>)
  {
    match pipeline
    case Loadable(p) =>
      (match encoder
       case Loadable(e) => (Some(p), Some(e))
       case _ => (None, None))
    case _ => (None, None)
  }

  /** `_load_models`: the scaler is loaded without a guard, so its load error escapes;
      every other failure only leaves slots empty. */
  function LoadModels(files: ArtifactFiles): (r: Result<Bundle, Exc>)
    ensures r.Failure? <==> files.scaler.Unloadable?
    ensures r.Failure? ==> r.error == files.scaler.error
  {
    var network := LoadNetwork(files.network);
    var (pipeline, encoder) := LoadClassifier(files.pipeline, files.encoder);
    match files.scaler
    case Unloadable(e) => Failure(e)
    case Missing => Success(Bundle(network, None, pipeline, encoder))
    case Loadable(scaler) => Success(Bundle(network, Some(scaler), pipeline, encoder))
  }

  /** Loader coupling: the network and scaler slots are filled exactly when their own file
      loads, with that file's artifact, whatever happens to the others; the pipeline and encoder slots are filled
      together, and only when both files load. */
  lemma LoaderOutcome(files: ArtifactFiles)
    requires !files.scaler.Unloadable?
    ensures var b := LoadModels(files).value;
      && (b.network.Some? <==> files.network.Loadable?)
      && (b.network.Some? ==> b.network.value == files.network.artifact)
      && (b.scaler.Some? <==> files.scaler.Loadable?)
      && (b.scaler.Some? ==> b.scaler.value == files.scaler.artifact)
      && (b.pipeline.Some? <==> files.pipeline.Loadable? && files.encoder.Loadable?)
      && (b.encoder.Some? <==> b.pipeline.Some?)
      && (b.pipeline.Some? ==> b.pipeline.value == files.pipeline.artifact && b.encoder.value == files.encoder.artifact)
  {
  }

  /** The analysis gate opens exactly when all four files load. */
  lemma FullyLoadedIffAllLoadable(files: ArtifactFiles)
    ensures LoadModels(files).Success? && LoadModels(files).value.FullyLoaded()
        <==> files.network.Loadable? && files.scaler.Loadable? && files.pipeline.Loadable? && files.encoder.Loadable?
  {
  }

  // ---------------------------------------------------------------------------------------
  // Prediction

  /** A local image file: its path and, when it opens as an image, the RGB raster. */
  datatype LocalImage = LocalImage(path: string, decoded: Option<Raster>)

  const ModelNotLoadedMessage: string := "이미지 측정값 예측 모델이 로드되지 않았습니다."

  function UnreadableImageMessage(path: string): string {
    "이미지 파일 '" + path + "'을(를) 읽을 수 없습니다."
  }

  /** `predict_measurements_from_local_path`: the network is checked before the image is
      opened; the scaled output goes through the scaler when one is loaded. Errors of the
      network and the scaler propagate unchanged. */
  function PredictMeasurements(b: Bundle, image: LocalImage): Result<seq<real>, Exc> {
    if b.network.None? then Failure(RuntimeError(ModelNotLoadedMessage))
    else if image.decoded.None? then Failure(ValueError(UnreadableImageMessage(image.path)))
    else
      match b.network.value.forward(image.decoded.value)
      case Failure(e) => Failure(e)
      case Success(scaled) =>
        if b.scaler.Some? then b.scaler.value.inverseTransform(scaled) else Success(scaled)
  }

  /** Without a network the prediction fails the same way for every image: the image is
      never looked at. */
  lemma PredictNeedsNetwork(b: Bundle, image: LocalImage, other: LocalImage)
    requires b.network.None?
    ensures PredictMeasurements(b, image) == PredictMeasurements(b, other) == Failure(RuntimeError(ModelNotLoadedMessage))
  {
  }

  /** The physical vector is the scaler's inverse of the network output when a scaler is
      loaded, and the network output itself otherwise; an unreadable image fails with a
      value error naming its path. */
  lemma PredictScaling(b: Bundle, image: LocalImage)
    requires b.network.Some?
    ensures image.decoded.None? ==> PredictMeasurements(b, image) == Failure(ValueError(UnreadableImageMessage(image.path)))
    ensures image.decoded.Some? && b.network.value.forward(image.decoded.value).Success? ==>
      var scaled := b.network.value.forward(image.decoded.value).value;
      PredictMeasurements(b, image) == (if b.scaler.Some? then b.scaler.value.inverseTransform(scaled) else Success(scaled))
  {
  }

  // ---------------------------------------------------------------------------------------
  // Analysis

  /** The classifier's verdict: a decoded label, the default used when the classifier is not
      loaded, or the marker of a classifier exception. */
  datatype SkinType = Predicted(name: string) | Unavailable | PredictionError {
    function Text(): string {
      match this
      case Predicted(name) => name
      case Unavailable => "예측 불가"
      case PredictionError => "예측 오류"
    }
  }

  /** The result dictionary of an analysis: either only an `error` entry, or the rounded
      measurements (ordered name/value pairs), the skin type and the column list. */
  datatype SkinReport =
    | ErrorReport(error: string)
    | Report(averageMeasurements: seq<(string, real)>, predictedSkinType: SkinType, measurementColumns: seq<string>)

  const IncompleteModelsMessage: string := "피부 분석 모델이 완전히 로드되지 않았습니다. 서버 로그를 확인하세요."

  const LocalAnalysisFailurePrefix: string := "로컬 이미지 분석 실패: "

  /** The dictionary comprehension over the schema: entry `i` pairs column `i` with the
      rounded prediction `i`; a prediction shorter than the schema raises at its length. */
  function BindToSchema(prediction: seq<real>, round2: real -> real): (r: Result<seq<(string, real)>, Exc>)
    ensures r.Success? <==> |prediction| >= NumTargetMeasurements
    ensures r.Failure? ==> r.error.IndexError? && !r.error.IsValueOrRuntime()
    ensures r.Success? ==>
      && |r.value| == |MeasurementColumns|
      && forall i :: 0 <= i < |r.value| ==> r.value[i].0 == MeasurementColumns[i] && r.value[i].1 == round2(prediction[i])
  {
    if |prediction| < NumTargetMeasurements then Failure(IndexError(|prediction|, |prediction|))
    else Success(seq(NumTargetMeasurements, i requires 0 <= i < NumTargetMeasurements =>
                   (MeasurementColumns[i], round2(prediction[i]))))
  }

  /** The values of a bound measurement dictionary, in column order: the classifier's input. */
  function Values(measurements: seq<(string, real)>): seq<real> {
    seq(|measurements|, i requires 0 <= i < |measurements| => measurements[i].1)
  }

  /** Skin-type classification: pipeline then encoder, any exception of either becoming the
      error marker; without both artifacts the default stays. */
  function Classify(b: Bundle, measurements: seq<real>): SkinType {
    if b.pipeline.Some? && b.encoder.Some? then
      match b.pipeline.value.predict(measurements)
      case Failure(_) => PredictionError
      case Success(code) =>
        match b.encoder.value.inverseTransform(code)
        case Failure(_) => PredictionError
        case Success(name) => Predicted(name)
    else Unavailable
  }

  /** `analyze_skin_from_local_path` for its single image. `Failure` is an exception that
      escapes the call; `Success` is the returned dictionary. */
  function Analyze(b: Bundle, image: LocalImage, round2: real -> real): (r: Result<SkinReport, Exc>)
    ensures !b.FullyLoaded() ==> r == Success(ErrorReport(IncompleteModelsMessage))
    ensures r.Success? && r.value.Report? ==>
      && b.FullyLoaded()
      && image.decoded.Some?
      && r.value.measurementColumns == MeasurementColumns
      && |r.value.averageMeasurements| == NumTargetMeasurements
      && (forall i :: 0 <= i < NumTargetMeasurements ==> r.value.averageMeasurements[i].0 == MeasurementColumns[i])
      && r.value.predictedSkinType != Unavailable
    ensures r.Failure? ==> !r.error.IsValueOrRuntime()
  {
    if !b.FullyLoaded() then Success(ErrorReport(IncompleteModelsMessage))
    else
      match PredictMeasurements(b, image)
      case Failure(e) =>
        if e.IsValueOrRuntime() then Success(ErrorReport(LocalAnalysisFailurePrefix + e.message))
        else Failure(e)
      case Success(prediction) =>
        match BindToSchema(prediction, round2)
        case Failure(e) => Failure(e)
        case Success(measurements) =>
          Success(Report(measurements, Classify(b, Values(measurements)), MeasurementColumns))
  }

  /** With any artifact missing the analysis returns the error dictionary whatever the
      image: no prediction or classification runs. */
  lemma GateStopsEverything(b: Bundle, image: LocalImage, other: LocalImage, round2: real -> real, round2': real -> real)
    requires !b.FullyLoaded()
    ensures Analyze(b, image, round2) == Analyze(b, other, round2') == Success(ErrorReport(IncompleteModelsMessage))
  {
  }

  /** A successful analysis: value `i` is the rounded `i`-th component of the scaler's
      inverse of the network output (never the unscaled vector), the classifier sees exactly
      those rounded values in schema order, and its verdict is a decoded label or the error
      marker, never the not-loaded default. */
  lemma MeasuredReport(b: Bundle, image: LocalImage, round2: real -> real)
    requires Analyze(b, image, round2).Success? && Analyze(b, image, round2).value.Report?
    ensures var report := Analyze(b, image, round2).value;
      && b.network.Some? && b.scaler.Some? && image.decoded.Some?
      && var scaled := b.network.value.forward(image.decoded.value);
      && scaled.Success?
      && var physical := b.scaler.value.inverseTransform(scaled.value);
      && physical.Success?
      && |physical.value| >= NumTargetMeasurements
      && (forall i :: 0 <= i < NumTargetMeasurements ==>
            report.averageMeasurements[i] == (MeasurementColumns[i], round2(physical.value[i])))
      && var rounded := seq(NumTargetMeasurements, i requires 0 <= i < NumTargetMeasurements => round2(physical.value[i]));
      && (report.predictedSkinType == PredictionError || report.predictedSkinType.Predicted?)
      && (report.predictedSkinType.Predicted? ==>
            && b.pipeline.value.predict(rounded).Success?
            && b.encoder.value.inverseTransform(b.pipeline.value.predict(rounded).value)
               == Success(report.predictedSkinType.name))
      && (b.pipeline.value.predict(rounded).Success?
          && b.encoder.value.inverseTransform(b.pipeline.value.predict(rounded).value).Success? ==>
            report.predictedSkinType
              == Predicted(b.encoder.value.inverseTransform(b.pipeline.value.predict(rounded).value).value))
  {
    var report := Analyze(b, image, round2).value;
    var physical := PredictMeasurements(b, image).value;
    var measurements := BindToSchema(physical, round2).value;
    var rounded := seq(NumTargetMeasurements, i requires 0 <= i < NumTargetMeasurements => round2(physical[i]));
    assert Values(measurements) == rounded;
  }

  /** Which dictionary comes back: the error dictionary exactly when the gate is closed, the
      image does not open, or the network or scaler raises a value or runtime error; an
      escaping exception exactly when they raise anything else or the vector is shorter than
      the schema. */
  lemma AnalyzeOutcome(b: Bundle, image: LocalImage, round2: real -> real)
    ensures var r := Analyze(b, image, round2);
      var p := PredictMeasurements(b, image);
      && (r.Success? && r.value.ErrorReport? <==>
            !b.FullyLoaded() || (p.Failure? && p.error.IsValueOrRuntime()))
      && (r.Failure? <==>
            b.FullyLoaded() && ((p.Failure? && !p.error.IsValueOrRuntime()) || (p.Success? && |p.value| < NumTargetMeasurements)))
      && (b.FullyLoaded() && image.decoded.None? ==>
            r == Success(ErrorReport(LocalAnalysisFailurePrefix + UnreadableImageMessage(image.path))))
  {
  }

  /** Start-up of the service: the analyzer instance exists unless its construction raised,
      which happens exactly when the scaler file is present but fails to load. */
  function StartAnalyzer(files: ArtifactFiles): (instance: Option<Bundle>)
    ensures instance.None? <==> files.scaler.Unloadable?
  {
    match LoadModels(files)
    case Success(b) => Some(b)
    case Failure(_) => None
  }
}
