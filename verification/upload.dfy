/** The `/upload-and-analyze` handler: the tone and skin branches that fail independently,
    their merge into one response, the stored file's name, key and URL, and the order of its
    effects (temporary file, database row, object upload, clean-up). The personal-color
    analysis, the database and the object store are outcomes supplied by the environment. */
module Upload {
  import opened Wrappers
  import opened Exceptions
  import PosixPath
  import SkinAnalyzer
  import Text

  /** The Python values the tone analysis may return, as far as the handler inspects them. */
  datatype Value = Str(s: string) | Dict(entries: map<string, Value>) | Other

  // ---------------------------------------------------------------------------------------
  // Tone branch

  const ToneFailure: Value := Dict(map["error" := Str("Personal color analysis failed")])

  /** The tone branch: its result, or the error dictionary when it raised, whatever the
      exception. */
  function ToneBranch(outcome: Result<Value, Exc>): (tone: Value)
    ensures outcome.Failure? ==> tone == Dict(map["error" := Str("Personal color analysis failed")])
    ensures outcome.Success? ==> tone == outcome.value
  {
    match outcome
    case Success(tone) => tone
    case Failure(_) => ToneFailure
  }

  /** The `personal_color` column: a dictionary's `tone` entry, a string itself, else "N/A". */
  function PersonalColorColumn(tone: Value): Value {
    match tone
    case Dict(entries) => if "tone" in entries then entries["tone"] else Str("N/A")
    case Str(_) => tone
    case Other => Str("N/A")
  }

  /** The column as the tone branch feeds it: a failed analysis records "N/A"; a string
      result is recorded as is; a dictionary result contributes its `tone` entry or "N/A". */
  lemma PersonalColorOfTone(outcome: Result<Value, Exc>)
    ensures outcome.Failure? ==> PersonalColorColumn(ToneBranch(outcome)) == Str("N/A")
    ensures outcome.Success? && outcome.value.Str? ==> PersonalColorColumn(ToneBranch(outcome)) == outcome.value
    ensures outcome.Success? && outcome.value.Dict? ==>
      PersonalColorColumn(ToneBranch(outcome)) ==
        (if "tone" in outcome.value.entries then outcome.value.entries["tone"] else Str("N/A"))
    ensures outcome.Success? && outcome.value.Other? ==> PersonalColorColumn(ToneBranch(outcome)) == Str("N/A")
  {
  }

  // ---------------------------------------------------------------------------------------
  // Skin branch

  /** The `skin_analysis` part of the response. */
  datatype SkinSummary = SkinSummary(averageMeasurements: seq<(string, real)>, predictedSkinType: string)

  const InitialSkinSummary: SkinSummary := SkinSummary([], "분석 실패")

  const SkinErrorPrefix: string := "피부 분석 오류: "

  const SkinFailurePrefix: string := "피부 분석 실패: "

  const UnexpectedSkinError: string := "피부 분석 중 예상치 못한 오류 발생"

  /** The skin branch: an error dictionary keeps the empty measurements and labels the
      error, a full dictionary is copied, and an escaping exception becomes a label. */
  function SkinBranch(raw: Result<SkinAnalyzer.SkinReport, Exc>): SkinSummary {
    match raw
    case Success(ErrorReport(error)) =>
      InitialSkinSummary.(predictedSkinType := SkinErrorPrefix + error)
    case Success(Report(measurements, skinType, _)) =>
      SkinSummary(measurements, skinType.Text())
    case Failure(e) =>
      if e.IsValueOrRuntime() then InitialSkinSummary.(predictedSkinType := SkinFailurePrefix + e.message)
      else InitialSkinSummary.(predictedSkinType := UnexpectedSkinError)
  }

  /** The skin branch fed by the analyzer: measurements are either empty or exactly the
      schema, a full report is copied with its label's text, an error of the analyzer is labelled with its message, and the handler for
      value and runtime errors never fires because the analyzer already turns those into
      its error dictionary. */
  lemma SkinBranchOfAnalyze(b: SkinAnalyzer.Bundle, image: SkinAnalyzer.LocalImage, round2: real -> real)
    ensures var raw := SkinAnalyzer.Analyze(b, image, round2);
      var summary := SkinBranch(raw);
      && (summary.averageMeasurements == [] || |summary.averageMeasurements| == SkinAnalyzer.NumTargetMeasurements)
      && (forall i :: 0 <= i < |summary.averageMeasurements| ==>
            summary.averageMeasurements[i].0 == SkinAnalyzer.MeasurementColumns[i])
      && (raw.Success? && raw.value.ErrorReport? ==>
            summary == SkinSummary([], SkinErrorPrefix + raw.value.error))
      && (raw.Success? && raw.value.Report? ==>
            summary == SkinSummary(raw.value.averageMeasurements, raw.value.predictedSkinType.Text()))
      && (raw.Failure? ==> summary == SkinSummary([], UnexpectedSkinError))
      && (!b.FullyLoaded() ==>
            summary == SkinSummary([], SkinErrorPrefix + SkinAnalyzer.IncompleteModelsMessage))
  {
  }

  // ---------------------------------------------------------------------------------------
  // Naming of the stored object

  /** `timestamp_userid` followed by the extension of the uploaded file's name. */
  function StoredFileName(timestamp: string, userId: string, originalName: string): string {
    timestamp + "_" + userId + PosixPath.SplitExt(originalName).ext
  }

  function ObjectKey(fileName: string): string {
    "images/" + fileName
  }

  function UrlPrefix(bucket: string): string {
    "https://" + bucket + ".s3.amazonaws.com/"
  }

  function ObjectUrl(bucket: string, key: string): string {
    UrlPrefix(bucket) + key
  }

  /** Reads the object key back from a URL of the bucket. */
  function KeyOfUrl(bucket: string, url: string): Option<string> {
    var prefix := UrlPrefix(bucket);
    if Text.StartsWith(url, prefix) then Some(url[|prefix|..]) else None
  }

  /** The URL names the key it was built from. */
  lemma UrlRoundTrip(bucket: string, key: string)
    ensures KeyOfUrl(bucket, ObjectUrl(bucket, key)) == Some(key)
  {
    var prefix := UrlPrefix(bucket);
    assert ObjectUrl(bucket, key)[..|prefix|] == prefix;
    assert ObjectUrl(bucket, key)[|prefix|..] == key;
  }

  /** The stored name keeps the upload's extension: splitting it again gives the same
      extension back, provided the user id holds no path separator. */
  lemma StoredNameKeepsExtension(timestamp: string, userId: string, originalName: string)
    requires PosixPath.SplitExt(originalName).ext != []
    requires forall k :: 0 <= k < |userId| ==> userId[k] != '/'
    ensures PosixPath.SplitExt(StoredFileName(timestamp, userId, originalName)).ext == PosixPath.SplitExt(originalName).ext
  {
    var e := PosixPath.SplitExt(originalName).ext;
    PosixPath.ExtShape(originalName);
    StoredNameSplit(timestamp, userId, e);
  }

  /** The same holds of the object key, whose "images/" prefix joins the timestamp. */
  lemma ObjectKeyKeepsExtension(timestamp: string, userId: string, originalName: string)
    requires PosixPath.SplitExt(originalName).ext != []
    requires forall k :: 0 <= k < |userId| ==> userId[k] != '/'
    ensures PosixPath.SplitExt(ObjectKey(StoredFileName(timestamp, userId, originalName))).ext == PosixPath.SplitExt(originalName).ext
  {
    var e := PosixPath.SplitExt(originalName).ext;
    PosixPath.ExtShape(originalName);
    var prefix := "images/" + timestamp;
    assert ObjectKey(StoredFileName(timestamp, userId, originalName)) == prefix + "_" + userId + e;
    StoredNameSplit(prefix, userId, e);
  }

  /** Helper: `prefix + "_" + userId + e` splits at `e` when `userId` has no separator. */
  lemma StoredNameSplit(prefix: string, userId: string, e: string)
    requires |e| > 0 && e[0] == '.'
    requires forall k :: 0 < k < |e| ==> e[k] != '.' && e[k] != '/'
    requires forall k :: 0 <= k < |userId| ==> userId[k] != '/'
    ensures PosixPath.SplitExt(prefix + "_" + userId + e).ext == e
  {
    var q := prefix + "_" + userId;
    PosixPath.RFindAppend(prefix, "_" + userId, '/');
    assert q == prefix + ("_" + userId);
    var tail := "_" + userId;
    assert PosixPath.RFind(tail, '/') == -1 by {
      forall k | 0 <= k < |tail| ensures tail[k] != '/' {
        if k > 0 { assert tail[k] == userId[k - 1]; }
      }
    }
    assert PosixPath.RFind(q, '/') < |prefix|;
    assert q[|prefix|] == '_';
    PosixPath.AppendedExtension(q, e);
  }

  // ---------------------------------------------------------------------------------------
  // The handler

  /** The temporary file: creation failed; the file was created but writing it failed;
      it was written but closing it (which flushes it) failed when the `with` block ended;
      or it was written and closed. */
  datatype TempFile =
    | TempCreateFailed(error: Exc)
    | TempWriteFailed(path: string, error: Exc)
    | TempCloseFailed(path: string, error: Exc)
    | TempWritten(path: string)
  {
    /** The handler as written records the name only once the write has returned, that
        is, in the last two cases. */
    predicate WriteReturned() {
      TempCloseFailed? || TempWritten?
    }
  }

  /** When the block records the temporary file's name: once the write has returned, as
      the handler is written, or as soon as the file exists, as evidently intended. */
  datatype Recording = AfterWrite | OnCreate

  /** Everything the handler consults besides the request: the analyzer instance, the
      configured bucket, the clock, and the outcomes of its foreign calls. `dbInsert` gives
      the exception inserting a given row raises, if any (the driver binds the row's
      values, so the outcome may depend on them); `s3Put` holds the exception the upload
      raised, if any; `render` gives the exception that
      building the JSON response raises for given content, if any (the serialiser refuses
      NaN and infinite numbers and values it cannot encode); `unlink` holds the exception
      deleting the temporary file raises, if any. */
  datatype UploadEnv = UploadEnv(
    analyzer: Option<SkinAnalyzer.Bundle>,
    bucket: string,
    timestamp: string,
    read: Result<seq<bv8>, Exc>,
    temp: TempFile,
    openImage: seq<bv8> -> Option<SkinAnalyzer.Raster>,
    round2: real -> real,
    tone: Result<Value, Exc>,
    dbInsert: AnalysisRow -> Option<Exc>,
    s3Put: Option<Exc>,
    render: UploadResponse -> Option<Exc>,
    unlink: Option<Exc>)

  datatype UploadRequest = UploadRequest(fileName: string, userId: string)

  /** The row inserted into the analysis table (its creation time is left out). */
  datatype AnalysisRow = AnalysisRow(
    userId: string,
    analysisModel: string,
    filePath: string,
    skinTone: string,
    personalColor: Value,
    analysisResult: SkinSummary)

  /** The externally visible steps, in the order the handler attempts them. */
  datatype Effect =
    | ReadUpload
    | CreateTemp(path: string)
    | AnalyzeTone(path: string)
    | AnalyzeSkin(path: string)
    | InsertRow(row: AnalysisRow)
    | PutObject(bucket: string, key: string, body: seq<bv8>)
    | DeleteTemp(path: string)

  datatype UploadResponse = UploadResponse(
    success: bool,
    message: string,
    s3Url: string,
    personalColorTone: Value,
    skinAnalysis: SkinSummary,
    userId: string)

  /** How the handler answers: the success body, an HTTP error it raised, or an exception
      that escaped it, which the server turns into a bare 500 of its own. */
  datatype Response = Ok(body: UploadResponse) | HttpError(status: int, detail: string) | Escaped(error: Exc)

  datatype Run = Run(effects: seq<Effect>, response: Response)

  /** How the guarded block ended: an HTTP error it raised itself, or any other exception. */
  datatype Raised = HttpRaised(status: int, detail: string) | Unexpected(error: Exc)

  /** The guarded block: its effects, the temporary path it recorded, and how it ended. */
  datatype TryRun = TryRun(effects: seq<Effect>, tempPath: Option<string>, outcome: Result<UploadResponse, Raised>)

  const ServiceUnavailableDetail: string := "Skin analysis service is not available. Please check server logs."
  const DbFailureDetail: string := "An error occurred while saving analysis results to the database. Please try again."
  const S3FailureDetail: string := "An error occurred while uploading the image to S3. Please try again."
  const GenericFailureDetail: string := "Error occurred during upload and analyze process."
  const SuccessMessage: string := "Image uploaded and analyzed successfully."
  const AnalysisModelName: string := "SkinAnalyzer v2"

  /** The analysis row and the response body share the merged branches. */
  function MakeRow(req: UploadRequest, url: string, tone: Value, skin: SkinSummary): AnalysisRow {
    AnalysisRow(req.userId, AnalysisModelName, url, skin.predictedSkinType, PersonalColorColumn(tone), skin)
  }

  /** The key under which the upload is stored. */
  function KeyFor(env: UploadEnv, req: UploadRequest): string {
    ObjectKey(StoredFileName(env.timestamp, req.userId, req.fileName))
  }

  /** The success response the block builds once the file `path` holding `contents` has
      been analysed. */
  function Content(bundle: SkinAnalyzer.Bundle, env: UploadEnv, req: UploadRequest, path: string, contents: seq<bv8>): UploadResponse {
    var tone := ToneBranch(env.tone);
    var skin := SkinBranch(SkinAnalyzer.Analyze(bundle, SkinAnalyzer.LocalImage(path, env.openImage(contents)), env.round2));
    UploadResponse(true, SuccessMessage, ObjectUrl(env.bucket, KeyFor(env, req)), tone, skin, req.userId)
  }

  /** The row the block inserts once the file `path` holding `contents` has been analysed. */
  function RowFor(bundle: SkinAnalyzer.Bundle, env: UploadEnv, req: UploadRequest, path: string, contents: seq<bv8>): AnalysisRow {
    var body := Content(bundle, env, req, path, contents);
    MakeRow(req, body.s3Url, body.personalColorTone, body.skinAnalysis)
  }

  /** The handler reaches the insert and the insert of its row raises. */
  predicate InsertFails(env: UploadEnv, req: UploadRequest) {
    && env.analyzer.Some? && env.read.Success? && env.temp.TempWritten?
    && env.dbInsert(RowFor(env.analyzer.value, env, req, env.temp.path, env.read.value)).Some?
  }

  /** The guarded block of the handler, from reading the upload to the success response;
      `recording` says when the temporary file's name is recorded for the clean-up. */
  function TryBody(bundle: SkinAnalyzer.Bundle, env: UploadEnv, req: UploadRequest, recording: Recording): TryRun {
    match env.read
    case Failure(e) => TryRun([ReadUpload], None, Failure(Unexpected(e)))
    case Success(contents) =>
      match env.temp
      case TempCreateFailed(e) => TryRun([ReadUpload], None, Failure(Unexpected(e)))
      case TempWriteFailed(path, e) =>
        TryRun([ReadUpload, CreateTemp(path)], if recording == OnCreate then Some(path) else None, Failure(Unexpected(e)))
      case TempCloseFailed(path, e) => TryRun([ReadUpload, CreateTemp(path)], Some(path), Failure(Unexpected(e)))
      case TempWritten(path) =>
        var body := Content(bundle, env, req, path, contents);
        var key := KeyFor(env, req);
        var row := RowFor(bundle, env, req, path, contents);
        var analysed := [ReadUpload, CreateTemp(path), AnalyzeTone(path), AnalyzeSkin(path), InsertRow(row)];
        var stored := analysed + [PutObject(env.bucket, key, contents)];
        if env.dbInsert(row).Some? then
          TryRun(analysed, Some(path), Failure(HttpRaised(500, DbFailureDetail)))
        else if env.s3Put.Some? then
          TryRun(stored, Some(path), Failure(HttpRaised(500, S3FailureDetail)))
        else
          match env.render(body)
          case Some(e) => TryRun(stored, Some(path), Failure(Unexpected(e)))
          case None => TryRun(stored, Some(path), Success(body))
  }

  /** The `finally` clause: a recorded temporary file is deleted. */
  function Cleanup(tempPath: Option<string>): seq<Effect> {
    match tempPath
    case Some(path) => [DeleteTemp(path)]
    case None => []
  }

  /** The block, its handler's answer and the `finally` clause together: an exception the
      deletion raises escapes and replaces whatever answer was ready. */
  function Finish(t: TryRun, answer: Response, unlink: Option<Exc>): Run {
    Run(t.effects + Cleanup(t.tempPath), if t.tempPath.Some? && unlink.Some? then Escaped(unlink.value) else answer)
  }

  /** The handler as written: the outer `except Exception` also catches the HTTP errors the
      block raised itself and replaces their detail with the generic one. */
  function UploadAndAnalyze(env: UploadEnv, req: UploadRequest): Run {
    if env.analyzer.None? then Run([], HttpError(500, ServiceUnavailableDetail))
    else
      var t := TryBody(env.analyzer.value, env, req, AfterWrite);
      var response := match t.outcome
        case Success(body) => Ok(body)
        case Failure(_) => HttpError(500, GenericFailureDetail);
      Finish(t, response, env.unlink)
  }

  /** The handler as evidently intended: HTTP errors raised inside the block reach the
      client unchanged, only other exceptions get the generic detail, and the temporary
      file's name is recorded as soon as the file exists. */
  function UploadAndAnalyzeIntended(env: UploadEnv, req: UploadRequest): Run {
    if env.analyzer.None? then Run([], HttpError(500, ServiceUnavailableDetail))
    else
      var t := TryBody(env.analyzer.value, env, req, OnCreate);
      var response := match t.outcome
        case Success(body) => Ok(body)
        case Failure(HttpRaised(status, detail)) => HttpError(status, detail)
        case Failure(Unexpected(_)) => HttpError(500, GenericFailureDetail);
      Finish(t, response, env.unlink)
  }

  // ---------------------------------------------------------------------------------------
  // Properties of the handler

  /** Without an analyzer instance the handler fails with 500 before doing anything. */
  lemma NoAnalyzerNoWork(env: UploadEnv, req: UploadRequest)
    requires env.analyzer.None?
    ensures UploadAndAnalyze(env, req) == Run([], HttpError(500, ServiceUnavailableDetail))
    ensures UploadAndAnalyzeIntended(env, req) == Run([], HttpError(500, ServiceUnavailableDetail))
  {
  }

  /** The object is uploaded only after the row insert was attempted, and never when the
      insert failed; a failure of either call ends without a success response; every HTTP
      error is a 500, and an escaping exception is the deletion's. */
  lemma InsertPrecedesUpload(env: UploadEnv, req: UploadRequest)
    ensures var run := UploadAndAnalyze(env, req);
      var e := run.effects;
      && (forall j :: 0 <= j < |e| && e[j].PutObject? ==> exists i :: 0 <= i < j && e[i].InsertRow?)
      && (InsertFails(env, req) ==> (forall j :: 0 <= j < |e| ==> !e[j].PutObject?) && !run.response.Ok?)
      && (env.s3Put.Some? ==> !run.response.Ok?)
      && (run.response.HttpError? ==> run.response.status == 500)
      && (run.response.Escaped? ==> env.unlink.Some? && run.response.error == env.unlink.value)
  {
    var e := UploadAndAnalyze(env, req).effects;
    forall j | 0 <= j < |e| && e[j].PutObject?
      ensures exists i :: 0 <= i < j && e[i].InsertRow?
    {
      assert j == 5 && e[4].InsertRow?;
    }
  }

  /** A success response means the row was inserted and then the object uploaded, the
      row's file path is the URL of the uploaded key, the response is the content built
      from the analysis and carries that URL, the content could be rendered, and the
      temporary file was deleted without error. */
  lemma SuccessMeansStored(env: UploadEnv, req: UploadRequest)
    requires UploadAndAnalyze(env, req).response.Ok?
    ensures !InsertFails(env, req) && env.s3Put.None? && env.read.Success? && env.temp.TempWritten?
    ensures var e := UploadAndAnalyze(env, req).effects;
      var body := UploadAndAnalyze(env, req).response.body;
      && |e| == 7
      && e[4] == InsertRow(RowFor(env.analyzer.value, env, req, env.temp.path, env.read.value))
      && env.dbInsert(e[4].row).None?
      && e[5] == PutObject(env.bucket, KeyFor(env, req), env.read.value)
      && e[4].row.filePath == body.s3Url
      && KeyOfUrl(env.bucket, body.s3Url) == Some(KeyFor(env, req))
      && body == Content(env.analyzer.value, env, req, env.temp.path, env.read.value)
      && env.render(body).None? && env.unlink.None?
      && e[6] == DeleteTemp(env.temp.path)
      && body.success && body.userId == req.userId
  {
    UrlRoundTrip(env.bucket, KeyFor(env, req));
  }

  /** Once both stores succeed, the response is the built content exactly when it renders
      and the temporary file is deleted without error; a content the serialiser refuses
      gives the generic 500 although the row is inserted and the object uploaded, and the
      temporary file is still deleted; a deletion that raises replaces any answer. */
  lemma RenderDecidesSuccess(env: UploadEnv, req: UploadRequest)
    requires env.analyzer.Some? && env.read.Success? && env.temp.TempWritten?
    requires !InsertFails(env, req) && env.s3Put.None?
    ensures var body := Content(env.analyzer.value, env, req, env.temp.path, env.read.value);
      var run := UploadAndAnalyze(env, req);
      && (run.response == Ok(body) <==> env.render(body).None? && env.unlink.None?)
      && (env.unlink.Some? ==> run.response == Escaped(env.unlink.value))
      && (env.render(body).Some? ==>
            && run.response == (if env.unlink.Some? then Escaped(env.unlink.value) else HttpError(500, GenericFailureDetail))
            && |run.effects| == 7
            && run.effects[4].InsertRow?
            && run.effects[5] == PutObject(env.bucket, KeyFor(env, req), env.read.value)
            && run.effects[6] == DeleteTemp(env.temp.path))
  {
  }

  /** Once its name is recorded, that is once the write has returned, the temporary file
      is deleted exactly once, as the last effect, whether the handler succeeds or fails
      (a failure to close the file included). */
  lemma TempFileCleanedUp(env: UploadEnv, req: UploadRequest, path: string)
    requires env.analyzer.Some? && env.read.Success? && env.temp.WriteReturned() && env.temp.path == path
    ensures var e := UploadAndAnalyze(env, req).effects;
      |e| > 0 && e[|e| - 1] == DeleteTemp(path) && multiset(e)[DeleteTemp(path)] == 1
  {
    var t := TryBody(env.analyzer.value, env, req, AfterWrite);
    TryBodyRecords(env.analyzer.value, env, req, AfterWrite);
    var e := t.effects + [DeleteTemp(path)];
    assert UploadAndAnalyze(env, req).effects == e;
    assert DeleteTemp(path) !in multiset(t.effects);
    assert multiset(e) == multiset(t.effects) + multiset{DeleteTemp(path)};
  }

  /** A temporary file whose name was never recorded is never deleted. */
  lemma UnrecordedTempFileNotDeleted(env: UploadEnv, req: UploadRequest)
    requires env.analyzer.Some? && !(env.read.Success? && env.temp.WriteReturned())
    ensures var e := UploadAndAnalyze(env, req).effects;
      forall k :: 0 <= k < |e| ==> !e[k].DeleteTemp?
  {
    TryBodyRecords(env.analyzer.value, env, req, AfterWrite);
  }

  /** Helper: the guarded block deletes nothing itself, and records the temporary path
      exactly when the upload was read and the file exists, and, when recording after the
      write, the write returned. */
  lemma TryBodyRecords(bundle: SkinAnalyzer.Bundle, env: UploadEnv, req: UploadRequest, recording: Recording)
    ensures var t := TryBody(bundle, env, req, recording);
      && (forall k :: 0 <= k < |t.effects| ==> !t.effects[k].DeleteTemp?)
      && t.tempPath ==
           (if env.read.Success? && !env.temp.TempCreateFailed? && (recording == OnCreate || env.temp.WriteReturned())
            then Some(env.temp.path) else None)
  {
  }

  /** A file created but not written leaks: the name was never recorded, so the clean-up
      skips it. */
  lemma UnrecordedTempFileLeaks(env: UploadEnv, req: UploadRequest, path: string, error: Exc)
    requires env.analyzer.Some? && env.read.Success? && env.temp == TempWriteFailed(path, error)
    ensures CreateTemp(path) in UploadAndAnalyze(env, req).effects
    ensures DeleteTemp(path) !in UploadAndAnalyze(env, req).effects
    ensures UploadAndAnalyze(env, req).response == HttpError(500, GenericFailureDetail)
  {
  }

  /** Helper: how many effects the handler takes, and that its only row insert is the
      fifth effect, built from the content of the analysed file. */
  lemma RunLayout(env: UploadEnv, req: UploadRequest)
    ensures var e := UploadAndAnalyze(env, req).effects;
      && |e| == (if env.analyzer.None? then 0
                 else if env.read.Failure? || env.temp.TempCreateFailed? then 1
                 else if !env.temp.TempWritten? then (if env.temp.TempCloseFailed? then 3 else 2)
                 else if InsertFails(env, req) then 6 else 7)
      && (forall i :: 0 <= i < |e| && e[i].InsertRow? ==>
            && i == 4 && env.analyzer.Some? && env.read.Success? && env.temp.TempWritten?
            && e[i].row == RowFor(env.analyzer.value, env, req, env.temp.path, env.read.value))
  {
  }

  /** The tone branch does not affect the skin branch: changing only the tone outcome
      changes neither the skin part of the row nor that of the content, and the content's
      tone is the new branch result. The row's tone column changes, so the insert may
      then fail differently; when it does not, the effects are as many as before. */
  lemma ToneDoesNotAffectSkin(env: UploadEnv, req: UploadRequest, tone: Result<Value, Exc>)
    ensures var r1 := UploadAndAnalyze(env, req);
      var r2 := UploadAndAnalyze(env.(tone := tone), req);
      && (InsertFails(env, req) == InsertFails(env.(tone := tone), req) ==> |r1.effects| == |r2.effects|)
      && (forall i :: 0 <= i < |r1.effects| && r1.effects[i].InsertRow? ==>
            && i < |r2.effects| && r2.effects[i].InsertRow?
            && r2.effects[i].row.analysisResult == r1.effects[i].row.analysisResult
            && r2.effects[i].row.skinTone == r1.effects[i].row.skinTone)
      && (forall b: SkinAnalyzer.Bundle, path: string, contents: seq<bv8> ::
            Content(b, env.(tone := tone), req, path, contents)
              == Content(b, env, req, path, contents).(personalColorTone := ToneBranch(tone)))
  {
    var env2 := env.(tone := tone);
    forall b: SkinAnalyzer.Bundle, path: string, contents: seq<bv8>
      ensures Content(b, env2, req, path, contents) == Content(b, env, req, path, contents).(personalColorTone := ToneBranch(tone))
    {
    }
    RunLayout(env, req);
    RunLayout(env2, req);
  }

  /** With another tone outcome the response keeps its skin part and carries the new
      tone; success can differ only because the insert refuses the other run's row or the
      serialiser refuses its content. */
  lemma ToneChangeKeepsResponseSkin(env: UploadEnv, req: UploadRequest, tone: Result<Value, Exc>)
    ensures var r1 := UploadAndAnalyze(env, req);
      var r2 := UploadAndAnalyze(env.(tone := tone), req);
      && (r1.response.Ok? && r2.response.Ok? ==>
            r2.response.body == r1.response.body.(personalColorTone := ToneBranch(tone)))
      && (r1.response.Ok? && !r2.response.Ok? ==>
            r2.response == HttpError(500, GenericFailureDetail)
            && (InsertFails(env.(tone := tone), req)
                || env.render(r1.response.body.(personalColorTone := ToneBranch(tone))).Some?))
      && (!r1.response.Ok? && r2.response.Ok? ==>
            r1.response == HttpError(500, GenericFailureDetail)
            && (InsertFails(env, req)
                || env.render(r2.response.body.(personalColorTone := ToneBranch(env.tone))).Some?))
  {
    var env2 := env.(tone := tone);
    if env.analyzer.Some? {
      var b := env.analyzer.value;
      if env.read.Success? && env.temp.TempWritten? {
        var c1 := Content(b, env, req, env.temp.path, env.read.value);
        var c2 := Content(b, env2, req, env.temp.path, env.read.value);
        assert c2 == c1.(personalColorTone := ToneBranch(tone));
        assert c1 == c2.(personalColorTone := ToneBranch(env.tone));
      } else {
        assert TryBody(b, env, req, AfterWrite) == TryBody(b, env2, req, AfterWrite);
      }
    }
  }

  /** The skin branch does not affect the tone branch: another analyzer bundle or image
      decoder leaves the tone column of the row unchanged. The row's skin columns change,
      so the insert may then fail differently; when it does not, the effects are as many
      as before. */
  lemma SkinDoesNotAffectTone(env: UploadEnv, req: UploadRequest, bundle: SkinAnalyzer.Bundle,
                              openImage: seq<bv8> -> Option<SkinAnalyzer.Raster>)
    requires env.analyzer.Some?
    ensures var env2 := env.(analyzer := Some(bundle), openImage := openImage);
      var r1 := UploadAndAnalyze(env, req);
      var r2 := UploadAndAnalyze(env2, req);
      && (InsertFails(env, req) == InsertFails(env2, req) ==> |r1.effects| == |r2.effects|)
      && (forall i :: 0 <= i < |r1.effects| && r1.effects[i].InsertRow? ==>
            && i < |r2.effects| && r2.effects[i].InsertRow?
            && r2.effects[i].row.personalColor == r1.effects[i].row.personalColor
            && r1.effects[i].row.personalColor == PersonalColorColumn(ToneBranch(env.tone)))
  {
    var env2 := env.(analyzer := Some(bundle), openImage := openImage);
    RunLayout(env, req);
    RunLayout(env2, req);
  }

  /** With another analyzer bundle or image decoder the content and the response keep
      their tone; success can differ only because the insert refuses the other run's row
      or the serialiser refuses its content. */
  lemma SkinChangeKeepsResponseTone(env: UploadEnv, req: UploadRequest, bundle: SkinAnalyzer.Bundle,
                                    openImage: seq<bv8> -> Option<SkinAnalyzer.Raster>)
    requires env.analyzer.Some?
    ensures var env2 := env.(analyzer := Some(bundle), openImage := openImage);
      var r1 := UploadAndAnalyze(env, req);
      var r2 := UploadAndAnalyze(env2, req);
      && (forall path: string, contents: seq<bv8> ::
            Content(bundle, env2, req, path, contents).personalColorTone
              == Content(env.analyzer.value, env, req, path, contents).personalColorTone)
      && (r1.response.Ok? && r2.response.Ok? ==>
            r2.response.body.personalColorTone == r1.response.body.personalColorTone)
      && (r1.response.Ok? != r2.response.Ok? ==>
            && env.read.Success? && env.temp.TempWritten?
            && var c1 := Content(env.analyzer.value, env, req, env.temp.path, env.read.value);
            && var c2 := Content(bundle, env2, req, env.temp.path, env.read.value);
            && (if r1.response.Ok?
                then r2.response == HttpError(500, GenericFailureDetail) && (InsertFails(env2, req) || env.render(c2).Some?)
                else r1.response == HttpError(500, GenericFailureDetail) && (InsertFails(env, req) || env.render(c1).Some?)))
  {
    var env2 := env.(analyzer := Some(bundle), openImage := openImage);
    forall path: string, contents: seq<bv8>
      ensures Content(bundle, env2, req, path, contents).personalColorTone
              == Content(env.analyzer.value, env, req, path, contents).personalColorTone
    {
    }
    if !(env.read.Success? && env.temp.TempWritten?) {
      assert TryBody(env.analyzer.value, env, req, AfterWrite) == TryBody(bundle, env2, req, AfterWrite);
    }
  }

  /** As written, a failed insert or upload reaches the client with the generic detail:
      the specific messages the block raises are replaced by the outer handler (and, as
      for every answer, a deletion that raises replaces that one in turn). */
  lemma AsWrittenLosesDetail(env: UploadEnv, req: UploadRequest)
    requires env.analyzer.Some? && env.read.Success? && env.temp.TempWritten?
    requires InsertFails(env, req) || env.s3Put.Some?
    ensures UploadAndAnalyze(env, req).response ==
      (if env.unlink.Some? then Escaped(env.unlink.value) else HttpError(500, GenericFailureDetail))
    ensures UploadAndAnalyze(env, req).response != HttpError(500, DbFailureDetail)
    ensures UploadAndAnalyze(env, req).response != HttpError(500, S3FailureDetail)
  {
  }

  /** The intended handler reports which store failed and agrees with the handler as
      written on every other outcome; it takes the same effects, except that a file
      created but not written is deleted as well, with the deletion's own failure then
      escaping as it does for every recorded file. */
  lemma IntendedReportsDetail(env: UploadEnv, req: UploadRequest)
    ensures !(env.analyzer.Some? && env.read.Success? && env.temp.TempWriteFailed?) ==>
      UploadAndAnalyzeIntended(env, req).effects == UploadAndAnalyze(env, req).effects
    ensures env.analyzer.Some? && env.read.Success? && env.temp.TempWriteFailed? ==>
      UploadAndAnalyzeIntended(env, req).effects == UploadAndAnalyze(env, req).effects + [DeleteTemp(env.temp.path)]
    ensures env.analyzer.Some? && env.read.Success? && env.temp.TempWritten? ==>
      UploadAndAnalyzeIntended(env, req).response ==
        (if env.unlink.Some? then Escaped(env.unlink.value)
         else if InsertFails(env, req) then HttpError(500, DbFailureDetail)
         else if env.s3Put.Some? then HttpError(500, S3FailureDetail)
         else UploadAndAnalyze(env, req).response)
    ensures env.analyzer.Some? && env.read.Success? && env.temp.TempWriteFailed? ==>
      UploadAndAnalyzeIntended(env, req).response ==
        (if env.unlink.Some? then Escaped(env.unlink.value) else UploadAndAnalyze(env, req).response)
    ensures !(env.analyzer.Some? && env.read.Success? && (env.temp.TempWritten? || env.temp.TempWriteFailed?)) ==>
      UploadAndAnalyzeIntended(env, req).response == UploadAndAnalyze(env, req).response
  {
  }

  /** The intended handler deletes every temporary file it created: a created file is
      deleted by the last effect, whatever failed after its creation. */
  lemma IntendedDeletesEveryCreatedFile(env: UploadEnv, req: UploadRequest)
    ensures var e := UploadAndAnalyzeIntended(env, req).effects;
      forall i :: 0 <= i < |e| && e[i].CreateTemp? ==> i < |e| - 1 && e[|e| - 1] == DeleteTemp(e[i].path)
  {
    if env.analyzer.Some? {
      var t := TryBody(env.analyzer.value, env, req, OnCreate);
      TryBodyRecords(env.analyzer.value, env, req, OnCreate);
      var e := t.effects + Cleanup(t.tempPath);
      assert UploadAndAnalyzeIntended(env, req).effects == e;
      forall i | 0 <= i < |e| && e[i].CreateTemp?
        ensures i < |e| - 1 && e[|e| - 1] == DeleteTemp(e[i].path)
      {
        assert i == 1 && e[1] == CreateTemp(env.temp.path);
      }
    }
  }
}
