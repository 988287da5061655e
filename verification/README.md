# Skin analysis service — a Dafny model of its decision logic

The service turns one face photograph into a skin profile: a 15-value measurement vector
(moisture, elasticity, pore count, spot count, wrinkle roughness), a skin-type label derived
from it, and a personal-color tone computed by a separate analysis. A chatbot then
recommends cosmetics from that profile. This project models the deterministic logic around
the machine-learning, storage and language-model calls and proves what it does:

- **`SkinAnalyzer`** (`SkinAnalysis/aimodel.py`): the fixed measurement schema; which of
  the four start-up artifacts end up loaded (regression network, target scaler, classifier
  pipeline, label encoder); the measurement prediction for one local image; and the
  analysis, with its all-artifacts gate, error short-circuit, binding of the prediction to
  the schema, and fallback labels for classifier failure. The network, the scaler, the
  classifier and the encoder are opaque functions carried by the artifact values, and
  each may raise. Rounding to two decimals is an opaque `round2` parameter.
- **`Upload`** (`routes/upload.py`): the `/upload-and-analyze` handler. It covers the tone
  and skin branches, which fail independently, and the `personal_color` column. It builds
  the stored file name, object key and URL, with `os.path.splitext` as `posixpath` defines
  it (the server is taken to run on POSIX) in **`PosixPath`**. It also fixes the order of the effects: the database row is inserted
  before the object upload, and the temporary file is cleaned up. The handler is a pure
  function from an environment of call outcomes to the list of effects it attempts and
  the response.
- **`Chatbot`** (`routes/chatbot.py`): the history formatting, the choice between the
  recommendation and general prompt templates, skin-type keyword detection, and the answer
  text chosen around the model call (fallback, quota "busy" text, model text), for both
  the dialogue and the skin-advice handlers.
- **`Text`**, **`Wrappers`**, **`Exceptions`**: Python's `in` and `lower()` on strings,
  `Option`/`Result`, and the exception classes the code raises or catches.

Facts about the code that shape the model:

- The scaler load is not guarded, so a scaler that exists but fails to load makes the
  analyzer's construction fail.
- Analysis is refused unless all four artifacts are loaded. So the "not loaded" classifier
  default and the unscaled-prediction path are never reached from the analysis.
- Each call analyses exactly one image.
- The wrinkle columns are ordered left Ra, left Rmax, right Ra, right Rmax.

## Model

| member | source | states |
|---|---|---|
| SkinAnalyzer.SchemaShape | SkinAnalysis/aimodel.py:58-66 | the schema has exactly 15 names, pairwise distinct, and the measurement count equals its length |
| SkinAnalyzer.LoadModels | SkinAnalysis/aimodel.py:92-138 | loading fails exactly when the scaler file exists but does not load, and the escaping error is the scaler's |
| SkinAnalyzer.LoaderOutcome | SkinAnalysis/aimodel.py:97-138 | the network and scaler slots are filled exactly when their own file loads, and with that file's artifact; pipeline and encoder are filled together and only when both files load, so a missing or broken pipeline empties the encoder slot too |
| SkinAnalyzer.FullyLoadedIffAllLoadable | SkinAnalysis/aimodel.py:179 | the analysis gate opens exactly when all four artifact files load |
| SkinAnalyzer.StartAnalyzer | routes/upload.py:58-73 | the shared analyzer instance is absent exactly when the scaler file exists but fails to load |
| SkinAnalyzer.PredictMeasurements | SkinAnalysis/aimodel.py:145-171 | the prediction for one local image; what it raises and returns is stated by `PredictNeedsNetwork` and `PredictScaling` |
| SkinAnalyzer.PredictNeedsNetwork | SkinAnalysis/aimodel.py:150-151 | without the network, prediction raises the same runtime error for every image, so the image is never opened |
| SkinAnalyzer.PredictScaling | SkinAnalysis/aimodel.py:153-171 | an unreadable image raises a value error naming its path; otherwise the result is the scaler's inverse of the network output, or that output unchanged when no scaler is loaded |
| SkinAnalyzer.Analyze | SkinAnalysis/aimodel.py:175-229 | a missing artifact gives only the error entry; a full report has the schema as columns and 15 measurements keyed by the schema in order, and never the "예측 불가" default; only exceptions other than value and runtime errors escape |
| SkinAnalyzer.GateStopsEverything | SkinAnalysis/aimodel.py:179-181 | with any artifact absent the result is the same error dictionary for every image and rounding, so no prediction or classification runs |
| SkinAnalyzer.BindToSchema | SkinAnalysis/aimodel.py:197-200 | binding succeeds exactly when the prediction is at least as long as the schema; then entry i pairs schema name i with the rounded component i; otherwise the index error escapes, which no value/runtime handler catches |
| SkinAnalyzer.Classify | SkinAnalysis/aimodel.py:208-222 | the classifier step; its outcome on the measured values is stated by `MeasuredReport` |
| SkinAnalyzer.MeasuredReport | SkinAnalysis/aimodel.py:197-222 | in a full report, entry i is (schema[i], round2 of component i of the scaler's inverse of the network output); the classifier receives exactly those rounded values in schema order; the label is "예측 오류" or a decoded label, and it is exactly the encoder's decoding of the pipeline's class whenever both calls succeed |
| SkinAnalyzer.AnalyzeOutcome | SkinAnalysis/aimodel.py:179-190 | the error dictionary comes back exactly when the gate is closed or prediction raised a value/runtime error; an undecodable image gives "로컬 이미지 분석 실패: " plus the path message; an exception escapes exactly for other error classes or a vector shorter than the schema |
| PosixPath.SplitExtScan | routes/upload.py:93 | the rfind-and-skip-leading-dots scan yields the same (root, extension) as the definition of `splitext` |
| PosixPath.SplitExt | routes/upload.py:93 | the declarative `os.path.splitext`; its shape is stated by `ExtShape`, its agreement with CPython's scan by `SplitExtScan` |
| PosixPath.ExtShape | routes/upload.py:93 | root and extension concatenate to the name; a non-empty extension is one dot followed by text with no dot and no separator |
| PosixPath.SplitExtExamples | routes/upload.py:92-93 | `selfie.jpg` gives `.jpg`, `photo.tar.gz` gives `.gz`; `.bashrc`, `..jpg` and `dir.d/selfie` have no extension |
| Upload.PersonalColorOfTone | routes/upload.py:153-158 | the column is a dict's `tone` entry or "N/A", a string itself, anything else "N/A"; a failed tone analysis always records "N/A" |
| Upload.ToneBranch | routes/upload.py:109-114 | the tone branch gives the analysis result, or the dictionary {"error": "Personal color analysis failed"} for any exception; its effect on the row and the response is stated by `PersonalColorOfTone` and `ToneDoesNotAffectSkin` |
| Upload.PersonalColorColumn | routes/upload.py:153-158 | the `personal_color` column; its cases are stated by `PersonalColorOfTone` |
| Upload.SkinBranch | routes/upload.py:117-133 | the skin branch; its outcome on the analyzer's result is stated by `SkinBranchOfAnalyze` |
| Upload.SkinBranchOfAnalyze | routes/upload.py:117-133 | measurements are empty or exactly the schema's 15; a full report is copied with its label's text; an error dictionary becomes "피부 분석 오류: " plus its message with empty measurements; an escaping exception becomes the fixed unexpected-error label, and the value/runtime-error handler is unreachable |
| Upload.UrlRoundTrip | routes/upload.py:137-138 | the key is recovered from the URL built for it |
| Upload.StoredFileName | routes/upload.py:136 | the `timestamp_user{ext}` name; its extension is stated by `StoredNameKeepsExtension` |
| Upload.ObjectKey | routes/upload.py:137 | the `images/` key; its extension is stated by `ObjectKeyKeepsExtension` |
| Upload.ObjectUrl | routes/upload.py:138 | the object URL; that it gives the key back is stated by `UrlRoundTrip` |
| Upload.StoredNameKeepsExtension | routes/upload.py:136 | the stored file name splits to the upload's own extension whenever it has one and the user id has no `/` |
| Upload.ObjectKeyKeepsExtension | routes/upload.py:136-137 | the `images/` object key splits to the upload's own extension under the same conditions |
| Upload.NoAnalyzerNoWork | routes/upload.py:83-84 | without an analyzer the handler answers 500 with the service-unavailable detail and takes no effect |
| Upload.UploadAndAnalyze | routes/upload.py:77-208 | the handler as written, with the `finally` deletion able to raise and replace the answer; its properties are the `Upload` lemmas in this table |
| Upload.InsertPrecedesUpload | routes/upload.py:141-208 | every object upload is preceded by the row insert; a failed insert of the handler's row means no upload and no success; a failed upload means no success; every HTTP error is a 500, and an exception escapes only from the deletion |
| Upload.SuccessMeansStored | routes/upload.py:141-208 | a success response means both stores succeeded, the insert came right before the upload, the row's file path and the response URL are the URL of the uploaded key, the response is the built content, which rendered, and the temporary file was deleted without error |
| Upload.RenderDecidesSuccess | routes/upload.py:187-208 | once both stores succeed, the response is the built content exactly when rendering it and deleting the temporary file both raise nothing; a content that cannot be rendered gives the generic 500 after the row was inserted and the object uploaded, the temporary file is still deleted, and a deletion that raises escapes instead |
| Upload.TempFileCleanedUp | routes/upload.py:205-208 | a temporary file whose write returned is deleted exactly once, as the last effect, on success and on every failure, a failure to close it included |
| Upload.UnrecordedTempFileNotDeleted | routes/upload.py:205-208 | when the upload could not be read, or the temporary file was not created or its write raised, no deletion is attempted |
| Upload.UnrecordedTempFileLeaks | routes/upload.py:100-102 | a temporary file created but not written is never deleted, and the request fails with the generic 500 |
| Upload.ToneDoesNotAffectSkin | routes/upload.py:108-133 | changing only the tone outcome changes neither the skin part of the row nor that of the content, whose tone is the new branch result; the effects are as many as before when the insert of the new row fails or succeeds as the old one did (the driver binds the row's values, so its outcome may change with the tone column) |
| Upload.ToneChangeKeepsResponseSkin | routes/upload.py:108-200 | after changing only the tone outcome, two success responses differ only in the tone; when only one succeeds, the other is the generic 500 because the insert refused its row or its content could not be rendered |
| Upload.SkinDoesNotAffectTone | routes/upload.py:108-133 | changing the analyzer or the image decoding leaves the row's tone column unchanged, the column being the tone branch's; the effects are as many as before when the insert of the new row fails or succeeds as the old one did |
| Upload.SkinChangeKeepsResponseTone | routes/upload.py:108-200 | the content's tone does not depend on the analyzer or the image decoding; two success responses carry the same tone; when only one succeeds, the other is the generic 500 because the insert refused its row or its content could not be rendered |
| Upload.AsWrittenLosesDetail | routes/upload.py:165-208 | as written, a failed insert or upload reaches the client as the generic 500 (or as the deletion's escaping exception), never with its specific detail |
| Upload.IntendedReportsDetail | routes/upload.py:165-208 | the corrected handler reports which store failed and otherwise answers like the original; it takes the same effects, except that a file created but not written is deleted as well, whose failing deletion then escapes as for any recorded file |
| Upload.IntendedDeletesEveryCreatedFile | routes/upload.py:100-102 | with the name recorded as soon as the file exists, every temporary file created is deleted by the last effect |
| Chatbot.FormatHistoryLoop | routes/chatbot.py:73-78 | the loop over the reversed records yields the history text |
| Chatbot.FormatHistory | routes/chatbot.py:75-77 | the history text; its order and lines are stated by `HistoryIsChronological` and `FormatHistoryLoop` |
| Chatbot.RecentHistory | routes/chatbot.py:60-81 | the history or "" on a failed fetch; stated by `HistoryEmptyIff` |
| Chatbot.HistoryIsChronological | routes/chatbot.py:75-77 | the history is the lines of the fetched records in reverse order, each "speaker: text\n" |
| Chatbot.Speaker | routes/chatbot.py:76 | the roles "나" and "user" are shown as "사용자" and every other role as "챗봇"; its use in each history line is stated by `HistoryIsChronological` |
| Chatbot.HistoryEmptyIff | routes/chatbot.py:71-81 | the history is empty exactly when the fetch failed or returned no records |
| Chatbot.TemplateChoice | routes/chatbot.py:87 | the recommendation template is used exactly when the skin type is present and is none of "", "알 수 없음", "없음" |
| Chatbot.ChooseTemplate | routes/chatbot.py:87 | the template test; stated by `TemplateChoice` |
| Chatbot.CreatePrompt | routes/chatbot.py:83-124 | the prompt; what it embeds is stated by `PromptEmbedsInputs` |
| Chatbot.PromptEmbedsInputs | routes/chatbot.py:100-123 | both templates contain the user input and the history, or "없음" for an empty one; the recommendation prompt also contains the skin type |
| Chatbot.DetectSkinType | routes/chatbot.py:171-177 | the result is the first of "건성", "지성", "복합성" occurring in the input, and none exactly when none occurs |
| Chatbot.CombinationSubtypesMatchEarlier | routes/chatbot.py:172-177 | a message with "복합건성" is detected as "건성", and one with "복합지성" but no "건성" as "지성" |
| Chatbot.DetectedKeywordSelectsRecommendation | routes/chatbot.py:171-181 | the dialogue prompt is a recommendation exactly when a keyword was detected |
| Chatbot.AnswerSelection | routes/chatbot.py:186-195 | a usable response's text becomes the answer; an unusable one keeps the fallback; an exception gives the busy text iff its lower-cased message contains "quota", so "quota", "Quota" and "QUOTA" all do |
| Chatbot.SelectAnswer | routes/chatbot.py:186-195 | the answer is the fallback, the busy text or the text the model produced, and never the model text after an exception; which one applies is stated by `AnswerSelection` |
| Chatbot.StoreFailureStopsDialogue | routes/chatbot.py:135-145 | a failed insert of the user message answers 500 and the model is never called |
| Chatbot.ReplyIsBotMessage | routes/chatbot.py:205-223 | the reply is always in the "챗봇" role, equals the last stored bot message, and does not depend on whether that insert succeeded |
| Chatbot.DialogueUsesModel | routes/chatbot.py:148-190 | with a model, it is called exactly once, with the prompt built from the input, detected type and history, and the answer comes from that call; without one, the fallback is given and nothing is called |
| Chatbot.Dialogue | routes/chatbot.py:126-223 | the dialogue handler; stated by `StoreFailureStopsDialogue`, `ReplyIsBotMessage` and `DialogueUsesModel` |
| Chatbot.AdviceOutcome | routes/chatbot.py:232-263 | without a model the advice answers 503; with one, the prompt is a recommendation exactly for a real skin type and contains the composed request and "없음", and the advice is chosen from the model's generation by the same rule as the dialogue answer (`AnswerSelection`) |
| Chatbot.SkinAdvice | routes/chatbot.py:228-273 | the advice handler; stated by `AdviceOutcome` |

## Findings

| source | as written | input that shows it | evidently intended | confidence | as-written member | corrected member |
|---|---|---|---|---|---|---|
| routes/upload.py:165-204 | The `HTTPException` raised when the database insert or the object upload fails is inside the `try`. The outer `except Exception` catches it and raises a new 500 with the generic "Error occurred during upload and analyze process." | analyzer loaded, upload read and written to a temporary file, database insert raises: the client gets the generic detail, not "An error occurred while saving analysis results to the database. Please try again." | the specific detail built for each store reaches the client | medium, not executed | `Upload.UploadAndAnalyze`, exhibited by `Upload.AsWrittenLosesDetail` | `Upload.UploadAndAnalyzeIntended`, proved by `Upload.IntendedReportsDetail` |
| routes/upload.py:100-102 | `temp_filepath` is assigned only after `temp_file.write(contents)` returns. If the write raises, the file already exists on disk, but the `finally` at lines 205-208 sees `temp_filepath` as `None` and does not delete it. | analyzer loaded, upload read, temporary file created, write raises (disk full): the file stays on disk and the client gets the generic 500 | every temporary file the handler created is deleted | medium, not executed | `Upload.UploadAndAnalyze`, exhibited by `Upload.UnrecordedTempFileLeaks` | `Upload.UploadAndAnalyzeIntended`, which records the name as soon as the file exists, proved by `Upload.IntendedDeletesEveryCreatedFile` |

## Left out

- The regression network, its resize/normalize transform and inference are opaque functions (`Network.forward`). They are floating-point numerics inside torch, SkinAnalysis/aimodel.py:18-41, 85-90, 159-164.
- The numeric values of rounding and of scaler inversion are floating-point operations. `round2` and `Scaler.inverseTransform` are opaque.
- Artifact deserialisation (`torch.load`, `joblib.load`, `os.path.exists`) is file I/O. Each artifact file is reduced to missing, unloadable or loadable.
- A loaded artifact is assumed truthy in the `if`/`all(...)` tests. This holds for the objects these libraries return.
- The database, the object store, `personal_color.analysis` and the Gemini call are foreign calls. Their outcomes are fields of the handler environments. Creation timestamps in rows and responses are not modelled.
- Rendering the response (`JSONResponse` at routes/upload.py:200) is the environment's `render` function. It gives the exception the JSON encoder raises for a content, if any. The model's reals and tone values do not represent NaN, infinities or values JSON cannot encode, so which contents fail is left to that parameter.
- The database insert (routes/upload.py:146-163) is the environment's `dbInsert` function of the row. It gives the exception the driver raises for that row's bound values, if any; the database itself and the driver's encoding rules are not modelled.
- The `os.path.exists` test before the deletion (routes/upload.py:206) is taken to hold for a recorded temporary file: the handler created the file and nothing in it removes it. A deletion that raises is modelled (`UploadEnv.unlink`).
- The server is assumed to run on a POSIX system, so `os.path` is `posixpath`; the Windows path rules are not modelled.
- The upload timestamp comes from the clock and is a string parameter. Its `strftime` formatting is not modelled.
- The `analysis_result` column is stored as the skin summary value, not as its JSON text.
- `Text.Lower` folds ASCII letters only, whereas Python's `lower()` also folds other scripts. The literals compared after lowering in the template choice ("알 수 없음", "없음") are caseless Hangul, so that choice is unaffected.
- Chatbot.AnswerSelection: the quota test is proved case-insensitive over ASCII letters only, because `Text.Lower` folds ASCII only.
- The instruction wording of the two prompt templates is represented by short placeholder text (routes/chatbot.py:94-98, 111-115). The lines that embed the skin type, the history and the user input are reproduced.
- The `.get` defaults `{}` and "분석 성공" at routes/upload.py:124-125 are not modelled separately. A full analysis report always has both entries, so the defaults cannot apply.
- The "no processable images" branch at SkinAnalysis/aimodel.py:192-194 is dead code. The single prediction is always appended before it, so it is not modelled.
- Multi-image averaging does not exist in the code and is not modelled.
- Logging, `print`, async scheduling and request concurrency carry no decision logic.
- A missing upload file name (`None` passed to `splitext`) is not modelled.
- The `LIMIT` of the history query is applied by the database. Records with a NULL role or text are not modelled.
- The other endpoints are not part of this model: `upload_image`, `get_presigned_url` and `get_analysis_history` in routes/upload.py, and `get_dialogue_history` in routes/chatbot.py. So are routes/analysis.py (a duplicate of the merge logic whose analyzer call does not exist), routes/user.py, main.py, schemas.py, models.py and database.py, which hold authentication, persistence plumbing and declarations.
