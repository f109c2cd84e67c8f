# Background remover API: a verified model of its decision logic

This project models the core of a small FastAPI service that removes image
backgrounds with the rembg library, and proves properties of that model. The
service has no interesting computation of its own. Its logic is the
decision-making around an opaque model:

- **The service object** (`BackgroundRemoverService`) is a state machine over
  three fields: the rembg session, the "model loaded" flag, and the
  thread-pool executor (absent, active or shut down). Its operations are
  initialisation, cleanup, a health report, a readiness test, and single and
  batch inference. The executor is modelled as a three-valued field.
  Inference is a function value that may fail. The model's load outcome is a
  parameter.
- **The batch fan-in** collects the outcome of every image, then raises the
  error of the lowest-indexed failure or returns the results in input order.
  A single generic fold, `FanIn.Gather`, captures this. The batch endpoint's
  load loop and its archive loop reuse it.
- **Upload handling** covers the size and extension validator, colour-mode
  normalisation after decoding, and the mapping of every load failure to a
  400. An image is a record of its mode, the keys of its `info` dict, its
  size, its source format and a symbolic pixel payload. The payload records
  the conversions applied to it.
- **Encoding dispatch** covers format and quality defaulting, the
  case-insensitive JPEG/PNG/WEBP dispatch, flattening RGBA onto white for
  JPEG, and the content-type map. The bytes written are not modelled. The
  model records what the encoder is given.
- **The endpoints** `/health`, `/remove`, `/batch` and `/metrics` are modelled
  apart from FastAPI. They cover:
  - the order of the checks;
  - the effective format and quality;
  - output file names;
  - mapping exceptions to HTTP errors;
  - the health status code;
  - the two-second metrics cache.
  The single and batch endpoints are imperative methods proved against
  specification functions (`SingleResponse`, `BatchResponse`). The metrics
  cache is a class whose method updates its two fields.
- **The API-key dependency** is an equality check that either returns the
  header or raises 401. The header scheme is optional, so a missing or empty
  header arrives as None. When no key is configured (the default), None
  equals the missing key, so such a request is let through.

The service loads its model **eagerly**, inside `initialize`
(app/services/remover.py:31-57). It has no lazy loading and no idle eviction.

Files:
- `wrappers.dfy`: `Option`, `Result`, `Outcome`.
- `config.dfy`: the default settings, as constants.
- `errors.dfy`: the exceptions and their `str()`.
- `text.dfy`: last-dot splitting, ASCII case mapping, decimal rendering.
- `fanin.dfy`: the batch fan-in.
- `utils.dfy`: `app/core/utils.py`.
- `remover.dfy`: `app/services/remover.py`.
- `auth.dfy`: `app/services/auth.py`.
- `routes.dfy`: `app/api/routes.py`.

## Model

| member | source | states |
|---|---|---|
| Remover.BackgroundRemoverService.constructor | app/services/remover.py:24-29 | a new service holds no session, is not loaded and has no executor, and is consistent |
| Remover.BackgroundRemoverService.LoadModel | app/services/remover.py:59-69 | a successful load stores the new session; a failing load re-raises its error and leaves every field as it was |
| Remover.BackgroundRemoverService.Initialize | app/services/remover.py:31-57 | the new fields and the outcome are those of `AfterInitialize`; consistency is kept |
| Remover.InitializeOutcome | app/services/remover.py:31-57 | initialisation succeeds iff the cache-directory step (run only when a directory is configured) and the load both succeed; only then is the flag set, and the service becomes ready holding the loaded session; a failure re-raises and leaves the flag and session unchanged; a load failure still leaves the executor created |
| Remover.InitializeKeepsConsistent | app/services/remover.py:31-69 | from a consistent state, initialisation leaves a consistent state (loaded implies a session and an active executor) |
| Remover.ReadyIffLoaded | app/services/remover.py:229-232 | in a consistent state `is_ready` holds exactly when the model is loaded |
| Remover.Health | app/services/remover.py:185-202 | status is "healthy" iff loaded and "unhealthy" otherwise, never "degraded"; `executor_active` iff an executor exists and is not shut down; the report does not change the state |
| Remover.AfterInitialize | app/services/remover.py:31-57 | initialisation succeeds iff the cache step (when a cache directory is set) and the load both succeed, and then the state is the loaded session, loaded, with an active executor; on failure the session and flag are unchanged |
| Remover.AfterCleanup | app/services/remover.py:211-227 | after cleanup the model is not loaded and the service is not ready, whatever the shutdown call does |
| Remover.CleanupReleasesAll | app/services/remover.py:211-224 | with a shutdown call that returns, cleanup brings any state back to the initial one |
| Remover.CleanupIdempotent | app/services/remover.py:211-227 | cleaning up twice leaves the same state as cleaning up once |
| Remover.CleanupKeepsConsistent | app/services/remover.py:211-227 | cleanup keeps the consistency invariant |
| Remover.BackgroundRemoverService.Cleanup | app/services/remover.py:211-227 | the new fields are those of `AfterCleanup`; nothing is raised; consistency is kept |
| Remover.BackgroundRemoverService.RemoveBackground | app/services/remover.py:90-107 | without a loaded model it raises RuntimeError before any processing; otherwise its outcome is the model's outcome on the loaded session |
| Remover.BackgroundRemoverService.RemoveBackgroundBatch | app/services/remover.py:151-179 | the loaded check comes before the size check, and both raise before any sub-request; otherwise exactly one sub-request per image is issued with id "<id>-<i+1>", and the outcome is the fan-in of the per-image outcomes |
| Remover.SubRequestIdsDistinct | app/services/remover.py:164-167 | sub-requests at different positions have different ids |
| Remover.Inferences | app/services/remover.py:164-169 | one outcome per image, outcome i being the model's outcome on image i |
| Remover.BatchOutcome | app/services/remover.py:169-179 | the batch succeeds iff every image succeeds, and then returns one result per image in input order; otherwise it raises the error of the lowest-indexed failing image |
| Remover.InitializeAsWrittenNeverLoads | app/services/remover.py:36-37 | as written, the cache step raises NameError, so initialisation raises it, leaves the state unchanged and the service unready |
| Remover.InitializeWithOsImportedLoads | app/services/remover.py:31-57 | with the cache step working, initialisation from the initial state makes the service ready exactly when the model loads |
| Remover.CleanupAsWrittenKeepsExecutor | app/services/remover.py:216-227 | as written, the shutdown call raises TypeError, so cleanup keeps the executor active and the session held |
| Remover.CleanupWithWorkingShutdown | app/services/remover.py:211-224 | with a shutdown call that returns, cleanup of a loaded service drops the executor and the session |
| FanIn.Gather | app/services/remover.py:169-179 | the fan-in succeeds iff every outcome is Ok, and then returns their values, same length, in order |
| FanIn.GatherFirstFailure | app/services/remover.py:172-177 | when outcome k is the first failure, the fan-in raises exactly outcome k's error |
| FanIn.GatherAllOk | app/services/remover.py:172-179 | when every outcome is Ok, the fan-in returns exactly their values, in order |
| FanIn.GatherFailure | app/services/remover.py:172-177 | a failing fan-in has a first failing position, and its error is that position's error |
| Utils.ValidateImageFile | app/core/utils.py:30-44 | a refusal is an HTTP 413 or 400; 413 iff a truthy size exceeds the limit; the upload passes iff it is not oversized and, when it has a name, the lower-cased text after its last dot is an allowed extension |
| Utils.TextFileRejected | app/core/utils.py:38-44 | the extension of "test.txt" is "txt", and such an upload of acceptable size is refused with a 400 naming it |
| Utils.DotlessNameAccepted | app/core/utils.py:38-44 | a dot-less name is taken whole as its extension: "PNG" passes |
| Utils.SizeCheckedFirst | app/core/utils.py:31-35 | an oversized upload gets the 413, whatever its name |
| Utils.NormalizeMode | app/core/utils.py:70-77 | after loading, the mode is RGB, RGBA or LA; an image already in one of them is untouched; every other mode is converted to RGB; the size is kept |
| Utils.LoadImageFromUpload | app/core/utils.py:60-81 | the loader's outcome is `LoadedUpload`: validate, decode, normalise, each failure wrapped as a 400 |
| Utils.LoadedUploadOutcome | app/core/utils.py:60-81 | every load failure is a 400; loading succeeds iff validation passes and decoding succeeds; a loaded image has a kept mode and the decoded size |
| Utils.MaxFileSizeTextIsDigits | app/core/utils.py:34 | the limit in the 413 detail is written as the decimal text of the 10 MiB limit |
| Utils.LoadFailureOf413 | app/core/utils.py:79-81 | the validator's 413 becomes a 400 whose detail is "Failed to load image: 413: " + the original detail |
| Utils.LoadFailureOf400 | app/core/utils.py:79-81 | the validator's 400 becomes a 400 whose detail is "Failed to load image: 400: " + the original detail |
| Utils.OversizedUploadIs400 | app/core/utils.py:60-81 | an oversized upload reaches the caller as 400 "Failed to load image: 413: ...", not as a 413 |
| Utils.DisallowedExtensionFailsToLoad | app/core/utils.py:79-81 | an upload of acceptable size whose extension is not allowed reaches the caller as 400 "Failed to load image: 400: File extension '<ext>' not allowed ..." |
| Utils.JpegReady | app/core/utils.py:108-116 | the JPEG encoder is given an RGB image of the same size; an RGB image is unchanged, RGBA is flattened onto white, and every other mode (LA included) is converted to RGB |
| Utils.ImageToBytes | app/core/utils.py:98-124 | the method's outcome is `EncodedImage`: defaults applied, dispatch on the upper-cased format |
| Utils.EncodedImageSucceedsIff | app/core/utils.py:107-124 | the format dispatch passes iff the upper-cased format (PNG when absent) is JPEG, PNG or WEBP; otherwise it raises ValueError |
| Utils.EncodedImageDefaults | app/core/utils.py:98-102 | with no format and no quality, the image is saved unchanged as PNG without a quality |
| Utils.JpegEncodesRgb | app/core/utils.py:108-118 | on the JPEG path the encoder receives an RGB image of the same size with the given or default quality; RGBA is flattened onto white |
| Utils.WebpKeepsImage | app/core/utils.py:121-122 | the WEBP path saves the image as it is, in any mode, with the given or default quality |
| Utils.PngIgnoresQuality | app/core/utils.py:119-120 | PNG output does not depend on the quality and the image is saved as it is |
| Utils.GetImageInfo | app/core/utils.py:139-146 | the summary has the image's size and mode, and `has_transparency` iff the mode is RGBA, LA or P and "transparency" is an info key |
| Utils.LoadedTransparency | app/core/utils.py:139-146 | a loaded upload reports transparency iff it was decoded as RGBA or LA with a "transparency" key (palette images have become RGB) |
| Utils.GetContentType | app/core/utils.py:159-161 | PNG, JPEG and WEBP in any letter case map to their image types; anything else maps to application/octet-stream |
| Utils.ContentTypeOfEncodable | app/core/utils.py:159-161 | every format the encoder accepts has an image content type |
| Auth.GetApiKey | app/services/auth.py:9-17 | a request passes iff the value the header scheme hands on equals the key captured at import, and then that value is returned; otherwise the 401 |
| Auth.CheckApiKey | app/services/auth.py:11-17 | the request passes iff the header equals the configured key, and then the header is returned unchanged; otherwise 401 "Invalid or missing API Key" |
| Auth.HeaderValue | app/services/auth.py:9 | the optional header scheme hands on None exactly when the header is missing or empty, and the header's value otherwise |
| Auth.ConfiguredKeyRequired | app/services/auth.py:9-17 | with a key configured, only that exact header passes and a missing header is refused; for a non-empty key, a request passes iff its raw header is that key |
| Auth.NoKeyConfigured | app/services/auth.py:7-17 | with the default of no key, a request passes iff it has no header or an empty one, and then None is returned; any non-empty header gets the 401 |
| Auth.EmptyKeyRefusesAll | app/services/auth.py:9-17 | a configured key of "" refuses every request, because an empty header arrives as None |
| Text.SplitAtLastDot | app/api/routes.py:119 | a name with a dot is its stem, ".", and its extension; a name without one is its own stem |
| Text.JoinAtLastDot | app/api/routes.py:230-235 | stem + "." + an extension without a dot splits back into that stem and that extension |
| Routes.HealthStatusCode | app/api/routes.py:44-49 | "unhealthy" gives 503, "degraded" gives 206, and anything else gives 200 |
| Routes.HealthEndpoint | app/api/routes.py:40-58 | a missing service gives 503 "Service unavailable"; otherwise the body holds the service's report with status code 200 when the model is loaded and 503 when it is not |
| Routes.ResolveFormat | app/api/routes.py:107-111 | the effective format is upper case: the requested format upper-cased, or PNG when none or an empty one is given |
| Routes.ResolveStable | app/api/routes.py:107-112 | a resolved format or quality, given again, resolves to itself: the defaults apply at most once |
| Routes.ResolveQuality | app/api/routes.py:112 | the effective quality is the given one when it is non-zero, else 95; it is never 0 |
| Routes.PatternFormatsEncode | app/api/routes.py:108-118 | every format the query pattern admits, and no format at all, resolves to a supported format that passes the format dispatch and has an image content type |
| Routes.SingleFilename | app/api/routes.py:119 | an unnamed upload gives "no_bg_image.<fmt>"; a dot-less name is kept whole; otherwise the stem is the text before the last dot, and the name is that stem, ".", and an extension without a dot |
| Routes.BatchFilename | app/api/routes.py:197 | the recorded name is never empty, and a named upload keeps its name |
| Routes.UnnamedBatchFilename | app/api/routes.py:197 | an unnamed upload's name is "image_" followed by digits that read back as its 1-based position, so unnamed uploads at different positions get different names |
| Routes.BatchEntryName | app/api/routes.py:229-235 | a dot-less name is kept whole as the stem; otherwise the stem is the text before the last dot, and the name is that stem, ".", and an extension without a dot |
| Routes.OutputNamesAgree | app/api/routes.py:230-235 | both endpoints give a named upload the same output name: "no_bg_" + the name without its last extension + "." + the lower-cased format |
| Routes.NameWithExtension | app/api/routes.py:230-235 | a name stem + "." + extension (the stem may hold dots) becomes "no_bg_" + stem + "." + the lower-cased format, from either endpoint; so "test1.png" becomes "no_bg_test1.<format>" |
| Routes.ExampleUnnamedNames | app/api/routes.py:197 | an unnamed upload at position 3 becomes "no_bg_image_3.png"; an unnamed upload to /remove becomes "no_bg_image.jpeg" for JPEG |
| Routes.MapError | app/api/routes.py:135-139 | an HTTP error passes unchanged; any other exception becomes a 500 with the prefix and its message |
| Routes.RemoveBackgroundEndpoint | app/api/routes.py:85-139 | the API key is checked first; then a missing service gives 500 and an unready one 503, both before the upload is read; otherwise the answer is `SingleResponse` |
| Routes.SingleResponseOutcome | app/api/routes.py:96-139 | a load failure is answered with its own 400; a non-HTTP model error becomes 500 "Processing failed: ..."; a success carries the encoding of the model's output, the format's image content type and the derived file name |
| Routes.TextUploadAnswered | app/api/routes.py:98 | a "test.txt" upload to /remove is answered with 400 "Failed to load image: 400: ..." |
| Routes.Loads | app/api/routes.py:194-196 | one load outcome per upload, in order |
| Routes.Filenames | app/api/routes.py:194-197 | name i is upload i's name, or "image_<i+1>" when it has none |
| Routes.Encodings | app/api/routes.py:225-227 | one encoding outcome per result, with the effective format and quality |
| Routes.ZipEntries | app/api/routes.py:220-238 | entries pair names with encoded results in order, one per pair, named "no_bg_<stem>.<format>" |
| Routes.LoadAll | app/api/routes.py:190-197 | the load loop's outcome is the fan-in of the per-upload loads, stopping at the first failure; on success it records every name |
| Routes.WriteEntries | app/api/routes.py:220-238 | the archive loop yields the entries of `ZipEntries`, or the first encoding error |
| Routes.RemoveBackgroundBatchEndpoint | app/api/routes.py:166-263 | the checks run in order: API key; more than 5 files gives 400 (before the empty check); no files gives 400; then a missing service gives 500 and an unready one 503; only then are uploads read; otherwise the answer is `BatchResponse` |
| Routes.BatchResponseOutcome | app/api/routes.py:190-238 | a successful batch has one entry per upload, in order, each named from its upload and holding the encoding of the model's output for it; a load failure is answered with the lowest-indexed failing upload's 400 |
| Routes.AfterMetrics | app/api/routes.py:306-319 | after a call the cache always holds data |
| Routes.MetricsStep | app/api/routes.py:308-317 | a fresh cache is served unchanged; a stale one (empty, or older than 2 s) is replaced by the new report, or by an error report when collection raises, and is stamped with the time either way |
| Routes.MetricsCachedWithinTtl | app/api/routes.py:306-319 | after a collection at t1, calls up to 2 s later, or at earlier clock times, are served the same data without collecting; a call more than 2 s later collects again |
| Routes.MetricsCache.constructor | app/api/routes.py:28 | the cache starts empty with timestamp 0 |
| Routes.MetricsCache.Metrics | app/api/routes.py:295-319 | the API key is checked first and a refused call changes nothing; otherwise the cache moves as `AfterMetrics`, collection runs iff the cache was stale, and the cached data is returned |

## Left out

- The rembg backend is not modelled: `new_session` is a load outcome supplied by the caller, and `remove` is the `Inference` function value.
- PIL decoding and encoding, `BytesIO` and the ZIP writer: decoding is the `Decoder` function value; the model records what is handed to the encoder and what is written to the archive, not the bytes.
- asyncio, the thread-pool executor's threads, `run_in_executor`, `asyncio.gather` and the lock in `_process_image`: the batch is a sequence of per-item outcomes processed in order. The lock only serialises inference, which a sequential model has already.
- `_processing_queue` is created but never used; the health report gives its size as the constant 0. The `except` branch of `health_check` cannot be reached from the model's fields and is left out.
- `get_system_metrics`, `PerformanceLogger`, logging and `time.time()`: the metrics payload is abstracted to its keys or to an error message, and the current time is a parameter.
- `generate_request_id` (a UUID) is a caller-supplied fresh string.
- Response headers are not modelled, and neither is the batch archive's own file name. `X-Input-Size` always reports "0", because the upload has already been read.
- FastAPI query validation is not modelled: the format pattern check, the 1..100 quality bounds and their 422 answers belong to the framework. So does the 422 for a request without the required `file` or `files` part: FastAPI answers it before the route runs, so the batch route's "No files provided" 400 is not reached through FastAPI. The model keeps that branch as the route code states it. `Routes.PatternFormatsEncode` takes the pattern's format set as a precondition.
- The `/info` endpoint returns a constant dict and is not part of this model. app/main.py, which wires the lifespan and CORS, is not part of this model either.
- Settings loading from the environment and `os.makedirs` in app/core/config.py are not modelled: the defaults are constants. The configured cache directory is a parameter of `Initialize`.
- Text.Lower, Text.Upper: these map ASCII letters only, where Python's `lower()` and `upper()` apply Unicode case mapping. Names with non-ASCII letters may therefore compare differently.
- Utils.EncodedImage: the encoder call `image.save(...)` is taken as total. PIL can still raise there, for example for a JPEG wider than 65500 px or a WEBP wider than 16383 px, and the routes then answer 500. So `Utils.EncodedImageSucceedsIff` and `Routes.PatternFormatsEncode` describe only the format dispatch, not the encoder itself.
- Routes.MetricsStep, Routes.MetricsCachedWithinTtl: the `time.time()` floats are modelled as `real`s, so floating-point rounding of the timestamps and of the TTL comparison is not captured.
- Utils.Convert: keeps the `info` keys; PIL's own bookkeeping of `info` on `convert` is not modelled.
- Remover.BackgroundRemoverService.Initialize: calling initialize on an already initialised service replaces the executor without shutting the old one down. The model represents executors by state only, so the leaked thread pool is not visible.

## Findings

| source | as written | input that shows it | evidently intended | confidence | as-written member | corrected member |
|---|---|---|---|---|---|---|
| app/services/remover.py:36-37 | `os.environ[...]` is used, but remover.py never imports `os`. app/core/config.py:89-90 always sets `MODEL_CACHE_DIR`, so the branch always runs and raises NameError. | `initialize()` under the default settings | set `U2NET_HOME` and go on to create the executor and load the model | high, not executed | Remover.InitializeAsWrittenNeverLoads | Remover.InitializeWithOsImportedLoads |
| app/services/remover.py:218 | `shutdown(wait=True, timeout=10)` passes `timeout`, which the standard `ThreadPoolExecutor.shutdown` does not accept. The TypeError is caught, so the executor and the session are never released. | `cleanup()` after a successful `initialize()` | shut the executor down, drop it and drop the session | high, not executed | Remover.CleanupAsWrittenKeepsExecutor | Remover.CleanupWithWorkingShutdown |
