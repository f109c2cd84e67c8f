/** The decision logic of the endpoints of app/api/routes.py, apart from
    FastAPI and the ZIP writer: the order of the checks, format and quality
    defaulting, output file names, the mapping of exceptions to HTTP errors,
    the health status code, and the metrics cache. */
module Routes {
  import opened Wrappers
  import opened Errors
  import opened Utils
  import opened FanIn
  import opened Remover
  import Auth
  import Config
  import Text

  datatype HealthResponse = HealthResponse(content: HealthReport, statusCode: nat)

  /** The single-image response: what is encoded, its media type, and the
      file name of its Content-Disposition header. */
  datatype FileResponse = FileResponse(body: Encoded, mediaType: string, filename: string)

  /** One entry of the batch archive. */
  datatype ZipEntry = ZipEntry(name: string, body: Encoded)

  /** `request.app.state.remover_service` when the lifespan stored no service. */
  const MissingService: Error := AttributeError("'State' object has no attribute 'remover_service'")
  const ServiceUnavailable: Error := HttpError(503, "Service unavailable")
  const NotReady: Error := HttpError(503, "Background remover service not ready")
  const NoFiles: Error := HttpError(400, "No files provided")
  const SinglePrefix: string := "Processing failed: "
  const BatchPrefix: string := "Batch processing failed: "

  function TooManyFiles(): Error {
    HttpError(400, "Too many files. Maximum allowed: " + Text.Digits(Config.MaxFilesBatch))
  }

  // ---------------------------------------------------------------- health

  /** The status code placed beside the service's report. */
  function HealthStatusCode(status: string): (code: nat)
    ensures code == 503 <==> status == "unhealthy"
    ensures code == 206 <==> status == "degraded"
    ensures code == 200 <==> status != "unhealthy" && status != "degraded"
  {
    if status == "unhealthy" then 503 else if status == "degraded" then 206 else 200
  }

  /** health_check: the report with its code; a missing service is a 503.
      The service never reports "degraded", so the code is 200 when the model
      is loaded and 503 otherwise. */
  function HealthEndpoint(service: BackgroundRemoverService?): (r: Result<HealthResponse, Error>)
    reads service
    ensures service == null ==> r == Err(ServiceUnavailable)
    ensures service != null ==> r.Ok? && r.value.content == service.HealthCheck()
    ensures service != null ==> r.value.statusCode == (if service.modelLoaded then 200 else 503)
  {
    if service == null then Err(ServiceUnavailable)
    else
      var report := service.HealthCheck();
      Ok(HealthResponse(report, HealthStatusCode(report.status)))
  }

  // ---------------------------------------------------------------- defaults and names

  /** `output_format.upper() if output_format else DEFAULT_OUTPUT_FORMAT`. */
  function ResolveFormat(outputFormat: Option<string>): (f: string)
    ensures Text.Upper(f) == f
    ensures outputFormat.Some? && outputFormat.value != "" ==> f == Text.Upper(outputFormat.value)
    ensures !(outputFormat.Some? && outputFormat.value != "") ==> f == Config.DefaultOutputFormat
  {
    if outputFormat.Some? && outputFormat.value != "" then
      Text.UpperIdempotent(outputFormat.value);
      Text.Upper(outputFormat.value)
    else
      assert Text.Upper(Config.DefaultOutputFormat) == "PNG";
      Config.DefaultOutputFormat
  }

  /** `quality if quality else OUTPUT_QUALITY`: a missing or zero quality
      becomes the default. */
  function ResolveQuality(quality: Option<int>): (q: int)
    ensures q != 0
    ensures quality.Some? && quality.value != 0 ==> q == quality.value
    ensures !(quality.Some? && quality.value != 0) ==> q == Config.OutputQuality
  {
    if quality.Some? && quality.value != 0 then quality.value else Config.OutputQuality
  }

  /** Resolving is stable: a resolved format or quality, passed in again,
      resolves to itself, so the defaults are applied at most once. */
  lemma ResolveStable(outputFormat: Option<string>, quality: Option<int>)
    ensures ResolveFormat(Some(ResolveFormat(outputFormat))) == ResolveFormat(outputFormat)
    ensures ResolveQuality(Some(ResolveQuality(quality))) == ResolveQuality(quality)
  {
  }

  /** The formats the query pattern `^(PNG|JPEG|WEBP|png|jpeg|webp)$` lets through. */
  const PatternFormats: set<string> := {"PNG", "JPEG", "WEBP", "png", "jpeg", "webp"}

  /** Any format the query pattern accepts, and no format at all, resolves to
      a format the encoder supports and that has an image content type. */
  lemma PatternFormatsEncode(outputFormat: Option<string>, img: Image, quality: Option<int>)
    requires outputFormat.Some? ==> outputFormat.value in PatternFormats
    ensures ResolveFormat(outputFormat) in SupportedFormats
    ensures EncodedImage(img, Some(ResolveFormat(outputFormat)), quality).Ok?
    ensures GetContentType(ResolveFormat(outputFormat)) != "application/octet-stream"
  {
    assert Text.Upper("png") == "PNG" && Text.Upper("PNG") == "PNG";
    assert Text.Upper("jpeg") == "JPEG" && Text.Upper("JPEG") == "JPEG";
    assert Text.Upper("webp") == "WEBP" && Text.Upper("WEBP") == "WEBP";
  }

  /** `f"no_bg_{stem}.{format.lower()}"`. */
  function OutputName(stem: string, format: string): string {
    "no_bg_" + stem + "." + Text.Lower(format)
  }

  /** The single endpoint's file name: the upload's name without its last
      extension, or "image" when it has no name. */
  function SingleFilename(filename: Option<string>, format: string): (r: string)
    ensures !HasName(filename) ==> r == OutputName("image", format)
    ensures HasName(filename) && '.' !in filename.value ==> r == OutputName(filename.value, format)
    ensures HasName(filename) && '.' in filename.value ==>
      exists ext :: '.' !in ext && filename.value == Text.BeforeLastDot(filename.value) + "." + ext
                 && r == OutputName(Text.BeforeLastDot(filename.value), format)
  {
    if HasName(filename) then
      Text.SplitAtLastDot(filename.value);
      OutputName(Text.BeforeLastDot(filename.value), format)
    else
      OutputName("image", format)
  }

  /** `file.filename or f"image_{k}"` for the file at 1-based position `k`. */
  function BatchFilename(filename: Option<string>, position: nat): (r: string)
    ensures r != ""
    ensures HasName(filename) ==> r == filename.value
  {
    if HasName(filename) then filename.value else "image_" + Text.Digits(position)
  }

  /** An unnamed upload's batch name is "image_" followed by digits that read
      back as its position, so unnamed uploads at different positions get
      different names. */
  lemma UnnamedBatchFilename(filename: Option<string>, position: nat, other: nat)
    requires !HasName(filename)
    ensures var r := BatchFilename(filename, position);
      |r| > 6 && r[..6] == "image_" && Text.ParseDigits(r[6..]) == position
    ensures other != position ==> BatchFilename(filename, other) != BatchFilename(filename, position)
  {
    var r := BatchFilename(filename, position);
    assert r[6..] == Text.Digits(position);
    Text.ParseDigitsOfDigits(position);
    if other != position {
      var r2 := BatchFilename(filename, other);
      assert r2[6..] == Text.Digits(other);
      Text.ParseDigitsOfDigits(other);
    }
  }

  /** The batch's archive entry name for an original file name. */
  function BatchEntryName(original: string, format: string): (r: string)
    ensures '.' !in original ==> r == OutputName(original, format)
    ensures '.' in original ==>
      exists ext :: '.' !in ext && original == Text.BeforeLastDot(original) + "." + ext
                 && r == OutputName(Text.BeforeLastDot(original), format)
  {
    Text.SplitAtLastDot(original);
    OutputName(if '.' in original then Text.BeforeLastDot(original) else original, format)
  }

  /** A named upload gets the same output name from both endpoints; that name
      is "no_bg_" + the original name without its last extension + "." + the
      lower-cased format, and is never longer than that. */
  lemma OutputNamesAgree(name: string, format: string, position: nat)
    requires name != ""
    ensures BatchEntryName(BatchFilename(Some(name), position), format) == SingleFilename(Some(name), format)
    ensures var stem := Text.BeforeLastDot(name);
      && SingleFilename(Some(name), format) == "no_bg_" + stem + "." + Text.Lower(format)
      && (name == stem || name == stem + "." + Text.AfterLastDot(name))
  {
    Text.SplitAtLastDot(name);
  }

  /** A name with an extension keeps everything before that extension, dots
      included: "test1.png" becomes "no_bg_test1.<format>" and "a.b.jpg"
      becomes "no_bg_a.b.<format>", from either endpoint. */
  lemma NameWithExtension(stem: string, ext: string, format: string, position: nat)
    requires '.' !in ext
    ensures SingleFilename(Some(stem + "." + ext), format) == "no_bg_" + stem + "." + Text.Lower(format)
    ensures BatchEntryName(BatchFilename(Some(stem + "." + ext), position), format)
         == "no_bg_" + stem + "." + Text.Lower(format)
  {
    var name := stem + "." + ext;
    assert name[|stem|] == '.';
    Text.JoinAtLastDot(stem, ext);
  }

  /** An unnamed upload at position 3 of a batch becomes "no_bg_image_3.png";
      an unnamed upload to /remove becomes "no_bg_image.<format>". */
  lemma ExampleUnnamedNames()
    ensures BatchEntryName(BatchFilename(None, 3), "PNG") == "no_bg_image_3.png"
    ensures SingleFilename(None, "JPEG") == "no_bg_image.jpeg"
  {
    assert Text.Lower("PNG") == "png";
    assert Text.Lower("JPEG") == "jpeg";
    assert Text.Digits(3) == "3";
    assert '.' !in "image_3";
  }

  // ---------------------------------------------------------------- exception mapping

  /** `except HTTPException: raise` / `except Exception as e: raise HTTPException(500, ...)`. */
  function MapError(e: Error, prefix: string): (r: Error)
    ensures r.HttpError?
    ensures e.HttpError? ==> r == e
    ensures !e.HttpError? ==> r == HttpError(500, prefix + Str(e))
  {
    if e.HttpError? then e else HttpError(500, prefix + Str(e))
  }

  // ---------------------------------------------------------------- /remove

  /** What /remove answers for a ready service holding `session`. */
  function SingleResponse(session: Session, file: Upload, outputFormat: Option<string>, quality: Option<int>,
                          decode: Decoder, infer: Inference): Result<FileResponse, Error>
  {
    match LoadedUpload(file, decode)
    case Err(e) => Err(MapError(e, SinglePrefix))
    case Ok(img) =>
      match infer(session, img)
      case Err(e) => Err(MapError(e, SinglePrefix))
      case Ok(out) =>
        var fmt := ResolveFormat(outputFormat);
        match EncodedImage(out, Some(fmt), Some(ResolveQuality(quality)))
        case Err(e) => Err(MapError(e, SinglePrefix))
        case Ok(enc) => Ok(FileResponse(enc, GetContentType(fmt), SingleFilename(file.filename, fmt)))
  }

  /** remove_background: the API key, then the service's presence and
      readiness, are checked before the upload is read; then load, inference
      and encoding, each failure mapped to an HTTP error. */
  method RemoveBackgroundEndpoint(service: BackgroundRemoverService?, apiKey: Option<string>, file: Upload,
                                  outputFormat: Option<string>, quality: Option<int>,
                                  decode: Decoder, infer: Inference)
    returns (r: Result<FileResponse, Error>)
    requires service != null ==> service.Valid()
    ensures Auth.GetApiKey(apiKey).Err? ==> r == Err(Auth.InvalidKey)
    ensures Auth.GetApiKey(apiKey).Ok? && service == null ==> r == Err(HttpError(500, SinglePrefix + MissingService.message))
    ensures Auth.GetApiKey(apiKey).Ok? && service != null && !service.IsReady() ==> r == Err(NotReady)
    ensures Auth.GetApiKey(apiKey).Ok? && service != null && service.IsReady() ==>
      r == SingleResponse(service.session.value, file, outputFormat, quality, decode, infer)
  {
    var auth := Auth.GetApiKey(apiKey);
    if auth.Err? {
      return Err(auth.error);
    }
    if service == null {
      return Err(MapError(MissingService, SinglePrefix));
    }
    if !service.IsReady() {
      return Err(NotReady);
    }
    var image := LoadImageFromUpload(file, decode);
    if image.Err? {
      return Err(MapError(image.error, SinglePrefix));
    }
    var result := service.RemoveBackground(image.value, infer);
    if result.Err? {
      return Err(MapError(result.error, SinglePrefix));
    }
    var formatToUse := ResolveFormat(outputFormat);
    var qualityToUse := ResolveQuality(quality);
    var imageBytes := ImageToBytes(result.value, Some(formatToUse), Some(qualityToUse));
    if imageBytes.Err? {
      return Err(MapError(imageBytes.error, SinglePrefix));
    }
    var contentType := GetContentType(formatToUse);
    var filename := SingleFilename(file.filename, formatToUse);
    return Ok(FileResponse(imageBytes.value, contentType, filename));
  }

  /** For a ready service: a failed load is answered with its own 400; an
      exception of the model becomes a 500 "Processing failed: ..."; a format
      the query pattern accepts always passes the format dispatch; a success carries the
      encoding of the model's output, the format's content type and the
      derived file name. */
  lemma SingleResponseOutcome(session: Session, file: Upload, outputFormat: Option<string>, quality: Option<int>,
                              decode: Decoder, infer: Inference)
    requires outputFormat.Some? ==> outputFormat.value in PatternFormats
    ensures var r := SingleResponse(session, file, outputFormat, quality, decode, infer);
      && (LoadedUpload(file, decode).Err? ==> r == Err(LoadedUpload(file, decode).error) && r.error.status == 400)
      && (LoadedUpload(file, decode).Ok? ==>
            var out := infer(session, LoadedUpload(file, decode).value);
            && (out.Err? && !out.error.HttpError? ==> r == Err(HttpError(500, SinglePrefix + Str(out.error))))
            && (out.Ok? ==>
                  && r.Ok?
                  && r.value.body == EncodedImage(out.value, Some(ResolveFormat(outputFormat)),
                                                  Some(ResolveQuality(quality))).value
                  && r.value.mediaType == GetContentType(ResolveFormat(outputFormat))
                  && r.value.mediaType != "application/octet-stream"
                  && r.value.filename == SingleFilename(file.filename, ResolveFormat(outputFormat))))
  {
    LoadedUploadOutcome(file, decode);
    if LoadedUpload(file, decode).Ok? {
      var out := infer(session, LoadedUpload(file, decode).value);
      if out.Ok? {
        PatternFormatsEncode(outputFormat, out.value, Some(ResolveQuality(quality)));
      }
    }
  }

  /** A "test.txt" upload of an acceptable size is answered with a 400 whose
      detail wraps the validator's own "400: File extension ..." message. */
  lemma TextUploadAnswered(session: Session, size: Option<int>, content: seq<bv8>,
                           outputFormat: Option<string>, quality: Option<int>, decode: Decoder, infer: Inference)
    requires !Oversized(size)
    ensures SingleResponse(session, Upload(Some("test.txt"), size, content), outputFormat, quality, decode, infer)
         == Err(HttpError(400, "Failed to load image: 400: " + ExtensionDetail("txt")))
  {
    TextFileRejected(size, content);
    DisallowedExtensionFailsToLoad(Upload(Some("test.txt"), size, content), decode);
  }

  // ---------------------------------------------------------------- /batch

  function Loads(files: seq<Upload>, decode: Decoder): (outs: seq<Result<Image, Error>>)
    ensures |outs| == |files|
    ensures forall i {:trigger outs[i]} :: 0 <= i < |files| ==> outs[i] == LoadedUpload(files[i], decode)
  {
    seq(|files|, i requires 0 <= i < |files| => LoadedUpload(files[i], decode))
  }

  function Filenames(files: seq<Upload>): (names: seq<string>)
    ensures |names| == |files|
    ensures forall i {:trigger names[i]} :: 0 <= i < |files| ==> names[i] == BatchFilename(files[i].filename, i + 1)
  {
    seq(|files|, i requires 0 <= i < |files| => BatchFilename(files[i].filename, i + 1))
  }

  function Encodings(images: seq<Image>, format: string, quality: int): (outs: seq<Result<Encoded, Error>>)
    ensures |outs| == |images|
    ensures forall i :: 0 <= i < |images| ==> outs[i] == EncodedImage(images[i], Some(format), Some(quality))
  {
    seq(|images|, i requires 0 <= i < |images| => EncodedImage(images[i], Some(format), Some(quality)))
  }

  /** `zip(results, filenames)`: one entry per pair, in order. */
  function ZipEntries(names: seq<string>, bodies: seq<Encoded>, format: string): (entries: seq<ZipEntry>)
    ensures |entries| == if |names| < |bodies| then |names| else |bodies|
    ensures forall i :: 0 <= i < |entries| ==> entries[i] == ZipEntry(BatchEntryName(names[i], format), bodies[i])
  {
    var n := if |names| < |bodies| then |names| else |bodies|;
    seq(n, i requires 0 <= i < n => ZipEntry(BatchEntryName(names[i], format), bodies[i]))
  }

  /** What /batch answers, for a ready service holding `session`, once the
      number of files is within bounds. */
  function BatchResponse(session: Session, files: seq<Upload>, outputFormat: Option<string>, quality: Option<int>,
                         decode: Decoder, infer: Inference): Result<seq<ZipEntry>, Error>
  {
    match Gather(Loads(files, decode))
    case Err(e) => Err(MapError(e, BatchPrefix))
    case Ok(images) =>
      match Gather(Inferences(session, images, infer))
      case Err(e) => Err(MapError(e, BatchPrefix))
      case Ok(results) =>
        var fmt := ResolveFormat(outputFormat);
        match Gather(Encodings(results, fmt, ResolveQuality(quality)))
        case Err(e) => Err(MapError(e, BatchPrefix))
        case Ok(bodies) => Ok(ZipEntries(Filenames(files), bodies, fmt))
  }

  /** The i-th upload of a batch, loaded by `load_image_from_upload`; a helper
      of LoadAll that names the outcome by its place in `Loads`. */
  method LoadAt(files: seq<Upload>, i: nat, decode: Decoder) returns (image: Result<Image, Error>)
    requires i < |files|
    ensures image == Loads(files, decode)[i]
  {
    image := LoadImageFromUpload(files[i], decode);
  }

  /** The loop that loads every upload and records its name; it stops at the
      first upload that fails to load. */
  method LoadAll(files: seq<Upload>, decode: Decoder) returns (r: Result<seq<Image>, Error>, filenames: seq<string>)
    ensures r == Gather(Loads(files, decode))
    ensures r.Ok? ==> filenames == Filenames(files)
  {
    ghost var outs := Loads(files, decode);
    ghost var names := Filenames(files);
    var images: seq<Image> := [];
    filenames := [];
    for i := 0 to |files|
      invariant |images| == i
      invariant forall j :: 0 <= j < i ==> outs[j] == Ok(images[j])
      invariant filenames == names[..i]
    {
      var image := LoadAt(files, i, decode);
      if image.Err? {
        GatherFirstFailure(outs, i);
        return Err(image.error), filenames;
      }
      images := images + [image.value];
      filenames := filenames + [BatchFilename(files[i].filename, i + 1)];
      assert names[..i + 1] == names[..i] + [names[i]];
    }
    assert names[..|files|] == names;
    GatherAllOk(outs, images);
    r := Ok(images);
  }

  /** The loop that encodes each result and writes it under its name. */
  method WriteEntries(results: seq<Image>, filenames: seq<string>, format: string, quality: int)
    returns (r: Result<seq<ZipEntry>, Error>)
    requires |results| == |filenames|
    ensures r == match Gather(Encodings(results, format, quality))
                 case Err(e) => Err(e)
                 case Ok(bodies) => Ok(ZipEntries(filenames, bodies, format))
  {
    ghost var outs := Encodings(results, format, quality);
    ghost var bodies: seq<Encoded> := [];
    var entries: seq<ZipEntry> := [];
    for i := 0 to |results|
      invariant |entries| == |bodies| == i
      invariant forall j :: 0 <= j < i ==> outs[j] == Ok(bodies[j])
      invariant forall j :: 0 <= j < i ==> entries[j] == ZipEntry(BatchEntryName(filenames[j], format), bodies[j])
    {
      var imageBytes := ImageToBytes(results[i], Some(format), Some(quality));
      if imageBytes.Err? {
        GatherFirstFailure(outs, i);
        return Err(imageBytes.error);
      }
      var outputFilename := BatchEntryName(filenames[i], format);
      entries := entries + [ZipEntry(outputFilename, imageBytes.value)];
      bodies := bodies + [imageBytes.value];
    }
    GatherAllOk(outs, bodies);
    assert entries == ZipEntries(filenames, bodies, format);
    r := Ok(entries);
  }

  /** remove_background_batch: the API key, then too many files (before the
      empty check), then no files, then the service's presence and readiness;
      only then are the uploads read. */
  method RemoveBackgroundBatchEndpoint(service: BackgroundRemoverService?, apiKey: Option<string>, files: seq<Upload>,
                                       outputFormat: Option<string>, quality: Option<int>, requestId: string,
                                       decode: Decoder, infer: Inference)
    returns (r: Result<seq<ZipEntry>, Error>)
    requires service != null ==> service.Valid()
    ensures Auth.GetApiKey(apiKey).Err? ==> r == Err(Auth.InvalidKey)
    ensures Auth.GetApiKey(apiKey).Ok? && |files| > Config.MaxFilesBatch ==> r == Err(TooManyFiles())
    ensures Auth.GetApiKey(apiKey).Ok? && |files| == 0 ==> r == Err(NoFiles)
    ensures Auth.GetApiKey(apiKey).Ok? && 0 < |files| <= Config.MaxFilesBatch && service == null ==>
      r == Err(HttpError(500, BatchPrefix + MissingService.message))
    ensures Auth.GetApiKey(apiKey).Ok? && 0 < |files| <= Config.MaxFilesBatch && service != null && !service.IsReady() ==>
      r == Err(NotReady)
    ensures Auth.GetApiKey(apiKey).Ok? && 0 < |files| <= Config.MaxFilesBatch && service != null && service.IsReady() ==>
      r == BatchResponse(service.session.value, files, outputFormat, quality, decode, infer)
  {
    var auth := Auth.GetApiKey(apiKey);
    if auth.Err? {
      return Err(auth.error);
    }
    if |files| > Config.MaxFilesBatch {
      return Err(TooManyFiles());
    }
    if |files| == 0 {
      return Err(NoFiles);
    }
    if service == null {
      return Err(MapError(MissingService, BatchPrefix));
    }
    if !service.IsReady() {
      return Err(NotReady);
    }
    var images, filenames := LoadAll(files, decode);
    if images.Err? {
      return Err(MapError(images.error, BatchPrefix));
    }
    var results, _ := service.RemoveBackgroundBatch(images.value, Some(requestId), requestId, infer);
    if results.Err? {
      return Err(MapError(results.error, BatchPrefix));
    }
    var formatToUse := ResolveFormat(outputFormat);
    var qualityToUse := ResolveQuality(quality);
    var entries := WriteEntries(results.value, filenames, formatToUse, qualityToUse);
    if entries.Err? {
      return Err(MapError(entries.error, BatchPrefix));
    }
    r := entries;
  }

  /** For a ready service: a successful batch has one archive entry per
      upload, in upload order, entry i named from upload i (or "image_<i+1>")
      and holding the encoding of the model's output for upload i; a failing
      load is answered with the lowest-indexed failing upload's own 400. */
  lemma BatchResponseOutcome(session: Session, files: seq<Upload>, outputFormat: Option<string>, quality: Option<int>,
                             decode: Decoder, infer: Inference)
    ensures var r := BatchResponse(session, files, outputFormat, quality, decode, infer);
      var fmt := ResolveFormat(outputFormat);
      && (r.Ok? ==> |r.value| == |files|)
      && (r.Ok? ==>
            forall i :: 0 <= i < |files| ==>
              && LoadedUpload(files[i], decode).Ok?
              && infer(session, LoadedUpload(files[i], decode).value).Ok?
              && r.value[i].name == BatchEntryName(BatchFilename(files[i].filename, i + 1), fmt)
              && Ok(r.value[i].body)
                 == EncodedImage(infer(session, LoadedUpload(files[i], decode).value).value,
                                 Some(fmt), Some(ResolveQuality(quality))))
      && (forall k: nat :: FirstFailureAt(Loads(files, decode), k) ==> r == Err(LoadedUpload(files[k], decode).error))
  {
    var loads := Loads(files, decode);
    var r := BatchResponse(session, files, outputFormat, quality, decode, infer);
    if r.Ok? {
      var fmt := ResolveFormat(outputFormat);
      var images := Gather(loads).value;
      var outs := Inferences(session, images, infer);
      var results := Gather(outs).value;
      var bodies := Gather(Encodings(results, fmt, ResolveQuality(quality))).value;
      assert r == Ok(ZipEntries(Filenames(files), bodies, fmt));
      forall i | 0 <= i < |files|
        ensures LoadedUpload(files[i], decode).Ok?
        ensures infer(session, LoadedUpload(files[i], decode).value).Ok?
      {
        assert loads[i].Ok?;
        assert outs[i] == infer(session, images[i]);
      }
    }
    forall k: nat | FirstFailureAt(loads, k)
      ensures BatchResponse(session, files, outputFormat, quality, decode, infer) == Err(LoadedUpload(files[k], decode).error)
    {
      GatherFirstFailure(loads, k);
      LoadedUploadOutcome(files[k], decode);
    }
  }

  // ---------------------------------------------------------------- /metrics

  /** The cached value: the collected report (its keys only) or `{"error": msg}`. */
  datatype MetricsPayload = Report(keys: set<string>) | ErrorReport(error: string)

  /** `_metrics_cache` as a value. */
  datatype MetricsCacheState = MetricsCacheState(data: Option<MetricsPayload>, ts: real)

  const MetricsTtl: real := 2.0

  const InitialMetricsCache: MetricsCacheState := MetricsCacheState(None, 0.0)

  /** The cache is recomputed when it holds nothing or is older than the TTL. */
  predicate Stale(c: MetricsCacheState, now: real) {
    c.data.None? || now - c.ts > MetricsTtl
  }

  /** One authorised call of metrics at time `now`; `collect` is what
      get_system_metrics returns or raises if it is called. */
  function AfterMetrics(c: MetricsCacheState, now: real, collect: Result<set<string>, Error>): (t: MetricsCacheState)
    ensures t.data.Some?
  {
    if Stale(c, now) then
      MetricsCacheState(Some(match collect case Ok(keys) => Report(keys) case Err(e) => ErrorReport(Str(e))), now)
    else c
  }

  /** A fresh cache is served unchanged and nothing is collected; a stale one
      is replaced by the new report, or by `{"error": msg}` when collecting
      raises, and is stamped with `now` either way. */
  lemma MetricsStep(c: MetricsCacheState, now: real, collect: Result<set<string>, Error>)
    ensures !Stale(c, now) ==> AfterMetrics(c, now, collect) == c
    ensures Stale(c, now) ==> AfterMetrics(c, now, collect).ts == now
    ensures Stale(c, now) && collect.Ok? ==> AfterMetrics(c, now, collect).data == Some(Report(collect.value))
    ensures Stale(c, now) && collect.Err? ==> AfterMetrics(c, now, collect).data == Some(ErrorReport(Str(collect.error)))
  {
  }

  /** Once a call at `t1` has collected, a later call no more than the TTL
      after `t1`, or before `t1` (a clock set back), is served the same data
      without collecting, even when that data is an error report; a call more
      than the TTL after `t1` collects again and is stamped with its own time. */
  lemma MetricsCachedWithinTtl(c: MetricsCacheState, t1: real, t2: real,
                               collect1: Result<set<string>, Error>, collect2: Result<set<string>, Error>)
    requires Stale(c, t1)
    ensures var c1 := AfterMetrics(c, t1, collect1);
      && (t2 - t1 <= MetricsTtl ==> !Stale(c1, t2) && AfterMetrics(c1, t2, collect2) == c1)
      && (t2 - t1 > MetricsTtl ==> Stale(c1, t2) && AfterMetrics(c1, t2, collect2).ts == t2)
  {
  }

  /** The module-level `_metrics_cache` dict. */
  class MetricsCache {
    var data: Option<MetricsPayload>
    var ts: real

    function State(): MetricsCacheState
      reads this
    {
      MetricsCacheState(data, ts)
    }

    constructor ()
      ensures State() == InitialMetricsCache
    {
      data := None;
      ts := 0.0;
    }

    /** metrics: behind the API key; serves the cache while fresh, otherwise
        collects, stores and stamps. `collected` says whether collection ran. */
    method Metrics(apiKey: Option<string>, now: real, collect: Result<set<string>, Error>)
      returns (r: Result<MetricsPayload, Error>, collected: bool)
      modifies this
      ensures Auth.GetApiKey(apiKey).Err? ==> r == Err(Auth.InvalidKey) && !collected && State() == old(State())
      ensures Auth.GetApiKey(apiKey).Ok? ==>
        && State() == AfterMetrics(old(State()), now, collect)
        && collected == Stale(old(State()), now)
        && r == Ok(data.value)
    {
      var auth := Auth.GetApiKey(apiKey);
      if auth.Err? {
        return Err(auth.error), false;
      }
      collected := data.None? || now - ts > MetricsTtl;
      if collected {
        var payload;
        if collect.Err? {
          payload := ErrorReport(Str(collect.error));
        } else {
          payload := Report(collect.value);
        }
        data := Some(payload);
        ts := now;
      }
      r := Ok(data.value);
    }
  }
}
