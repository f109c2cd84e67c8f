/** Upload validation, colour-mode handling on load, output-format dispatch,
    the content-type map and the image summary of app/core/utils.py.
    Pixels are opaque: an image is its mode, the keys of its `info` dict, its
    size, the format it was decoded from, and a symbolic pixel payload that
    records which conversions produced it. */
module Utils {
  import opened Wrappers
  import opened Errors
  import Config
  import Text

  /** An uploaded file: its client-supplied name and size, if any, and its bytes. */
  datatype Upload = Upload(filename: Option<string>, size: Option<int>, content: seq<bv8>)

  datatype Pixels =
    | Raster(samples: seq<int>)                  // as decoded or as produced by the model
    | Converted(source: Pixels, mode: string)    // `image.convert(mode)`
    | CompositedOnWhite(source: Pixels)          // pasted onto a white RGB canvas with its alpha as mask

  datatype Image = Image(mode: string, info: set<string>, width: nat, height: nat,
                         format: Option<string>, pixels: Pixels)

  /** PIL's `Image.open` on the uploaded bytes: an image, or the exception it raises. */
  type Decoder = seq<bv8> -> Result<Image, Error>

  /** What `image.save(buffer, ...)` is given; the bytes PIL writes are not modelled. */
  datatype Encoded = Encoded(image: Image, format: string, quality: Option<int>, optimize: bool)

  datatype ImageInfo = ImageInfo(width: nat, height: nat, mode: string, format: Option<string>,
                                 hasTransparency: bool)

  /** `image.convert(mode)`: same size, new mode, no source format. */
  function Convert(img: Image, mode: string): Image {
    Image(mode, img.info, img.width, img.height, None, Converted(img.pixels, mode))
  }

  /** `Image.new("RGB", size, white)` with `img` pasted on it through its alpha band. */
  function CompositeOnWhite(img: Image): Image {
    Image("RGB", {}, img.width, img.height, None, CompositedOnWhite(img.pixels))
  }

  // ---------------------------------------------------------------- validate_image_file

  /** `if file.size and file.size > MAX_FILE_SIZE`: a missing or zero size is not checked. */
  predicate Oversized(size: Option<int>) {
    size.Some? && size.value != 0 && size.value > Config.MaxFileSize
  }

  /** `if file.filename`: a missing or empty name is not checked. */
  predicate HasName(filename: Option<string>) {
    filename.Some? && filename.value != ""
  }

  /** `filename.split(".")[-1].lower()`. */
  function Extension(filename: string): string {
    Text.Lower(Text.AfterLastDot(filename))
  }

  function SizeDetail(size: int): string {
    "File size (" + IntText(size) + " bytes) exceeds maximum allowed size ("
      + Config.MaxFileSizeText + " bytes)"
  }

  /** The size limit's text is its decimal rendering. */
  lemma MaxFileSizeTextIsDigits()
    ensures Text.Digits(Config.MaxFileSize) == Config.MaxFileSizeText
  {
    assert Text.Digits(10) == "10";
    assert Text.Digits(104) == "104";
    assert Text.Digits(1048) == "1048";
    assert Text.Digits(10485) == "10485";
    assert Text.Digits(104857) == "104857";
    assert Text.Digits(1048576) == "1048576";
  }

  function ExtensionDetail(ext: string): string {
    "File extension '" + ext + "' not allowed. Allowed extensions: " + Config.AllowedExtensionsText
  }

  function IntText(n: int): string {
    if n < 0 then "-" + Text.Digits(-n) else Text.Digits(n)
  }

  /** validate_image_file: the size is checked before the extension; a failure
      raises 413 for the size and 400 for the extension. */
  function ValidateImageFile(f: Upload): (r: Outcome<Error>)
    ensures r.Fail? ==> r.error.HttpError? && r.error.status in {400, 413}
    ensures r.Fail? && r.error.status == 413 <==> Oversized(f.size)
    ensures r.Pass? <==> !Oversized(f.size) && (HasName(f.filename) ==> Extension(f.filename.value) in Config.AllowedExtensions)
  {
    if Oversized(f.size) then Fail(HttpError(413, SizeDetail(f.size.value)))
    else if HasName(f.filename) && Extension(f.filename.value) !in Config.AllowedExtensions then
      Fail(HttpError(400, ExtensionDetail(Extension(f.filename.value))))
    else Pass
  }

  /** "test.txt" is refused with a 400 naming the extension "txt". */
  lemma TextFileRejected(size: Option<int>, content: seq<bv8>)
    requires !Oversized(size)
    ensures Extension("test.txt") == "txt"
    ensures ValidateImageFile(Upload(Some("test.txt"), size, content))
         == Fail(HttpError(400, ExtensionDetail("txt")))
  {
    assert Text.LastDot("test.txt") == Some(4) by {
      assert "test.txt"[..7] == "test.tx";
      assert "test.tx"[..6] == "test.t";
      assert "test.t"[..5] == "test.";
    }
    assert Text.AfterLastDot("test.txt") == "txt";
    assert Text.Lower("txt") == "txt";
  }

  /** A name without a dot is taken whole as the extension: "PNG" is accepted. */
  lemma DotlessNameAccepted(size: Option<int>, content: seq<bv8>)
    requires !Oversized(size)
    ensures ValidateImageFile(Upload(Some("PNG"), size, content)) == Pass
  {
    assert Text.LastDot("PNG") == None;
    assert Text.Lower("PNG") == "png";
  }

  /** The size is checked first: an oversized upload is refused with 413 even
      when its extension is not allowed either. */
  lemma SizeCheckedFirst(f: Upload)
    requires Oversized(f.size)
    ensures ValidateImageFile(f) == Fail(HttpError(413, SizeDetail(f.size.value)))
  {
  }

  // ---------------------------------------------------------------- load_image_from_upload

  /** The modes kept as they are after loading; every other mode becomes RGB. */
  const KeptModes: set<string> := {"RGB", "RGBA", "LA"}

  /** The colour-mode normalisation applied after decoding. */
  function NormalizeMode(img: Image): (r: Image)
    ensures r.mode in KeptModes
    ensures img.mode in KeptModes ==> r == img
    ensures img.mode !in KeptModes ==> r == Convert(img, "RGB")
    ensures r.width == img.width && r.height == img.height
  {
    if img.mode in {"RGBA", "LA"} then img
    else if img.mode != "RGB" then Convert(img, "RGB")
    else img
  }

  /** Every failure of loading, validation included, becomes a 400. */
  function LoadFailure(e: Error): Error {
    HttpError(400, "Failed to load image: " + Str(e))
  }

  /** The outcome load_image_from_upload is specified to have. */
  function LoadedUpload(f: Upload, decode: Decoder): Result<Image, Error> {
    match ValidateImageFile(f)
    case Fail(e) => Err(LoadFailure(e))
    case Pass =>
      match decode(f.content)
      case Err(e) => Err(LoadFailure(e))
      case Ok(img) => Ok(NormalizeMode(img))
  }

  /** load_image_from_upload: validate, read, decode, then normalise the mode;
      any exception on the way is re-raised as a 400. */
  method LoadImageFromUpload(f: Upload, decode: Decoder) returns (r: Result<Image, Error>)
    ensures r == LoadedUpload(f, decode)
  {
    var valid := ValidateImageFile(f);
    if valid.Fail? {
      return Err(LoadFailure(valid.error));
    }
    var content := f.content;
    var decoded := decode(content);
    if decoded.Err? {
      return Err(LoadFailure(decoded.error));
    }
    var image := decoded.value;
    if image.mode in {"RGBA", "LA"} {
      // the alpha channel is kept
    } else if image.mode != "RGB" {
      image := Convert(image, "RGB");
    }
    return Ok(image);
  }

  /** Loading either fails with a 400, or yields an image in RGB, RGBA or LA
      mode that comes from a decoded image of the same size. */
  lemma LoadedUploadOutcome(f: Upload, decode: Decoder)
    ensures var r := LoadedUpload(f, decode);
      && (r.Err? ==> r.error.HttpError? && r.error.status == 400)
      && (r.Ok? <==> ValidateImageFile(f).Pass? && decode(f.content).Ok?)
      && (r.Ok? ==> && r.value.mode in KeptModes
                    && r.value.width == decode(f.content).value.width
                    && r.value.height == decode(f.content).value.height)
  {
  }

  /** The loader's 400 for the validator's 413 and 400, spelled out. */
  lemma LoadFailureOf413(detail: string)
    ensures LoadFailure(HttpError(413, detail)) == HttpError(400, "Failed to load image: 413: " + detail)
  {
    assert Text.Digits(413) == "413" by {
      assert Text.Digits(41) == "41";
    }
    assert Str(HttpError(413, detail)) == "413: " + detail;
    assert "Failed to load image: " + ("413: " + detail) == "Failed to load image: 413: " + detail;
  }

  lemma LoadFailureOf400(detail: string)
    ensures LoadFailure(HttpError(400, detail)) == HttpError(400, "Failed to load image: 400: " + detail)
  {
    assert Text.Digits(400) == "400" by {
      assert Text.Digits(40) == "40";
    }
    assert Str(HttpError(400, detail)) == "400: " + detail;
    assert "Failed to load image: " + ("400: " + detail) == "Failed to load image: 400: " + detail;
  }

  /** An oversized upload is reported as a 400 whose detail carries the 413 of
      the validator, whatever its bytes are. */
  lemma OversizedUploadIs400(f: Upload, decode: Decoder)
    requires Oversized(f.size)
    ensures LoadedUpload(f, decode)
         == Err(HttpError(400, "Failed to load image: 413: " + SizeDetail(f.size.value)))
  {
    var d := SizeDetail(f.size.value);
    assert ValidateImageFile(f) == Fail(HttpError(413, d));
    LoadFailureOf413(d);
  }

  /** An upload of acceptable size whose extension is not allowed reaches the
      caller as a 400 whose detail quotes the validator's own 400. */
  lemma DisallowedExtensionFailsToLoad(f: Upload, decode: Decoder)
    requires !Oversized(f.size) && HasName(f.filename)
    requires Extension(f.filename.value) !in Config.AllowedExtensions
    ensures LoadedUpload(f, decode)
         == Err(HttpError(400, "Failed to load image: 400: " + ExtensionDetail(Extension(f.filename.value))))
  {
    var d := ExtensionDetail(Extension(f.filename.value));
    assert ValidateImageFile(f) == Fail(HttpError(400, d));
    LoadFailureOf400(d);
  }

  // ---------------------------------------------------------------- image_to_bytes

  /** The image the JPEG encoder is given: RGBA flattened onto white, any other
      non-RGB mode converted. */
  function JpegReady(img: Image): (r: Image)
    ensures r.mode == "RGB"
    ensures r.width == img.width && r.height == img.height
    ensures img.mode == "RGB" ==> r == img
    ensures img.mode == "RGBA" ==> r.pixels == CompositedOnWhite(img.pixels)
    ensures img.mode != "RGB" && img.mode != "RGBA" ==> r == Convert(img, "RGB")
  {
    if img.mode == "RGBA" then CompositeOnWhite(img)
    else if img.mode != "RGB" then Convert(img, "RGB")
    else img
  }

  const SupportedFormats: set<string> := {"JPEG", "PNG", "WEBP"}

  /** The outcome image_to_bytes is specified to have. */
  function EncodedImage(img: Image, format: Option<string>, quality: Option<int>): Result<Encoded, Error> {
    var f := format.GetOr(Config.DefaultOutputFormat);
    var q := quality.GetOr(Config.OutputQuality);
    if Text.Upper(f) == "JPEG" then Ok(Encoded(JpegReady(img), f, Some(q), true))
    else if Text.Upper(f) == "PNG" then Ok(Encoded(img, f, None, true))
    else if Text.Upper(f) == "WEBP" then Ok(Encoded(img, f, Some(q), true))
    else Err(ValueError("Unsupported format: " + f))
  }

  /** image_to_bytes: default the format and the quality, then dispatch on the
      upper-cased format. */
  method ImageToBytes(img: Image, format: Option<string>, quality: Option<int>) returns (r: Result<Encoded, Error>)
    ensures r == EncodedImage(img, format, quality)
  {
    var fmt := format;
    if fmt.None? {
      fmt := Some(Config.DefaultOutputFormat);
    }
    var q := quality;
    if q.None? {
      q := Some(Config.OutputQuality);
    }
    var image := img;
    var upper := Text.Upper(fmt.value);
    if upper == "JPEG" {
      if image.mode == "RGBA" {
        image := CompositeOnWhite(image);
      } else if image.mode != "RGB" {
        image := Convert(image, "RGB");
      }
      r := Ok(Encoded(image, fmt.value, q, true));
    } else if upper == "PNG" {
      r := Ok(Encoded(image, fmt.value, None, true));
    } else if upper == "WEBP" {
      r := Ok(Encoded(image, fmt.value, q, true));
    } else {
      r := Err(ValueError("Unsupported format: " + fmt.value));
    }
  }

  /** The format dispatch passes exactly for JPEG, PNG and WEBP in any letter case (PNG
      when no format is given); otherwise it raises ValueError. */
  lemma EncodedImageSucceedsIff(img: Image, format: Option<string>, quality: Option<int>)
    ensures EncodedImage(img, format, quality).Ok?
        <==> Text.Upper(format.GetOr(Config.DefaultOutputFormat)) in SupportedFormats
    ensures EncodedImage(img, format, quality).Err?
        ==> EncodedImage(img, format, quality).error.ValueError?
  {
  }

  /** With no format and no quality the image is saved as PNG, unchanged and
      without a quality setting. */
  lemma EncodedImageDefaults(img: Image)
    ensures EncodedImage(img, None, None) == Ok(Encoded(img, "PNG", None, true))
  {
    assert Text.Upper("PNG") == "PNG";
  }

  /** On the JPEG path the encoder always receives an RGB image of the same size
      with the requested (or default) quality; an RGBA image is flattened onto
      white and not merely converted. */
  lemma JpegEncodesRgb(img: Image, format: Option<string>, quality: Option<int>)
    requires Text.Upper(format.GetOr(Config.DefaultOutputFormat)) == "JPEG"
    ensures EncodedImage(img, format, quality).Ok?
    ensures EncodedImage(img, format, quality).value.image.mode == "RGB"
    ensures EncodedImage(img, format, quality).value.image.width == img.width
    ensures EncodedImage(img, format, quality).value.quality == Some(quality.GetOr(Config.OutputQuality))
    ensures img.mode == "RGBA" ==> EncodedImage(img, format, quality).value.image.pixels == CompositedOnWhite(img.pixels)
  {
  }

  /** PNG ignores the quality and keeps the image as it is. */
  lemma PngIgnoresQuality(img: Image, format: Option<string>, q1: Option<int>, q2: Option<int>)
    requires Text.Upper(format.GetOr(Config.DefaultOutputFormat)) == "PNG"
    ensures EncodedImage(img, format, q1) == EncodedImage(img, format, q2)
    ensures EncodedImage(img, format, q1).Ok? && EncodedImage(img, format, q1).value.image == img
  {
  }

  /** WEBP keeps the image as it is, in whatever mode, and is given the
      quality (95 when none is passed). */
  lemma WebpKeepsImage(img: Image, format: Option<string>, quality: Option<int>)
    requires Text.Upper(format.GetOr(Config.DefaultOutputFormat)) == "WEBP"
    ensures EncodedImage(img, format, quality).Ok?
    ensures EncodedImage(img, format, quality).value.image == img
    ensures EncodedImage(img, format, quality).value.quality == Some(quality.GetOr(Config.OutputQuality))
  {
  }

  // ---------------------------------------------------------------- get_image_info, get_content_type

  /** `image.mode in ("RGBA", "LA", "P") and "transparency" in image.info`. */
  predicate HasTransparency(img: Image) {
    img.mode in {"RGBA", "LA", "P"} && "transparency" in img.info
  }

  /** get_image_info. */
  function GetImageInfo(img: Image): (info: ImageInfo)
    ensures info.hasTransparency <==> HasTransparency(img)
    ensures info.mode == img.mode && info.width == img.width && info.height == img.height
  {
    ImageInfo(img.width, img.height, img.mode, img.format, HasTransparency(img))
  }

  /** A loaded upload reports transparency only when it was decoded as RGBA
      or LA with a "transparency" entry: palette images have become RGB. */
  lemma LoadedTransparency(f: Upload, decode: Decoder)
    requires LoadedUpload(f, decode).Ok?
    ensures GetImageInfo(LoadedUpload(f, decode).value).hasTransparency
        <==> decode(f.content).value.mode in {"RGBA", "LA"} && "transparency" in decode(f.content).value.info
  {
  }

  /** get_content_type: the format, upper-cased, looked up in a fixed map. */
  function GetContentType(format: string): (r: string)
    ensures r == "image/png" <==> Text.Upper(format) == "PNG"
    ensures r == "image/jpeg" <==> Text.Upper(format) == "JPEG"
    ensures r == "image/webp" <==> Text.Upper(format) == "WEBP"
    ensures r == "application/octet-stream" <==> Text.Upper(format) !in SupportedFormats
  {
    var formatMap := map["PNG" := "image/png", "JPEG" := "image/jpeg", "WEBP" := "image/webp"];
    var key := Text.Upper(format);
    if key in formatMap then formatMap[key] else "application/octet-stream"
  }

  /** A format the encoder accepts always gets an image content type. */
  lemma ContentTypeOfEncodable(img: Image, format: string, quality: Option<int>)
    requires EncodedImage(img, Some(format), quality).Ok?
    ensures GetContentType(format) != "application/octet-stream"
  {
  }
}
