/** The settings the core reads, at their defaults (app/core/config.py).
    Environment overrides are not modelled: each setting is a constant. */
module Config {
  import opened Wrappers

  /** API_KEY: no key is configured by default. */
  const ApiKey: Option<string> := None

  /** MAX_FILE_SIZE: 10 MiB, and its decimal text. */
  const MaxFileSize: nat := 10 * 1024 * 1024
  const MaxFileSizeText: string := "10485760"

  /** MAX_FILES_BATCH. */
  const MaxFilesBatch: nat := 5

  /** ALLOWED_EXTENSIONS, and the text Python prints for that list. */
  const AllowedExtensions: seq<string> := ["jpg", "jpeg", "png", "webp", "bmp"]
  const AllowedExtensionsText: string := "['jpg', 'jpeg', 'png', 'webp', 'bmp']"

  /** REMBG_MODEL. */
  const RembgModel: string := "isnet-general-use"

  /** MAX_CONCURRENT_REQUESTS. */
  const MaxConcurrentRequests: nat := 4

  /** DEFAULT_OUTPUT_FORMAT and OUTPUT_QUALITY. */
  const DefaultOutputFormat: string := "PNG"
  const OutputQuality: int := 95
}
