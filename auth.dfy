/** The API-key dependency of app/services/auth.py. The header scheme is
    built with `auto_error=False`, so a request without the header, or with
    an empty one, arrives as None; the configured key is read once, when the
    module is imported. */
module Auth {
  import opened Wrappers
  import opened Errors
  import Config

  /** `API_KEY = settings.API_KEY`, captured at import time. */
  const ApiKey: Option<string> := Config.ApiKey

  const InvalidKey: Error := HttpError(401, "Invalid or missing API Key")

  /** The check against a configured key `key`: the header is returned
      unchanged when it equals the key (None equals None), otherwise 401. */
  function CheckApiKey(header: Option<string>, key: Option<string>): (r: Result<Option<string>, Error>)
    ensures r.Ok? <==> header == key
    ensures r.Ok? ==> r.value == header
    ensures r.Err? ==> r.error == InvalidKey
  {
    if header == key then Ok(header) else Err(InvalidKey)
  }

  /** What `APIKeyHeader(..., auto_error=False)` hands on for the raw
      `X-API-Key` header of a request: its value, or None when the request
      has no such header or an empty one. */
  function HeaderValue(raw: Option<string>): (v: Option<string>)
    ensures v.None? <==> raw.None? || raw.value == ""
    ensures v.Some? ==> v == raw
  {
    if raw.Some? && raw.value != "" then raw else None
  }

  /** get_api_key on a request's raw header, against the key captured at import. */
  function GetApiKey(raw: Option<string>): (r: Result<Option<string>, Error>)
    ensures r.Ok? <==> HeaderValue(raw) == ApiKey
    ensures r.Ok? ==> r.value == HeaderValue(raw)
    ensures r.Err? ==> r.error == InvalidKey
  {
    CheckApiKey(HeaderValue(raw), ApiKey)
  }

  /** With a key configured, a missing header and any other header are
      refused; for a non-empty key, a request passes exactly when its raw
      header is that key. */
  lemma ConfiguredKeyRequired(key: string, header: Option<string>, raw: Option<string>)
    ensures CheckApiKey(header, Some(key)).Ok? <==> header == Some(key)
    ensures CheckApiKey(None, Some(key)) == Err(InvalidKey)
    ensures key != "" ==> (CheckApiKey(HeaderValue(raw), Some(key)).Ok? <==> raw == Some(key))
  {
  }

  /** With no key configured (the default), a request without the header,
      or with an empty one, is let through; a request that sends a non-empty
      header is refused. */
  lemma NoKeyConfigured(raw: Option<string>)
    ensures GetApiKey(raw).Ok? <==> raw.None? || raw.value == ""
    ensures GetApiKey(raw).Ok? ==> GetApiKey(raw) == Ok(None)
    ensures GetApiKey(raw).Err? ==> GetApiKey(raw) == Err(InvalidKey)
  {
  }

  /** A configured key of "" can never be matched: the empty header arrives
      as None, so every request is refused. */
  lemma EmptyKeyRefusesAll(raw: Option<string>)
    ensures CheckApiKey(HeaderValue(raw), Some("")) == Err(InvalidKey)
  {
  }
}
