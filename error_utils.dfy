/** `errorUtils` of the shared utility library: classifying an API error by the
    substrings of its message. */
module ErrorUtils {
  import opened Wrappers
  import Text
  import Js

  datatype ErrorKind = Validation | RateLimit | Permission | NotFound | Config | Unknown

  /** The `type` field of a classified error. */
  function KindName(k: ErrorKind): string {
    match k
    case Validation => "validation"
    case RateLimit => "rate_limit"
    case Permission => "permission"
    case NotFound => "not_found"
    case Config => "config"
    case Unknown => "unknown"
  }

  /** The user-facing message of each kind. */
  function KindMessage(k: ErrorKind): string {
    match k
    case Validation => "Invalid YouTube URL format"
    case RateLimit => "Rate limit exceeded. Please try again later."
    case Permission => "Access forbidden. Please check API permissions."
    case NotFound => "Content not found or is private."
    case Config => "Server configuration error."
    case Unknown => "An unexpected error occurred. Please try again."
  }

  datatype ApiError = ApiError(kind: ErrorKind, message: string, retryable: bool)

  /** `message.includes(sub)` for a string or an array message. */
  predicate Includes(message: Js.Val, sub: string)
    requires message.Str? || message.Arr?
  {
    if message.Str? then Text.Contains(message.s, sub) else Js.Str(sub) in message.elems
  }

  /** The message read from the error: its `message` when truthy, else its `error`
      when truthy, else the fixed fallback text. */
  function MessageOf(error: Option<Js.Val>): (r: Js.Val)
    ensures Js.Truthy(Js.Get(error, "message")) ==> r == Js.Get(error, "message").value
    ensures !Js.Truthy(Js.Get(error, "message")) && Js.Truthy(Js.Get(error, "error")) ==>
      r == Js.Get(error, "error").value
    ensures !Js.Truthy(Js.Get(error, "message")) && !Js.Truthy(Js.Get(error, "error")) ==>
      r == Js.Str("Unknown error")
  {
    Js.Or(Js.Or(Js.Get(error, "message"), Js.Get(error, "error")), Some(Js.Str("Unknown error"))).value
  }

  function Classified(k: ErrorKind): ApiError {
    ApiError(k, KindMessage(k), k == RateLimit || k == Unknown)
  }

  /** The order in which the kinds are tested. */
  function Rank(k: ErrorKind): nat {
    match k
    case Validation => 0
    case RateLimit => 1
    case Permission => 2
    case NotFound => 3
    case Config => 4
    case Unknown => 5
  }

  /** The two substrings whose presence signals a kind; nothing signals `Unknown`. */
  predicate Hits(m: Js.Val, k: ErrorKind)
    requires m.Str? || m.Arr?
  {
    match k
    case Validation => Includes(m, "Invalid YouTube") || Includes(m, "Invalid URL")
    case RateLimit => Includes(m, "429") || Includes(m, "Rate limit")
    case Permission => Includes(m, "403") || Includes(m, "forbidden")
    case NotFound => Includes(m, "404") || Includes(m, "not found")
    case Config => Includes(m, "RAPIDAPI_KEY") || Includes(m, "configuration")
    case Unknown => false
  }

  /** The chain of `includes` tests: the result is the first kind, in test order,
      whose substrings occur in the message, and `Unknown` when none does. */
  function KindOf(m: Js.Val): (k: ErrorKind)
    requires m.Str? || m.Arr?
    ensures k == Unknown || Hits(m, k)
    ensures forall j :: Rank(j) < Rank(k) ==> !Hits(m, j)
  {
    if Includes(m, "Invalid YouTube") || Includes(m, "Invalid URL") then Validation
    else if Includes(m, "429") || Includes(m, "Rate limit") then RateLimit
    else if Includes(m, "403") || Includes(m, "forbidden") then Permission
    else if Includes(m, "404") || Includes(m, "not found") then NotFound
    else if Includes(m, "RAPIDAPI_KEY") || Includes(m, "configuration") then Config
    else Unknown
  }

  /** `parseApiError`. A message that is neither a string nor an array has no
      `includes`, and the call throws. */
  function ParseApiError(error: Option<Js.Val>): (r: Result<ApiError>)
    ensures r.Err? <==> !(MessageOf(error).Str? || MessageOf(error).Arr?)
    ensures r.Ok? ==> r.value.kind == KindOf(MessageOf(error))
    ensures r.Ok? ==> r.value.message == KindMessage(r.value.kind)
    ensures r.Ok? ==> (r.value.retryable <==> r.value.kind == RateLimit || r.value.kind == Unknown)
  {
    var m := MessageOf(error);
    if !(m.Str? || m.Arr?) then Err("TypeError: message.includes is not a function")
    else Ok(Classified(KindOf(m)))
  }

  /** `isRetryableError`: throws exactly when `parseApiError` does, and otherwise
      holds for rate limits and unclassified errors only. */
  function IsRetryableError(error: Option<Js.Val>): (r: Result<bool>)
    ensures r.Ok? <==> ParseApiError(error).Ok?
    ensures r.Ok? ==> (r.value <==> ParseApiError(error).value.kind in {RateLimit, Unknown})
  {
    match ParseApiError(error)
    case Ok(e) => Ok(e.retryable)
    case Err(msg) => Err(msg)
  }
}
