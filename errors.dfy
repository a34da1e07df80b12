/** The service's error taxonomy: errors answered over HTTP, errors of the cache layer and
    errors of the synchroniser, with the conversions between them and the HTTP
    status each answered error carries. Messages of the Redis client and of the chain
    client are carried as opaque detail strings. */
module Errors {

  /** Errors a request handler answers with. */
  datatype ApiError =
    | BadRequest(message: string)
    | NotFound(message: string)
    | InternalServerError(message: string)

  /** The JSON body of an error answer: a list of messages. */
  datatype ErrorResponse = ErrorResponse(errors: seq<string>)

  /** An error answer: HTTP status code and body. */
  datatype HttpResponse = HttpResponse(status: nat, body: ErrorResponse)

  /** `From<&String> for ErrorResponse`: a body holding exactly the one message. */
  function ErrorResponseFrom(message: string): (r: ErrorResponse)
    ensures |r.errors| == 1 && r.errors[0] == message
  {
    ErrorResponse([message])
  }

  /** `ResponseError::error_response`: the status code of the variant and its message in the body. */
  function ErrorAnswer(e: ApiError): (r: HttpResponse)
    ensures r.status == 400 <==> e.BadRequest?
    ensures r.status == 404 <==> e.NotFound?
    ensures r.status == 500 <==> e.InternalServerError?
    ensures r.body.errors == [e.message]
  {
    match e
    case BadRequest(m) => HttpResponse(400, ErrorResponseFrom(m))
    case NotFound(m) => HttpResponse(404, ErrorResponseFrom(m))
    case InternalServerError(m) => HttpResponse(500, ErrorResponseFrom(m))
  }

  /** Errors of the cache layer; the payload of the Redis-backed variants is the client's own message. */
  datatype CacheError =
    | RedisPoolError(detail: string)
    | RedisTypeError(detail: string)
    | RedisCMDError(detail: string)
    | RedisClientError(detail: string)
    | RedisPongError
    | Other(message: string)

  const POOL_PREFIX := "could not get redis connection from pool : "
  const TYPE_PREFIX := "error parsing string from redis result: "
  const CMD_PREFIX := "error executing redis command: "
  const CLIENT_PREFIX := "error creating redis client: "
  const PONG_TEXT := "pong response error"
  const OTHER_PREFIX := "Other error: "

  /** The display text of a cache error (its `#[error(...)]` format), which is also `From<CacheError> for String`. */
  function CacheErrorText(e: CacheError): string {
    match e
    case RedisPoolError(d) => POOL_PREFIX + d
    case RedisTypeError(d) => TYPE_PREFIX + d
    case RedisCMDError(d) => CMD_PREFIX + d
    case RedisClientError(d) => CLIENT_PREFIX + d
    case RedisPongError => PONG_TEXT
    case Other(m) => OTHER_PREFIX + m
  }

  /** `From<CacheError> for ApiError`: every cache error is an internal server error carrying its text. */
  function CacheToApiError(e: CacheError): (r: ApiError)
    ensures r.InternalServerError? && r.message == CacheErrorText(e)
    ensures ErrorAnswer(r).status == 500
  {
    InternalServerError(CacheErrorText(e))
  }

  /** Errors of the synchroniser. */
  datatype SyncError =
    | Cache(cause: CacheError)
    | SubxtError(detail: string)
    | Other(message: string)

  /** `#[from] CacheError`: the cache error becomes the `CacheError` variant of a sync error. */
  function CacheToSyncError(e: CacheError): (r: SyncError)
    ensures r.Cache? && r.cause == e
  {
    Cache(e)
  }

  /** The display text of a sync error. */
  function SyncErrorText(e: SyncError): string {
    match e
    case Cache(c) => "cache error: " + CacheErrorText(c)
    case SubxtError(d) => "substrate_subxt error: " + d
    case Other(m) => OTHER_PREFIX + m
  }

  /** Reads a cache error back from its display text, testing the fixed texts in turn;
      a text that carries none of them is read as an `Other` error holding the whole text. */
  function ParseCacheErrorText(t: string): CacheError {
    if t == PONG_TEXT then RedisPongError
    else if POOL_PREFIX <= t then RedisPoolError(t[|POOL_PREFIX|..])
    else if TYPE_PREFIX <= t then RedisTypeError(t[|TYPE_PREFIX|..])
    else if CMD_PREFIX <= t then RedisCMDError(t[|CMD_PREFIX|..])
    else if CLIENT_PREFIX <= t then RedisClientError(t[|CLIENT_PREFIX|..])
    else if OTHER_PREFIX <= t then CacheError.Other(t[|OTHER_PREFIX|..])
    else CacheError.Other(t)
  }

  /** Every cache error is read back from its display text: each variant has its own fixed
      prefix (the pong error its whole text), and no prefix starts another variant's text. */
  lemma ParseCacheErrorTextRoundTrip(e: CacheError)
    ensures ParseCacheErrorText(CacheErrorText(e)) == e
  {
    // the first character ('c', 'e', 'p' or 'O') and, among the prefixes starting with 'e',
    // the seventh ('p', 'e' or 'c') tell the variants apart
    match e
    case RedisPoolError(d) =>
      DiffersAt(PONG_TEXT, POOL_PREFIX, d, 0);
      StartsWith(POOL_PREFIX, d);
    case RedisTypeError(d) =>
      DiffersAt(PONG_TEXT, TYPE_PREFIX, d, 0);
      DiffersAt(POOL_PREFIX, TYPE_PREFIX, d, 0);
      StartsWith(TYPE_PREFIX, d);
    case RedisCMDError(d) =>
      DiffersAt(PONG_TEXT, CMD_PREFIX, d, 0);
      DiffersAt(POOL_PREFIX, CMD_PREFIX, d, 0);
      DiffersAt(TYPE_PREFIX, CMD_PREFIX, d, 6);
      StartsWith(CMD_PREFIX, d);
    case RedisClientError(d) =>
      DiffersAt(PONG_TEXT, CLIENT_PREFIX, d, 0);
      DiffersAt(POOL_PREFIX, CLIENT_PREFIX, d, 0);
      DiffersAt(TYPE_PREFIX, CLIENT_PREFIX, d, 6);
      DiffersAt(CMD_PREFIX, CLIENT_PREFIX, d, 6);
      StartsWith(CLIENT_PREFIX, d);
    case RedisPongError =>
    case Other(m) =>
      DiffersAt(PONG_TEXT, OTHER_PREFIX, m, 0);
      DiffersAt(POOL_PREFIX, OTHER_PREFIX, m, 0);
      DiffersAt(TYPE_PREFIX, OTHER_PREFIX, m, 0);
      DiffersAt(CMD_PREFIX, OTHER_PREFIX, m, 0);
      DiffersAt(CLIENT_PREFIX, OTHER_PREFIX, m, 0);
      StartsWith(OTHER_PREFIX, m);
  }

  /** A text made of a prefix and a payload starts with the prefix, and the payload follows it. */
  lemma StartsWith(p: string, d: string)
    ensures p <= p + d && (p + d)[|p|..] == d
  {
    assert (p + d)[..|p|] == p;
  }

  /** A text whose prefix differs from another text at some position neither equals the other
      text nor starts with it. */
  lemma DiffersAt(p: string, q: string, d: string, i: nat)
    requires i < |p| && i < |q| && p[i] != q[i]
    ensures !(p <= q + d) && p != q + d
  {
    assert (q + d)[i] == q[i];
  }

  /** The display text of a cache error determines the error. */
  lemma CacheErrorTextInjective(e1: CacheError, e2: CacheError)
    requires CacheErrorText(e1) == CacheErrorText(e2)
    ensures e1 == e2
  {
    ParseCacheErrorTextRoundTrip(e1);
    ParseCacheErrorTextRoundTrip(e2);
  }

  /** An answered cache error keeps the cache error's whole text as its one message, so the
      message the client sees determines which cache error occurred. */
  lemma CacheErrorAnswer(e: CacheError)
    ensures ErrorAnswer(CacheToApiError(e)) == HttpResponse(500, ErrorResponse([CacheErrorText(e)]))
    ensures forall e2: CacheError :: ErrorAnswer(CacheToApiError(e2)) == ErrorAnswer(CacheToApiError(e)) ==> e2 == e
  {
    forall e2: CacheError | ErrorAnswer(CacheToApiError(e2)) == ErrorAnswer(CacheToApiError(e))
      ensures e2 == e
    {
      assert ErrorAnswer(CacheToApiError(e2)).body.errors[0] == CacheErrorText(e2);
      CacheErrorTextInjective(e2, e);
    }
  }

  /** The pong error's text is fixed. */
  lemma PongErrorText()
    ensures CacheErrorText(RedisPongError) == "pong response error"
    ensures CacheToApiError(RedisPongError) == InternalServerError("pong response error")
  {
  }
}
