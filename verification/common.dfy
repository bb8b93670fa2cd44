/** Shared value types and units: optional values, results that carry an error,
    what an HTTP exchange may come to, bytes, and the integer clock that every
    model in this project reads. */
module Common {

  datatype Option<+T> = None | Some(value: T)

  datatype Result<+T, +E> = Ok(value: T) | Err(error: E)

  /** Time is an integer number of nanoseconds. */
  const SECOND := 1_000_000_000

  function Min(a: int, b: int): int { if a <= b then a else b }

  function Max(a: int, b: int): int { if a <= b then b else a }

  /** Conversion of a real number to an integer drops the fraction. */
  function Truncate(x: real): (n: int)
    ensures x >= 0.0 ==> 0.0 <= x - n as real < 1.0
    ensures x <= 0.0 ==> 0.0 <= n as real - x < 1.0
  {
    if x >= 0.0 then x.Floor else -((-x).Floor)
  }

  // -------------------------------------------------------------------- HTTP

  /** A decoded JSON document; which one is all that matters here. */
  datatype Document = Document(id: nat)

  datatype HttpError =
    BadRequest | NoConnection | ReadFailed | LoginFailed | NotFound | RateLimited | UnexpectedStatus | NotJson

  function CheckStatus(status: int): (error: Option<HttpError>) {
    if status == 401 || status == 403 then Some(LoginFailed)
    else if status == 404 then Some(NotFound)
    else if status == 429 || status == 503 then Some(RateLimited)
    else if status >= 400 then Some(UnexpectedStatus)
    else None
  }

  // ------------------------------------------------------------------- bytes

  newtype Byte = x: int | 0 <= x < 256

  function Pow(base: nat, n: nat): (p: nat)
    ensures base > 0 ==> p > 0
  {
    if n == 0 then 1 else base * Pow(base, n - 1)
  }

  /** The number a big-endian byte string stands for. */
  function Value(bs: seq<Byte>): (v: nat)
    ensures v < Pow(256, |bs|)
  {
    if bs == [] then 0 else Value(bs[..|bs| - 1]) * 256 + bs[|bs| - 1] as int
  }
}
