/** The HTTP vocabulary both programs share: status codes and responses. */
module Http {

  /** A status code as `http::StatusCode` holds it: three decimal digits. */
  newtype StatusCode = x: int | 100 <= x < 1000 witness 200

  const OK: StatusCode := 200
  const INTERNAL_SERVER_ERROR: StatusCode := 500

  /** `StatusCode::is_success`: the 2xx range. */
  predicate IsSuccess(status: StatusCode)
  {
    200 <= status <= 299
  }

  /** What an actix-web handler answers: a status and a text body. */
  datatype HttpResponse = HttpResponse(status: StatusCode, body: string)
}
