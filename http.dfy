/**
 * What a route handler receives and returns at the HTTP boundary.
 */
module Http {
  import Domain

  const OK := 200
  const CREATED := 201
  const BAD_REQUEST := 400
  const UNAUTHORIZED := 401
  const NOT_FOUND := 404
  const CONFLICT := 409
  const UNPROCESSABLE := 422
  const INTERNAL_ERROR := 500

  datatype ResponseBody =
    | Text(text: string)
    /** The validator's error message, which lists the issues it found. */
    | IssuesMessage(issues: seq<Domain.Issue>)

  datatype Response = Response(status: int, body: ResponseBody)

  /**
   * A request body as a handler sees it after `req.json()` and a schema's
   * `parse`: not JSON at all (req.json throws, which is not a validation
   * error), refused by the schema (a validation error), or the parsed value.
   */
  datatype Body<+T> = NotJson | Invalid | Valid(value: T)
}
