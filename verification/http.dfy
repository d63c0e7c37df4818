/** The shapes of the views' replies: DRF `Response` objects with a status and
    a JSON body, the `Throttled` exception `chat` raises, exceptions that escape
    a view, and redirects. */
module Http {

  const Status200Ok: nat := 200
  const Status201Created: nat := 201
  const Status400BadRequest: nat := 400
  const Status404NotFound: nat := 404
  const Status429TooManyRequests: nat := 429
  const Status500ServerError: nat := 500

  /** One row of `values("id", "link", "name")`. */
  datatype LinkRow = LinkRow(id: nat, link: string, name: string)

  datatype Body =
    | AiResponse(text: string)                        // {"ai_response": text}
    | ContextId(id: nat)                              // {"context_id": id}
    | SuccessBody(message: string)                    // {"Success": message}
    | ErrorBody(message: string)                      // {"Error": message}
    | LinksDeleted(count: nat)                        // {"Success": "<count> links deleted!"}
    | ThrottleDetail(error: string, cooldownPeriod: string, retryAfter: nat)
    | LinkRows(rows: seq<LinkRow>)

  datatype Reply =
    | Respond(status: nat, body: Body)
      /** DRF's `Throttled(detail, wait)`, once constructed; the framework
          turns it into a 429 with a `Retry-After` header of `wait` seconds. */
    | RaiseThrottled(detail: Body, wait: nat)
      /** An exception the view does not catch (the framework answers 500). */
    | Uncaught(exception: string)
    | Redirect(location: string)

  const ThrottleError := "Token limit reached. Please try again later."
  /** The display string is fixed, whatever retry-after was parsed. */
  const CooldownPeriod := "10 minutes"
  const ModelFailurePrefix := "AI processing failed: "

  /** The body both throttling paths carry. */
  function ThrottleBody(retryAfter: nat): Body {
    ThrottleDetail(ThrottleError, CooldownPeriod, retryAfter)
  }

  /** A view's effect: the database after the request, and the reply. */
  datatype Outcome<S> = Outcome(state: S, reply: Reply)
}
