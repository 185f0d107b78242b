/** What both planes use of net/http: status codes, and the writer a handler answers through. */
module Http {

  const BAD_REQUEST := 400
  const UNAUTHORIZED := 401
  const METHOD_NOT_ALLOWED := 405
  const TOO_MANY_REQUESTS := 429
  const BAD_GATEWAY := 502
  const SERVICE_UNAVAILABLE := 503
  const GATEWAY_TIMEOUT := 504

  /** Keeps every status and every payload that a handler writes; the client sees the first status
      only. Headers other than the status are not modelled. */
  class ResponseWriter<T> {
    var statuses: seq<int>
    var written: seq<T>

    constructor ()
      ensures statuses == [] && written == []
    {
      statuses, written := [], [];
    }

    method WriteHeader(status: int)
      modifies this`statuses
      ensures statuses == old(statuses) + [status]
    {
      statuses := statuses + [status];
    }

    method Write(payload: T)
      modifies this`written
      ensures written == old(written) + [payload]
    {
      written := written + [payload];
    }

    /** http.Error: a status and a message. */
    method Error(message: T, status: int)
      modifies this
      ensures statuses == old(statuses) + [status] && written == old(written) + [message]
    {
      WriteHeader(status);
      Write(message);
    }
  }
}
