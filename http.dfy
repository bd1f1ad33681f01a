/** What the three HTTP packages share: the status codes they answer with,
    the result of decoding a request body, and `loggingResponseWriter`, the
    response writer the HTTP logging middleware hands to each handler so that
    it can log the status afterwards. Each package declares an identical
    copy of that type (pkg/reservations/http.go, pkg/userlist/http.go,
    pkg/auth/http.go); it is modelled once here. */
module Http {
  import opened Pkg

  const StatusOK: int := 200
  const StatusCreated: int := 201
  const StatusNoContent: int := 204
  const StatusBadRequest: int := 400
  const StatusUnauthorized: int := 401
  const StatusNotFound: int := 404
  const StatusMethodNotAllowed: int := 405
  const StatusConflict: int := 409
  const StatusInternalServerError: int := 500

  /** A JSON request body as the decoder leaves it: the request value, or
      the decoder's error text. */
  datatype Decoded<T> = Decoded(value: T) | Undecodable(cause: string)

  /** The response writer a handler writes to. `statusCode` is the field the
      logging middleware reads; it starts at 200 and every WriteHeader
      records its code. `errorBody` is the text of the `{"error": …}` object
      writeError encodes, if one was written. */
  class LoggingResponseWriter {
    var statusCode: int
    var errorBody: Option<string>

    /** `&loggingResponseWriter{w, http.StatusOK}` */
    constructor ()
      ensures statusCode == StatusOK && errorBody == None
    {
      statusCode := StatusOK;
      errorBody := None;
    }

    /** Records `code` as the latest status and changes nothing else. */
    method WriteHeader(code: int)
      modifies this
      ensures statusCode == code && errorBody == old(errorBody)
    {
      statusCode := code;
    }

    /** Encodes the error object into the body; the status is not touched. */
    method EncodeError(text: string)
      modifies this
      ensures errorBody == Some(text) && statusCode == old(statusCode)
    {
      errorBody := Some(text);
    }
  }
}
