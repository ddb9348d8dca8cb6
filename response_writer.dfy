/** responseWriter (backend/main.go): the http.ResponseWriter that renderHTML hands to
    a templ component, capturing the headers, the body bytes and the status code. */
module Writer {
  import opened Wrappers
  import opened Events

  /** An http.Header: each header name maps to its list of values. */
  type Header = map<string, seq<string>>

  class ResponseWriter {
    var headers: Header
    var body: seq<byte>
    var statusCode: int

    /** The composite literal `&responseWriter{headers: h, body: b, statusCode: c}`. */
    constructor (headers: Header, body: seq<byte>, statusCode: int)
      ensures this.headers == headers && this.body == body && this.statusCode == statusCode
    {
      this.headers := headers;
      this.body := body;
      this.statusCode := statusCode;
    }

    /** Header returns the writer's header map and changes nothing. */
    method Header() returns (h: Header)
      ensures h == headers
    {
      h := headers;
    }

    /** Write appends all of `b` to the body, reports `len(b)` bytes written and never
        fails; the status and the headers stay as they were. */
    method Write(b: seq<byte>) returns (n: int, err: Option<GoError>)
      modifies this
      ensures body == old(body) + b
      ensures statusCode == old(statusCode) && headers == old(headers)
      ensures n == |b| && err == None
    {
      body := body + b;
      n, err := |b|, None;
    }

    /** WriteHeader overwrites the status code, whatever it was and however often it is
        called; the body and the headers stay as they were. */
    method WriteHeader(statusCode: int)
      modifies this
      ensures this.statusCode == statusCode
      ensures body == old(body) && headers == old(headers)
    {
      this.statusCode := statusCode;
    }
  }
}
