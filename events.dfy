/** The request and response envelopes of an API Gateway proxy integration, as far as
    the backend reads or fills them, and the two helpers that build plain-text
    responses (backend/main.go, successResponse and errorResponse). */
module Events {
  import opened Wrappers

  /** One byte of a Go `[]byte`. */
  newtype byte = x: int | 0 <= x < 256

  /** A Go `string` is a sequence of bytes; the model keeps one byte in each char.
      `string(b)` on a byte slice is this conversion. */
  function BytesToString(b: seq<byte>): (s: string)
    ensures |s| == |b|
    ensures forall i :: 0 <= i < |b| ==> s[i] as int == b[i] as int
  {
    seq(|b|, i requires 0 <= i < |b| => b[i] as int as char)
  }

  /** Every char of `s` holds one byte. */
  predicate IsByteString(s: string)
  {
    forall i :: 0 <= i < |s| ==> s[i] as int < 256
  }

  /** The inverse of BytesToString, for strings that hold one byte per char; it states
      that `string(b)` loses nothing (BytesToStringRoundTrip). */
  function StringToBytes(s: string): (b: seq<byte>)
    requires IsByteString(s)
    ensures |b| == |s|
    ensures forall i :: 0 <= i < |s| ==> b[i] as int == s[i] as int
  {
    seq(|s|, i requires 0 <= i < |s| => s[i] as int as byte)
  }

  /** `string(b)` loses nothing: converting back gives the same bytes. */
  lemma BytesToStringRoundTrip(b: seq<byte>)
    ensures IsByteString(BytesToString(b))
    ensures StringToBytes(BytesToString(b)) == b
  {
  }

  /** ... and the same body text comes only from the same bytes. */
  lemma BytesToStringInjective(a: seq<byte>, b: seq<byte>)
    requires BytesToString(a) == BytesToString(b)
    ensures a == b
  {
  }

  /** The fields of events.APIGatewayProxyRequest that the handler reads. */
  datatype Request = Request(path: string, httpMethod: string, body: string)

  /** The fields of events.APIGatewayProxyResponse that the handler sets; a Go nil
      header map is the empty map. */
  datatype Response = Response(statusCode: int, headers: map<string, string>, body: string)

  /** A non-nil Go `error`. */
  datatype GoError = GoError(message: string)

  /** The pair (response, error) that the handler and its helpers return. */
  datatype Outcome = Outcome(response: Response, err: Option<GoError>)

  /** The net/http status constants the handler uses. */
  const StatusOK := 200
  const StatusBadRequest := 400
  const StatusNotFound := 404
  const StatusInternalServerError := 500

  /** successResponse: status 200, the message as a plain-text body, no headers, nil error. */
  function SuccessResponse(msg: string): (o: Outcome)
    ensures o.err == None
    ensures o.response.statusCode == StatusOK
    ensures o.response.body == msg
    ensures o.response.headers == map[]
  {
    Outcome(Response(200, map[], msg), None)
  }

  /** errorResponse: the given status and message, no headers, and still a nil Go error:
      the failure is carried by the status code alone. */
  function ErrorResponse(code: int, msg: string): (o: Outcome)
    ensures o.err == None
    ensures o.response.statusCode == code
    ensures o.response.body == msg
    ensures o.response.headers == map[]
  {
    Outcome(Response(code, map[], msg), None)
  }

  /** The two helpers build the same envelope; successResponse is errorResponse at 200. */
  lemma SuccessIsErrorAtOK(msg: string)
    ensures SuccessResponse(msg) == ErrorResponse(StatusOK, msg)
  {
  }
}
