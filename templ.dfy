/** renderHTML (backend/main.go) and the templ components it renders. The components
    live in a package that is not part of this model; what rendering one does to the
    writer is an input: the calls it makes on the writer, in order, and the error its
    Render returns. */
module Templ {
  import opened Wrappers
  import opened Events
  import opened Writer

  /** The components the handler renders: the layout with a title around a content
      component, the index page and the contact form. */
  datatype Component = Layout(title: string, content: Component) | Index | Contact

  /** One call a component makes on the http.ResponseWriter it renders to. */
  datatype WriterCall = Write(chunk: seq<byte>) | WriteHeader(statusCode: int)

  /** What `c.Render(ctx, w)` does: the writer calls, in order, and its result. */
  datatype RenderRun = RenderRun(calls: seq<WriterCall>, err: Option<GoError>)

  /** The bytes one call appends to the body. */
  function ChunkOf(call: WriterCall): seq<byte>
  {
    match call
    case Write(chunk) => chunk
    case WriteHeader(_) => []
  }

  /** The in-order concatenation of every chunk passed to Write. */
  function Written(calls: seq<WriterCall>): seq<byte>
  {
    if calls == [] then []
    else ChunkOf(calls[0]) + Written(calls[1..])
  }

  /** A single call writes exactly its own chunk. */
  lemma WrittenSingle(call: WriterCall)
    ensures Written([call]) == ChunkOf(call)
  {
  }

  /** A run without Write calls writes nothing. */
  lemma {:induction false} WrittenWithoutWrite(calls: seq<WriterCall>)
    requires forall i :: 0 <= i < |calls| ==> !calls[i].Write?
    ensures Written(calls) == []
  {
    if calls != [] {
      assert forall i :: 0 <= i < |calls[1..]| ==> calls[1..][i] == calls[i + 1];
      WrittenWithoutWrite(calls[1..]);
    }
  }

  /** Writing one run of calls after another writes the two outputs one after the other. */
  lemma {:induction false} WrittenAppend(a: seq<WriterCall>, b: seq<WriterCall>)
    ensures Written(a + b) == Written(a) + Written(b)
  {
    if a == [] {
      assert a + b == b;
    } else {
      assert (a + b)[1..] == a[1..] + b;
      WrittenAppend(a[1..], b);
    }
  }

  /** The status after one call: the code a WriteHeader sets, otherwise unchanged. */
  function StatusAfter(status: int, call: WriterCall): int
  {
    match call
    case WriteHeader(code) => code
    case Write(_) => status
  }

  /** The status left by `initial` followed by the calls: the code of the last
      WriteHeader, or `initial` when there is none. */
  function FinalStatus(initial: int, calls: seq<WriterCall>): int
    decreases |calls|
  {
    if calls == [] then initial
    else FinalStatus(StatusAfter(initial, calls[0]), calls[1..])
  }

  /** A run without WriteHeader calls leaves the initial status. */
  lemma {:induction false} FinalStatusWithoutWriteHeader(initial: int, calls: seq<WriterCall>)
    ensures (forall i :: 0 <= i < |calls| ==> !calls[i].WriteHeader?) ==> FinalStatus(initial, calls) == initial
    decreases |calls|
  {
    if calls != [] && !calls[0].WriteHeader? {
      assert forall i :: 0 <= i < |calls[1..]| ==> calls[1..][i] == calls[i + 1];
      FinalStatusWithoutWriteHeader(initial, calls[1..]);
    }
  }

  /** A run that makes a WriteHeader call ends with a status one of its WriteHeader
      calls set. */
  lemma {:induction false} FinalStatusIsSomeWriteHeader(initial: int, calls: seq<WriterCall>)
    requires exists i :: 0 <= i < |calls| && calls[i].WriteHeader?
    ensures WriteHeader(FinalStatus(initial, calls)) in calls
  {
    var last :| 0 <= last < |calls| && calls[last].WriteHeader? &&
                forall j :: last < j < |calls| ==> !calls[j].WriteHeader?
      by { LastWriteHeaderExists(calls); }
    FinalStatusIsLast(initial, calls, last);
    assert calls[last] == WriteHeader(calls[last].statusCode);
  }

  /** Among the WriteHeader calls of a run that has one, there is a last one. */
  lemma {:induction false} LastWriteHeaderExists(calls: seq<WriterCall>)
    requires exists i :: 0 <= i < |calls| && calls[i].WriteHeader?
    ensures exists k :: 0 <= k < |calls| && calls[k].WriteHeader? &&
                        forall j :: k < j < |calls| ==> !calls[j].WriteHeader?
    decreases |calls|
  {
    var n := |calls| - 1;
    if !calls[n].WriteHeader? {
      var prefix := calls[..n];
      var i :| 0 <= i < |calls| && calls[i].WriteHeader?;
      assert i < n && prefix[i] == calls[i];
      LastWriteHeaderExists(prefix);
      var k :| 0 <= k < |prefix| && prefix[k].WriteHeader? &&
               forall j :: k < j < |prefix| ==> !prefix[j].WriteHeader?;
      assert calls[k] == prefix[k];
      assert forall j :: k < j < |calls| ==> !calls[j].WriteHeader? by {
        forall j | k < j < |calls| ensures !calls[j].WriteHeader? {
          if j < n { assert calls[j] == prefix[j]; }
        }
      }
    }
  }

  /** Running one run of calls after another: the second starts from the status the
      first leaves. */
  lemma {:induction false} FinalStatusAppend(initial: int, a: seq<WriterCall>, b: seq<WriterCall>)
    ensures FinalStatus(initial, a + b) == FinalStatus(FinalStatus(initial, a), b)
    decreases |a|
  {
    if a == [] {
      assert a + b == b;
    } else {
      assert (a + b)[1..] == a[1..] + b;
      FinalStatusAppend(StatusAfter(initial, a[0]), a[1..], b);
    }
  }

  /** The last WriteHeader wins: no earlier call and no later Write changes the result. */
  lemma {:induction false} FinalStatusIsLast(initial: int, calls: seq<WriterCall>, k: nat)
    requires k < |calls| && calls[k].WriteHeader?
    requires forall j :: k < j < |calls| ==> !calls[j].WriteHeader?
    ensures FinalStatus(initial, calls) == calls[k].statusCode
    decreases k
  {
    var rest := calls[1..];
    if k == 0 {
      assert forall j :: 0 <= j < |rest| ==> rest[j] == calls[j + 1];
      FinalStatusWithoutWriteHeader(calls[0].statusCode, rest);
    } else {
      assert forall j :: k - 1 < j < |rest| ==> rest[j] == calls[j + 1];
      FinalStatusIsLast(StatusAfter(initial, calls[0]), rest, k - 1);
    }
  }

  /** One more call appends its chunk to the bytes written and updates the status
      the way that call alone would. */
  lemma StepCall(initial: int, done: seq<WriterCall>, call: WriterCall)
    ensures Written(done + [call]) == Written(done) + ChunkOf(call)
    ensures FinalStatus(initial, done + [call]) == StatusAfter(FinalStatus(initial, done), call)
  {
    WrittenAppend(done, [call]);
    WrittenSingle(call);
    FinalStatusAppend(initial, done, [call]);
  }

  /** One call of the component on the writer. */
  method Apply(call: WriterCall, w: ResponseWriter)
    modifies w
    ensures w.body == old(w.body) + ChunkOf(call)
    ensures w.statusCode == StatusAfter(old(w.statusCode), call)
    ensures w.headers == old(w.headers)
  {
    match call {
      case Write(chunk) =>
        var n, writeErr := w.Write(chunk);
      case WriteHeader(code) =>
        w.WriteHeader(code);
    }
  }

  /** `c.Render(ctx, w)`: the component makes its calls on the writer, one after the
      other, and returns its error. Write never fails, so no call is cut short. */
  method Render(run: RenderRun, w: ResponseWriter) returns (err: Option<GoError>)
    modifies w
    ensures w.body == old(w.body) + Written(run.calls)
    ensures w.statusCode == FinalStatus(old(w.statusCode), run.calls)
    ensures w.headers == old(w.headers)
    ensures err == run.err
  {
    var calls := run.calls;
    ghost var body0, status0, headers0 := w.body, w.statusCode, w.headers;
    var i := 0;
    while i < |calls|
      invariant 0 <= i <= |calls|
      invariant w.body == body0 + Written(calls[..i])
      invariant w.statusCode == FinalStatus(status0, calls[..i])
      invariant w.headers == headers0
    {
      ghost var done, next := calls[..i], calls[..i + 1];
      assert next == done + [calls[i]];
      StepCall(status0, done, calls[i]);
      Apply(calls[i], w);
      assert w.body == body0 + Written(next);
      i := i + 1;
    }
    assert calls[..i] == calls;
    err := run.err;
  }

  /** The header map of every rendered response. */
  const HtmlHeaders: map<string, string> := map["Content-Type" := "text/html"]

  /** The response renderHTML builds from a component whose rendering made `calls`. */
  function HtmlResponse(calls: seq<WriterCall>): (r: Response)
    ensures r.headers == HtmlHeaders
    ensures r.statusCode == FinalStatus(StatusOK, calls)
    ensures (forall i :: 0 <= i < |calls| ==> !calls[i].WriteHeader?) ==> r.statusCode == StatusOK
    ensures |r.body| == |Written(calls)|
    ensures IsByteString(r.body) && StringToBytes(r.body) == Written(calls)
  {
    BytesToStringRoundTrip(Written(calls));
    FinalStatusWithoutWriteHeader(200, calls);
    Response(FinalStatus(200, calls), HtmlHeaders, BytesToString(Written(calls)))
  }

  /** When the renderer calls WriteHeader, the rendered response carries the code of
      its last such call, whatever Writes follow it. */
  lemma HtmlStatusIsLastWriteHeader(calls: seq<WriterCall>, k: nat)
    requires k < |calls| && calls[k].WriteHeader?
    requires forall j :: k < j < |calls| ==> !calls[j].WriteHeader?
    ensures HtmlResponse(calls).statusCode == calls[k].statusCode
  {
    FinalStatusIsLast(StatusOK, calls, k);
  }

  /** renderHTML: a fresh writer with header Content-Type: text/html, an empty body and
      status 200; the component renders into it; the response takes the writer's final
      status and body, fixed HTML headers, and drops the component's error. */
  method RenderHTML(c: Component, render: Component -> RenderRun) returns (o: Outcome)
    ensures o == Outcome(HtmlResponse(render(c).calls), None)
    // Follows from the first clause; stated for the reader.
    ensures o.response.headers == HtmlHeaders
  {
    var w := new ResponseWriter(map["Content-Type" := ["text/html"]], [], 200);
    var renderErr := Render(render(c), w);
    o := Outcome(Response(w.statusCode, map["Content-Type" := "text/html"], BytesToString(w.body)), None);
  }
}
