# htmx-sam backend: request dispatcher and response capture

A Dafny model of the Lambda backend of htmx-sam (`backend/main.go`). The handler
receives an API Gateway proxy request and dispatches on its path by exact match:

- `/` renders the layout-wrapped index page as HTML;
- `/contact` renders the contact form as HTML, unless the method is exactly `POST`,
  in which case the JSON body is decoded into a contact form, stored as a three-attribute
  DynamoDB item, and answered in plain text (400 `invalid input`, 500
  `failed to save message`, or 200 `Message received!`);
- every other path gets 404 `not found`.

HTML pages are produced by letting a templ component render into `responseWriter`, a
mutable object that appends written bytes to its body and records the status code; the
response then carries that status and body and the header `Content-Type: text/html`.

Files and modules:

- `wrappers.dfy` (`Wrappers`): `Option`, for nil-able Go results.
- `events.dfy` (`Events`): the request and response envelopes, the Go `(response, error)`
  pair, bytes and the `string(b)` conversion, `successResponse` and `errorResponse`.
- `response_writer.dfy` (`Writer`): the class `ResponseWriter` with `Header`, `Write` and
  `WriteHeader`.
- `templ.dfy` (`Templ`): the components, the trace of writer calls a component makes,
  the replay of that trace on a writer, and `renderHTML`.
- `handler.dfy` (`Backend`): `ContactForm`, the stored item, the dispatcher as a function
  (`Handler`) with the properties of every branch, and as a method (`Handle`) that goes
  through the mutable writer and is proved to agree with `Handler`.

The collaborators the backend calls but does not define are inputs of the model:

- JSON decoding (`json.Unmarshal` of the body into a `ContactForm`) is a function
  `decode: string -> Option<ContactForm>`; `None` is a decode error.
- The DynamoDB write (`ddb.PutItem`) is a function `putItem: Item -> Option<GoError>`
  giving the error PutItem returns for that item; `Handler` also reports which item, if
  any, was handed to it.
- A templ component's `Render` is a value `RenderRun`: the `Write`/`WriteHeader` calls it
  makes on the writer, in order, and the error it returns. `render: Component -> RenderRun`
  says what each component does.

Go strings are byte strings. The response body is built by `BytesToString`, Go's
`string(b)`, which keeps one byte in each `char` of a Dafny `string`. The request's path,
method and body are unconstrained Dafny strings: a harmless superset of Go's byte
strings, since no branch looks at anything but equality with the ASCII literals `/`,
`/contact` and `POST`, and the body only goes to the decoder.

## Model

| member | source | states |
|---|---|---|
| Events.BytesToString | backend/main.go:70 | `string(w.body)` keeps the length and every byte of the body, in place |
| Events.StringToBytes | backend/main.go:70 | the inverse of `string(b)` on one-byte-per-char strings: same length, every char's byte in place |
| Events.BytesToStringRoundTrip | backend/main.go:70 | converting the body to a string loses nothing: converting back gives the same bytes |
| Events.BytesToStringInjective | backend/main.go:70 | two different byte bodies never give the same response body |
| Events.SuccessResponse | backend/main.go:87-92 | status 200, the message as body, no headers, nil error |
| Events.ErrorResponse | backend/main.go:94-99 | the given status and message, no headers, and a nil Go error |
| Events.SuccessIsErrorAtOK | backend/main.go:87-99 | successResponse(m) is the same envelope as errorResponse(200, m) |
| Writer.ResponseWriter.constructor | backend/main.go:74-78 | a writer starts with exactly the given headers, body and status |
| Writer.ResponseWriter.Header | backend/main.go:80 | returns the writer's header map |
| Writer.ResponseWriter.Write | backend/main.go:81-84 | new body is old body followed by `b`; returns `len(b)` and no error; status and headers unchanged |
| Writer.ResponseWriter.WriteHeader | backend/main.go:85 | status becomes the given code; body and headers unchanged |
| Templ.WrittenSingle | backend/main.go:82 | a single call writes exactly its own chunk: the Write payload, or nothing for WriteHeader |
| Templ.WrittenWithoutWrite | backend/main.go:82 | a run that makes no Write call writes nothing |
| Templ.WrittenAppend | backend/main.go:82 | bytes written by consecutive runs of calls are concatenated in order |
| Templ.FinalStatusWithoutWriteHeader | backend/main.go:65 | a run that makes no WriteHeader call leaves the status the writer started with |
| Templ.FinalStatusIsSomeWriteHeader | backend/main.go:85 | a run that makes a WriteHeader call ends with a status that one of its WriteHeader calls set |
| Templ.FinalStatusAppend | backend/main.go:85 | after consecutive runs of calls, the second run starts from the status the first one left |
| Templ.FinalStatusIsLast | backend/main.go:85 | the code of the last WriteHeader call is the final status |
| Templ.StepCall | backend/main.go:81-85 | one more call appends its chunk to the bytes written and updates the status as that call alone would |
| Templ.Apply | backend/main.go:81-85 | one component call on the writer: a Write appends its chunk, a WriteHeader sets the status; headers unchanged |
| Templ.Render | backend/main.go:66 | rendering into the writer leaves its body as old body plus every chunk in order, its status as the last WriteHeader code (or the old status), its headers unchanged, and returns the component's error |
| Templ.HtmlResponse | backend/main.go:67-71 | a rendered response has exactly the header `Content-Type: text/html`, the status the writer ends with after starting at 200 (200 unless the renderer set one), and a body whose bytes are exactly the bytes written, in order |
| Templ.HtmlStatusIsLastWriteHeader | backend/main.go:65-68 | when the renderer calls WriteHeader, the rendered response's status is the code of its last such call |
| Templ.RenderHTML | backend/main.go:62-72 | a writer with status 200 and an empty body is rendered into; the response has its final status and body, fixed HTML headers, a nil error, and the render error is dropped |
| Backend.ContactItem | backend/main.go:42-46 | the stored item has exactly the keys Email, Name and Message, each a string attribute equal to the matching decoded field |
| Backend.ContactItemInjective | backend/main.go:42-46 | different decoded forms give different items |
| Backend.Handler | backend/main.go:29-60 | nil error always; an HTML response exactly for `/` and non-POST `/contact`; 404 `not found` with no headers for every other path; a PutItem call exactly for a POST `/contact` whose body decodes, with its item (reported whether or not it then fails); 400 `invalid input` on decode failure; 500 `failed to save message` on store failure; 200 `Message received!` without headers on success |
| Backend.NoStoreOffSubmission | backend/main.go:35-56 | outside POST `/contact` neither the decoder nor the store affects the result |
| Backend.BadRequestIgnoresStore | backend/main.go:37-40 | a body that fails to decode reaches neither the store nor the renderer |
| Backend.NotFoundIgnoresMethodAndBody | backend/main.go:57-58 | an unknown path answers the same whatever the method and body |
| Backend.NoTrailingSlashMatch | backend/main.go:30-58 | `/contact/` is not `/contact`: it gets 404 |
| Backend.NonPostRendersForm | backend/main.go:35-56 | on `/contact` every method other than exactly `POST` (`post` included) renders the form and passes nothing to PutItem |
| Backend.Handle | backend/main.go:29-60 | the handler, running the HTML branches through the mutable writer, returns exactly what `Handler` describes |

## Left out

- `main` (configuration loading, `os.Exit`, `lambda.Start`): process start-up and platform wiring.
- The DynamoDB client, the global `ddb` handle and `tableName`: remote I/O; the model keeps the item passed to PutItem and PutItem's error only.
- `encoding/json` behaviour (missing fields become empty strings, unknown fields are ignored, partial filling on error): library code, modelled as an arbitrary partial decoder.
- The templ components `Layout`, `Index` and `Contact`: that package is not part of this model; what they write is an input.
- Changes a component makes to the map returned by `Header()`: Go maps are shared references and the model does not alias them; renderHTML ignores the writer's headers when it builds the response, so the response is unaffected.
- `context.Context` arguments and the other fields of the API Gateway request and response.
- Integer width: status codes are unbounded integers; Go's `int` would be 64 bits, which no code here can reach.
- `frontend/server.js`: static-file serving and a proxy, library wiring only.
