/** The Lambda request handler of backend/main.go: an exact-match dispatch on the path,
    the contact-form submission that stores one item, and the fixed responses of each
    branch. The JSON decoder, the item store and the templ renderer are inputs. */
module Backend {
  import opened Wrappers
  import opened Events
  import opened Templ

  /** ContactForm: the three fields a submission decodes into. */
  datatype ContactForm = ContactForm(name: string, email: string, message: string)

  /** The only kind of DynamoDB attribute value the handler writes: a string (S). */
  datatype AttributeValue = S(value: string)

  /** A DynamoDB item: attribute name to attribute value. */
  type Item = map<string, AttributeValue>

  /** The item written for a decoded form: exactly the attributes Email, Name and
      Message, each the string of the matching field. */
  function ContactItem(form: ContactForm): (item: Item)
    ensures item.Keys == {"Email", "Name", "Message"}
    ensures item["Email"] == S(form.email)
    ensures item["Name"] == S(form.name)
    ensures item["Message"] == S(form.message)
  {
    map["Email" := S(form.email), "Name" := S(form.name), "Message" := S(form.message)]
  }

  /** No field is lost on the way to the store: different forms give different items. */
  lemma ContactItemInjective(f: ContactForm, g: ContactForm)
    requires ContactItem(f) == ContactItem(g)
    ensures f == g
  {
  }

  /** The fixed messages of the plain-text responses. */
  const InvalidInput := "invalid input"
  const SaveFailed := "failed to save message"
  const MessageReceived := "Message received!"
  const NotFound := "not found"

  /** What one invocation returns, and the item it passed to PutItem, if any (whether
      or not PutItem then succeeded). */
  datatype Handled = Handled(outcome: Outcome, attempted: Option<Item>)

  /** True when the request is a submission of the contact form: path "/contact" and
      method exactly "POST" (case-sensitive). */
  predicate IsSubmission(req: Request)
  {
    req.path == "/contact" && req.httpMethod == "POST"
  }

  /** handler. `decode` is json.Unmarshal of the body into a ContactForm (None when it
      fails), `putItem` the error PutItem returns for an item (None on success), and
      `render` what rendering a component does to the writer. */
  function Handler(req: Request, decode: string -> Option<ContactForm>,
                   putItem: Item -> Option<GoError>, render: Component -> RenderRun): (h: Handled)
    // The Go error is nil on every path.
    ensures h.outcome.err == None
    // An HTML page comes back exactly for "/" (any method) and a non-POST "/contact".
    ensures "Content-Type" in h.outcome.response.headers
        <==> req.path == "/" || (req.path == "/contact" && !IsSubmission(req))
    ensures req.path == "/" ==> h.outcome.response == HtmlResponse(render(Layout("Home", Index)).calls)
    ensures req.path == "/contact" && !IsSubmission(req) ==>
              h.outcome.response == HtmlResponse(render(Contact).calls)
    // Any other path, whatever the method and body: 404 "not found", no headers.
    ensures req.path != "/" && req.path != "/contact" ==>
              h.outcome.response == Response(StatusNotFound, map[], NotFound)
    // A write is attempted exactly for a submission whose body decodes, and it is the
    // item of the decoded form.
    ensures h.attempted.Some? <==> IsSubmission(req) && decode(req.body).Some?
    ensures h.attempted.Some? ==> h.attempted.value == ContactItem(decode(req.body).value)
    // The three outcomes of a submission.
    ensures IsSubmission(req) && decode(req.body).None? ==>
              h.outcome.response == Response(StatusBadRequest, map[], InvalidInput)
    ensures h.attempted.Some? && putItem(h.attempted.value).Some? ==>
              h.outcome.response == Response(StatusInternalServerError, map[], SaveFailed)
    ensures h.attempted.Some? && putItem(h.attempted.value).None? ==>
              h.outcome.response == Response(StatusOK, map[], MessageReceived)
  {
    if req.path == "/" then
      Handled(Outcome(HtmlResponse(render(Layout("Home", Index)).calls), None), None)
    else if req.path == "/contact" then
      if req.httpMethod == "POST" then
        match decode(req.body)
        case None => Handled(ErrorResponse(StatusBadRequest, InvalidInput), None)
        case Some(form) =>
          var item := ContactItem(form);
          if putItem(item).Some? then
            Handled(ErrorResponse(StatusInternalServerError, SaveFailed), Some(item))
          else
            Handled(SuccessResponse(MessageReceived), Some(item))
      else
        Handled(Outcome(HtmlResponse(render(Contact).calls), None), None)
    else
      Handled(ErrorResponse(StatusNotFound, NotFound), None)
  }

  /** Off the submission route the decoder and the store are never consulted: any other
      decoder and store give the same result. */
  lemma NoStoreOffSubmission(req: Request, render: Component -> RenderRun,
                             decode: string -> Option<ContactForm>, putItem: Item -> Option<GoError>,
                             decode': string -> Option<ContactForm>, putItem': Item -> Option<GoError>)
    requires !IsSubmission(req)
    ensures Handler(req, decode, putItem, render) == Handler(req, decode', putItem', render)
  {
  }

  /** A body that does not decode reaches neither the store nor the renderer. */
  lemma BadRequestIgnoresStore(req: Request, decode: string -> Option<ContactForm>,
                               putItem: Item -> Option<GoError>, render: Component -> RenderRun,
                               putItem': Item -> Option<GoError>, render': Component -> RenderRun)
    requires IsSubmission(req) && decode(req.body).None?
    ensures Handler(req, decode, putItem, render) == Handler(req, decode, putItem', render')
  {
  }

  /** An unknown path gets the same 404 whatever its method and body. */
  lemma NotFoundIgnoresMethodAndBody(req: Request, method': string, body': string,
                                     decode: string -> Option<ContactForm>,
                                     putItem: Item -> Option<GoError>, render: Component -> RenderRun)
    requires req.path != "/" && req.path != "/contact"
    ensures Handler(req, decode, putItem, render)
         == Handler(Request(req.path, method', body'), decode, putItem, render)
  {
  }

  /** The route match is exact: a trailing slash is a different, unknown path. An
      instance of Handler's contract, kept as documentation of the exact match. */
  lemma NoTrailingSlashMatch(method': string, body: string, decode: string -> Option<ContactForm>,
                             putItem: Item -> Option<GoError>, render: Component -> RenderRun)
    ensures Handler(Request("/contact/", method', body), decode, putItem, render).outcome
         == ErrorResponse(StatusNotFound, NotFound)
  {
  }

  /** The method test is exact and case-sensitive: on "/contact" any method other than
      "POST" (such as "post" or "GET") renders the form and passes nothing to PutItem. */
  lemma NonPostRendersForm(method': string, body: string, decode: string -> Option<ContactForm>,
                           putItem: Item -> Option<GoError>, render: Component -> RenderRun)
    requires method' != "POST"
    ensures Handler(Request("/contact", method', body), decode, putItem, render)
         == Handled(Outcome(HtmlResponse(render(Contact).calls), None), None)
  {
  }

  /** handler as it runs: the HTML branches build their response through the mutable
      writer of RenderHTML, and the result is the one Handler describes. */
  method Handle(req: Request, decode: string -> Option<ContactForm>,
                putItem: Item -> Option<GoError>, render: Component -> RenderRun)
    returns (o: Outcome, attempted: Option<Item>)
    ensures Handled(o, attempted) == Handler(req, decode, putItem, render)
  {
    attempted := None;
    if req.path == "/" {
      o := RenderHTML(Layout("Home", Index), render);
    } else if req.path == "/contact" {
      if req.httpMethod == "POST" {
        var form := decode(req.body);
        if form.None? {
          o := ErrorResponse(StatusBadRequest, InvalidInput);
          return;
        }
        var item := ContactItem(form.value);
        attempted := Some(item);
        var err := putItem(item);
        if err.Some? {
          o := ErrorResponse(StatusInternalServerError, SaveFailed);
          return;
        }
        o := SuccessResponse(MessageReceived);
        return;
      }
      o := RenderHTML(Contact, render);
    } else {
      o := ErrorResponse(StatusNotFound, NotFound);
    }
  }
}
