/**
 * The `GET *` handler (src/index.js:102-178) and the URLs the first middleware stores on the
 * request (src/index.js:76-84).
 *
 * The handler sets the response's status from the upstream reply, then picks one of four
 * outcomes: redirect the client to the upstream URL, pass on a rewritten `Location`, render
 * the page, or answer 404. `Classify` is that decision; `Respond` is the whole response it
 * leads to; `HandleGet` is the handler itself, working on a `Response` object and the loaded
 * `Document`, and is proved to produce `Respond`'s response.
 */
module Handler {
  import opened Options
  import opened Urls
  import opened Paths
  import opened Outbound
  import opened Page

  /** The process configuration: `EXT_PORT` as parsed and `CLONE_URL`. */
  datatype Config = Config(extPort: int, cloneBaseURL: string)

  /** The parts of the inbound request the handler reads. */
  datatype Request = Request(protocol: string, hostname: string, originalUrl: string,
                             baseUrl: string, headers: map<string, string>)

  /** The foreign libraries: URL parsing, HTML serialisation and `typeis.is(type, 'text/html')`. */
  datatype Libraries = Libraries(url: UrlLib, html: HtmlLib, isHtml: string -> bool)

  /** What the upstream fetch yields: a transport failure (the promise rejects), or a reply with
      its status, its `content-type` and `location` headers and whether its body could be read. */
  datatype Upstream =
    | TransportFailure
    | Reply(status: int, statusText: string, contentType: Option<string>, location: Option<string>,
            bodyReadable: bool)

  /** The four outcomes of the handler. */
  datatype Outcome = RedirectToClone | RewriteLocation | RenderHtml | NotFound

  /** `res.locals.pageInfo` (src/index.js:156-165). */
  datatype PageInfo = PageInfo(baseCloneURL: string, baseURL: string, pageURL: string,
                               pageTitle: string, metaTitle: Option<string>,
                               metaDescription: Option<string>)

  /** The locals `res.render('container')` receives. */
  datatype Locals = Locals(pageInfo: PageInfo, cloneURL: string, headers: string, bodyContent: string)

  /** The URLs the first middleware stores on the request: `custReqURL` and `custBaseURL`. */
  datatype PublicUrls = PublicUrls(pageURL: string, baseURL: string)

  /** A loaded document as values: the elements under <head> in document order, and <body>'s
      children. */
  datatype DocValue = DocValue(head: seq<Node>, body: seq<Node>)

  /** The observable state of a response. `statusMessage` is `None` while Node's default reason
      phrase applies; `body` is what `send` was given; `locals` what `render` was given. */
  datatype ResponseState = ResponseState(statusCode: int, statusMessage: Option<string>,
                                         headers: map<string, string>, body: Option<string>,
                                         locals: Option<Locals>, finished: bool)

  const CacheControl: string := "public, max-age=86400"
  const NotFoundText: string := "Not Found"

  // ---------------------------------------------------------------------------------------
  // The response object.

  class Response {
    var statusCode: int
    var statusMessage: Option<string>
    var headers: map<string, string>
    var body: Option<string>
    var locals: Option<Locals>
    var finished: bool

    constructor ()
      ensures State() == ResponseState(200, None, map[], None, None, false)
    {
      statusCode, statusMessage, headers := 200, None, map[];
      body, locals, finished := None, None, false;
    }

    function State(): ResponseState
      reads this
    {
      ResponseState(statusCode, statusMessage, headers, body, locals, finished)
    }

    /** `res.statusCode = code; res.statusMessage = message`. */
    method SetStatus(code: int, message: string)
      modifies this
      ensures State() == old(State()).(statusCode := code, statusMessage := Some(message))
    {
      statusCode, statusMessage := code, Some(message);
    }

    /** `res.set(name, value)` / `res.setHeader(name, value)`. */
    method SetHeader(name: string, value: string)
      modifies this
      ensures State() == old(State()).(headers := old(headers)[name := value])
    {
      headers := headers[name := value];
    }

    /** `res.redirect(url)`: status 302 and a `Location`; the status message is left as it was. */
    method Redirect(url: string)
      modifies this
      ensures State() == old(State()).(statusCode := 302, headers := old(headers)["Location" := url], finished := true)
    {
      statusCode := 302;
      headers := headers["Location" := url];
      finished := true;
    }

    /** `res.end()`. */
    method End()
      modifies this
      ensures State() == old(State()).(finished := true)
    {
      finished := true;
    }

    /** `res.status(404).send('Not Found')`; the status message is left as it was. */
    method SendNotFound()
      modifies this
      ensures State() == NotFoundState(old(State()))
    {
      statusCode := 404;
      body := Some(NotFoundText);
      finished := true;
    }

    /** `res.render('container')` with `locals`. */
    method Render(l: Locals)
      modifies this
      ensures State() == old(State()).(locals := Some(l), finished := true)
    {
      locals := Some(l);
      finished := true;
    }
  }

  function NotFoundState(s: ResponseState): ResponseState
  {
    s.(statusCode := 404, body := Some(NotFoundText), finished := true)
  }

  // ---------------------------------------------------------------------------------------
  // The middleware's URLs (src/index.js:79-81).

  /** `custReqURL = fullURL(req, req.originalUrl)` and
      `custBaseURL = fullURL(req, req.baseUrl.replace(/\/+$/, ''))`; `None` where either throws. */
  function PublicUrlsOf(lib: UrlLib, cfg: Config, req: Request): (r: Option<PublicUrls>)
    ensures r.Some? <==> FullURL(lib, req.protocol, req.hostname, cfg.extPort, req.originalUrl).Some?
                         && FullURL(lib, req.protocol, req.hostname, cfg.extPort, StripTrailingSlashes(req.baseUrl)).Some?
    ensures r.Some? ==>
      r.value.pageURL == FullURL(lib, req.protocol, req.hostname, cfg.extPort, req.originalUrl).value
      && r.value.baseURL == FullURL(lib, req.protocol, req.hostname, cfg.extPort, StripTrailingSlashes(req.baseUrl)).value
  {
    var page := FullURL(lib, req.protocol, req.hostname, cfg.extPort, req.originalUrl);
    var base := FullURL(lib, req.protocol, req.hostname, cfg.extPort, StripTrailingSlashes(req.baseUrl));
    if page.Some? && base.Some? then Some(PublicUrls(page.value, base.value)) else None
  }

  /** The page URL handed to the template is on the proxy's own origin: the request's protocol
      and host, the external port, and the inbound path as resolved. */
  lemma PageUrlOnProxyOrigin(lib: UrlLib, cfg: Config, req: Request)
    requires PublicUrlsOf(lib, cfg, req).Some?
    ensures exists v ::
              (PublicUrlsOf(lib, cfg, req).value.pageURL == lib.serialize(v)
               && v.protocol == req.protocol && v.hostname == req.hostname && v.port == IntToString(cfg.extPort)
               && v.pathname == lib.parse(req.originalUrl, Some(LocalBase)).value.pathname)
  {
  }

  /** The first middleware (src/index.js:76-84): sets Cache-Control and computes the URLs. */
  method Prepare(lib: UrlLib, cfg: Config, req: Request, res: Response) returns (urls: Option<PublicUrls>)
    modifies res
    ensures res.State() == old(res.State()).(headers := old(res.headers)["Cache-Control" := CacheControl])
    ensures urls == PublicUrlsOf(lib, cfg, req)
  {
    res.SetHeader("Cache-Control", CacheControl);
    urls := PublicUrlsOf(lib, cfg, req);
  }

  // ---------------------------------------------------------------------------------------
  // The decision and the response it leads to.

  /** The handler's decision (src/index.js:106-131, 173-177): a failed fetch is a 404; a reply
      without an HTML content-type is a redirect to the upstream URL, whether or not it has a
      `Location`; an HTML reply with a `Location` has it rewritten; any other reply is
      rendered. */
  function Classify(transportOk: bool, hasContentType: bool, isHtml: bool, hasLocation: bool): (o: Outcome)
    ensures o == NotFound <==> !transportOk
    ensures o == RedirectToClone <==> transportOk && (!hasContentType || !isHtml)
    ensures o == RewriteLocation <==> transportOk && hasContentType && isHtml && hasLocation
    ensures o == RenderHtml <==> transportOk && hasContentType && isHtml && !hasLocation
  {
    if !transportOk then NotFound
    else if !hasContentType || !isHtml then RedirectToClone
    else if hasLocation then RewriteLocation
    else RenderHtml
  }

  /** What is rendered for an HTML page (src/index.js:134-171). */
  function PageLocals(libs: Libraries, cfg: Config, urls: PublicUrls, cloneURL: string, doc: DocValue): Locals
  {
    var metaVals := MetaMap(SelectTag(doc.head, "meta"));
    var lines := LinkLines(libs.url, libs.html, SelectTag(doc.head, "link"), cfg.cloneBaseURL)
                 + StyleLines(libs.url, libs.html, SelectTag(doc.head, "style"), cfg.cloneBaseURL);
    Locals(PageInfo(cfg.cloneBaseURL, urls.baseURL, urls.pageURL,
                    TextContent(SelectTag(doc.head, "title")),
                    MetaGet(metaVals, "og:title"), MetaGet(metaVals, "og:description")),
           cloneURL, Join(lines, "\n"), libs.html.innerHtml(RemoveScripts(doc.body)))
  }

  /** The response the handler leaves, from the response as the middleware left it. */
  function Respond(libs: Libraries, cfg: Config, req: Request, urls: PublicUrls, up: Upstream,
                   doc: DocValue, start: ResponseState): ResponseState
  {
    var cloneURL := CloneURL(cfg.cloneBaseURL, req.originalUrl);
    var ok := up.Reply?;
    var hasType := ok && up.contentType.Some?;
    var html := hasType && libs.isHtml(up.contentType.value);
    match Classify(ok, hasType, html, ok && up.location.Some?)
    case NotFound => NotFoundState(start)
    case RedirectToClone =>
      var s := start.(statusCode := up.status, statusMessage := Some(up.statusText));
      s.(statusCode := 302, headers := s.headers["Location" := cloneURL], finished := true)
    case RewriteLocation =>
      LocationResponse(libs, cfg, req, up.location.value,
                       start.(statusCode := up.status, statusMessage := Some(up.statusText)))
    case RenderHtml =>
      RenderedResponse(libs, cfg, urls, cloneURL, up, doc,
                       start.(statusCode := up.status, statusMessage := Some(up.statusText)))
  }

  /** The response once an HTML reply with location `loc` has arrived: `loc` moved onto
      `fullURL(req, '')`, or 404 when that throws (src/index.js:117-129, 173-177). */
  function LocationResponse(libs: Libraries, cfg: Config, req: Request, loc: string, s: ResponseState): ResponseState
  {
    match FullURL(libs.url, req.protocol, req.hostname, cfg.extPort, "")
    case None => NotFoundState(s)
    case Some(root) => s.(headers := s.headers["Location" := RewriteURLRelativeTo(libs.url, loc, root)], finished := true)
  }

  /** The response once an HTML page without `Location` has arrived: 404 when its body cannot be
      read, else the page rendered (src/index.js:131-177). */
  function RenderedResponse(libs: Libraries, cfg: Config, urls: PublicUrls, cloneURL: string,
                            up: Upstream, doc: DocValue, s: ResponseState): ResponseState
    requires up.Reply?
  {
    if !up.bodyReadable then NotFoundState(s)
    else s.(locals := Some(PageLocals(libs, cfg, urls, cloneURL, doc)), finished := true)
  }

  // ---------------------------------------------------------------------------------------
  // The handler.

  /** The document's current content as values. */
  function Snapshot(doc: Document): DocValue
    reads doc, set e | e in doc.head
  {
    DocValue(Values(doc.head), doc.body)
  }

  /** The title and the og:title and og:description metas of <head> (src/index.js:134-141,
      159-164). */
  method HeadMeta(doc: Document)
    returns (title: string, metaTitle: Option<string>, metaDescription: Option<string>)
    ensures var metaVals := MetaMap(SelectTag(Values(doc.head), "meta"));
            metaTitle == MetaGet(metaVals, "og:title") && metaDescription == MetaGet(metaVals, "og:description")
    ensures title == TextContent(SelectTag(Values(doc.head), "title"))
  {
    var metas := doc.Select("meta");
    SelectFromValues(doc.head, "meta");
    var metaVals := CollectMeta(metas);
    metaTitle, metaDescription := MetaGet(metaVals, "og:title"), MetaGet(metaVals, "og:description");
    var titles := doc.Select("title");
    SelectFromValues(doc.head, "title");
    title := TextContent(Values(titles));
  }

  /** The link and style lines of <head>, joined (src/index.js:142-155). Rewrites the links'
      href. */
  method HeadLines(libs: Libraries, cfg: Config, doc: Document) returns (headers: string)
    requires doc.Valid()
    modifies set e | e in doc.head
    ensures headers == Join(LinkLines(libs.url, libs.html, SelectTag(old(Values(doc.head)), "link"), cfg.cloneBaseURL)
                            + StyleLines(libs.url, libs.html, SelectTag(old(Values(doc.head)), "style"), cfg.cloneBaseURL), "\n")
    ensures LinksAbsolutised(libs.url, doc.head, old(HeadAttribs(doc.head)), cfg.cloneBaseURL)
  {
    var links := doc.Select("link");
    var styles := doc.Select("style");
    var lines := CollectFromHead(libs.url, libs.html, doc.head, links, styles, cfg.cloneBaseURL);
    headers := Join(lines, "\n");
  }

  /** The locals rendered for an HTML page (src/index.js:134-171). Removes <body>'s scripts. */
  method BuildLocals(libs: Libraries, cfg: Config, urls: PublicUrls, cloneURL: string, doc: Document)
    returns (l: Locals)
    requires doc.Valid()
    modifies doc, set e | e in doc.head
    ensures l == PageLocals(libs, cfg, urls, cloneURL, old(Snapshot(doc)))
    ensures doc.head == old(doc.head) && doc.body == RemoveScripts(old(doc.body))
    ensures LinksAbsolutised(libs.url, doc.head, old(HeadAttribs(doc.head)), cfg.cloneBaseURL)
  {
    var title, metaTitle, metaDescription := HeadMeta(doc);
    var headers := HeadLines(libs, cfg, doc);
    var pageInfo := PageInfo(cfg.cloneBaseURL, urls.baseURL, urls.pageURL, title, metaTitle, metaDescription);
    doc.RemoveBodyScripts();
    l := Locals(pageInfo, cloneURL, headers, libs.html.innerHtml(doc.body));
  }

  /** Whether the handler renders the page for `up`: an HTML reply without `Location` whose
      body is read. */
  predicate Renders(libs: Libraries, up: Upstream)
  {
    var ok := up.Reply?;
    var hasType := ok && up.contentType.Some?;
    var html := hasType && libs.isHtml(up.contentType.value);
    Classify(ok, hasType, html, ok && up.location.Some?) == RenderHtml && up.bodyReadable
  }

  /** `app.get('*', …)` (src/index.js:102-178). `fetch` is the upstream fetch; `doc` is what
      `cheerio.load` makes of the reply's body. Returns the request sent upstream. */
  method HandleGet(libs: Libraries, cfg: Config, req: Request, urls: PublicUrls,
                   fetch: FetchRequest -> Upstream, doc: Document, res: Response)
    returns (sent: FetchRequest)
    requires doc.Valid()
    modifies res, doc, set e | e in doc.head
    ensures sent == MdnRequest(req.headers, CloneURL(cfg.cloneBaseURL, req.originalUrl))
    ensures res.State() == Respond(libs, cfg, req, urls, fetch(sent), old(Snapshot(doc)), old(res.State()))
    ensures doc.head == old(doc.head)
    ensures Renders(libs, fetch(sent)) ==> doc.body == RemoveScripts(old(doc.body))
    ensures Renders(libs, fetch(sent)) ==> LinksAbsolutised(libs.url, doc.head, old(HeadAttribs(doc.head)), cfg.cloneBaseURL)
    ensures !Renders(libs, fetch(sent)) ==> unchanged(doc) && unchanged(set e | e in doc.head)
  {
    var cloneURL := CloneURL(cfg.cloneBaseURL, req.originalUrl);
    sent := MdnRequest(req.headers, cloneURL);
    var up := fetch(sent);
    if up.TransportFailure? {
      res.SendNotFound();
    } else {
      HandleReply(libs, cfg, req, urls, up, doc, res);
    }
  }

  /** The handler from the moment a reply has arrived (src/index.js:108-177). */
  method HandleReply(libs: Libraries, cfg: Config, req: Request, urls: PublicUrls,
                     up: Upstream, doc: Document, res: Response)
    requires up.Reply? && doc.Valid()
    modifies res, doc, set e | e in doc.head
    ensures res.State() == Respond(libs, cfg, req, urls, up, old(Snapshot(doc)), old(res.State()))
    ensures doc.head == old(doc.head)
    ensures Renders(libs, up) ==> doc.body == RemoveScripts(old(doc.body))
    ensures Renders(libs, up) ==> LinksAbsolutised(libs.url, doc.head, old(HeadAttribs(doc.head)), cfg.cloneBaseURL)
    ensures !Renders(libs, up) ==> unchanged(doc) && unchanged(set e | e in doc.head)
  {
    var cloneURL := CloneURL(cfg.cloneBaseURL, req.originalUrl);
    res.SetStatus(up.status, up.statusText);
    if up.contentType.None? || !libs.isHtml(up.contentType.value) {
      res.Redirect(cloneURL);
    } else if up.location.Some? {
      PassOnLocation(libs, cfg, req, up.location.value, res);
    } else {
      RenderReply(libs, cfg, urls, cloneURL, up, doc, res);
    }
  }

  /** The handler once an HTML reply with location `loc` has arrived (src/index.js:117-129):
      the location moved onto the proxy's root, or 404 when `fullURL(req, '')` throws. */
  method PassOnLocation(libs: Libraries, cfg: Config, req: Request, loc: string, res: Response)
    modifies res
    ensures res.State() == LocationResponse(libs, cfg, req, loc, old(res.State()))
  {
    var root := FullURL(libs.url, req.protocol, req.hostname, cfg.extPort, "");
    if root.None? {
      res.SendNotFound();
    } else {
      var locationURL := RewriteURLRelativeTo(libs.url, loc, root.value);
      res.SetHeader("Location", locationURL);
      res.End();
    }
  }

  /** The handler once an HTML page without `Location` has arrived (src/index.js:131-177):
      404 when the body cannot be read, else the page rendered. */
  method RenderReply(libs: Libraries, cfg: Config, urls: PublicUrls, cloneURL: string,
                     up: Upstream, doc: Document, res: Response)
    requires up.Reply? && doc.Valid()
    modifies res, doc, set e | e in doc.head
    ensures res.State() == RenderedResponse(libs, cfg, urls, cloneURL, up, old(Snapshot(doc)), old(res.State()))
    ensures doc.head == old(doc.head)
    ensures up.bodyReadable ==> doc.body == RemoveScripts(old(doc.body))
    ensures up.bodyReadable ==> LinksAbsolutised(libs.url, doc.head, old(HeadAttribs(doc.head)), cfg.cloneBaseURL)
    ensures !up.bodyReadable ==> unchanged(doc) && unchanged(set e | e in doc.head)
  {
    if !up.bodyReadable {
      res.SendNotFound();
    } else {
      var l := BuildLocals(libs, cfg, urls, cloneURL, doc);
      res.Render(l);
    }
  }

  // ---------------------------------------------------------------------------------------
  // What the response is, outcome by outcome.

  /** A failed fetch ends in `404 Not Found`; the status message is left as it was. */
  lemma TransportFailureIsNotFound(libs: Libraries, cfg: Config, req: Request, urls: PublicUrls,
                                   doc: DocValue, start: ResponseState)
    ensures var r := Respond(libs, cfg, req, urls, TransportFailure, doc, start);
      r.statusCode == 404 && r.body == Some(NotFoundText) && r.statusMessage == start.statusMessage
      && r.headers == start.headers && r.locals == start.locals && r.finished
  {
  }

  /** A reply that is not HTML redirects to the upstream URL, even when it carries a
      `Location`, and keeps the upstream reason phrase. */
  lemma NonHtmlRedirectsToClone(libs: Libraries, cfg: Config, req: Request, urls: PublicUrls,
                                up: Upstream, doc: DocValue, start: ResponseState)
    requires up.Reply? && (up.contentType.None? || !libs.isHtml(up.contentType.value))
    ensures var r := Respond(libs, cfg, req, urls, up, doc, start);
      r.statusCode == 302 && r.statusMessage == Some(up.statusText)
      && r.headers == start.headers["Location" := cfg.cloneBaseURL + PrefixSlash(req.originalUrl)]
      && r.body == start.body && r.locals == start.locals && r.finished
  {
  }

  /** An HTML reply with a `Location` keeps the upstream status and passes the location on,
      moved onto the proxy's root; nothing is rendered. */
  lemma HtmlLocationRewritten(libs: Libraries, cfg: Config, req: Request, urls: PublicUrls,
                              up: Upstream, doc: DocValue, start: ResponseState, root: string)
    requires up.Reply? && up.contentType.Some? && libs.isHtml(up.contentType.value) && up.location.Some?
    requires FullURL(libs.url, req.protocol, req.hostname, cfg.extPort, "") == Some(root)
    ensures var r := Respond(libs, cfg, req, urls, up, doc, start);
      r.statusCode == up.status && r.statusMessage == Some(up.statusText)
      && r.headers == start.headers["Location" := RewriteURLRelativeTo(libs.url, up.location.value, root)]
      && r.body == start.body && r.locals == start.locals && r.finished
  {
  }

  /** A `location` header value that does not parse on its own sends the client to the proxy's
      root. For a 301, 302, 303, 307 or 308 reply node-fetch has already resolved the header
      against the request URL, so this is the case of a relative `Location` on any other reply,
      or of a value that cannot be resolved. */
  lemma RelativeLocationGoesToRoot(libs: Libraries, cfg: Config, req: Request, urls: PublicUrls,
                                   up: Upstream, doc: DocValue, start: ResponseState, root: string)
    requires up.Reply? && up.contentType.Some? && libs.isHtml(up.contentType.value) && up.location.Some?
    requires FullURL(libs.url, req.protocol, req.hostname, cfg.extPort, "") == Some(root)
    requires libs.url.parse(up.location.value, None).None?
    ensures Respond(libs, cfg, req, urls, up, doc, start).headers["Location"] == root
  {
  }

  /** An absolute `Location` keeps its path, query and fragment and takes the root's scheme,
      host, port and credentials. */
  lemma AbsoluteLocationKeepsResource(libs: Libraries, cfg: Config, req: Request, urls: PublicUrls,
                                      up: Upstream, doc: DocValue, start: ResponseState, root: string)
    requires up.Reply? && up.contentType.Some? && libs.isHtml(up.contentType.value) && up.location.Some?
    requires FullURL(libs.url, req.protocol, req.hostname, cfg.extPort, "") == Some(root)
    requires libs.url.parse(up.location.value, None).Some? && libs.url.parse(root, None).Some?
    ensures exists v ::
              (Respond(libs, cfg, req, urls, up, doc, start).headers["Location"] == libs.url.serialize(v)
               && SameOriginAndCredentials(v, libs.url.parse(root, None).value)
               && SameResource(v, libs.url.parse(up.location.value, None).value))
  {
  }

  /** An HTML reply without `Location` whose body is read is rendered with the status the
      handler sets from upstream's (what Express's `send` does after that is left out). */
  lemma HtmlPageRendered(libs: Libraries, cfg: Config, req: Request, urls: PublicUrls,
                         up: Upstream, doc: DocValue, start: ResponseState)
    requires up.Reply? && up.contentType.Some? && libs.isHtml(up.contentType.value) && up.location.None?
    requires up.bodyReadable
    ensures var r := Respond(libs, cfg, req, urls, up, doc, start);
      r.statusCode == up.status && r.statusMessage == Some(up.statusText)
      && r.headers == start.headers && r.body == start.body && r.finished
      && r.locals == Some(PageLocals(libs, cfg, urls, cfg.cloneBaseURL + PrefixSlash(req.originalUrl), doc))
  {
  }

  /** End to end: with the URLs the first middleware computes, a rendered page's `pageURL` is
      the proxy's public address of the inbound path: the request's protocol and host, the
      external port and the inbound path. */
  lemma RenderedPageUrlOnProxyOrigin(libs: Libraries, cfg: Config, req: Request, up: Upstream,
                                     doc: DocValue, start: ResponseState)
    requires PublicUrlsOf(libs.url, cfg, req).Some?
    requires up.Reply? && up.contentType.Some? && libs.isHtml(up.contentType.value) && up.location.None?
    requires up.bodyReadable
    ensures Respond(libs, cfg, req, PublicUrlsOf(libs.url, cfg, req).value, up, doc, start).locals.Some?
    ensures exists v ::
              (Respond(libs, cfg, req, PublicUrlsOf(libs.url, cfg, req).value, up, doc, start).locals.value.pageInfo.pageURL
                 == libs.url.serialize(v)
               && v.protocol == req.protocol && v.hostname == req.hostname && v.port == IntToString(cfg.extPort)
               && v.pathname == libs.url.parse(req.originalUrl, Some(LocalBase)).value.pathname)
  {
    HtmlPageRendered(libs, cfg, req, PublicUrlsOf(libs.url, cfg, req).value, up, doc, start);
    PageUrlOnProxyOrigin(libs.url, cfg, req);
  }

  /** Every path ends the response; a reply's reason phrase is always passed on. */
  lemma EveryPathFinishes(libs: Libraries, cfg: Config, req: Request, urls: PublicUrls,
                          up: Upstream, doc: DocValue, start: ResponseState)
    ensures var r := Respond(libs, cfg, req, urls, up, doc, start);
      r.finished && (up.Reply? ==> r.statusMessage == Some(up.statusText))
      && (up.TransportFailure? ==> r.statusMessage == start.statusMessage)
  {
  }

  // ---------------------------------------------------------------------------------------
  // What a rendered page holds.

  /** The rendered body holds no script at any depth, and everything outside the scripts is
      kept in document order. */
  lemma PageBodyHasNoScripts(libs: Libraries, cfg: Config, urls: PublicUrls, cloneURL: string, doc: DocValue)
    ensures exists nodes ::
              (PageLocals(libs, cfg, urls, cloneURL, doc).bodyContent == libs.html.innerHtml(nodes)
               && NoScripts(nodes) && Labels(nodes) == LabelsOutsideScripts(doc.body))
  {
    RemoveScriptsLeavesNone(doc.body);
    RemoveScriptsKeepsOrder(doc.body);
    assert PageLocals(libs, cfg, urls, cloneURL, doc).bodyContent == libs.html.innerHtml(RemoveScripts(doc.body));
  }

  /** `metaTitle` is the content of the last <meta> in <head> named or with property
      `og:title`. */
  lemma PageMetaTitleIsLast(libs: Libraries, cfg: Config, urls: PublicUrls, cloneURL: string, doc: DocValue, j: nat)
    requires var metas := SelectTag(doc.head, "meta");
      j < |metas| && MetaKey(metas[j]) == Some("og:title")
      && forall l :: j < l < |metas| ==> MetaKey(metas[l]) != Some("og:title")
    ensures PageLocals(libs, cfg, urls, cloneURL, doc).pageInfo.metaTitle
            == Attr(SelectTag(doc.head, "meta")[j], "content")
  {
    MetaLookupIsLast(SelectTag(doc.head, "meta"), "og:title", j);
  }

  /** Without such a <meta> there is no `metaTitle`; with one, it is some <meta>'s content. */
  lemma PageMetaTitleFromSomeMeta(libs: Libraries, cfg: Config, urls: PublicUrls, cloneURL: string, doc: DocValue)
    ensures PageLocals(libs, cfg, urls, cloneURL, doc).pageInfo.metaTitle.Some? ==>
      exists j :: 0 <= j < |SelectTag(doc.head, "meta")| && MetaKey(SelectTag(doc.head, "meta")[j]) == Some("og:title")
                  && Attr(SelectTag(doc.head, "meta")[j], "content") == PageLocals(libs, cfg, urls, cloneURL, doc).pageInfo.metaTitle
    ensures (forall j :: 0 <= j < |SelectTag(doc.head, "meta")| ==> MetaKey(SelectTag(doc.head, "meta")[j]) != Some("og:title"))
      ==> PageLocals(libs, cfg, urls, cloneURL, doc).pageInfo.metaTitle.None?
  {
    MetaLookupFromSomeMeta(SelectTag(doc.head, "meta"), "og:title");
  }

  /** `metaDescription` is the content of the last <meta> in <head> named or with property
      `og:description`. */
  lemma PageMetaDescriptionIsLast(libs: Libraries, cfg: Config, urls: PublicUrls, cloneURL: string, doc: DocValue, j: nat)
    requires var metas := SelectTag(doc.head, "meta");
      j < |metas| && MetaKey(metas[j]) == Some("og:description")
      && forall l :: j < l < |metas| ==> MetaKey(metas[l]) != Some("og:description")
    ensures PageLocals(libs, cfg, urls, cloneURL, doc).pageInfo.metaDescription
            == Attr(SelectTag(doc.head, "meta")[j], "content")
  {
    MetaLookupIsLast(SelectTag(doc.head, "meta"), "og:description", j);
  }

  /** Without such a <meta> there is no `metaDescription`; with one, it is some <meta>'s
      content. */
  lemma PageMetaDescriptionFromSomeMeta(libs: Libraries, cfg: Config, urls: PublicUrls, cloneURL: string, doc: DocValue)
    ensures PageLocals(libs, cfg, urls, cloneURL, doc).pageInfo.metaDescription.Some? ==>
      exists j :: 0 <= j < |SelectTag(doc.head, "meta")| && MetaKey(SelectTag(doc.head, "meta")[j]) == Some("og:description")
                  && Attr(SelectTag(doc.head, "meta")[j], "content") == PageLocals(libs, cfg, urls, cloneURL, doc).pageInfo.metaDescription
    ensures (forall j :: 0 <= j < |SelectTag(doc.head, "meta")| ==> MetaKey(SelectTag(doc.head, "meta")[j]) != Some("og:description"))
      ==> PageLocals(libs, cfg, urls, cloneURL, doc).pageInfo.metaDescription.None?
  {
    MetaLookupFromSomeMeta(SelectTag(doc.head, "meta"), "og:description");
  }
}
