# RickDoc proxy core, in Dafny

RickDoc is an Express server that serves pages of an upstream documentation site
(`CLONE_URL`) under its own origin. For every `GET` it fetches the same path upstream and
then does one of four things:

- redirects the client to the upstream URL when the reply is not HTML;
- passes on an upstream redirect, with its `Location` moved onto the proxy's own origin;
- renders the page into the proxy's container template;
- answers `404 Not Found` when the fetch fails.

To render a page, it reads the `<meta>` tags and the title from `<head>`. It makes every
`<link href>` absolute. It rewrites every `url()` in `<style>` blocks to an absolute
single-quoted URL. It strips `<script>` elements from `<body>`.

This project models that core (all of it in `src/index.js`):

- `Options`: the `Option` type, used for JavaScript's `undefined` and for a call that throws.
- `Urls`: the WHATWG URL parser and serialiser as an abstract `UrlLib`, with URL setters as
  record updates. It holds `fullURL`, `relToAbsoluteURL` and `rewriteURLRelativeTo`, and the
  decimal rendering of the external port.
- `Paths`: `prefixSlash`, the upstream URL `cloneURL`, and the `/\/+$/` trim.
- `Outbound`: the upstream request `mdnRequest` builds, with its header defaults.
- `Css`: `rewriteCSS`. A scanner decides, at each position, whether the expression
  `url\s*\((?:([^)']*)|\s*'([^']*)'\s*)\)` matches there and what it captures. Both
  directions are proved: a reported match is text of one of the two alternatives, and text
  of either alternative is what the scanner reports. The global replace is then proved to
  keep unmatched text and to replace the leftmost match.
- `Page`: the loaded document. `Element` is a class whose `attribs` the link loop updates in
  place, and `Document` holds `<head>`'s elements and `<body>`'s children. There are three
  loops as methods, each proved against a function: the `<meta>` map, the link and style
  lines, and script removal. Lemmas about those functions state what the page keeps.
- `Handler`: the first middleware and the `GET *` handler.
  - `Response` is a class with the fields the handler sets.
  - `Classify` is the four-way decision.
  - `Respond` is the response each upstream reply leads to.
  - `HandleGet` runs the handler on a `Response` and a `Document` and is proved to leave
    exactly `Respond`'s response. `HandleReply` is its part after a reply has arrived, and
    `PassOnLocation` and `RenderReply` are the `Location` and page branches of that part.
    On every path that does not render the page, the document is left as it was.

Three behaviours of the code are easy to miss:

- The handler reads the `location` header as node-fetch hands it over. node-fetch resolves
  the `Location` of a 301, 302, 303, 307 or 308 reply against the request URL, so `/new-page`
  arrives as `CLONE_URL/new-page` and is moved onto the proxy's origin with its path. A header
  value that does not parse on its own, such as a relative `Location` on any other reply
  (a 300, 304 or 305 among them), sends the client to the proxy's root (`Handler.RelativeLocationGoesToRoot`).
- The head lines are all the link lines first, then all the style lines. Links and styles
  are not interleaved in document order. See `Page.LinkLinesComeFirst` and `Page.StyleLinesComeLast`.
- The upstream reason phrase is kept on every path that got a reply, including the 302
  redirect and the 404 for an unreadable body.

A double-quoted CSS reference such as `url("a.png")` is captured with its quotes by the
unquoted alternative (`Css.DoubleQuotesCaptured`). The text handed to the URL parser then
includes the quotes. What the parser makes of them is up to the abstract `UrlLib`.

## Model

| member | source | states |
|---|---|---|
| Urls.FullURL | src/index.js:15-21 | defined exactly when the path resolves against http://localhost; the result is the resolved URL with the request's protocol and hostname and the external port, keeping path, query, fragment and credentials |
| Urls.IntToString | src/index.js:19 | `String(extPort)`: the decimal text of the number, non-empty, without a leading zero except for 0 itself, its digits reading back as the number; a negative number has one leading minus before such digits |
| Urls.NatToStringValue | src/index.js:19 | the decimal text set as the port reads back as the port number |
| Urls.RelToAbsoluteURL | src/index.js:23-29 | the URL resolved against the base and serialised; the input unchanged when resolving throws |
| Urls.RewriteURLRelativeTo | src/index.js:31-44 | when both parse on their own: a URL with the base's scheme, host, port and credentials and the rewritten URL's path, query and fragment; otherwise the base itself |
| Urls.RewriteNeverLeavesBaseHost | src/index.js:31-44 | the result is the base or a URL on the base's host, never on another host |
| Paths.PrefixSlash | src/index.js:54 | the result starts with '/'; a path that already does is returned as is, any other gets one '/' in front |
| Paths.PrefixSlashIdempotent | src/index.js:54 | prefixing twice equals prefixing once |
| Paths.PrefixSlashTail | src/index.js:54 | after the first '/', the prefixed path is the original path less its own leading '/' |
| Paths.CloneURL | src/index.js:103 | the upstream base, then '/', then the path, with exactly one '/' between them when the path starts with one |
| Paths.StripTrailingSlashes | src/index.js:81 | a prefix of the input, with only '/' removed, that is empty or does not end in '/' |
| Paths.StripTrailingSlashesIdempotent | src/index.js:81 | trimming twice equals trimming once |
| Outbound.MdnRequest | src/index.js:56-67 | GET, manual redirects, DNT 1; Accept, Accept-Language and User-Agent forwarded when the client sent them non-empty, otherwise the fixed defaults; no header ever empty |
| Outbound.MdnRequestDependsOnlyOnForwarded | src/index.js:60-66 | clients that agree on the three forwarded values produce the same upstream request |
| Outbound.HeaderOr | src/index.js:61-65 | a header the client sent non-empty is read as sent; a missing or empty one gives the default |
| Css.MatchAtSound | src/index.js:47 | every reported match is text of the unquoted or the quoted alternative, with the reported capture |
| Css.MatchAtUnquotedComplete | src/index.js:47 | text of the unquoted alternative is reported with its body as the capture and its end |
| Css.MatchAtQuotedComplete | src/index.js:47 | text of the quoted alternative is reported with the text between the quotes as the capture |
| Css.MatchAt | src/index.js:47 | a match reported at a position ends after it and within the text; what it matched and captured is stated by MatchAtSound and the two Complete lemmas |
| Css.RewriteCopiesUnmatched | src/index.js:46-50 | text in which no match starts is copied unchanged |
| Css.RewriteCSS | src/index.js:46-50 | the global replace of the url() expression; its meaning is stated by RewriteCopiesUnmatched, RewriteAtFirstMatch, RewriteSoleMatch, RewriteWithoutMatchIsIdentity and RewriteWithoutUrlIsIdentity |
| Css.ReplaceFrom | src/index.js:46-50 | the global replace from a position on; stated by ReplaceCopiesUnmatched, RewriteCopiesUnmatched and RewriteAtFirstMatch |
| Css.Replacement | src/index.js:48-49 | the replacer's text url('…') around the reference made absolute; RewriteAtFirstMatch and RewriteSoleMatch put it in place of each match |
| Css.RewriteAtFirstMatch | src/index.js:46-50 | the text before the leftmost match is kept, the match becomes url('absolute') and the replace resumes after it |
| Css.RewriteWithoutMatchIsIdentity | src/index.js:46-50 | CSS with no match comes back unchanged |
| Css.RewriteWithoutUrlIsIdentity | src/index.js:46-50 | CSS that never contains "url" comes back unchanged |
| Css.UnquotedReferenceRewritten | src/index.js:47-49 | background: url(/img/a.png) becomes background: url('<absolute URL>') |
| Css.MalformedReferenceKept | src/index.js:47 | url(a'b) matches neither alternative and is kept |
| Css.DoubleQuotesCaptured | src/index.js:47-49 | url("a.png") is matched by the unquoted alternative with the double quotes in the capture |
| Page.MetaKey | src/index.js:136-140 | a meta is stored under its name when truthy, else its property when truthy, else skipped |
| Page.MetaMap | src/index.js:134-141 | the map the meta loop builds; stated by MetaMapKeys, MetaMapLastWins and CollectMeta |
| Page.MetaStep | src/index.js:136-140 | one turn of the meta loop on the map; MetaMapSnoc ties MetaMap to it and StoreMeta is proved to compute it |
| Page.MetaMapKeys | src/index.js:134-141 | a key is in the meta map if and only if some meta is stored under it |
| Page.MetaMapLastWins | src/index.js:134-141 | the last meta stored under a key decides that key's content |
| Page.MetaGet | src/index.js:163-164 | a key in the map yields its stored value (undefined included); a key not in it yields undefined |
| Page.MetaLookupIsLast | src/index.js:134-141 | the lookup of a key after the meta loop is the content of the last meta stored under it |
| Page.MetaLookupFromSomeMeta | src/index.js:134-141 | without a meta stored under a key its lookup is undefined; a value found is the content of some meta stored under it |
| Page.CollectMeta | src/index.js:134-141 | the loop builds the meta map of the selected elements |
| Page.StoreMeta | src/index.js:136-140 | one turn of the meta loop: the map after storing the meta under its name, else its property, else unchanged (MetaStep) |
| Page.TextContentIsTextInOrder | src/index.js:142 | the title text is every text node of the selected titles, at any depth, joined in document order |
| Page.TextContent | src/index.js:142 | `.text()` of the selected titles; TextContentIsTextInOrder states it as every text node at any depth, in document order |
| Page.Absolutised | src/index.js:147-148 | the link with only its href replaced by the absolute URL |
| Page.LinkAttribsAfter | src/index.js:147-148 | a truthy href is made absolute; other attributes, and links without href, are unchanged |
| Page.LinkLinesAreHrefLinks | src/index.js:146-151 | one line per link with a truthy href, in order, each the serialised absolutised link |
| Page.StyleLinesAreStyles | src/index.js:152-155 | one line per style, in order, each the style's markup with its url()s rewritten |
| Page.LinkLinesComeFirst | src/index.js:144-151 | the header lines start with one line per href-bearing link, in order, each the serialised absolutised link |
| Page.StyleLinesComeLast | src/index.js:144-155 | after all the link lines come the style lines, one per style in order, and nothing else |
| Page.CollectLinkLines | src/index.js:146-151 | the loop yields the link lines of the elements as they were, and rewrites each link's href in place |
| Page.AbsolutiseLink | src/index.js:147-149 | one turn of the link loop: a link's attributes become LinkAttribsAfter of the old ones, and its serialised absolutised markup is the line pushed exactly when it had an href |
| Page.CollectStyleLines | src/index.js:152-155 | the loop yields the style lines of the style elements |
| Page.CollectHeaderLines | src/index.js:144-155 | the link lines then the style lines, with the links' href rewritten |
| Page.CollectFromHead | src/index.js:144-155 | from the selected links and styles of head: the link then style lines of head as it was, and afterwards every link of head has a truthy href made absolute while every other element keeps its attributes |
| Page.JoinAppend | src/index.js:168 | joining two non-empty runs of lines is joining each with one separator between; with Join's empty and one-line cases, the lines in order joined by the separator |
| Page.Join | src/index.js:168 | no lines join to the empty text and one line to itself; the joined text is as long as all lines together plus one separator between each two neighbours; JoinAppend gives the rest |
| Page.SelectTag | src/index.js:135 | every selected node is an element with the selected tag |
| Page.SelectTagExactly | src/index.js:135 | a node is selected if and only if it is in the document and an element with that tag |
| Page.SelectFromValues | src/index.js:135 | selecting element objects and then reading them equals reading them and then selecting |
| Page.SelectFrom | src/index.js:135-152 | every selected object is one of the elements and has the tag; SelectFromHas gives the converse and SelectFromValues ties it to SelectTag |
| Page.SelectFromHas | src/index.js:135-152 | every element with the tag is selected |
| Page.LinkLines | src/index.js:146-151 | the lines the link loop pushes; stated by LinkLinesAreHrefLinks, LinkLinesComeFirst and CollectLinkLines |
| Page.StyleLines | src/index.js:152-155 | the lines the style loop pushes; stated by StyleLinesAreStyles, StyleLinesComeLast and CollectStyleLines |
| Page.RemoveScripts | src/index.js:170 | the body without its scripts; stated by RemoveScriptsLeavesNone, RemoveScriptsKeepsScriptFree, RemoveScriptsIdempotent and RemoveScriptsKeepsOrder |
| Page.Pruned | src/index.js:170 | one node with its scripts removed, a script itself giving nothing; the RemoveScripts lemmas are proved through it |
| Page.Document.Select | src/index.js:135-152 | `$(tag)` over the head: every selected object is a head element with the tag, as SelectFrom states; SelectFromHas gives the converse |
| Page.RemoveScriptsLeavesNone | src/index.js:170 | after removal there is no script at any depth |
| Page.RemoveScriptsKeepsScriptFree | src/index.js:170 | a body without scripts is left as it is |
| Page.RemoveScriptsIdempotent | src/index.js:170 | removing twice equals removing once |
| Page.RemoveScriptsKeepsOrder | src/index.js:170 | every node outside the scripts survives, in document order |
| Page.Document.RemoveBodyScripts | src/index.js:170 | the body becomes the body with all scripts removed; the head is unchanged |
| Handler.PublicUrlsOf | src/index.js:79-81 | the page URL is fullURL of the original URL; the base URL is fullURL of the mount path without trailing '/'; defined exactly when both are |
| Handler.PageUrlOnProxyOrigin | src/index.js:79 | the page URL has the request's protocol and host, the external port and the inbound path |
| Handler.Prepare | src/index.js:76-84 | sets Cache-Control to public, max-age=86400 and computes the public URLs |
| Handler.Response.SetStatus | src/index.js:108-109 | status code and reason phrase become upstream's, nothing else changes |
| Handler.Response.SetHeader | src/index.js:127 | the header is set to the value and nothing else changes; Prepare uses it for line 77 |
| Handler.Response.End | src/index.js:128 | the response is marked finished and nothing else changes |
| Handler.Response.Redirect | src/index.js:115 | status 302 and the Location header; reason phrase unchanged |
| Handler.Response.SendNotFound | src/index.js:176 | status 404 with body Not Found; reason phrase unchanged |
| Handler.Response.Render | src/index.js:172 | the response is rendered with the given locals and finished; the status as the handler set it and the headers are kept |
| Handler.Classify | src/index.js:106-131 | each outcome exactly when its condition holds: 404 when the fetch fails, a redirect to upstream when there is no HTML content type, a Location rewrite for HTML with a Location, otherwise a render |
| Handler.Respond | src/index.js:102-178 | the response the handler leaves; its outcomes are stated by TransportFailureIsNotFound, NonHtmlRedirectsToClone, HtmlLocationRewritten, HtmlPageRendered and EveryPathFinishes |
| Handler.NotFoundState | src/index.js:176 | 404 with body Not Found, finished; stated by TransportFailureIsNotFound and SendNotFound |
| Handler.LocationResponse | src/index.js:117-129 | the response for an HTML reply with a Location; stated by HtmlLocationRewritten, RelativeLocationGoesToRoot, AbsoluteLocationKeepsResource and PassOnLocation |
| Handler.RenderedResponse | src/index.js:131-177 | the response for an HTML reply without a Location; stated by HtmlPageRendered and RenderReply |
| Handler.PageLocals | src/index.js:134-171 | the locals of a rendered page; stated by PageBodyHasNoScripts, PageMetaTitleIsLast, PageMetaTitleFromSomeMeta and the two PageMetaDescription lemmas |
| Handler.HeadMeta | src/index.js:134-142 | the title text and the og:title and og:description values of the meta map of head |
| Handler.HeadLines | src/index.js:144-155 | the joined link then style lines of head, computed from the elements as they were; afterwards every head link's attributes have a truthy href made absolute and every other head element's attributes are as they were |
| Handler.BuildLocals | src/index.js:134-171 | the locals of the page as loaded; body scripts removed; head elements unchanged in number and order, links with their href made absolute, every other element's attributes kept |
| Handler.HandleGet | src/index.js:102-178 | sends the mdnRequest for the clone URL and leaves exactly the response the reply, the loaded page and the prior response determine; when the page is rendered, body scripts are removed and head links absolutised; on every other path the document is left as it was |
| Handler.HandleReply | src/index.js:108-177 | once a reply has arrived, leaves exactly the response the reply, the loaded page and the prior response determine; when the page is rendered, body scripts are removed and head links absolutised; on every other path the document is left as it was |
| Handler.PassOnLocation | src/index.js:117-129 | the upstream location moved onto the proxy's root becomes the Location and the response ends; 404 when the root URL throws; nothing else in the response changes |
| Handler.RenderReply | src/index.js:131-177 | 404 with the document untouched when the body cannot be read; otherwise the page's locals are rendered, body scripts removed and head links made absolute |
| Handler.TransportFailureIsNotFound | src/index.js:173-177 | a failed fetch gives 404 Not Found with headers, locals and reason phrase unchanged |
| Handler.NonHtmlRedirectsToClone | src/index.js:111-116 | a reply without an HTML content type redirects to the clone URL with 302, even with a Location, keeping upstream's reason phrase |
| Handler.HtmlLocationRewritten | src/index.js:117-129 | an HTML reply with a Location keeps upstream's status, sets the rewritten Location against the proxy root and renders nothing |
| Handler.RelativeLocationGoesToRoot | src/index.js:125 | a Location that does not parse on its own becomes the proxy's root |
| Handler.AbsoluteLocationKeepsResource | src/index.js:125 | an absolute Location keeps its path, query and fragment on the proxy root's origin |
| Handler.HtmlPageRendered | src/index.js:131-172 | an HTML reply without a Location is rendered with the page's locals; the status as the handler sets it is upstream's, and the handler sets no header of its own |
| Handler.RenderedPageUrlOnProxyOrigin | src/index.js:79-172 | with the public URLs the handler computes, a rendered page's pageURL has the request's protocol and host, the external port and the inbound path |
| Handler.EveryPathFinishes | src/index.js:106-177 | every path ends the response; a reply's reason phrase is always passed on, a failed fetch's left unchanged |
| Handler.PageBodyHasNoScripts | src/index.js:170-171 | the rendered body is HTML of nodes with no script, holding everything outside the scripts in order |
| Handler.PageMetaTitleIsLast | src/index.js:134-163 | metaTitle is the content of the last meta in head stored under og:title |
| Handler.PageMetaTitleFromSomeMeta | src/index.js:163 | without a meta stored under og:title there is no metaTitle; any metaTitle is some such meta's content |
| Handler.PageMetaDescriptionIsLast | src/index.js:134-164 | metaDescription is the content of the last meta in head stored under og:description |
| Handler.PageMetaDescriptionFromSomeMeta | src/index.js:164 | without a meta stored under og:description there is no metaDescription; any metaDescription is some such meta's content |

## Left out

- The URL parser, its setters and its serialiser are the abstract `UrlLib`. Percent-encoding,
  default-port elision and rejection of invalid setter values are not modelled. `Url.protocol`
  holds the scheme without its ':'.
- HTML parsing and serialisation (cheerio's `html()` of an element and of `<body>`) are the
  abstract `HtmlLib`. `typeis.is(type, 'text/html')` is the abstract `isHtml`.
- Page.Document: `<head>` is held as the flat list of its elements in document order. A
  link's rewritten `href` is therefore not reflected in the markup of an element that
  contains it.
- Handler.HandleGet: the upstream fetch is the parameter `fetch`, and reading the body is the
  reply's `bodyReadable`. Asynchrony, timeouts and logging are not modelled.
- Handler.HandleGet: node-fetch's resolution of a redirect's `Location` against the request
  URL is not modelled. The reply's `location` is the header value as the handler reads it at
  src/index.js line 125, already resolved where node-fetch resolves it.
- Handler.HandleGet: a template failure inside `res.render` is not modelled.
- Handler.Response.Redirect: the body Express writes and the percent-encoding it applies to
  the URL are not modelled. Neither are the Content-Type, Content-Length and `Vary: Accept`
  headers it sets through `res.format`.
- Handler.Response.SendNotFound: the Content-Type, Content-Length and weak ETag that Express's
  `send` adds are not modelled. Neither is its answer to a fresh conditional request: when
  `req.fresh` holds, `send` replaces the status with 304 and drops the body.
- Handler.Response.Render: `res.render` ends in Express's `send`, which is not modelled. It adds
  Content-Type, Content-Length and a weak ETag. On a fresh conditional request it sends 304
  with no body. That is a GET or HEAD whose `If-None-Match` matches, on a 2xx status. The
  model keeps the status and headers as the handler sets them, so `HtmlPageRendered` and
  `HandleGet` state the response before `send`.
- The routes `/robots.txt`, `/favicon.ico` and the non-GET fallback are not modelled. Neither
  are the error-handling middleware and the server start-up.
- Reading `PORT`, `EXT_PORT`, `CLONE_URL` and `TRUST_PROXY_IPS` from the environment is left
  out; `Config` carries the parsed values. A non-numeric `EXT_PORT` parses to NaN and renders
  as the port text "NaN". That case is outside the model, which takes the port as an integer.
- Css: JavaScript strings are UTF-16, while Dafny's `char` is a Unicode scalar value. No
  character class of the expression involves surrogates, so matching is the same.
- Entity decoding in cheerio's `.text()` of `<title>` is not modelled: the text nodes are
  taken as they are.
