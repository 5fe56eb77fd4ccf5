/**
 * The request the proxy sends upstream, `mdnRequest(headers, url)` (src/index.js:56-67).
 * The fetch itself is foreign code; the model builds the request it is given.
 */
module Outbound {

  const DefaultAccept: string := "text/html,application/xhtml+xml,application/xml;q=0.9,*/*;q=0.8"
  const DefaultAcceptLanguage: string := "en-US"
  const DefaultUserAgent: string := "Mozilla/5.0 (Windows NT 10.0; Win64; x64; rv:74.0) Gecko/20100101 Firefox/74.0"

  /** The options passed to `fetch`: method (`verb`), redirect mode and the four headers. */
  datatype FetchRequest = FetchRequest(url: string, verb: string, redirect: string,
                                       accept: string, acceptLanguage: string, dnt: string,
                                       userAgent: string)

  /** `headers[name]` is truthy: present and not the empty string. Node gives header names in
      lower case. */
  predicate Truthy(headers: map<string, string>, name: string)
  {
    name in headers && headers[name] != ""
  }

  /** `headers[name] ? headers[name] : default`. */
  function HeaderOr(headers: map<string, string>, name: string, default: string): (r: string)
    ensures Truthy(headers, name) ==> r == headers[name]
    ensures !Truthy(headers, name) ==> r == default
  {
    if name in headers && headers[name] != "" then headers[name] else default
  }

  /** `mdnRequest(headers, url)`: a GET that does not follow redirects, always with `DNT: 1`,
      forwarding each of Accept, Accept-Language and User-Agent that the client sent non-empty
      and putting the fixed default in its place otherwise. */
  function MdnRequest(headers: map<string, string>, url: string): (r: FetchRequest)
    ensures r.url == url && r.verb == "GET" && r.redirect == "manual" && r.dnt == "1"
    ensures r.accept == (if Truthy(headers, "accept") then headers["accept"] else DefaultAccept)
    ensures r.acceptLanguage == (if Truthy(headers, "accept-language") then headers["accept-language"] else DefaultAcceptLanguage)
    ensures r.userAgent == (if Truthy(headers, "user-agent") then headers["user-agent"] else DefaultUserAgent)
    // No outbound header is ever empty.
    ensures r.accept != "" && r.acceptLanguage != "" && r.userAgent != ""
  {
    FetchRequest(url, "GET", "manual",
                 HeaderOr(headers, "accept", DefaultAccept),
                 HeaderOr(headers, "accept-language", DefaultAcceptLanguage),
                 "1",
                 HeaderOr(headers, "user-agent", DefaultUserAgent))
  }

  /** The client's own headers change nothing but the three forwarded values: two clients that
      agree on those three produce the same outbound request. */
  lemma MdnRequestDependsOnlyOnForwarded(h1: map<string, string>, h2: map<string, string>, url: string)
    requires HeaderOr(h1, "accept", DefaultAccept) == HeaderOr(h2, "accept", DefaultAccept)
    requires HeaderOr(h1, "accept-language", DefaultAcceptLanguage) == HeaderOr(h2, "accept-language", DefaultAcceptLanguage)
    requires HeaderOr(h1, "user-agent", DefaultUserAgent) == HeaderOr(h2, "user-agent", DefaultUserAgent)
    ensures MdnRequest(h1, url) == MdnRequest(h2, url)
  {
  }
}
