/**
 * The URL helpers of the proxy: `fullURL`, `relToAbsoluteURL` and `rewriteURLRelativeTo`
 * (src/index.js:15-44).
 *
 * The WHATWG URL parser and serialiser are foreign code: they are a parameter, a `UrlLib`, and
 * every property below holds for every such library. Assigning to a setter of a URL object is
 * modelled as replacing that field of the record.
 */
module Urls {
  import opened Options

  /** The components a WHATWG URL object exposes through its accessors. `protocol` holds the
      scheme without its trailing ':' (the setter accepts it with or without one). */
  datatype Url = Url(protocol: string, username: string, password: string,
                     hostname: string, port: string,
                     pathname: string, search: string, hash: string)

  /** `parse(s, Some(b))` is `new URL(s, b)`, `parse(s, None)` is `new URL(s)`; `None` means the
      constructor throws. `serialize(u)` is `u.toString()`. */
  datatype UrlLib = UrlLib(parse: (string, Option<string>) -> Option<Url>, serialize: Url -> string)

  /** The base `fullURL` resolves its path against. */
  const LocalBase: string := "http://localhost"

  /** `v` names the same resource as `u`: path, query and fragment agree. */
  predicate SameResource(v: Url, u: Url)
  {
    v.pathname == u.pathname && v.search == u.search && v.hash == u.hash
  }

  /** `v` carries the origin and the credentials of `o`. */
  predicate SameOriginAndCredentials(v: Url, o: Url)
  {
    v.protocol == o.protocol && v.hostname == o.hostname && v.port == o.port
    && v.username == o.username && v.password == o.password
  }

  // ---------------------------------------------------------------------------------------
  // Decimal rendering of a port number: the template literal `${extPort}`.

  predicate IsDigit(c: char)
  {
    '0' <= c <= '9'
  }

  predicate AllDigits(s: string)
  {
    forall i :: 0 <= i < |s| ==> IsDigit(s[i])
  }

  function DigitChar(d: nat): (c: char)
    requires d < 10
    ensures IsDigit(c) && (c as int) - ('0' as int) == d
  {
    "0123456789"[d]
  }

  /** The value of a string of decimal digits. */
  function DigitsValue(s: string): nat
    requires AllDigits(s)
  {
    if s == [] then 0 else DigitsValue(s[..|s| - 1]) * 10 + ((s[|s| - 1] as int) - ('0' as int))
  }

  /** The shortest decimal rendering of `n`: non-empty, digits only, no leading zero. */
  function NatToString(n: nat): (s: string)
    ensures |s| > 0 && AllDigits(s)
    ensures s[0] == '0' ==> s == "0"
    decreases n
  {
    if n < 10 then [DigitChar(n)] else NatToString(n / 10) + [DigitChar(n % 10)]
  }

  lemma {:induction false} NatToStringValue(n: nat)
    ensures DigitsValue(NatToString(n)) == n
    decreases n
  {
    if n >= 10 {
      NatToStringValue(n / 10);
      var s := NatToString(n);
      assert s[..|s| - 1] == NatToString(n / 10);
    }
  }

  /** JavaScript's conversion of an integer to a string: a '-' before the digits of a negative. */
  function IntToString(n: int): (s: string)
    ensures n >= 0 ==> AllDigits(s) && DigitsValue(s) == n
    ensures n < 0 ==> |s| > 1 && s[0] == '-' && AllDigits(s[1..]) && DigitsValue(s[1..]) == -n
    ensures |s| > 0
    ensures n >= 0 ==> (s[0] == '0' ==> s == "0")
    ensures n < 0 ==> s[1] != '0'
  {
    NatToStringValue(if n < 0 then -n else n);
    if n < 0 then "-" + NatToString(-n) else NatToString(n)
  }

  // ---------------------------------------------------------------------------------------
  // The three helpers.

  /** `fullURL(req, path)`: resolve `path` against http://localhost, then force the request's
      protocol and hostname and the externally visible port. `None` where the parse throws. */
  function FullURL(lib: UrlLib, protocol: string, hostname: string, extPort: int, path: string): (r: Option<string>)
    ensures r.Some? <==> lib.parse(path, Some(LocalBase)).Some?
    ensures r.Some? ==>
      exists v :: r.value == lib.serialize(v)
        && v.protocol == protocol && v.hostname == hostname && v.port == IntToString(extPort)
        && SameResource(v, lib.parse(path, Some(LocalBase)).value)
        && v.username == lib.parse(path, Some(LocalBase)).value.username
        && v.password == lib.parse(path, Some(LocalBase)).value.password
  {
    match lib.parse(path, Some(LocalBase))
    case None => None
    case Some(u) =>
      var v := u.(protocol := protocol, hostname := hostname, port := IntToString(extPort));
      Some(lib.serialize(v))
  }

  /** `relToAbsoluteURL(url, base)`: `url` resolved against `base`, or `url` itself, unchanged,
      when resolving throws. */
  function RelToAbsoluteURL(lib: UrlLib, url: string, base: string): (r: string)
    ensures lib.parse(url, Some(base)).None? ==> r == url
    ensures lib.parse(url, Some(base)).Some? ==> r == lib.serialize(lib.parse(url, Some(base)).value)
  {
    match lib.parse(url, Some(base))
    case None => url
    case Some(u) => lib.serialize(u)
  }

  /** `rewriteURLRelativeTo(rewrite, base)`: the absolute URL `rewrite` moved onto the origin and
      credentials of `base`, keeping its own path, query and fragment. When either of the two
      fails to parse on its own (no base), the result is `base` itself. */
  function RewriteURLRelativeTo(lib: UrlLib, rewrite: string, base: string): (r: string)
    ensures lib.parse(rewrite, None).None? || lib.parse(base, None).None? ==> r == base
    ensures lib.parse(rewrite, None).Some? && lib.parse(base, None).Some? ==>
      exists v :: r == lib.serialize(v)
        && SameOriginAndCredentials(v, lib.parse(base, None).value)
        && SameResource(v, lib.parse(rewrite, None).value)
  {
    match (lib.parse(rewrite, None), lib.parse(base, None))
    case (Some(url), Some(rel)) =>
      var v := url.(hostname := rel.hostname, protocol := rel.protocol, port := rel.port,
                    username := rel.username, password := rel.password);
      lib.serialize(v)
    case _ => base
  }

  /** A redirect target never keeps a host other than the proxy's: whatever `rewrite` names, the
      result is `base` or a URL on `base`'s host. */
  lemma RewriteNeverLeavesBaseHost(lib: UrlLib, rewrite: string, base: string, upstreamHost: string)
    requires lib.parse(base, None).Some? && lib.parse(base, None).value.hostname != upstreamHost
    ensures RewriteURLRelativeTo(lib, rewrite, base) == base
         || exists v :: RewriteURLRelativeTo(lib, rewrite, base) == lib.serialize(v) && v.hostname != upstreamHost
  {
  }
}
