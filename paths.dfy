/**
 * Building the upstream target from the inbound path: `prefixSlash` and `cloneURL`
 * (src/index.js:54, src/index.js:103), and the trailing-slash trim that computes the mount
 * path's public URL (src/index.js:81).
 */
module Paths {

  predicate StartsWithSlash(s: string)
  {
    |s| > 0 && s[0] == '/'
  }

  /** `prefixSlash(urlPath)`: a leading '/' added only where it is missing. */
  function PrefixSlash(urlPath: string): (r: string)
    ensures StartsWithSlash(r)
    ensures StartsWithSlash(urlPath) ==> r == urlPath
    ensures !StartsWithSlash(urlPath) ==> r == "/" + urlPath
  {
    if |urlPath| > 0 && urlPath[0] == '/' then urlPath else "/" + urlPath
  }

  /** Prefixing twice is prefixing once. */
  lemma PrefixSlashIdempotent(urlPath: string)
    ensures PrefixSlash(PrefixSlash(urlPath)) == PrefixSlash(urlPath)
  {
  }

  /** Dropping the leading '/' of the prefixed path gives back the original path, less its own
      leading '/' when it had one. */
  lemma PrefixSlashTail(urlPath: string)
    ensures PrefixSlash(urlPath)[1..] == if StartsWithSlash(urlPath) then urlPath[1..] else urlPath
  {
  }

  /** `cloneURL = cloneBaseURL + prefixSlash(req.originalUrl)`: the configured upstream base,
      then exactly one of the path itself (when it starts with '/') or '/' and the path. */
  function CloneURL(cloneBaseURL: string, originalUrl: string): (r: string)
    ensures |r| > |cloneBaseURL| && r[..|cloneBaseURL|] == cloneBaseURL && r[|cloneBaseURL|] == '/'
    ensures r[|cloneBaseURL|..] == PrefixSlash(originalUrl)
    ensures StartsWithSlash(originalUrl) ==> r == cloneBaseURL + originalUrl
    ensures !StartsWithSlash(originalUrl) ==> r == cloneBaseURL + "/" + originalUrl
  {
    cloneBaseURL + PrefixSlash(originalUrl)
  }

  /** `s.replace(/\/+$/, '')`: `s` without its trailing run of '/'. */
  function StripTrailingSlashes(s: string): (r: string)
    ensures |r| <= |s| && r == s[..|r|]
    ensures forall i :: |r| <= i < |s| ==> s[i] == '/'
    ensures r == [] || r[|r| - 1] != '/'
  {
    if |s| > 0 && s[|s| - 1] == '/' then StripTrailingSlashes(s[..|s| - 1]) else s
  }

  /** Trimming twice trims no more than trimming once. */
  lemma {:induction false} StripTrailingSlashesIdempotent(s: string)
    ensures StripTrailingSlashes(StripTrailingSlashes(s)) == StripTrailingSlashes(s)
  {
  }
}
