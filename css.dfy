/**
 * The CSS `url()` rewriter `rewriteCSS` (src/index.js:46-50): a global, left-to-right,
 * case-sensitive replace of the regular expression
 *   url \s* \( (?: ([^)']*) | \s*'([^']*)'\s* ) \)
 * by `url('` + the reference made absolute + `')`.
 *
 * The expression is modelled by a scanner. Backtracking never finds a second way to match
 * here: every starred class is followed by a character the class excludes, so each star takes
 * the longest run, and the scanner takes exactly those runs. `UnquotedForm` and `QuotedForm`
 * state the two alternatives as patterns, and `MatchAt` is proved to agree with them.
 */
module Css {
  import opened Options
  import opened Urls

  /** JavaScript's `\s`: the WhiteSpace and LineTerminator characters of ECMA-262. */
  predicate IsSpace(c: char)
  {
    c == '\t' || c == '\n' || c == '\U{000B}' || c == '\U{000C}' || c == '\r' || c == ' '
    || c == '\U{00A0}' || c == '\U{1680}' || ('\U{2000}' <= c <= '\U{200A}')
    || c == '\U{2028}' || c == '\U{2029}' || c == '\U{202F}' || c == '\U{205F}'
    || c == '\U{3000}' || c == '\U{FEFF}'
  }

  /** The class `[^)']` of the unquoted body. */
  predicate InUnquoted(c: char)
  {
    c != ')' && c != '\''
  }

  /** The class `[^']` of the quoted body. */
  predicate InQuoted(c: char)
  {
    c != '\''
  }

  /** Every character of `w` is in the class `p`. */
  predicate AllIn(w: string, p: char -> bool)
  {
    forall k :: 0 <= k < |w| ==> p(w[k])
  }

  /** The text `url\s*\(` matches, with `w` as the spaces. */
  function Opening(w: string): string
  {
    "url" + w + "("
  }

  /** The text `\s*'([^']*)'\s*\)` matches, with `w2` and `w3` as the spaces. */
  function QuotedTail(w2: string, inner: string, w3: string): string
  {
    w2 + "'" + inner + "'" + w3 + ")"
  }

  /** `t` is matched by the first alternative, `url\s*\(([^)']*)\)`, with `inner` as group 1. */
  predicate UnquotedForm(t: string, w: string, inner: string)
  {
    t == Opening(w) + (inner + ")") && AllIn(w, IsSpace) && AllIn(inner, InUnquoted)
  }

  /** `t` is matched by the second alternative, `url\s*\(\s*'([^']*)'\s*\)`, with `inner` as
      group 2. */
  predicate QuotedForm(t: string, w1: string, w2: string, inner: string, w3: string)
  {
    t == Opening(w1) + QuotedTail(w2, inner, w3)
    && AllIn(w1, IsSpace) && AllIn(w2, IsSpace) && AllIn(w3, IsSpace) && AllIn(inner, InQuoted)
  }

  /** Every character of `s` in `[i, j)` is in the class `p`. */
  predicate Run(s: string, i: nat, j: nat, p: char -> bool)
    requires i <= j <= |s|
  {
    forall k :: i <= k < j ==> p(s[k])
  }

  /** The end of the longest run of characters satisfying `p` that starts at `i`. */
  function RunEnd(s: string, i: nat, p: char -> bool): (j: nat)
    requires i <= |s|
    ensures i <= j <= |s|
    decreases |s| - i
  {
    if i < |s| && p(s[i]) then RunEnd(s, i + 1, p) else i
  }

  /** The run is made of class members and is followed by the end or by a non-member. */
  lemma {:induction false} RunEndSpan(s: string, i: nat, p: char -> bool)
    requires i <= |s|
    ensures Run(s, i, RunEnd(s, i, p), p)
    ensures RunEnd(s, i, p) == |s| || !p(s[RunEnd(s, i, p)])
    decreases |s| - i
  {
    if i < |s| && p(s[i]) {
      RunEndSpan(s, i + 1, p);
    }
  }

  /** A run of class members followed by a non-member is the longest run. */
  lemma {:induction false} RunEndIs(s: string, i: nat, j: nat, p: char -> bool)
    requires i <= j < |s| && Run(s, i, j, p) && !p(s[j])
    ensures RunEnd(s, i, p) == j
    decreases j - i
  {
    if i < j {
      assert p(s[i]);
      RunEndIs(s, i + 1, j, p);
    }
  }

  /** A run, read off as a slice. */
  lemma RunSlice(s: string, i: nat, j: nat, p: char -> bool)
    requires i <= j <= |s|
    ensures Run(s, i, j, p) <==> AllIn(s[i..j], p)
  {
    forall k | i <= k < j ensures s[k] == s[i..j][k - i] {
    }
  }

  /** A match: the reference it captured and the position just after its ')'. */
  datatype Match = Match(inner: string, end: nat)

  /** Whether the literal "url" stands at position `i`. */
  predicate UrlAt(s: string, i: nat)
  {
    i + 3 <= |s| && s[i] == 'u' && s[i + 1] == 'r' && s[i + 2] == 'l'
  }

  /** `url\s*\(` at position `i`: the position after the '('. */
  function OpenAt(s: string, i: nat): (r: Option<nat>)
    requires i <= |s|
    ensures r.Some? ==> i + 4 <= r.value <= |s|
  {
    if UrlAt(s, i) then
      var a := RunEnd(s, i + 3, IsSpace);
      if a < |s| && s[a] == '(' then Some(a + 1) else None
    else None
  }

  /** The first alternative's body from position `a`: `([^)']*)\)`. */
  function UnquotedBodyAt(s: string, a: nat): (r: Option<Match>)
    requires a <= |s|
    ensures r.Some? ==> a < r.value.end <= |s|
  {
    var b := RunEnd(s, a, InUnquoted);
    if b < |s| && s[b] == ')' then Some(Match(s[a..b], b + 1)) else None
  }

  /** The second alternative's body from position `a`: `\s*'([^']*)'\s*\)`. */
  function QuotedBodyAt(s: string, a: nat): (r: Option<Match>)
    requires a <= |s|
    ensures r.Some? ==> a < r.value.end <= |s|
  {
    var c := RunEnd(s, a, IsSpace);
    if c < |s| && s[c] == '\'' then
      var d := RunEnd(s, c + 1, InQuoted);
      if d < |s| then
        var e := RunEnd(s, d + 1, IsSpace);
        if e < |s| && s[e] == ')' then Some(Match(s[c + 1..d], e + 1)) else None
      else None
    else None
  }

  /** The expression tried at position `i` of `s`: the first alternative, else the second. */
  function MatchAt(s: string, i: nat): (r: Option<Match>)
    requires i <= |s|
    ensures r.Some? ==> i < r.value.end <= |s|
  {
    match OpenAt(s, i)
    case None => None
    case Some(a) => if UnquotedBodyAt(s, a).Some? then UnquotedBodyAt(s, a) else QuotedBodyAt(s, a)
  }

  // ---------------------------------------------------------------------------------------
  // Where each part of the expression stands, by position.

  /** `url\s*\(` occupies `[i, a)`. */
  predicate OpenSpan(s: string, i: nat, a: nat)
  {
    i + 4 <= a <= |s| && UrlAt(s, i) && Run(s, i + 3, a - 1, IsSpace) && s[a - 1] == '('
  }

  /** `([^)']*)\)` occupies `[a, b]`, with its ')' at `b`. */
  predicate UnquotedSpan(s: string, a: nat, b: nat)
  {
    a <= b < |s| && Run(s, a, b, InUnquoted) && s[b] == ')'
  }

  /** `\s*'([^']*)'\s*\)` occupies `[a, e]`, with its quotes at `c` and `d` and its ')' at `e`. */
  predicate QuotedSpan(s: string, a: nat, c: nat, d: nat, e: nat)
  {
    a <= c < d < e < |s| && Run(s, a, c, IsSpace) && s[c] == '\''
    && Run(s, c + 1, d, InQuoted) && s[d] == '\'' && Run(s, d + 1, e, IsSpace) && s[e] == ')'
  }

  lemma OpenAtSpan(s: string, i: nat)
    requires i <= |s| && OpenAt(s, i).Some?
    ensures OpenSpan(s, i, OpenAt(s, i).value)
  {
    RunEndSpan(s, i + 3, IsSpace);
  }

  lemma SpanOpenAt(s: string, i: nat, a: nat)
    requires OpenSpan(s, i, a)
    ensures OpenAt(s, i) == Some(a)
  {
    RunEndIs(s, i + 3, a - 1, IsSpace);
  }

  lemma UnquotedBodySpan(s: string, a: nat) returns (b: nat)
    requires a <= |s| && UnquotedBodyAt(s, a).Some?
    ensures UnquotedSpan(s, a, b) && UnquotedBodyAt(s, a) == Some(Match(s[a..b], b + 1))
  {
    b := RunEnd(s, a, InUnquoted);
    RunEndSpan(s, a, InUnquoted);
  }

  lemma SpanUnquotedBody(s: string, a: nat, b: nat)
    requires UnquotedSpan(s, a, b)
    ensures UnquotedBodyAt(s, a) == Some(Match(s[a..b], b + 1))
  {
    RunEndIs(s, a, b, InUnquoted);
  }

  lemma QuotedBodySpan(s: string, a: nat) returns (c: nat, d: nat, e: nat)
    requires a <= |s| && QuotedBodyAt(s, a).Some?
    ensures QuotedSpan(s, a, c, d, e) && QuotedBodyAt(s, a) == Some(Match(s[c + 1..d], e + 1))
  {
    c := RunEnd(s, a, IsSpace);
    d := RunEnd(s, c + 1, InQuoted);
    e := RunEnd(s, d + 1, IsSpace);
    RunEndSpan(s, a, IsSpace);
    RunEndSpan(s, c + 1, InQuoted);
    RunEndSpan(s, d + 1, IsSpace);
  }

  /** Spaces followed by a quote are refused by the first alternative, whose run stops at the
      quote, and the quoted body is read by the second. */
  lemma SpanQuotedBody(s: string, a: nat, c: nat, d: nat, e: nat)
    requires QuotedSpan(s, a, c, d, e)
    ensures UnquotedBodyAt(s, a).None?
    ensures QuotedBodyAt(s, a) == Some(Match(s[c + 1..d], e + 1))
  {
    assert Run(s, a, c, InUnquoted);
    RunEndIs(s, a, c, InUnquoted);
    RunEndIs(s, a, c, IsSpace);
    RunEndIs(s, c + 1, d, InQuoted);
    RunEndIs(s, d + 1, e, IsSpace);
  }

  lemma MatchAtFromUnquoted(s: string, i: nat, a: nat, b: nat, inner: string, j: nat)
    requires OpenSpan(s, i, a) && UnquotedSpan(s, a, b) && s[a..b] == inner && j == b + 1
    ensures MatchAt(s, i) == Some(Match(inner, j))
  {
    SpanOpenAt(s, i, a);
    SpanUnquotedBody(s, a, b);
  }

  lemma MatchAtFromQuoted(s: string, i: nat, a: nat, c: nat, d: nat, e: nat, inner: string, j: nat)
    requires OpenSpan(s, i, a) && QuotedSpan(s, a, c, d, e) && s[c + 1..d] == inner && j == e + 1
    ensures MatchAt(s, i) == Some(Match(inner, j))
  {
    SpanOpenAt(s, i, a);
    SpanQuotedBody(s, a, c, d, e);
  }

  // ---------------------------------------------------------------------------------------
  // From positions to text and back.

  /** `s[i..k]` is `s[i..j]` followed by `s[j..k]`. */
  lemma SliceJoin(s: string, i: nat, j: nat, k: nat)
    requires i <= j <= k <= |s|
    ensures s[i..k] == s[i..j] + s[j..k]
  {
  }

  /** Reading `x + y` at `i` is reading `x` at `i`, then `y` after it. */
  lemma SliceSplit(s: string, i: nat, x: string, y: string)
    requires i + |x| + |y| <= |s| && s[i..i + |x| + |y|] == x + y
    ensures s[i..i + |x|] == x && s[i + |x|..i + |x| + |y|] == y
  {
    assert s[i..i + |x|] == (x + y)[..|x|];
    assert s[i + |x|..i + |x| + |y|] == (x + y)[|x|..];
  }

  /** Where `t` stands at `[i, j)` and `u` at `[j, k)`, `t + u` stands at `[i, k)`. */
  lemma SliceConcat(s: string, i: nat, j: nat, k: nat, t: string, u: string)
    requires i <= j <= k <= |s| && s[i..j] == t && s[j..k] == u
    ensures s[i..k] == t + u
  {
    SliceJoin(s, i, j, k);
  }

  /** A one-character slice is that character. */
  lemma SliceOne(s: string, i: nat, c: char)
    requires i < |s| && s[i] == c
    ensures s[i..i + 1] == [c]
  {
  }

  /** A character of `t`, read where `t` stands in `s`. */
  lemma SliceAt(s: string, i: nat, t: string, k: nat)
    requires i + |t| <= |s| && s[i..i + |t|] == t && k < |t|
    ensures s[i + k] == t[k]
  {
    assert s[i..i + |t|][k] == s[i + k];
  }

  /** Where `x + y` stands at `[i, j)`, `x` stands at its start and `y` after it. */
  lemma SliceHalves(s: string, i: nat, j: nat, x: string, y: string)
    requires i <= j <= |s| && s[i..j] == x + y
    ensures i + |x| <= j && s[i..i + |x|] == x && s[i + |x|..j] == y
  {
    SliceSplit(s, i, x, y);
  }

  lemma OpenSpanText(s: string, i: nat, a: nat)
    requires OpenSpan(s, i, a)
    ensures AllIn(s[i + 3..a - 1], IsSpace) && s[i..a] == Opening(s[i + 3..a - 1])
  {
    RunSlice(s, i + 3, a - 1, IsSpace);
    assert s[i..i + 3] == "url";
    SliceOne(s, a - 1, '(');
    SliceConcat(s, i, i + 3, a - 1, "url", s[i + 3..a - 1]);
    SliceConcat(s, i, a - 1, a, "url" + s[i + 3..a - 1], "(");
  }

  lemma TextOpenSpan(s: string, i: nat, w: string)
    requires i + |Opening(w)| <= |s| && s[i..i + |Opening(w)|] == Opening(w) && AllIn(w, IsSpace)
    ensures OpenSpan(s, i, i + |Opening(w)|)
  {
    assert |Opening(w)| == |w| + 4;
    SliceSplit(s, i, "url" + w, "(");
    SliceSplit(s, i, "url", w);
    SliceAt(s, i, "url" + w + "(", 0);
    SliceAt(s, i, "url" + w + "(", 1);
    SliceAt(s, i, "url" + w + "(", 2);
    SliceAt(s, i, "url" + w + "(", 3 + |w|);
    RunSlice(s, i + 3, i + 3 + |w|, IsSpace);
  }

  lemma UnquotedSpanText(s: string, a: nat, b: nat)
    requires UnquotedSpan(s, a, b)
    ensures AllIn(s[a..b], InUnquoted) && s[a..b + 1] == s[a..b] + ")"
  {
    RunSlice(s, a, b, InUnquoted);
    SliceOne(s, b, ')');
    SliceJoin(s, a, b, b + 1);
  }

  lemma TextUnquotedSpan(s: string, a: nat, j: nat, inner: string)
    requires a <= j <= |s| && s[a..j] == inner + ")" && AllIn(inner, InUnquoted)
    ensures UnquotedSpan(s, a, j - 1) && s[a..j - 1] == inner
  {
    assert j == a + |inner| + 1;
    SliceSplit(s, a, inner, ")");
    SliceAt(s, a, inner + ")", |inner|);
    RunSlice(s, a, a + |inner|, InUnquoted);
  }

  lemma QuotedSpanText(s: string, a: nat, c: nat, d: nat, e: nat)
    requires QuotedSpan(s, a, c, d, e)
    ensures AllIn(s[a..c], IsSpace) && AllIn(s[c + 1..d], InQuoted) && AllIn(s[d + 1..e], IsSpace)
    ensures s[a..e + 1] == QuotedTail(s[a..c], s[c + 1..d], s[d + 1..e])
  {
    var inner, w2, w3 := s[c + 1..d], s[a..c], s[d + 1..e];
    RunSlice(s, a, c, IsSpace);
    RunSlice(s, c + 1, d, InQuoted);
    RunSlice(s, d + 1, e, IsSpace);
    SliceOne(s, c, '\'');
    SliceOne(s, d, '\'');
    SliceOne(s, e, ')');
    // Built up one piece at a time, left to right.
    SliceConcat(s, a, c, c + 1, w2, "'");
    SliceConcat(s, a, c + 1, d, w2 + "'", inner);
    SliceConcat(s, a, d, d + 1, w2 + "'" + inner, "'");
    SliceConcat(s, a, d + 1, e, w2 + "'" + inner + "'", w3);
    SliceConcat(s, a, e, e + 1, w2 + "'" + inner + "'" + w3, ")");
  }

  /** Where `QuotedTail(w2, inner, w3)` stands at `a`, each of its pieces stands at its place. */
  lemma QuotedTailPieces(s: string, a: nat, w2: string, inner: string, w3: string)
    requires a + |QuotedTail(w2, inner, w3)| <= |s|
    requires s[a..a + |QuotedTail(w2, inner, w3)|] == QuotedTail(w2, inner, w3)
    ensures var c := a + |w2|; var d := c + 1 + |inner|; var e := d + 1 + |w3|;
      s[a..c] == w2 && s[c] == '\'' && s[c + 1..d] == inner && s[d] == '\''
      && s[d + 1..e] == w3 && s[e] == ')'
  {
    var p1 := w2 + "'";
    var p2 := p1 + inner;
    var p3 := p2 + "'";
    var p4 := p3 + w3;
    SliceSplit(s, a, p4, ")");
    SliceSplit(s, a, p3, w3);
    SliceSplit(s, a, p2, "'");
    SliceSplit(s, a, p1, inner);
    SliceSplit(s, a, w2, "'");
    SliceAt(s, a + |w2|, "'", 0);
    SliceAt(s, a + |p2|, "'", 0);
    SliceAt(s, a + |p4|, ")", 0);
  }

  lemma TextQuotedSpan(s: string, a: nat, j: nat, w2: string, inner: string, w3: string)
      returns (c: nat, d: nat, e: nat)
    requires a <= j <= |s| && s[a..j] == QuotedTail(w2, inner, w3)
    requires AllIn(w2, IsSpace) && AllIn(inner, InQuoted) && AllIn(w3, IsSpace)
    ensures QuotedSpan(s, a, c, d, e) && s[c + 1..d] == inner && e + 1 == j
  {
    assert j == a + |QuotedTail(w2, inner, w3)|;
    c := a + |w2|;
    d := c + 1 + |inner|;
    e := d + 1 + |w3|;
    QuotedTailPieces(s, a, w2, inner, w3);
    RunSlice(s, a, c, IsSpace);
    RunSlice(s, c + 1, d, InQuoted);
    RunSlice(s, d + 1, e, IsSpace);
  }

  // ---------------------------------------------------------------------------------------
  // The scanner matches exactly the two alternatives.

  /** The text of an opening and an unquoted body, as the first alternative. */
  lemma UnquotedSpanForm(s: string, i: nat, a: nat, b: nat)
    requires OpenSpan(s, i, a) && UnquotedSpan(s, a, b)
    ensures UnquotedForm(s[i..b + 1], s[i + 3..a - 1], s[a..b])
  {
    OpenSpanText(s, i, a);
    UnquotedSpanText(s, a, b);
    SliceJoin(s, i, a, b + 1);
  }

  /** The text of an opening and a quoted body, as the second alternative. */
  lemma QuotedSpanForm(s: string, i: nat, a: nat, c: nat, d: nat, e: nat)
    requires OpenSpan(s, i, a) && QuotedSpan(s, a, c, d, e)
    ensures QuotedForm(s[i..e + 1], s[i + 3..a - 1], s[a..c], s[c + 1..d], s[d + 1..e])
  {
    OpenSpanText(s, i, a);
    QuotedSpanText(s, a, c, d, e);
    SliceJoin(s, i, a, e + 1);
  }

  /** Where the first alternative's body follows the opening, `MatchAt` reports its text. */
  lemma UnquotedMatchForm(s: string, i: nat)
    requires i <= |s| && OpenAt(s, i).Some? && UnquotedBodyAt(s, OpenAt(s, i).value).Some?
    ensures MatchAt(s, i).Some?
    ensures UnquotedForm(s[i..MatchAt(s, i).value.end], s[i + 3..OpenAt(s, i).value - 1], MatchAt(s, i).value.inner)
  {
    var a := OpenAt(s, i).value;
    OpenAtSpan(s, i);
    var b := UnquotedBodySpan(s, a);
    assert MatchAt(s, i) == Some(Match(s[a..b], b + 1));
    UnquotedSpanForm(s, i, a, b);
  }

  /** Where only the second alternative's body follows the opening, `MatchAt` reports its
      text. */
  lemma QuotedMatchForm(s: string, i: nat) returns (w2: string, w3: string)
    requires i <= |s| && OpenAt(s, i).Some? && UnquotedBodyAt(s, OpenAt(s, i).value).None?
    requires QuotedBodyAt(s, OpenAt(s, i).value).Some?
    ensures MatchAt(s, i).Some?
    ensures QuotedForm(s[i..MatchAt(s, i).value.end], s[i + 3..OpenAt(s, i).value - 1], w2, MatchAt(s, i).value.inner, w3)
  {
    var a := OpenAt(s, i).value;
    OpenAtSpan(s, i);
    var c, d, e := QuotedBodySpan(s, a);
    assert MatchAt(s, i) == Some(Match(s[c + 1..d], e + 1));
    QuotedSpanForm(s, i, a, c, d, e);
    w2, w3 := s[a..c], s[d + 1..e];
  }

  /** Every match `MatchAt` reports is text one of the two alternatives matches, with the
      captured group as its reference. */
  lemma MatchAtSound(s: string, i: nat)
    requires i <= |s| && MatchAt(s, i).Some?
    ensures (exists w :: UnquotedForm(s[i..MatchAt(s, i).value.end], w, MatchAt(s, i).value.inner))
         || (exists w1, w2, w3 ::
               QuotedForm(s[i..MatchAt(s, i).value.end], w1, w2, MatchAt(s, i).value.inner, w3))
  {
    if UnquotedBodyAt(s, OpenAt(s, i).value).Some? {
      UnquotedMatchForm(s, i);
    } else {
      var w2, w3 := QuotedMatchForm(s, i);
    }
  }

  /** Text the first alternative matches at `[i, j)` is what `MatchAt` reports at `i`. */
  lemma MatchAtUnquotedComplete(s: string, i: nat, j: nat, w: string, inner: string)
    requires i <= j <= |s| && UnquotedForm(s[i..j], w, inner)
    ensures MatchAt(s, i) == Some(Match(inner, j))
  {
    SliceHalves(s, i, j, Opening(w), inner + ")");
    var a := i + |Opening(w)|;
    TextOpenSpan(s, i, w);
    TextUnquotedSpan(s, a, j, inner);
    MatchAtFromUnquoted(s, i, a, j - 1, inner, j);
  }

  /** Text the second alternative matches at `[i, j)` is what `MatchAt` reports at `i`. */
  lemma MatchAtQuotedComplete(s: string, i: nat, j: nat, w1: string, w2: string, inner: string, w3: string)
    requires i <= j <= |s| && QuotedForm(s[i..j], w1, w2, inner, w3)
    ensures MatchAt(s, i) == Some(Match(inner, j))
  {
    SliceHalves(s, i, j, Opening(w1), QuotedTail(w2, inner, w3));
    var a := i + |Opening(w1)|;
    TextOpenSpan(s, i, w1);
    var c, d, e := TextQuotedSpan(s, a, j, w2, inner, w3);
    MatchAtFromQuoted(s, i, a, c, d, e, inner, j);
  }

  // ---------------------------------------------------------------------------------------
  // The global replace.

  /** What one match becomes: `url('` + `relToAbsoluteURL(inner, base)` + `')`. */
  function Replacement(lib: UrlLib, inner: string, base: string): string
  {
    "url('" + RelToAbsoluteURL(lib, inner, base) + "')"
  }

  /** `MatchAt` where it is defined: the matcher the replace tries at each position. */
  function FindAt(s: string, i: nat): (r: Option<Match>)
    ensures r.Some? ==> i < r.value.end <= |s|
  {
    if i <= |s| then MatchAt(s, i) else None
  }

  /** The replace from position `i` on, with `find` standing for the expression: at each
      position `find` is tried; a match is replaced and scanning resumes after it, otherwise
      one character is copied. A match that would not advance counts as none (`FindAt` never
      reports one). */
  function ReplaceFrom(find: (string, nat) -> Option<Match>, lib: UrlLib, s: string, i: nat, base: string): string
    requires i <= |s|
    decreases |s| - i
  {
    if i == |s| then []
    else
      match find(s, i)
      case Some(m) =>
        if i < m.end <= |s| then Replacement(lib, m.inner, base) + ReplaceFrom(find, lib, s, m.end, base)
        else [s[i]] + ReplaceFrom(find, lib, s, i + 1, base)
      case None => [s[i]] + ReplaceFrom(find, lib, s, i + 1, base)
  }

  /** `rewriteCSS(styleHTML, base)`. */
  function RewriteCSS(lib: UrlLib, styleHTML: string, base: string): string
  {
    ReplaceFrom(FindAt, lib, styleHTML, 0, base)
  }

  /** No match of the expression starts in `[i, j)`. */
  predicate NoMatchBetween(s: string, i: nat, j: nat)
    requires i <= j <= |s|
  {
    forall k :: i <= k < j ==> MatchAt(s, k).None?
  }

  /** Text in which `find` finds nothing is copied verbatim. */
  lemma {:induction false} ReplaceCopiesUnmatched(find: (string, nat) -> Option<Match>, lib: UrlLib,
                                                  s: string, i: nat, j: nat, base: string)
    requires i <= j <= |s| && forall k :: i <= k < j ==> find(s, k).None?
    ensures ReplaceFrom(find, lib, s, i, base) == s[i..j] + ReplaceFrom(find, lib, s, j, base)
    decreases j - i
  {
    if i < j {
      var rest := ReplaceFrom(find, lib, s, j, base);
      ReplaceCopiesUnmatched(find, lib, s, i + 1, j, base);
      calc {
        ReplaceFrom(find, lib, s, i, base);
        [s[i]] + ReplaceFrom(find, lib, s, i + 1, base);
        [s[i]] + (s[i + 1..j] + rest);
        { assert [s[i]] + s[i + 1..j] == s[i..j]; }
        s[i..j] + rest;
      }
    }
  }

  /** Text in which no match starts is copied verbatim by `rewriteCSS`'s replace. */
  lemma RewriteCopiesUnmatched(lib: UrlLib, s: string, i: nat, j: nat, base: string)
    requires i <= j <= |s| && NoMatchBetween(s, i, j)
    ensures ReplaceFrom(FindAt, lib, s, i, base) == s[i..j] + ReplaceFrom(FindAt, lib, s, j, base)
  {
    forall k | i <= k < j ensures FindAt(s, k).None? {
      assert MatchAt(s, k).None?;
    }
    ReplaceCopiesUnmatched(FindAt, lib, s, i, j, base);
  }

  /** The leftmost match from `i` is replaced, the text before it kept, and the replace goes on
      after the match: matches never overlap. */
  lemma RewriteAtFirstMatch(lib: UrlLib, s: string, i: nat, k: nat, base: string)
    requires i <= k <= |s| && NoMatchBetween(s, i, k) && MatchAt(s, k).Some?
    ensures ReplaceFrom(FindAt, lib, s, i, base)
         == s[i..k] + Replacement(lib, MatchAt(s, k).value.inner, base)
            + ReplaceFrom(FindAt, lib, s, MatchAt(s, k).value.end, base)
  {
    RewriteCopiesUnmatched(lib, s, i, k, base);
    assert FindAt(s, k) == MatchAt(s, k);
  }

  /** CSS whose only match runs to its end keeps the text before the match and replaces the
      match. */
  lemma RewriteSoleMatch(lib: UrlLib, s: string, k: nat, inner: string, base: string, pre: string)
    requires k <= |s| && s[0..k] == pre && NoMatchBetween(s, 0, k)
    requires MatchAt(s, k) == Some(Match(inner, |s|))
    ensures RewriteCSS(lib, s, base) == pre + Replacement(lib, inner, base)
  {
    RewriteAtFirstMatch(lib, s, 0, k, base);
    assert ReplaceFrom(FindAt, lib, s, |s|, base) == [];
    assert pre + Replacement(lib, inner, base) + [] == pre + Replacement(lib, inner, base);
  }

  /** CSS in which the expression matches nowhere comes back unchanged. */
  lemma RewriteWithoutMatchIsIdentity(lib: UrlLib, s: string, base: string)
    requires NoMatchBetween(s, 0, |s|)
    ensures RewriteCSS(lib, s, base) == s
  {
    RewriteCopiesUnmatched(lib, s, 0, |s|, base);
    assert s[0..|s|] == s;
  }

  /** `s` does not contain the letters "url" together: no `url()` reference at all. */
  predicate MentionsNoUrl(s: string)
  {
    forall k :: 0 <= k <= |s| ==> !UrlAt(s, k)
  }

  /** CSS without any `url` comes back unchanged. */
  lemma RewriteWithoutUrlIsIdentity(lib: UrlLib, s: string, base: string)
    requires MentionsNoUrl(s)
    ensures RewriteCSS(lib, s, base) == s
  {
    assert NoMatchBetween(s, 0, |s|) by {
      forall k | 0 <= k < |s| ensures MatchAt(s, k).None? {
        assert !UrlAt(s, k);
      }
    }
    RewriteWithoutMatchIsIdentity(lib, s, base);
  }

  // ---------------------------------------------------------------------------------------
  // Worked cases.

  /** No match starts in the declaration's "background: " prefix. */
  lemma NoMatchInPrefix(s: string)
    requires s == "background: url(/img/a.png)"
    ensures NoMatchBetween(s, 0, 12)
  {
    forall k | 0 <= k < 12 ensures MatchAt(s, k).None? {
      assert s[k] != 'u' || s[k + 1] != 'r' by {
        assert s[0] == 'b' && s[1] == 'a' && s[2] == 'c' && s[3] == 'k' && s[4] == 'g' && s[5] == 'r';
        assert s[6] == 'o' && s[7] == 'u' && s[8] == 'n' && s[9] == 'd' && s[10] == ':' && s[11] == ' ';
      }
    }
  }

  /** The reference in the declaration is matched by the unquoted alternative, up to the end. */
  lemma ReferenceMatched(s: string)
    requires s == "background: url(/img/a.png)"
    ensures MatchAt(s, 12) == Some(Match("/img/a.png", |s|))
  {
    assert s[12..|s|] == Opening("") + ("/img/a.png" + ")");
    MatchAtUnquotedComplete(s, 12, |s|, "", "/img/a.png");
  }

  /** An unquoted reference is made absolute and re-quoted with single quotes. */
  lemma UnquotedReferenceRewritten(lib: UrlLib, s: string, base: string)
    requires s == "background: url(/img/a.png)" && lib.parse("/img/a.png", Some(base)).Some?
    ensures RewriteCSS(lib, s, base)
         == "background: url('" + lib.serialize(lib.parse("/img/a.png", Some(base)).value) + "')"
  {
    var x := lib.serialize(lib.parse("/img/a.png", Some(base)).value);
    NoMatchInPrefix(s);
    ReferenceMatched(s);
    assert s[0..12] == "background: ";
    RewriteSoleMatch(lib, s, 12, "/img/a.png", base, "background: ");
    assert Replacement(lib, "/img/a.png", base) == "url('" + x + "')";
    assert "background: " + ("url('" + x + "')") == "background: url('" + x + "')";
  }

  /** A quote inside an unquoted body makes both alternatives fail: the text is kept as it is. */
  lemma MalformedReferenceKept(lib: UrlLib, s: string, base: string)
    requires s == "url(a'b)"
    ensures RewriteCSS(lib, s, base) == s
  {
    assert RunEnd(s, 3, IsSpace) == 3;
    assert RunEnd(s, 4, InUnquoted) == 5 by { RunEndIs(s, 4, 5, InUnquoted); }
    assert RunEnd(s, 4, IsSpace) == 4;
    assert NoMatchBetween(s, 0, |s|) by {
      forall k | 0 <= k < |s| ensures MatchAt(s, k).None? {
        if k > 0 { assert !UrlAt(s, k); }
      }
    }
    RewriteWithoutMatchIsIdentity(lib, s, base);
  }

  /** Double quotes are not special: they are captured as part of an unquoted body. */
  lemma DoubleQuotesCaptured(s: string)
    requires s == "url(\"a.png\")"
    ensures MatchAt(s, 0) == Some(Match("\"a.png\"", |s|))
  {
    assert s[0..|s|] == Opening("") + ("\"a.png\"" + ")");
    MatchAtUnquotedComplete(s, 0, |s|, "", "\"a.png\"");
  }
}
