/**
 * What the GET handler extracts from an HTML page (src/index.js:134-171): the meta map, the
 * page title, the head lines (links, then styles) and the body without its scripts.
 *
 * The parsed document is a tree of `Node` values. The elements under <head>, which the handler
 * selects by tag and whose `href` it rewrites in place, are `Element` objects. Parsing and
 * serialising HTML are foreign code: an `HtmlLib` parameter.
 */
module Page {
  import opened Options
  import opened Urls
  import opened Css

  /** A node of the parsed document. */
  datatype Node =
    | ElementNode(tag: string, attribs: map<string, string>, children: seq<Node>)
    | TextNode(text: string)

  /** The HTML serialisers: `outerHtml(n)` is `$doc.html(e)` for an element `e`, `innerHtml(ns)`
      is `.html()` of an element whose children are `ns`. */
  datatype HtmlLib = HtmlLib(outerHtml: Node -> string, innerHtml: seq<Node> -> string)

  /** An element under <head>. Its tag and children are fixed; its attributes are updated in
      place. */
  class Element {
    const tag: string
    var attribs: map<string, string>
    const children: seq<Node>

    function Value(): (n: Node)
      reads this
      ensures n.ElementNode? && n.tag == tag && n.attribs == attribs && n.children == children
    {
      ElementNode(tag, attribs, children)
    }
  }

  /** The elements of `es`, as values. */
  function Values(es: seq<Element>): (r: seq<Node>)
    reads set e | e in es
    ensures |r| == |es|
  {
    if es == [] then [] else Values(es[..|es| - 1]) + [es[|es| - 1].Value()]
  }

  lemma {:induction false} ValuesAt(es: seq<Element>, k: nat)
    requires k < |es|
    ensures Values(es)[k] == es[k].Value()
  {
    if k < |es| - 1 {
      ValuesAt(es[..|es| - 1], k);
    }
  }

  /** No element occurs twice in `es`. */
  predicate Distinct(es: seq<Element>)
  {
    forall j, k :: 0 <= j < k < |es| ==> es[j] != es[k]
  }

  /** The attributes of a node, none for text. */
  function AttribsOf(n: Node): map<string, string>
  {
    if n.ElementNode? then n.attribs else map[]
  }

  /** `e.attribs[name]`: the attribute's value, `None` for `undefined`. */
  function Attr(n: Node, name: string): (r: Option<string>)
    ensures r.Some? <==> name in AttribsOf(n)
  {
    if name in AttribsOf(n) then Some(AttribsOf(n)[name]) else None
  }

  /** `e.attribs[name]` is truthy: present and not empty. */
  predicate HasAttr(n: Node, name: string)
  {
    name in AttribsOf(n) && AttribsOf(n)[name] != ""
  }

  // ---------------------------------------------------------------------------------------
  // The meta map (src/index.js:134-141).

  /** The key a <meta> is stored under: its `name` when truthy, else its `property` when truthy,
      else none (the element is skipped). */
  function MetaKey(n: Node): (k: Option<string>)
    ensures HasAttr(n, "name") ==> k == Some(AttribsOf(n)["name"])
    ensures !HasAttr(n, "name") && HasAttr(n, "property") ==> k == Some(AttribsOf(n)["property"])
    ensures !HasAttr(n, "name") && !HasAttr(n, "property") ==> k.None?
  {
    if HasAttr(n, "name") then Some(AttribsOf(n)["name"])
    else if HasAttr(n, "property") then Some(AttribsOf(n)["property"])
    else None
  }

  /** The map after the `.each` loop over `metas`: each keyed element sets its key to its
      `content` (possibly `undefined`), in document order. */
  function MetaMap(metas: seq<Node>): map<string, Option<string>>
  {
    if metas == [] then map[] else MetaStep(MetaMap(metas[..|metas| - 1]), metas[|metas| - 1])
  }

  /** One iteration of the meta loop. */
  function MetaStep(m: map<string, Option<string>>, e: Node): map<string, Option<string>>
  {
    match MetaKey(e)
    case Some(k) => m[k := Attr(e, "content")]
    case None => m
  }

  /** A key is in the map exactly when some element is stored under it. */
  lemma {:induction false} MetaMapKeys(metas: seq<Node>, k: string)
    ensures k in MetaMap(metas) <==> exists j :: 0 <= j < |metas| && MetaKey(metas[j]) == Some(k)
  {
    if metas != [] {
      var p := metas[..|metas| - 1];
      MetaMapKeys(p, k);
      if k in MetaMap(metas) && MetaKey(metas[|metas| - 1]) != Some(k) {
        var j :| 0 <= j < |p| && MetaKey(p[j]) == Some(k);
        assert metas[j] == p[j];
      }
      if exists j :: 0 <= j < |metas| && MetaKey(metas[j]) == Some(k) {
        var j :| 0 <= j < |metas| && MetaKey(metas[j]) == Some(k);
        if j < |p| { assert p[j] == metas[j]; }
      }
    }
  }

  /** The last element stored under a key decides its value. */
  lemma {:induction false} MetaMapLastWins(metas: seq<Node>, k: string, j: nat)
    requires j < |metas| && MetaKey(metas[j]) == Some(k)
    requires forall l :: j < l < |metas| ==> MetaKey(metas[l]) != Some(k)
    ensures k in MetaMap(metas) && MetaMap(metas)[k] == Attr(metas[j], "content")
  {
    if j < |metas| - 1 {
      var p := metas[..|metas| - 1];
      assert p[j] == metas[j];
      forall l | j < l < |p| ensures MetaKey(p[l]) != Some(k) { assert p[l] == metas[l]; }
      MetaMapLastWins(p, k, j);
    }
  }

  /** `metaVals.get(key)`: `undefined` for a missing key and for a stored `undefined`. */
  function MetaGet(m: map<string, Option<string>>, key: string): (r: Option<string>)
    ensures key in m ==> r == m[key]
    ensures key !in m ==> r.None?
  {
    if key in m then m[key] else None
  }

  /** After the loop, `metaVals.get(key)` is the content of the last <meta> stored under `key`. */
  lemma MetaLookupIsLast(metas: seq<Node>, key: string, j: nat)
    requires j < |metas| && MetaKey(metas[j]) == Some(key)
    requires forall l :: j < l < |metas| ==> MetaKey(metas[l]) != Some(key)
    ensures MetaGet(MetaMap(metas), key) == Attr(metas[j], "content")
  {
    MetaMapLastWins(metas, key, j);
  }

  /** Without a <meta> stored under `key` the lookup is `undefined`; a value it finds is the
      content of some <meta> stored under `key`. */
  lemma MetaLookupFromSomeMeta(metas: seq<Node>, key: string)
    ensures MetaGet(MetaMap(metas), key).Some? ==>
      exists j :: 0 <= j < |metas| && MetaKey(metas[j]) == Some(key)
                  && Attr(metas[j], "content") == MetaGet(MetaMap(metas), key)
    ensures (forall j :: 0 <= j < |metas| ==> MetaKey(metas[j]) != Some(key))
      ==> MetaGet(MetaMap(metas), key).None?
  {
    MetaMapKeys(metas, key);
    if MetaGet(MetaMap(metas), key).Some? {
      var j := LastKeyed(metas, key);
      MetaMapLastWins(metas, key, j);
    }
  }

  /** Where some element is stored under `k`, the last one. */
  lemma {:induction false} LastKeyed(metas: seq<Node>, k: string) returns (j: nat)
    requires exists i :: 0 <= i < |metas| && MetaKey(metas[i]) == Some(k)
    ensures j < |metas| && MetaKey(metas[j]) == Some(k)
    ensures forall l :: j < l < |metas| ==> MetaKey(metas[l]) != Some(k)
  {
    if MetaKey(metas[|metas| - 1]) == Some(k) {
      j := |metas| - 1;
    } else {
      var p := metas[..|metas| - 1];
      var i :| 0 <= i < |metas| && MetaKey(metas[i]) == Some(k);
      assert p[i] == metas[i];
      j := LastKeyed(p, k);
      assert p[j] == metas[j];
      forall l | j < l < |metas| ensures MetaKey(metas[l]) != Some(k) {
        if l < |p| { assert p[l] == metas[l]; }
      }
    }
  }

  /** The meta loop's step: one more element updates the map by its key, if it has one. */
  lemma MetaMapSnoc(metas: seq<Node>, e: Node)
    ensures MetaMap(metas + [e]) == MetaStep(MetaMap(metas), e)
  {
    assert (metas + [e])[..|metas|] == metas;
  }

  /** The `.each` loop filling `metaVals` (src/index.js:134-141). */
  method CollectMeta(metas: seq<Element>) returns (vals: map<string, Option<string>>)
    ensures vals == MetaMap(Values(metas))
  {
    ghost var vs := Values(metas);
    vals := map[];
    var i := 0;
    while i < |metas|
      invariant 0 <= i <= |metas|
      invariant vals == MetaMap(vs[..i])
    {
      ghost var prev := vals;
      vals := StoreMeta(vals, metas[i]);
      ValuesAt(metas, i);
      assert vs[..i + 1] == vs[..i] + [vs[i]];
      MetaMapSnoc(vs[..i], vs[i]);
      i := i + 1;
    }
    assert vs[..|metas|] == vs;
  }

  /** The body of the meta loop for one element. */
  method StoreMeta(vals: map<string, Option<string>>, e: Element) returns (r: map<string, Option<string>>)
    ensures r == MetaStep(vals, e.Value())
  {
    ghost var v := e.Value();
    var content := if "content" in e.attribs then Some(e.attribs["content"]) else None;
    assert content == Attr(v, "content");
    if "name" in e.attribs && e.attribs["name"] != "" {
      r := vals[e.attribs["name"] := content];
      assert MetaKey(v) == Some(e.attribs["name"]);
    } else if "property" in e.attribs && e.attribs["property"] != "" {
      r := vals[e.attribs["property"] := content];
      assert MetaKey(v) == Some(e.attribs["property"]);
    } else {
      r := vals;
      assert MetaKey(v).None?;
    }
  }

  // ---------------------------------------------------------------------------------------
  // Title (src/index.js:142).

  /** The text of `ns` and of all their descendants, in document order: cheerio's `.text()`. */
  function TextContent(ns: seq<Node>): string
    decreases ns
  {
    if ns == [] then ""
    else
      (match ns[0]
       case TextNode(t) => t
       case ElementNode(_, _, children) => TextContent(children))
      + TextContent(ns[1..])
  }

  /** The texts among `ls`, joined in order. */
  function CharsOf(ls: seq<Label>): string
  {
    if ls == [] then "" else (match ls[0] case Chars(t) => t case Open(_, _) => "") + CharsOf(ls[1..])
  }

  lemma {:induction false} CharsOfAppend(a: seq<Label>, b: seq<Label>)
    ensures CharsOf(a + b) == CharsOf(a) + CharsOf(b)
  {
    if a != [] {
      assert (a + b)[0] == a[0];
      assert (a + b)[1..] == a[1..] + b;
      CharsOfAppend(a[1..], b);
    } else {
      assert a + b == b;
    }
  }

  /** The title text is every text node of the selected elements, at any depth, joined in
      document order. */
  lemma {:induction false} TextContentIsTextInOrder(ns: seq<Node>)
    ensures TextContent(ns) == CharsOf(Labels(ns))
    decreases ns
  {
    if ns != [] {
      TextContentIsTextInOrder(ns[1..]);
      CharsOfAppend(NodeLabels(ns[0]), Labels(ns[1..]));
      match ns[0]
      case TextNode(t) =>
        assert CharsOf([Chars(t)]) == t;
      case ElementNode(tag, attribs, children) =>
        TextContentIsTextInOrder(children);
        CharsOfAppend([Open(tag, attribs)], Labels(children));
    }
  }

  // ---------------------------------------------------------------------------------------
  // Head lines (src/index.js:144-155).

  /** A link with its `href` made absolute against `base`. */
  function Absolutised(lib: UrlLib, link: Node, base: string): (r: Node)
    requires HasAttr(link, "href")
    ensures r.ElementNode? && r.tag == link.tag && r.children == link.children
    ensures r.attribs == link.attribs["href" := RelToAbsoluteURL(lib, link.attribs["href"], base)]
  {
    link.(attribs := link.attribs["href" := RelToAbsoluteURL(lib, link.attribs["href"], base)])
  }

  /** The lines the link loop pushes: one serialised, absolutised link per link with an `href`,
      in document order. */
  function LinkLines(lib: UrlLib, html: HtmlLib, links: seq<Node>, base: string): seq<string>
  {
    if links == [] then []
    else
      var last := links[|links| - 1];
      LinkLines(lib, html, links[..|links| - 1], base)
      + (if HasAttr(last, "href") then [html.outerHtml(Absolutised(lib, last, base))] else [])
  }

  /** The lines the style loop pushes: each style's markup through `rewriteCSS`. */
  function StyleLines(lib: UrlLib, html: HtmlLib, styles: seq<Node>, base: string): seq<string>
  {
    if styles == [] then []
    else StyleLines(lib, html, styles[..|styles| - 1], base)
         + [RewriteCSS(lib, html.outerHtml(styles[|styles| - 1]), base)]
  }

  /** The links that carry an `href`, in document order. */
  function WithHref(links: seq<Node>): (r: seq<Node>)
    ensures |r| <= |links|
  {
    if links == [] then []
    else (if HasAttr(links[0], "href") then [links[0]] else []) + WithHref(links[1..])
  }

  lemma {:induction false} WithHrefAppend(a: seq<Node>, b: seq<Node>)
    ensures WithHref(a + b) == WithHref(a) + WithHref(b)
  {
    if a != [] {
      var h := if HasAttr(a[0], "href") then [a[0]] else [];
      assert (a + b)[0] == a[0];
      assert (a + b)[1..] == a[1..] + b;
      WithHrefAppend(a[1..], b);
      calc {
        WithHref(a + b);
        h + WithHref(a[1..] + b);
        h + (WithHref(a[1..]) + WithHref(b));
        (h + WithHref(a[1..])) + WithHref(b);
        WithHref(a) + WithHref(b);
      }
    } else {
      assert a + b == b;
    }
  }

  /** One link line per href-bearing link. */
  lemma {:induction false} LinkLinesCount(lib: UrlLib, html: HtmlLib, links: seq<Node>, base: string)
    ensures |LinkLines(lib, html, links, base)| == |WithHref(links)|
  {
    if links != [] {
      var p, last := links[..|links| - 1], links[|links| - 1];
      LinkLinesCount(lib, html, p, base);
      assert links == p + [last];
      WithHrefAppend(p, [last]);
      assert WithHref([last]) == if HasAttr(last, "href") then [last] else [] by {
        assert [last][1..] == [];
      }
    }
  }

  /** The link lines are the href-bearing links, absolutised and serialised, in order; a link
      without `href` contributes nothing. */
  lemma {:induction false} LinkLinesAreHrefLinks(lib: UrlLib, html: HtmlLib, links: seq<Node>, base: string)
    ensures |LinkLines(lib, html, links, base)| == |WithHref(links)|
    ensures forall k :: 0 <= k < |WithHref(links)| ==>
              HasAttr(WithHref(links)[k], "href")
              && LinkLines(lib, html, links, base)[k] == html.outerHtml(Absolutised(lib, WithHref(links)[k], base))
  {
    if links != [] {
      var p, last := links[..|links| - 1], links[|links| - 1];
      LinkLinesAreHrefLinks(lib, html, p, base);
      assert links == p + [last];
      WithHrefAppend(p, [last]);
      assert WithHref([last]) == if HasAttr(last, "href") then [last] else [] by {
        assert [last][1..] == [];
      }
    }
  }

  /** One line per style, in document order, each the style's markup with its `url()`s
      rewritten. */
  lemma {:induction false} StyleLinesAreStyles(lib: UrlLib, html: HtmlLib, styles: seq<Node>, base: string)
    ensures |StyleLines(lib, html, styles, base)| == |styles|
    ensures forall k :: 0 <= k < |styles| ==>
              StyleLines(lib, html, styles, base)[k] == RewriteCSS(lib, html.outerHtml(styles[k]), base)
  {
    if styles != [] {
      StyleLinesAreStyles(lib, html, styles[..|styles| - 1], base);
    }
  }

  /** The header lines start with the link lines: the href-bearing links, absolutised and
      serialised, in document order. */
  lemma LinkLinesComeFirst(lib: UrlLib, html: HtmlLib, links: seq<Node>, styles: seq<Node>, base: string)
    ensures |LinkLines(lib, html, links, base)| == |WithHref(links)|
    ensures forall k :: 0 <= k < |WithHref(links)| ==>
              HasAttr(WithHref(links)[k], "href")
              && (LinkLines(lib, html, links, base) + StyleLines(lib, html, styles, base))[k]
                 == html.outerHtml(Absolutised(lib, WithHref(links)[k], base))
  {
    var ll, sl, w := LinkLines(lib, html, links, base), StyleLines(lib, html, styles, base), WithHref(links);
    LinkLinesAreHrefLinks(lib, html, links, base);
    forall k | 0 <= k < |w|
      ensures HasAttr(w[k], "href") && (ll + sl)[k] == html.outerHtml(Absolutised(lib, w[k], base))
    {
      assert (ll + sl)[k] == ll[k];
    }
  }

  /** The style lines follow all the link lines, every style with its `url()`s rewritten, and
      nothing follows them: links and styles are not interleaved. */
  lemma StyleLinesComeLast(lib: UrlLib, html: HtmlLib, links: seq<Node>, styles: seq<Node>, base: string)
    ensures |LinkLines(lib, html, links, base) + StyleLines(lib, html, styles, base)| == |WithHref(links)| + |styles|
    ensures forall k :: 0 <= k < |styles| ==>
              (LinkLines(lib, html, links, base) + StyleLines(lib, html, styles, base))[|WithHref(links)| + k]
              == RewriteCSS(lib, html.outerHtml(styles[k]), base)
  {
    LinkLinesCount(lib, html, links, base);
    StyleLinesAfter(LinkLines(lib, html, links, base), lib, html, styles, base);
  }

  /** Whatever lines come before them, the style lines follow in order. */
  lemma StyleLinesAfter(before: seq<string>, lib: UrlLib, html: HtmlLib, styles: seq<Node>, base: string)
    ensures |before + StyleLines(lib, html, styles, base)| == |before| + |styles|
    ensures forall k :: 0 <= k < |styles| ==>
              (before + StyleLines(lib, html, styles, base))[|before| + k]
              == RewriteCSS(lib, html.outerHtml(styles[k]), base)
  {
    var sl := StyleLines(lib, html, styles, base);
    StyleLinesAreStyles(lib, html, styles, base);
    forall k | 0 <= k < |styles|
      ensures (before + sl)[|before| + k] == RewriteCSS(lib, html.outerHtml(styles[k]), base)
    {
      AppendedAt(before, sl, k);
    }
  }

  /** The `k`-th element of `y` is the `|x| + k`-th of `x + y`. */
  lemma AppendedAt<T>(x: seq<T>, y: seq<T>, k: nat)
    requires k < |y|
    ensures (x + y)[|x| + k] == y[k]
  {
  }

  /** The attributes a link has after the link loop. */
  function LinkAttribsAfter(lib: UrlLib, attribs: map<string, string>, base: string): (r: map<string, string>)
    ensures "href" in attribs && attribs["href"] != "" ==> r == attribs["href" := RelToAbsoluteURL(lib, attribs["href"], base)]
    ensures !("href" in attribs && attribs["href"] != "") ==> r == attribs
  {
    if "href" in attribs && attribs["href"] != "" then attribs["href" := RelToAbsoluteURL(lib, attribs["href"], base)] else attribs
  }

  /** The attributes of `es`, in order. */
  function HeadAttribs(es: seq<Element>): (r: seq<map<string, string>>)
    reads set e | e in es
    ensures |r| == |es|
  {
    seq(|es|, k requires 0 <= k < |es| reads set e | e in es => es[k].attribs)
  }

  /** How the link loop leaves <head>, from the attributes `before` it had: every link has a
      truthy `href` made absolute, every other element keeps its attributes. */
  predicate LinksAbsolutised(lib: UrlLib, es: seq<Element>, before: seq<map<string, string>>, base: string)
    reads set e | e in es
  {
    |before| == |es|
    && forall k :: 0 <= k < |es| ==>
         es[k].attribs == (if es[k].tag == "link" then LinkAttribsAfter(lib, before[k], base) else before[k])
  }

  /** The link loop (src/index.js:146-151): every link with an `href` has it made absolute in
      place and its markup pushed, in document order; a link without one is passed over. */
  method CollectLinkLines(lib: UrlLib, html: HtmlLib, links: seq<Element>, base: string)
    returns (lines: seq<string>)
    requires Distinct(links)
    modifies set e | e in links
    ensures lines == LinkLines(lib, html, old(Values(links)), base)
    ensures forall k :: 0 <= k < |links| ==> links[k].attribs == LinkAttribsAfter(lib, old(links[k].attribs), base)
  {
    ghost var before := Values(links);
    forall k | 0 <= k < |links| ensures before[k] == links[k].Value() {
      ValuesAt(links, k);
    }
    lines := [];
    var i := 0;
    while i < |links|
      invariant 0 <= i <= |links|
      invariant lines == LinkLines(lib, html, before[..i], base)
      invariant forall k :: 0 <= k < i ==> links[k].attribs == LinkAttribsAfter(lib, before[k].attribs, base)
      invariant forall k :: i <= k < |links| ==> links[k].attribs == before[k].attribs
    {
      assert before[..i + 1][..i] == before[..i];
      assert before[i] == links[i].Value();
      var line := AbsolutiseLink(lib, html, links[i], base);
      lines := lines + line;
      i := i + 1;
    }
    assert before[..|links|] == before;
  }

  /** One turn of the link loop: a link with an `href` has it made absolute in place and yields
      its markup as the line to push; any other link is left alone and yields none. */
  method AbsolutiseLink(lib: UrlLib, html: HtmlLib, e: Element, base: string) returns (line: seq<string>)
    modifies e
    ensures e.attribs == LinkAttribsAfter(lib, old(e.attribs), base)
    ensures line == if HasAttr(old(e.Value()), "href") then [html.outerHtml(Absolutised(lib, old(e.Value()), base))] else []
  {
    line := [];
    if "href" in e.attribs && e.attribs["href"] != "" {
      ghost var v := e.Value();
      e.attribs := e.attribs["href" := RelToAbsoluteURL(lib, e.attribs["href"], base)];
      assert e.Value() == Absolutised(lib, v, base);
      line := [html.outerHtml(e.Value())];
    }
  }

  /** The style loop (src/index.js:152-155): each style's markup through `rewriteCSS`, in
      document order. */
  method CollectStyleLines(lib: UrlLib, html: HtmlLib, styles: seq<Element>, base: string)
    returns (lines: seq<string>)
    ensures lines == StyleLines(lib, html, Values(styles), base)
  {
    lines := [];
    var j := 0;
    while j < |styles|
      invariant 0 <= j <= |styles|
      invariant lines == StyleLines(lib, html, Values(styles)[..j], base)
    {
      assert Values(styles)[..j + 1][..j] == Values(styles)[..j];
      ValuesAt(styles, j);
      lines := lines + [RewriteCSS(lib, html.outerHtml(styles[j].Value()), base)];
      j := j + 1;
    }
    assert Values(styles)[..|styles|] == Values(styles);
  }

  /** `headerLines` (src/index.js:144-155): the link lines, then the style lines; the two are
      never interleaved. */
  method CollectHeaderLines(lib: UrlLib, html: HtmlLib, links: seq<Element>, styles: seq<Element>, base: string)
    returns (lines: seq<string>)
    requires Distinct(links)
    requires forall e :: e in links ==> e.tag == "link"
    requires forall e :: e in styles ==> e.tag == "style"
    modifies set e | e in links
    ensures lines == LinkLines(lib, html, old(Values(links)), base) + StyleLines(lib, html, old(Values(styles)), base)
    ensures forall k :: 0 <= k < |links| ==> links[k].attribs == LinkAttribsAfter(lib, old(links[k].attribs), base)
    ensures forall e :: e in links ==> e.attribs == LinkAttribsAfter(lib, old(e.attribs), base)
  {
    ghost var styleValues := Values(styles);
    var linkLines := CollectLinkLines(lib, html, links, base);
    assert Values(styles) == styleValues by {
      assert forall e :: e in styles ==> e !in links;
    }
    var styleLines := CollectStyleLines(lib, html, styles, base);
    lines := linkLines + styleLines;
  }

  /** The header lines of <head> (src/index.js:144-155), from its selected links and styles:
      the lines of the elements as they were, with every link's `href` made absolute in place. */
  method CollectFromHead(lib: UrlLib, html: HtmlLib, head: seq<Element>, links: seq<Element>,
                         styles: seq<Element>, base: string) returns (lines: seq<string>)
    requires Distinct(head)
    requires links == SelectFrom(head, "link") && styles == SelectFrom(head, "style")
    modifies set e | e in head
    ensures lines == LinkLines(lib, html, SelectTag(old(Values(head)), "link"), base)
                     + StyleLines(lib, html, SelectTag(old(Values(head)), "style"), base)
    ensures LinksAbsolutised(lib, head, old(HeadAttribs(head)), base)
  {
    ghost var hv, ha := Values(head), HeadAttribs(head);
    SelectFromValues(head, "link");
    SelectFromValues(head, "style");
    SelectFromDistinct(head, "link");
    lines := CollectHeaderLines(lib, html, links, styles, base);
    forall k | 0 <= k < |head|
      ensures head[k].attribs == (if head[k].tag == "link" then LinkAttribsAfter(lib, ha[k], base) else ha[k])
    {
      if head[k].tag == "link" {
        SelectFromHas(head, "link", head[k]);
      }
    }
  }

  /** `headerLines.join('\n')`. */
  function Join(lines: seq<string>, sep: string): (r: string)
    ensures |r| == TotalLength(lines) + (if lines == [] then 0 else (|lines| - 1) * |sep|)
    ensures lines == [] ==> r == ""
    ensures |lines| == 1 ==> r == lines[0]
  {
    if lines == [] then ""
    else if |lines| == 1 then lines[0]
    else Join(lines[..|lines| - 1], sep) + sep + lines[|lines| - 1]
  }

  /** Joining two non-empty runs of lines is joining each and putting one separator between:
      with the empty and single-line cases of `Join`, the lines in order, one `sep` between
      each two neighbours. */
  lemma {:induction false} JoinAppend(a: seq<string>, b: seq<string>, sep: string)
    requires a != [] && b != []
    ensures Join(a + b, sep) == Join(a, sep) + sep + Join(b, sep)
    decreases |b|
  {
    var init, last := b[..|b| - 1], b[|b| - 1];
    assert b == init + [last];
    assert a + b == (a + init) + [last];
    assert |a + init| == |a| + |init|;
    JoinSnoc(a + init, last, sep);
    if init != [] {
      JoinAppend(a, init, sep);
      JoinSnoc(init, last, sep);
      ConcatAssoc(Join(a, sep), sep, Join(init, sep), last);
    }
  }

  /** Regrouping concatenations around two separators. */
  lemma ConcatAssoc(x: string, sep: string, y: string, z: string)
    ensures x + sep + y + sep + z == x + sep + (y + sep + z)
  {
  }

  /** One more line after non-empty lines joins with one separator before it. */
  lemma JoinSnoc(a: seq<string>, x: string, sep: string)
    requires a != []
    ensures Join(a + [x], sep) == Join(a, sep) + sep + x
  {
    assert (a + [x])[..|a|] == a;
  }

  /** The lengths of `lines`, summed. */
  function TotalLength(lines: seq<string>): nat
  {
    if lines == [] then 0 else TotalLength(lines[..|lines| - 1]) + |lines[|lines| - 1]|
  }

  // ---------------------------------------------------------------------------------------
  // Script removal (src/index.js:170).

  predicate IsScript(n: Node)
  {
    n.ElementNode? && n.tag == "script"
  }

  /** `ns` with every <script> element removed, together with everything inside it, at every
      depth. */
  function RemoveScripts(ns: seq<Node>): seq<Node>
    decreases ns
  {
    if ns == [] then [] else Pruned(ns[0]) + RemoveScripts(ns[1..])
  }

  /** What is left of one node: nothing for a script, else the node with its scripts removed. */
  function Pruned(n: Node): seq<Node>
    decreases n
  {
    if IsScript(n) then []
    else
      match n
      case TextNode(t) => [TextNode(t)]
      case ElementNode(tag, attribs, children) => [ElementNode(tag, attribs, RemoveScripts(children))]
  }

  /** No <script> element anywhere in `ns`. */
  predicate NoScripts(ns: seq<Node>)
    decreases ns
  {
    forall k :: 0 <= k < |ns| ==>
      !IsScript(ns[k]) && (ns[k].ElementNode? ==> NoScripts(ns[k].children))
  }

  lemma {:induction false} RemoveScriptsAppend(a: seq<Node>, b: seq<Node>)
    ensures RemoveScripts(a + b) == RemoveScripts(a) + RemoveScripts(b)
    decreases a
  {
    if a != [] {
      var h := Pruned(a[0]);
      assert (a + b)[0] == a[0];
      assert (a + b)[1..] == a[1..] + b;
      RemoveScriptsAppend(a[1..], b);
      calc {
        RemoveScripts(a + b);
        h + RemoveScripts(a[1..] + b);
        h + (RemoveScripts(a[1..]) + RemoveScripts(b));
        (h + RemoveScripts(a[1..])) + RemoveScripts(b);
        RemoveScripts(a) + RemoveScripts(b);
      }
    } else {
      assert a + b == b;
    }
  }

  /** After removal there is no script left at any depth. */
  lemma {:induction false} RemoveScriptsLeavesNone(ns: seq<Node>)
    ensures NoScripts(RemoveScripts(ns))
    decreases ns
  {
    if ns != [] {
      RemoveScriptsLeavesNone(ns[1..]);
      var r := RemoveScripts(ns);
      var rest := RemoveScripts(ns[1..]);
      if !IsScript(ns[0]) && ns[0].ElementNode? {
        RemoveScriptsLeavesNone(ns[0].children);
      }
      forall k | 0 <= k < |r|
        ensures !IsScript(r[k]) && (r[k].ElementNode? ==> NoScripts(r[k].children))
      {
        if |r| > |rest| && k == 0 {
        } else {
          assert r[k] == rest[k - (|r| - |rest|)];
        }
      }
    }
  }

  /** A body without scripts is left as it is. */
  lemma {:induction false} RemoveScriptsKeepsScriptFree(ns: seq<Node>)
    requires NoScripts(ns)
    ensures RemoveScripts(ns) == ns
    decreases ns
  {
    if ns != [] {
      RemoveScriptsKeepsScriptFree(ns[1..]);
      if ns[0].ElementNode? {
        RemoveScriptsKeepsScriptFree(ns[0].children);
      }
      assert ns == [ns[0]] + ns[1..];
    }
  }

  /** Removing twice removes no more than removing once. */
  lemma RemoveScriptsIdempotent(ns: seq<Node>)
    ensures RemoveScripts(RemoveScripts(ns)) == RemoveScripts(ns)
  {
    RemoveScriptsLeavesNone(ns);
    RemoveScriptsKeepsScriptFree(RemoveScripts(ns));
  }

  /** One entry per node in document order: an element's tag and attributes, or a text. */
  datatype Label = Open(tag: string, attribs: map<string, string>) | Chars(text: string)

  /** The labels of `ns` and all their descendants in document (pre-)order. */
  function Labels(ns: seq<Node>): seq<Label>
    decreases ns
  {
    if ns == [] then [] else NodeLabels(ns[0]) + Labels(ns[1..])
  }

  /** The labels of `n` and its descendants in document order. */
  function NodeLabels(n: Node): seq<Label>
    decreases n
  {
    match n
    case TextNode(t) => [Chars(t)]
    case ElementNode(tag, attribs, children) => [Open(tag, attribs)] + Labels(children)
  }

  /** The labels of `ns` in document order, passing over each <script> and everything inside it. */
  function LabelsOutsideScripts(ns: seq<Node>): seq<Label>
    decreases ns
  {
    if ns == [] then []
    else
      (if IsScript(ns[0]) then []
       else match ns[0]
            case TextNode(t) => [Chars(t)]
            case ElementNode(tag, attribs, children) => [Open(tag, attribs)] + LabelsOutsideScripts(children))
      + LabelsOutsideScripts(ns[1..])
  }

  /** Every node that is not a script nor inside one survives, and they keep their order. */
  lemma {:induction false} RemoveScriptsKeepsOrder(ns: seq<Node>)
    ensures Labels(RemoveScripts(ns)) == LabelsOutsideScripts(ns)
    decreases ns
  {
    if ns != [] {
      LabelsAppend(Pruned(ns[0]), RemoveScripts(ns[1..]));
      RemoveScriptsKeepsOrder(ns[1..]);
      if !IsScript(ns[0]) {
        var p := Pruned(ns[0]);
        assert Labels(p) == NodeLabels(p[0]) by { assert p[1..] == []; }
        if ns[0].ElementNode? {
          RemoveScriptsKeepsOrder(ns[0].children);
        }
      }
    }
  }

  lemma {:induction false} LabelsAppend(a: seq<Node>, b: seq<Node>)
    ensures Labels(a + b) == Labels(a) + Labels(b)
    decreases a
  {
    if a != [] {
      var h := NodeLabels(a[0]);
      assert (a + b)[0] == a[0];
      assert (a + b)[1..] == a[1..] + b;
      LabelsAppend(a[1..], b);
      calc {
        Labels(a + b);
        h + Labels(a[1..] + b);
        h + (Labels(a[1..]) + Labels(b));
        (h + Labels(a[1..])) + Labels(b);
        Labels(a) + Labels(b);
      }
    } else {
      assert a + b == b;
    }
  }

  // ---------------------------------------------------------------------------------------
  // The loaded document.

  /** The elements of `ns` that have tag `tag`, in order: `$doc(tag, 'head')`. */
  function SelectTag(ns: seq<Node>, tag: string): (r: seq<Node>)
    ensures forall k :: 0 <= k < |r| ==> r[k].ElementNode? && r[k].tag == tag
  {
    if ns == [] then []
    else SelectTag(ns[..|ns| - 1], tag) + (if ns[|ns| - 1].ElementNode? && ns[|ns| - 1].tag == tag then [ns[|ns| - 1]] else [])
  }

  /** The selection keeps exactly the elements with that tag: a node is selected if and only
      if it is one of `ns` and an element with tag `tag`. */
  lemma {:induction false} SelectTagExactly(ns: seq<Node>, tag: string, n: Node)
    ensures n in SelectTag(ns, tag) <==> n in ns && n.ElementNode? && n.tag == tag
  {
    if ns != [] {
      var p := ns[..|ns| - 1];
      SelectTagExactly(p, tag, n);
      assert ns == p + [ns[|ns| - 1]];
    }
  }

  /** What cheerio holds after `cheerio.load(html)`: the elements of <head>, in document order,
      and the children of <body>. */
  class Document {
    var head: seq<Element>
    var body: seq<Node>

    ghost predicate Valid()
      reads this
    {
      Distinct(head)
    }

    /** The elements under <head> with tag `tag`, in document order. */
    function Select(tag: string): (r: seq<Element>)
      reads this
      ensures forall e :: e in r ==> e in head && e.tag == tag
    {
      SelectFrom(head, tag)
    }

    /** `$doc('script', 'body').remove()`, a loop over the body's children. */
    method RemoveBodyScripts()
      modifies this
      ensures head == old(head) && body == RemoveScripts(old(body))
    {
      var kept: seq<Node> := [];
      var i := 0;
      while i < |body|
        invariant 0 <= i <= |body| && body == old(body) && head == old(head)
        invariant kept == RemoveScripts(body[..i])
      {
        var n := body[i];
        assert body[..i + 1] == body[..i] + [n];
        RemoveScriptsAppend(body[..i], [n]);
        assert [n][1..] == [];
        if !IsScript(n) {
          match n
          case TextNode(t) =>
            kept := kept + [TextNode(t)];
          case ElementNode(tag, attribs, children) =>
            kept := kept + [ElementNode(tag, attribs, RemoveScripts(children))];
        }
        i := i + 1;
      }
      assert body[..|body|] == body;
      body := kept;
    }
  }

  /** The elements of `es` with tag `tag`, in order. */
  function SelectFrom(es: seq<Element>, tag: string): (r: seq<Element>)
    ensures forall e :: e in r ==> e in es && e.tag == tag
  {
    if es == [] then []
    else SelectFrom(es[..|es| - 1], tag) + (if es[|es| - 1].tag == tag then [es[|es| - 1]] else [])
  }

  /** Selecting objects and then reading them is reading them and then selecting. */
  lemma {:induction false} SelectFromValues(es: seq<Element>, tag: string)
    ensures Values(SelectFrom(es, tag)) == SelectTag(Values(es), tag)
  {
    if es != [] {
      var p := es[..|es| - 1];
      SelectFromValues(p, tag);
      assert Values(es)[..|es| - 1] == Values(p);
      var last := if es[|es| - 1].tag == tag then [es[|es| - 1]] else [];
      ValuesAppend(SelectFrom(p, tag), last);
    }
  }

  lemma {:induction false} ValuesAppend(a: seq<Element>, b: seq<Element>)
    ensures Values(a + b) == Values(a) + Values(b)
  {
    if b == [] {
      assert a + b == a;
    } else {
      var p := b[..|b| - 1];
      assert (a + b)[..|a + b| - 1] == a + p;
      ValuesAppend(a, p);
    }
  }

  /** Every element of `es` with tag `tag` is selected. */
  lemma {:induction false} SelectFromHas(es: seq<Element>, tag: string, e: Element)
    requires e in es && e.tag == tag
    ensures e in SelectFrom(es, tag)
  {
    var p := es[..|es| - 1];
    if e != es[|es| - 1] {
      assert e in p by {
        var i :| 0 <= i < |es| && es[i] == e;
        assert p[i] == es[i];
      }
      SelectFromHas(p, tag, e);
    }
  }

  /** A sub-selection of distinct elements is distinct. */
  lemma {:induction false} SelectFromDistinct(es: seq<Element>, tag: string)
    requires Distinct(es)
    ensures Distinct(SelectFrom(es, tag))
  {
    if es != [] {
      var p := es[..|es| - 1];
      assert Distinct(p);
      SelectFromDistinct(p, tag);
      var r := SelectFrom(es, tag);
      var rp := SelectFrom(p, tag);
      if es[|es| - 1].tag == tag {
        assert es[|es| - 1] !in p;
        assert r == rp + [es[|es| - 1]];
        forall j, k | 0 <= j < k < |r| ensures r[j] != r[k] {
          if k == |r| - 1 { assert r[j] in rp; }
        }
      }
    }
  }
}
