/** The extraction walk of `parser.rs`: one depth-first, pre-order pass over
    the document tree that fills in the metadata record. It tracks which
    segment (outside, head, body) it is in and the payload of the current
    node's parent, and dispatches on the tag of every element. */
module Parser {
  import opened Common
  import opened Dom
  import Json
  import Og
  import Schema

  /** `Segment`. `Outside` is `Segment::None` of parser.rs. */
  datatype Segment = Outside | Head | Body

  /** A parsed URL (`url::Url`), known to the model only by its serialisation. */
  datatype Url = Url(serialization: string)

  /** An outbound link: the resolved (or raw) href and the anchor text. */
  datatype Link = Link(url: string, text: string)

  /** The collaborators the walk calls but that are outside the model:
      `Url::parse`, `Url::join` followed by `to_string`, and
      `serde_json::from_str`. Each returns `None` on failure. */
  datatype Env = Env(
    parseUrl: string -> Option<Url>,
    joinUrl: (Url, string) -> Option<string>,
    parseJson: string -> Option<Json.Value>)

  /** The metadata record the walk fills in (`HTML`). */
  datatype Html = Html(
    title: Option<string>,
    description: Option<string>,
    url: Option<string>,
    urlParsed: Option<Url>,
    feed: Option<string>,
    language: Option<string>,
    textContent: string,
    meta: map<string, string>,
    opengraph: Og.Opengraph,
    schemaOrg: seq<Schema.SchemaOrg>,
    links: seq<Link>)

  /** The parsed form of an optional url. */
  function ParseOf(url: Option<string>, env: Env): Option<Url> {
    match url
    case Some(u) => env.parseUrl(u)
    case None => None
  }

  /** `url_parsed` is the parse of `url`. */
  predicate UrlConsistent(h: Html, env: Env) {
    h.urlParsed == ParseOf(h.url, env)
  }

  /** The fields only head extraction writes. */
  predicate SameHead(a: Html, b: Html) {
    && a.title == b.title && a.description == b.description && a.feed == b.feed
    && a.url == b.url && a.urlParsed == b.urlParsed
    && a.meta == b.meta && a.opengraph == b.opengraph
  }

  /** `HTML::set_url`: sets the url and re-derives its parsed form. */
  function SetUrl(h: Html, url: Option<string>, env: Env): (r: Html)
    ensures r.url == url && UrlConsistent(r, env)
    ensures r == h.(url := r.url, urlParsed := r.urlParsed)
  {
    h.(url := url, urlParsed := ParseOf(url, env))
  }

  /** The record before the walk: nothing found yet, the url taken from the
      caller's base url. */
  function Initial(baseUrl: Option<string>, env: Env): (h: Html)
    ensures h.url == baseUrl && UrlConsistent(h, env)
    ensures h.textContent == "" && h.meta == map[] && h.schemaOrg == [] && h.links == []
    ensures h.title == None && h.description == None && h.feed == None && h.language == None
    ensures h.opengraph == Og.Empty()
  {
    var empty := Html(None, None, None, None, None, None, "", map[], Og.Empty(), [], []);
    SetUrl(empty, baseUrl, env)
  }

  /** The segment step: entering `head` or `body` switches to that segment,
      any other tag keeps the inherited one. */
  function EnterSegment(seg: Segment, tag: string): (s: Segment)
    ensures tag == "head" ==> s == Head
    ensures tag == "body" ==> s == Body
    ensures tag != "head" && tag != "body" ==> s == seg
  {
    if tag == "head" then Head else if tag == "body" then Body else seg
  }

  /** `i` is the position of the first attribute called `name`. */
  predicate FirstNamed(attrs: seq<Attribute>, name: string, i: int) {
    && 0 <= i < |attrs|
    && attrs[i].name == name
    && forall j :: 0 <= j < i ==> attrs[j].name != name
  }

  /** `get_attribute`: the trimmed value of the first attribute with that
      name; `GetAttributeSpec` states it. */
  function GetAttribute(attrs: seq<Attribute>, name: string): Option<string>
    decreases |attrs|
  {
    if attrs == [] then None
    else if attrs[0].name == name then Some(Trim(attrs[0].value))
    else GetAttribute(attrs[1..], name)
  }

  /** The trimmed value of the first attribute called `name`; `None`
      exactly when no attribute has that name. */
  lemma {:induction false} GetAttributeSpec(attrs: seq<Attribute>, name: string)
    ensures GetAttribute(attrs, name).None? <==> forall i :: 0 <= i < |attrs| ==> attrs[i].name != name
    ensures forall i :: FirstNamed(attrs, name, i) ==> GetAttribute(attrs, name) == Some(Trim(attrs[i].value))
    decreases |attrs|
  {
    if attrs != [] && attrs[0].name != name {
      GetAttributeSpec(attrs[1..], name);
      assert forall i :: 0 < i < |attrs| ==> attrs[i] == attrs[1..][i - 1];
      assert forall i :: FirstNamed(attrs, name, i) ==> FirstNamed(attrs[1..], name, i - 1);
    }
  }

  /** `text_content`: the trimmed first direct text child; deeper
      descendants are never looked at. `TextContentSpec` states it. */
  function TextContent(n: Node): Option<string> {
    match FirstText(n.children)
    case Some(s) => Some(Trim(s))
    case None => None
  }

  /** The trimmed contents of the first direct text child; `None` exactly
      when no child is text. */
  lemma TextContentSpec(n: Node)
    ensures TextContent(n).None? <==> forall i :: 0 <= i < |n.children| ==> !n.children[i].data.Text?
    ensures forall i :: FirstTextAt(n.children, i) ==> TextContent(n) == Some(Trim(n.children[i].data.contents))
  {
    FirstTextSpec(n.children);
  }

  /** Body text is joined with single spaces: no separator before the first piece. */
  function AppendText(acc: string, piece: string): string {
    if acc == "" then piece else acc + " " + piece
  }

  /** Parents whose text never counts as body text. */
  predicate IsExcludedTextParent(tag: string) {
    tag == "style" || tag == "script" || tag == "noscript"
  }

  /** `process_text`: text directly under an element, in the body segment,
      and not under `style`, `script` or `noscript`, joins the body text. */
  function ProcessText(seg: Segment, parentTag: string, contents: string, h: Html): (r: Html)
    ensures seg == Body && !IsExcludedTextParent(parentTag) ==>
      && (h.textContent == "" ==> r.textContent == contents)
      && (h.textContent != "" ==> r.textContent == h.textContent + " " + contents)
    ensures seg != Body || IsExcludedTextParent(parentTag) ==> r.textContent == h.textContent
    ensures r == h.(textContent := r.textContent)
  {
    if seg == Body && !IsExcludedTextParent(parentTag) then
      h.(textContent := AppendText(h.textContent, contents))
    else
      h
  }

  /** The language a node declares: a `lang` attribute on `html` or `body`. */
  function DeclaredLanguage(n: Node): Option<string> {
    if n.data.Element? && (n.data.name == "html" || n.data.name == "body")
    then GetAttribute(n.data.attrs, "lang")
    else None
  }

  /** The language step of `process_element`: overwrite only when declared. */
  function ProcessLanguage(n: Node, h: Html): (r: Html)
    ensures DeclaredLanguage(n).Some? ==> r.language == DeclaredLanguage(n)
    ensures DeclaredLanguage(n).None? ==> r.language == h.language
    ensures r == h.(language := r.language)
  {
    match DeclaredLanguage(n)
    case Some(lang) => h.(language := Some(lang))
    case None => h
  }

  /** The meta key: the first present of `property`, `name`, `http-equiv`. */
  function MetaKey(attrs: seq<Attribute>): (r: Option<string>)
    ensures GetAttribute(attrs, "property").Some? ==> r == GetAttribute(attrs, "property")
    ensures GetAttribute(attrs, "property").None? && GetAttribute(attrs, "name").Some? ==>
      r == GetAttribute(attrs, "name")
    ensures GetAttribute(attrs, "property").None? && GetAttribute(attrs, "name").None? ==>
      r == GetAttribute(attrs, "http-equiv")
  {
    GetAttribute(attrs, "property")
      .OrElse(GetAttribute(attrs, "name"))
      .OrElse(GetAttribute(attrs, "http-equiv"))
  }

  /** An `og:` key with at least one character after the prefix. */
  predicate IsOgKey(key: string) {
    StartsWith(key, "og:") && |key| > 3
  }

  /** The meta key a `<meta>` writes `content` under, when it has both. */
  function MetaEntry(attrs: seq<Attribute>): Option<(string, string)> {
    match (MetaKey(attrs), GetAttribute(attrs, "content"))
    case (Some(key), Some(content)) => Some((key, content))
    case _ => None
  }

  /** The keys a `<meta>` writes in the meta table. */
  predicate WritesMeta(attrs: seq<Attribute>, key: string) {
    || (key == "charset" && GetAttribute(attrs, "charset").Some?)
    || (MetaEntry(attrs).Some? && MetaEntry(attrs).value.0 == key)
  }

  /** The `content` half of the `<meta>` branch: the entry, and where an
      `og:` key or the `description` key sends it. */
  function MetaContent(attrs: seq<Attribute>, h: Html): (r: Html)
    ensures r == h.(meta := r.meta, opengraph := r.opengraph, description := r.description)
    ensures MetaEntry(attrs).None? ==> r == h
    ensures MetaEntry(attrs).Some? ==>
      var (key, content) := MetaEntry(attrs).value;
      && r.meta == h.meta[key := content]
      && r.opengraph == (if IsOgKey(key) then Og.Extend(h.opengraph, key[3..], content) else h.opengraph)
      && r.description == (if key == "description" then Some(content) else h.description)
  {
    assert !IsOgKey("description") by { assert "description"[..3] == "des"; }
    match MetaEntry(attrs)
    case Some((key, content)) =>
      var written := h.(meta := h.meta[key := content]);
      if IsOgKey(key) then written.(opengraph := Og.Extend(h.opengraph, key[3..], content))
      else if key == "description" then written.(description := Some(content))
      else written
    case None => h
  }

  /** The `<meta>` branch of head extraction. */
  function ProcessMeta(attrs: seq<Attribute>, h: Html): (r: Html)
    ensures r == h.(meta := r.meta, opengraph := r.opengraph, description := r.description)
    // `charset` is recorded on its own, content or not
    ensures GetAttribute(attrs, "charset").Some? ==>
      "charset" in r.meta && r.meta["charset"] == GetAttribute(attrs, "charset").value
    // otherwise the content lands under its key, overwriting
    ensures MetaEntry(attrs).Some? && !(MetaEntry(attrs).value.0 == "charset" && GetAttribute(attrs, "charset").Some?) ==>
      MetaEntry(attrs).value.0 in r.meta && r.meta[MetaEntry(attrs).value.0] == MetaEntry(attrs).value.1
    // no other key changes
    ensures forall key :: !WritesMeta(attrs, key) ==>
      (key in r.meta <==> key in h.meta) && (key in h.meta ==> r.meta[key] == h.meta[key])
    // an `og:` key goes to Opengraph without its prefix, and never sets the description
    ensures MetaEntry(attrs).Some? && IsOgKey(MetaEntry(attrs).value.0) ==>
      var (key, content) := MetaEntry(attrs).value;
      r.opengraph == Og.Extend(h.opengraph, key[3..], content) && r.description == h.description
    ensures !(MetaEntry(attrs).Some? && IsOgKey(MetaEntry(attrs).value.0)) ==> r.opengraph == h.opengraph
    // only the exact key `description` sets the description
    ensures MetaEntry(attrs).Some? && MetaEntry(attrs).value.0 == "description" ==>
      r.description == Some(MetaEntry(attrs).value.1)
    ensures !(MetaEntry(attrs).Some? && MetaEntry(attrs).value.0 == "description") ==>
      r.description == h.description
  {
    assert !IsOgKey("description") by { assert "description"[..3] == "des"; }
    var withContent := MetaContent(attrs, h);
    match GetAttribute(attrs, "charset")
    case Some(charset) => withContent.(meta := withContent.meta["charset" := charset])
    case None => withContent
  }

  /** The `type` values of `<link rel="alternate">` that announce a feed. */
  const FeedTypes: seq<string> := [
    "application/atom+xml",
    "application/json",
    "application/rdf+xml",
    "application/rss+xml",
    "application/xml",
    "text/xml"
  ]

  /** The `<link>` branch of head extraction. */
  function ProcessLink(attrs: seq<Attribute>, h: Html, env: Env): (r: Html)
    // a canonical link replaces the url, and clears it when there is no href
    ensures GetAttribute(attrs, "rel") == Some("canonical") ==>
      r == SetUrl(h, GetAttribute(attrs, "href"), env)
    // an alternate link with a feed type sets the feed (also to None)
    ensures GetAttribute(attrs, "rel") == Some("alternate") && GetAttribute(attrs, "type").UnwrapOr("") in FeedTypes ==>
      r == h.(feed := GetAttribute(attrs, "href"))
    // nothing else changes anything
    ensures GetAttribute(attrs, "rel") != Some("canonical") &&
            !(GetAttribute(attrs, "rel") == Some("alternate") && GetAttribute(attrs, "type").UnwrapOr("") in FeedTypes) ==>
      r == h
  {
    var relAttr := GetAttribute(attrs, "rel");
    var rel := relAttr.UnwrapOr("");
    assert rel == "canonical" <==> relAttr == Some("canonical") by { assert |"canonical"| != 0; }
    assert rel == "alternate" <==> relAttr == Some("alternate") by { assert |"alternate"| != 0; }
    if rel == "canonical" then
      SetUrl(h, GetAttribute(attrs, "href"), env)
    else if rel == "alternate" then
      var linkType := GetAttribute(attrs, "type").UnwrapOr("");
      if linkType in FeedTypes then h.(feed := GetAttribute(attrs, "href")) else h
    else
      h
  }

  /** Head extraction for one element (`title`, `meta`, `link`). */
  function ProcessHead(n: Node, h: Html, env: Env): (r: Html)
    requires n.data.Element?
    ensures n.data.name == "title" ==> r == h.(title := TextContent(n))
    ensures n.data.name == "meta" ==> r == ProcessMeta(n.data.attrs, h)
    ensures n.data.name == "link" ==> r == ProcessLink(n.data.attrs, h, env)
    ensures n.data.name !in {"title", "meta", "link"} ==> r == h
  {
    var tag := n.data.name;
    if tag == "title" then h.(title := TextContent(n))
    else if tag == "meta" then ProcessMeta(n.data.attrs, h)
    else if tag == "link" then ProcessLink(n.data.attrs, h, env)
    else h
  }

  /** A `<script type="application/ld+json">` with a text child. */
  predicate IsLdJsonScript(n: Node) {
    && n.data.Element? && n.data.name == "script"
    && GetAttribute(n.data.attrs, "type") == Some("application/ld+json")
    && TextContent(n).Some?
  }

  /** The Schema.org records a node contributes. */
  function LdJsonRecords(n: Node, env: Env): seq<Schema.SchemaOrg> {
    if IsLdJsonScript(n) then Schema.From(TextContent(n).value, env.parseJson) else []
  }

  /** The link resolver: the join of `href` against the base when there is
      a base and the join succeeds, the raw href otherwise. */
  function Resolve(href: string, base: Option<Url>, env: Env): (r: string)
    ensures base.Some? && env.joinUrl(base.value, href).Some? ==> r == env.joinUrl(base.value, href).value
    ensures base.None? || env.joinUrl(base.value, href).None? ==> r == href
  {
    match base
    case Some(url) =>
      (match env.joinUrl(url, href)
       case Some(joined) => joined
       case None => href)
    case None => href
  }

  /** An `<a>` with an `href`. */
  predicate IsAnchor(n: Node) {
    n.data.Element? && n.data.name == "a" && GetAttribute(n.data.attrs, "href").Some?
  }

  /** The anchor text: the trimmed first direct text child, or empty. */
  function AnchorText(n: Node): string {
    TextContent(n).UnwrapOr("")
  }

  /** The links a node contributes, resolved against `base`. */
  function AnchorLinks(n: Node, base: Option<Url>, env: Env): (r: seq<Link>)
    ensures IsAnchor(n) ==>
      r == [Link(Resolve(GetAttribute(n.data.attrs, "href").value, base, env), AnchorText(n))]
    ensures !IsAnchor(n) ==> r == []
  {
    if IsAnchor(n) then
      [Link(Resolve(GetAttribute(n.data.attrs, "href").value, base, env), AnchorText(n))]
    else []
  }

  /** `process_element`, for an element already in segment `seg`. */
  function ProcessElement(seg: Segment, n: Node, h: Html, env: Env): (r: Html)
    requires n.data.Element?
    ensures r.textContent == h.textContent
    ensures r.language == DeclaredLanguage(n).OrElse(h.language)
    // head extraction happens in the head segment only
    ensures seg == Head ==> SameHead(r, ProcessHead(n, h, env))
    ensures seg != Head ==> SameHead(r, h)
    // decoded JSON-LD records and links are appended, in any segment
    ensures r.schemaOrg == h.schemaOrg + LdJsonRecords(n, env)
    ensures r.links == h.links + AnchorLinks(n, h.urlParsed, env)
    ensures UrlConsistent(h, env) ==> UrlConsistent(r, env)
  {
    var withLang := ProcessLanguage(n, h);
    var withHead := if seg == Head then ProcessHead(n, withLang, env) else withLang;
    var withScripts := withHead.(schemaOrg := withHead.schemaOrg + LdJsonRecords(n, env));
    withScripts.(links := withScripts.links + AnchorLinks(n, withScripts.urlParsed, env))
  }

  /** What the walk does at one node before visiting its children, given
      the segment it inherits and its parent's payload. */
  function Step(n: Node, seg: Segment, parent: Option<NodeData>, h: Html, env: Env): Html {
    match n.data
    case Text(contents) =>
      if parent.Some? && parent.value.Element? then ProcessText(seg, parent.value.name, contents, h) else h
    case Element(name, _) => ProcessElement(EnterSegment(seg, name), n, h, env)
    case _ => h
  }

  /** The segment a node hands down to its children. */
  function InnerSegment(n: Node, seg: Segment): Segment {
    if n.data.Element? then EnterSegment(seg, n.data.name) else seg
  }

  /** `Parser::traverse`: process the node, then walk its children in order
      with the updated segment and this node as their parent. */
  function Traverse(n: Node, seg: Segment, parent: Option<NodeData>, h: Html, env: Env): (r: Html)
    requires NoProcessingInstruction(n)
    ensures UrlConsistent(h, env) ==> UrlConsistent(r, env)
    ensures h.links <= r.links && h.schemaOrg <= r.schemaOrg
    decreases n, 1
  {
    TraverseChildren(n, 0, InnerSegment(n, seg), Step(n, seg, parent, h, env), env)
  }

  /** The loop over the children of `p`, from position `i`. */
  function TraverseChildren(p: Node, i: nat, seg: Segment, h: Html, env: Env): (r: Html)
    requires NoProcessingInstruction(p) && i <= |p.children|
    ensures UrlConsistent(h, env) ==> UrlConsistent(r, env)
    ensures h.links <= r.links && h.schemaOrg <= r.schemaOrg
    decreases p, 0, |p.children| - i
  {
    if i == |p.children| then h
    else TraverseChildren(p, i + 1, seg, Traverse(p.children[i], seg, Some(p.data), h, env), env)
  }

  /** `Parser::start(document).traverse(html)` on a fresh record. */
  function Parse(doc: Node, baseUrl: Option<string>, env: Env): (r: Html)
    requires NoProcessingInstruction(doc)
    ensures UrlConsistent(r, env)
  {
    Traverse(doc, Outside, None, Initial(baseUrl, env), env)
  }
}
