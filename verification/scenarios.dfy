/** Walk statements about two small documents and one padded head title. */
module Scenarios {
  import opened Common
  import opened Dom
  import opened Parser

  function El(tag: string, children: seq<Node>): Node {
    Node(Element(tag, []), children)
  }

  function Txt(s: string): Node {
    Node(Text(s), [])
  }

  /** `<html><head><title>Hello</title></head><body>Contents` as a parser
      builds it. */
  function HelloDocument(): Node {
    Node(Document, [El("html", [El("head", [El("title", [Txt("Hello")])]), El("body", [Txt("Contents")])])])
  }

  lemma TrimHello()
    ensures Trim("  Hello  ") == "Hello"
  {
    var s := "  Hello  ";
    assert "Hello" == s[2..7];
    assert forall i :: 0 <= i < 2 ==> s[i] == ' ';
    assert forall i :: 7 <= i < |s| ==> s[i] == ' ';
    TrimUnique(s, "Hello", 2);
  }

  /** A text node without children: the walk is the text step alone. */
  lemma TextLeaf(s: string, seg: Segment, parent: Option<NodeData>, h: Html, env: Env)
    ensures var r := Traverse(Txt(s), seg, parent, h, env);
      r == Step(Txt(s), seg, parent, h, env) && r == h.(textContent := r.textContent)
  {
    var n := Txt(s);
    assert TraverseChildren(n, 0, seg, Step(n, seg, parent, h, env), env) == Step(n, seg, parent, h, env);
  }

  /** An element with a single text child. */
  lemma OneTextChild(tag: string, s: string, seg: Segment, parent: Option<NodeData>, h: Html, env: Env)
    ensures var n := El(tag, [Txt(s)]);
      var h1 := ProcessElement(EnterSegment(seg, tag), n, h, env);
      Traverse(n, seg, parent, h, env)
        == Step(Txt(s), EnterSegment(seg, tag), Some(n.data), h1, env)
  {
    var n := El(tag, [Txt(s)]);
    var inner := EnterSegment(seg, tag);
    var h1 := ProcessElement(inner, n, h, env);
    OneChild(tag, Txt(s), seg, parent, h, env);
    TextLeaf(s, inner, Some(n.data), h1, env);
  }

  /** The text content of a title whose text child is padded. */
  lemma PaddedTitleText()
    ensures TextContent(El("title", [Txt("  Hello  ")])) == Some("Hello")
  {
    TrimHello();
    assert FirstText(El("title", [Txt("  Hello  ")]).children) == Some("  Hello  ");
  }

  /** In the head, the padded title's element step records the trimmed text. */
  lemma PaddedTitleStep(h: Html, env: Env)
    ensures ProcessElement(Head, El("title", [Txt("  Hello  ")]), h, env).title == Some("Hello")
  {
    PaddedTitleText();
  }

  /** A title whose text child is padded gives the trimmed text. */
  lemma TitleIsTrimmed(h: Html, env: Env)
    ensures Traverse(El("title", [Txt("  Hello  ")]), Head, None, h, env).title == Some("Hello")
  {
    assert EnterSegment(Head, "title") == Head;
    PaddedTitleStep(h, env);
    OneTextChild("title", "  Hello  ", Head, None, h, env);
  }

  lemma NoInstructions(tag: string, kids: seq<Node>)
    requires forall i :: 0 <= i < |kids| ==> NoProcessingInstruction(kids[i])
    ensures NoProcessingInstruction(El(tag, kids))
  {
  }

  /** The loop over exactly one child is that child's walk. */
  lemma {:induction false} ChildrenOne(p: Node, seg: Segment, h: Html, env: Env)
    requires NoProcessingInstruction(p) && |p.children| == 1
    ensures TraverseChildren(p, 0, seg, h, env) == Traverse(p.children[0], seg, Some(p.data), h, env)
  {
    var h1 := Traverse(p.children[0], seg, Some(p.data), h, env);
    assert TraverseChildren(p, 1, seg, h1, env) == h1;
  }

  /** The loop over exactly two children is their walks, in order. */
  lemma {:induction false} ChildrenTwo(p: Node, seg: Segment, h: Html, env: Env)
    requires NoProcessingInstruction(p) && |p.children| == 2
    ensures TraverseChildren(p, 0, seg, h, env)
         == Traverse(p.children[1], seg, Some(p.data), Traverse(p.children[0], seg, Some(p.data), h, env), env)
  {
    var h1 := Traverse(p.children[0], seg, Some(p.data), h, env);
    var h2 := Traverse(p.children[1], seg, Some(p.data), h1, env);
    assert TraverseChildren(p, 2, seg, h2, env) == h2;
    assert TraverseChildren(p, 1, seg, h1, env) == h2;
  }

  /** An element's step is `process_element` in the segment it enters. */
  lemma ElementStep(n: Node, seg: Segment, parent: Option<NodeData>, h: Html, env: Env)
    requires n.data.Element?
    ensures Step(n, seg, parent, h, env) == ProcessElement(EnterSegment(seg, n.data.name), n, h, env)
    ensures InnerSegment(n, seg) == EnterSegment(seg, n.data.name)
  {
  }

  /** An element with one child: its own step, then the child's walk. */
  lemma OneChild(tag: string, child: Node, seg: Segment, parent: Option<NodeData>, h: Html, env: Env)
    requires NoProcessingInstruction(child)
    ensures NoProcessingInstruction(El(tag, [child]))
    ensures var n := El(tag, [child]);
      var inner := EnterSegment(seg, tag);
      Traverse(n, seg, parent, h, env)
        == Traverse(child, inner, Some(n.data), ProcessElement(inner, n, h, env), env)
  {
    var n := El(tag, [child]);
    NoInstructions(tag, [child]);
    ElementStep(n, seg, parent, h, env);
    ChildrenOne(n, EnterSegment(seg, tag), Step(n, seg, parent, h, env), env);
  }

  /** An element with two children: its own step, then each child's walk. */
  lemma TwoChildren(tag: string, c1: Node, c2: Node, seg: Segment, parent: Option<NodeData>, h: Html, env: Env)
    requires NoProcessingInstruction(c1) && NoProcessingInstruction(c2)
    ensures NoProcessingInstruction(El(tag, [c1, c2]))
    ensures var n := El(tag, [c1, c2]);
      var inner := EnterSegment(seg, tag);
      Traverse(n, seg, parent, h, env)
        == Traverse(c2, inner, Some(n.data), Traverse(c1, inner, Some(n.data), ProcessElement(inner, n, h, env), env), env)
  {
    var n := El(tag, [c1, c2]);
    NoInstructions(tag, [c1, c2]);
    ElementStep(n, seg, parent, h, env);
    ChildrenTwo(n, EnterSegment(seg, tag), Step(n, seg, parent, h, env), env);
  }

  lemma HelloTitleText()
    ensures TextContent(El("title", [Txt("Hello")])) == Some("Hello")
  {
    TrimUnpadded("Hello");
  }

  /** The element step of `<title>Hello</title>` in the head. */
  lemma HelloTitleStep(h: Html, env: Env)
    ensures var r := ProcessElement(Head, El("title", [Txt("Hello")]), h, env);
      r.title == Some("Hello") && r.description == h.description && r.textContent == h.textContent
  {
    HelloTitleText();
  }

  /** `<title>Hello</title>` inside the head sets the title. */
  lemma HelloTitle(h: Html, env: Env)
    requires h.description == None && h.textContent == ""
    ensures var r := Traverse(El("title", [Txt("Hello")]), Head, Some(Element("head", [])), h, env);
      r.title == Some("Hello") && r.description == None && r.textContent == ""
  {
    HelloTitleStep(h, env);
    OneTextChild("title", "Hello", Head, Some(Element("head", [])), h, env);
  }

  /** An element without attributes that is neither a `script` nor an `a`,
      nor a `title`, `meta` or `link` in the head, changes nothing. */
  lemma BareElementStep(tag: string, kids: seq<Node>, seg: Segment, h: Html, env: Env)
    requires tag != "script" && tag != "a"
    requires seg == Head ==> tag != "title" && tag != "meta" && tag != "link"
    ensures ProcessElement(seg, El(tag, kids), h, env) == h
  {
    var n := El(tag, kids);
    assert DeclaredLanguage(n) == None;
    assert LdJsonRecords(n, env) == [] && h.schemaOrg + [] == h.schemaOrg;
    assert AnchorLinks(n, h.urlParsed, env) == [] && h.links + [] == h.links;
  }

  /** `<head><title>Hello</title></head>` sets the title and nothing else
      this scenario looks at. */
  lemma HelloHead(h: Html, env: Env)
    requires h.description == None && h.textContent == ""
    ensures var r := Traverse(El("head", [El("title", [Txt("Hello")])]), Outside, Some(Element("html", [])), h, env);
      r.title == Some("Hello") && r.description == None && r.textContent == ""
  {
    var title := El("title", [Txt("Hello")]);
    var head := El("head", [title]);
    BareElementStep("head", [title], Head, h, env);
    HelloTitle(h, env);
    OneChild("head", title, Outside, Some(Element("html", [])), h, env);
  }

  /** `<body>Contents` makes "Contents" the body text, and touches no head field. */
  lemma ContentsBody(h: Html, env: Env)
    requires h.textContent == ""
    ensures var r := Traverse(El("body", [Txt("Contents")]), Outside, Some(Element("html", [])), h, env);
      r.title == h.title && r.description == h.description && r.textContent == "Contents"
  {
    var body := El("body", [Txt("Contents")]);
    BareElementStep("body", [Txt("Contents")], Body, h, env);
    OneTextChild("body", "Contents", Outside, Some(Element("html", [])), h, env);
    assert Step(Txt("Contents"), Body, Some(body.data), h, env) == ProcessText(Body, "body", "Contents", h);
  }

  /** The `<html>` element of the scenario. */
  lemma HelloHtml(h: Html, env: Env)
    requires h.description == None && h.textContent == ""
    ensures NoProcessingInstruction(HelloDocument().children[0])
    ensures var r := Traverse(HelloDocument().children[0], Outside, Some(Document), h, env);
      r.title == Some("Hello") && r.textContent == "Contents" && r.description == None
  {
    var title := El("title", [Txt("Hello")]);
    var head := El("head", [title]);
    var body := El("body", [Txt("Contents")]);
    var html := El("html", [head, body]);
    NoInstructions("title", [Txt("Hello")]);
    NoInstructions("head", [title]);
    NoInstructions("body", [Txt("Contents")]);
    BareElementStep("html", [head, body], Outside, h, env);
    HelloHead(h, env);
    var afterHead := Traverse(head, Outside, Some(html.data), h, env);
    ContentsBody(afterHead, env);
    TwoChildren("html", head, body, Outside, Some(Document), h, env);
  }

  /** The title comes from the head, the body text from the body, and
      there is no description. */
  lemma HelloContents(env: Env)
    ensures var r := Parse(HelloDocument(), None, env);
      r.title == Some("Hello") && r.textContent == "Contents" && r.description == None
  {
    var h0 := Initial(None, env);
    var doc := HelloDocument();
    HelloHtml(h0, env);
    var afterHtml := Traverse(doc.children[0], Outside, Some(Document), h0, env);
    assert TraverseChildren(doc, 1, Outside, afterHtml, env) == afterHtml;
    assert TraverseChildren(doc, 0, Outside, h0, env) == afterHtml;
  }

  /** A bare anchor `<a href='/a'>Link</a>` directly under the document
      node, parsed against the base url `https://example.com/`. */
  function AnchorDocument(): Node {
    Node(Document, [Node(Element("a", [Attribute("href", "/a")]), [Txt("Link")])])
  }

  /** The anchor's href, trimmed. */
  lemma AnchorHref()
    ensures GetAttribute(AnchorDocument().children[0].data.attrs, "href") == Some("/a")
  {
    TrimUnpadded("/a");
  }

  /** The anchor's text, trimmed. */
  lemma AnchorLinkText()
    ensures AnchorText(AnchorDocument().children[0]) == "Link"
  {
    TrimUnpadded("Link");
  }

  /** Processing the anchor element appends its one resolved link. */
  lemma AnchorElementStep(base: Url, h: Html, env: Env)
    requires h.urlParsed == Some(base) && h.links == []
    requires env.joinUrl(base, "/a") == Some("https://example.com/a")
    ensures ProcessElement(Outside, AnchorDocument().children[0], h, env).links
         == [Link("https://example.com/a", "Link")]
  {
    var a := AnchorDocument().children[0];
    AnchorHref();
    AnchorLinkText();
    assert IsAnchor(a);
    assert Resolve("/a", h.urlParsed, env) == "https://example.com/a";
    assert AnchorLinks(a, h.urlParsed, env) == [Link("https://example.com/a", "Link")];
  }

  /** The anchor's own step, as the walk takes it. */
  lemma AnchorStep(base: Url, h: Html, env: Env)
    requires h.urlParsed == Some(base) && h.links == []
    requires env.joinUrl(base, "/a") == Some("https://example.com/a")
    ensures Step(AnchorDocument().children[0], Outside, Some(Document), h, env).links
         == [Link("https://example.com/a", "Link")]
  {
    var a := AnchorDocument().children[0];
    ElementStep(a, Outside, Some(Document), h, env);
    assert EnterSegment(Outside, "a") == Outside;
    AnchorElementStep(base, h, env);
  }

  /** The anchor element with its text child: still that one link. */
  lemma AnchorLink(base: Url, h: Html, env: Env)
    requires h.urlParsed == Some(base) && h.links == []
    requires env.joinUrl(base, "/a") == Some("https://example.com/a")
    ensures Traverse(AnchorDocument().children[0], Outside, Some(Document), h, env).links
         == [Link("https://example.com/a", "Link")]
  {
    var a := AnchorDocument().children[0];
    var h1 := Step(a, Outside, Some(Document), h, env);
    AnchorStep(base, h, env);
    TextLeaf("Link", Outside, Some(a.data), h1, env);
    assert InnerSegment(a, Outside) == Outside;
    ChildrenOne(a, Outside, h1, env);
  }

  /** With a base url whose join of `/a` is `https://example.com/a`, the
      document yields exactly that one link, carrying the anchor text. */
  lemma AnchorIsResolved(base: Url, env: Env)
    requires env.parseUrl("https://example.com/") == Some(base)
    requires env.joinUrl(base, "/a") == Some("https://example.com/a")
    ensures Parse(AnchorDocument(), Some("https://example.com/"), env).links
         == [Link("https://example.com/a", "Link")]
  {
    var h0 := Initial(Some("https://example.com/"), env);
    var doc := AnchorDocument();
    AnchorLink(base, h0, env);
    var r := Traverse(doc.children[0], Outside, Some(Document), h0, env);
    assert TraverseChildren(doc, 1, Outside, r, env) == r;
    assert TraverseChildren(doc, 0, Outside, h0, env) == r;
  }
}
