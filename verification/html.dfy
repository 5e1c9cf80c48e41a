/** The older title-only extraction kept in `html.rs`: a first-match,
    depth-first search for a `<title>` element. */
module LegacyHtml {
  import opened Common
  import opened Dom

  /** The one-field `HTML` record of this variant. */
  datatype Html = Html(title: string)

  /** `text_content` of this variant: the first direct text child, untrimmed;
      deeper descendants are never looked at. */
  function TextContent(n: Node): Option<string> {
    FirstText(n.children)
  }

  /** The untrimmed contents of the first direct text child; `None`
      exactly when no child is text. */
  lemma TextContentSpec(n: Node)
    ensures TextContent(n).None? <==> forall i :: 0 <= i < |n.children| ==> !n.children[i].data.Text?
    ensures forall i :: FirstTextAt(n.children, i) ==> TextContent(n) == Some(n.children[i].data.contents)
  {
    FirstTextSpec(n.children);
  }

  /** `find_title`. */
  function FindTitle(n: Node): (r: Option<string>)
    requires NoProcessingInstruction(n)
    // a doctype, text or comment node ends the search below it
    ensures n.data.Doctype? || n.data.Text? || n.data.Comment? ==> r == None
    // a title element answers for its whole subtree, even with no text
    ensures n.data.Element? && n.data.name == "title" ==> r == TextContent(n)
    decreases n, 1
  {
    match n.data
    case Doctype(_) => None
    case Text(_) => None
    case Comment(_) => None
    case Element(name, _) => if name == "title" then TextContent(n) else FindTitleIn(n, 0)
    case Document => FindTitleIn(n, 0)
    case ProcessingInstruction(_, _) => assert false; None
  }

  /** The loop of `find_title` over the children of `p` from position `i`:
      the first child whose search succeeds wins. */
  function FindTitleIn(p: Node, i: nat): Option<string>
    requires NoProcessingInstruction(p) && i <= |p.children|
    decreases p, 0, |p.children| - i
  {
    if i == |p.children| then None
    else
      match FindTitle(p.children[i])
      case Some(t) => Some(t)
      case None => FindTitleIn(p, i + 1)
  }

  /** `HTML::from_string` once the document is parsed: no title, no record. */
  function FromString(doc: Node): (r: Option<Html>)
    requires NoProcessingInstruction(doc)
    ensures r.None? <==> FirstTitle(TitleElements(doc)).None?
    ensures r.Some? ==> r.value.title == FirstTitle(TitleElements(doc)).value
  {
    FindTitleIsFirstCandidate(doc);
    match FindTitle(doc)
    case Some(title) => Some(Html(title))
    case None => None
  }

  /** The title elements the search can reach, in document order: it never
      enters doctype, text or comment nodes, nor goes below a title element. */
  function TitleElements(n: Node): seq<Node>
    decreases n, 1
  {
    match n.data
    case Element(name, _) => if name == "title" then [n] else TitleElementsIn(n, 0)
    case Document => TitleElementsIn(n, 0)
    case _ => []
  }

  function TitleElementsIn(p: Node, i: nat): seq<Node>
    requires i <= |p.children|
    decreases p, 0, |p.children| - i
  {
    if i == |p.children| then [] else TitleElements(p.children[i]) + TitleElementsIn(p, i + 1)
  }

  /** The text of the first element in `ts` that has a direct text child. */
  function FirstTitle(ts: seq<Node>): (r: Option<string>)
    ensures r.None? <==> forall i :: 0 <= i < |ts| ==> TextContent(ts[i]).None?
    ensures r.Some? ==> exists i :: 0 <= i < |ts| && r == TextContent(ts[i]) &&
                                    forall j :: 0 <= j < i ==> TextContent(ts[j]).None?
  {
    if ts == [] then None
    else if TextContent(ts[0]).Some? then TextContent(ts[0])
    else
      var r := FirstTitle(ts[1..]);
      assert forall i :: 0 < i < |ts| ==> ts[i] == ts[1..][i - 1];
      if r.Some? then
        var i :| 0 <= i < |ts[1..]| && r == TextContent(ts[1..][i]) &&
                 forall j :: 0 <= j < i ==> TextContent(ts[1..][j]).None?;
        assert r == TextContent(ts[i + 1]);
        r
      else r
  }

  lemma {:induction false} FirstTitleAppend(a: seq<Node>, b: seq<Node>)
    ensures FirstTitle(a + b) == FirstTitle(a).OrElse(FirstTitle(b))
    decreases |a|
  {
    if a == [] {
      assert a + b == b;
    } else {
      assert (a + b)[0] == a[0];
      assert (a + b)[1..] == a[1..] + b;
      FirstTitleAppend(a[1..], b);
    }
  }

  /** The search result, described without the search: the text of the
      first reachable title element that has a direct text child. A title
      element without text does not stop its siblings from being searched. */
  lemma {:induction false} FindTitleIsFirstCandidate(n: Node)
    requires NoProcessingInstruction(n)
    ensures FindTitle(n) == FirstTitle(TitleElements(n))
    decreases n, 1
  {
    match n.data
    case Element(name, _) =>
      if name == "title" {
        assert TitleElements(n) == [n];
      } else {
        FindTitleInIsFirstCandidate(n, 0);
      }
    case Document => FindTitleInIsFirstCandidate(n, 0);
    case _ =>
  }

  lemma {:induction false} FindTitleInIsFirstCandidate(p: Node, i: nat)
    requires NoProcessingInstruction(p) && i <= |p.children|
    ensures FindTitleIn(p, i) == FirstTitle(TitleElementsIn(p, i))
    decreases p, 0, |p.children| - i
  {
    if i < |p.children| {
      FindTitleIsFirstCandidate(p.children[i]);
      FindTitleInIsFirstCandidate(p, i + 1);
      FirstTitleAppend(TitleElements(p.children[i]), TitleElementsIn(p, i + 1));
    }
  }

  /** A title element whose only child is an element (here a nested title)
      yields nothing, and the nested title is never reached. */
  lemma TitleWithoutTextStops()
    ensures var inner := Node(Element("title", []), [Node(Text("Inner"), [])]);
      FindTitle(Node(Element("title", []), [inner])) == None
  {
    TextContentSpec(Node(Element("title", []), [Node(Element("title", []), [Node(Text("Inner"), [])])]));
  }

  /** `from_string` on a document without any title element is `None`. */
  lemma NoTitleNoRecord(doc: Node)
    requires NoProcessingInstruction(doc) && TitleElements(doc) == []
    ensures FromString(doc) == None
  {
  }
}
