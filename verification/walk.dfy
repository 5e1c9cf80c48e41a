/** What the walk of `parser.rs` computes, stated without the recursion:
    the walk is a left fold of the per-node step over the pre-order list of
    visits (node, inherited segment, parent payload). Body text, links,
    records, language and title are then described by what the individual
    visits contribute. */
module Walk {
  import opened Common
  import opened Dom
  import Schema
  import opened Parser
  import LegacyHtml

  /** One visit of the walk: the node, the segment it inherits, and the
      payload of its parent. */
  datatype Visit = Visit(node: Node, seg: Segment, parent: Option<NodeData>)

  /** The visits of a subtree in pre-order: the node first, then each child's
      subtree in order, the children inheriting the node's inner segment. */
  function Events(n: Node, seg: Segment, parent: Option<NodeData>): (vs: seq<Visit>)
    ensures vs != [] && vs[0] == Visit(n, seg, parent)
    decreases n, 1
  {
    [Visit(n, seg, parent)] + EventsIn(n, 0, InnerSegment(n, seg))
  }

  function EventsIn(p: Node, i: nat, seg: Segment): seq<Visit>
    requires i <= |p.children|
    decreases p, 0, |p.children| - i
  {
    if i == |p.children| then [] else Events(p.children[i], seg, Some(p.data)) + EventsIn(p, i + 1, seg)
  }

  /** The number of nodes of a subtree. */
  function Size(n: Node): nat
    decreases n, 1
  {
    1 + SizeIn(n, 0)
  }

  function SizeIn(p: Node, i: nat): nat
    requires i <= |p.children|
    decreases p, 0, |p.children| - i
  {
    if i == |p.children| then 0 else Size(p.children[i]) + SizeIn(p, i + 1)
  }

  /** The per-node steps, applied in order. */
  function Fold(vs: seq<Visit>, h: Html, env: Env): Html
    decreases |vs|
  {
    if vs == [] then h else Fold(vs[1..], Step(vs[0].node, vs[0].seg, vs[0].parent, h, env), env)
  }

  lemma {:induction false} FoldAppend(a: seq<Visit>, b: seq<Visit>, h: Html, env: Env)
    ensures Fold(a + b, h, env) == Fold(b, Fold(a, h, env), env)
    decreases |a|
  {
    if a == [] {
      assert a + b == b;
    } else {
      assert (a + b)[0] == a[0];
      assert (a + b)[1..] == a[1..] + b;
      FoldAppend(a[1..], b, Step(a[0].node, a[0].seg, a[0].parent, h, env), env);
    }
  }

  /** Folding a list ending in `v` is stepping `v` after the rest. */
  lemma FoldLast(vs: seq<Visit>, h: Html, env: Env)
    requires vs != []
    ensures var v := vs[|vs| - 1];
      Fold(vs, h, env) == Step(v.node, v.seg, v.parent, Fold(vs[..|vs| - 1], h, env), env)
  {
    var v := vs[|vs| - 1];
    assert vs == vs[..|vs| - 1] + [v];
    FoldAppend(vs[..|vs| - 1], [v], h, env);
  }

  /** The walk is depth-first and pre-order: it is exactly the fold of the
      per-node step over `Events`, so each node is processed once, before
      its children, and the children are visited in document order. */
  lemma {:induction false} TraverseIsPreorderFold(n: Node, seg: Segment, parent: Option<NodeData>, h: Html, env: Env)
    requires NoProcessingInstruction(n)
    ensures Traverse(n, seg, parent, h, env) == Fold(Events(n, seg, parent), h, env)
    decreases n, 1
  {
    var h1 := Step(n, seg, parent, h, env);
    var rest := EventsIn(n, 0, InnerSegment(n, seg));
    TraverseChildrenIsFold(n, 0, InnerSegment(n, seg), h1, env);
    FoldAppend([Visit(n, seg, parent)], rest, h, env);
  }

  lemma {:induction false} TraverseChildrenIsFold(p: Node, i: nat, seg: Segment, h: Html, env: Env)
    requires NoProcessingInstruction(p) && i <= |p.children|
    ensures TraverseChildren(p, i, seg, h, env) == Fold(EventsIn(p, i, seg), h, env)
    decreases p, 0, |p.children| - i
  {
    if i < |p.children| {
      var child := p.children[i];
      TraverseIsPreorderFold(child, seg, Some(p.data), h, env);
      var h1 := Traverse(child, seg, Some(p.data), h, env);
      TraverseChildrenIsFold(p, i + 1, seg, h1, env);
      FoldAppend(Events(child, seg, Some(p.data)), EventsIn(p, i + 1, seg), h, env);
    }
  }

  /** Every node of the tree is visited exactly once. */
  lemma {:induction false} EventsCoverTree(n: Node, seg: Segment, parent: Option<NodeData>)
    ensures |Events(n, seg, parent)| == Size(n)
    decreases n, 1
  {
    EventsInCoverChildren(n, 0, InnerSegment(n, seg));
  }

  lemma {:induction false} EventsInCoverChildren(p: Node, i: nat, seg: Segment)
    requires i <= |p.children|
    ensures |EventsIn(p, i, seg)| == SizeIn(p, i)
    decreases p, 0, |p.children| - i
  {
    if i < |p.children| {
      EventsCoverTree(p.children[i], seg, Some(p.data));
      EventsInCoverChildren(p, i + 1, seg);
    }
  }

  // ---------------------------------------------------------------------
  // Body text

  /** The text a visit adds to the body text: a text node in the body
      segment whose parent is an element other than style/script/noscript. */
  function BodyPiece(v: Visit): Option<string> {
    if && v.node.data.Text? && v.seg == Body
       && v.parent.Some? && v.parent.value.Element?
       && !IsExcludedTextParent(v.parent.value.name)
    then Some(v.node.data.contents)
    else None
  }

  /** The pieces of body text along a list of visits, in order. */
  function BodyPieces(vs: seq<Visit>): seq<string>
    decreases |vs|
  {
    if vs == [] then []
    else (match BodyPiece(vs[0]) case Some(t) => [t] case None => []) + BodyPieces(vs[1..])
  }

  /** Concatenation is associative. */
  lemma AppendAssoc<T>(a: seq<T>, b: seq<T>, c: seq<T>)
    ensures (a + b) + c == a + (b + c)
  {
  }

  /** Appending pieces one by one with the single-space rule. */
  function AppendAll(acc: string, pieces: seq<string>): string
    decreases |pieces|
  {
    if pieces == [] then acc else AppendAll(AppendText(acc, pieces[0]), pieces[1..])
  }

  /** Each piece preceded by one space. */
  function SpacePrefixed(pieces: seq<string>): string
    decreases |pieces|
  {
    if pieces == [] then "" else " " + pieces[0] + SpacePrefixed(pieces[1..])
  }

  /** The pieces joined with single spaces (`pieces.join(" ")`). */
  function SpaceJoin(pieces: seq<string>): string {
    if pieces == [] then "" else pieces[0] + SpacePrefixed(pieces[1..])
  }

  /** The pieces from the first non-empty one on. */
  function FromFirstNonEmpty(pieces: seq<string>): seq<string>
    decreases |pieces|
  {
    if pieces == [] then [] else if pieces[0] == "" then FromFirstNonEmpty(pieces[1..]) else pieces
  }

  /** The joining rule as a whole: appended to a non-empty text, every
      piece comes with one separating space; from an empty text, the
      result is the space-join of the pieces, leaving out only the empty
      pieces before the first non-empty one. */
  lemma {:induction false} AppendAllJoins(acc: string, pieces: seq<string>)
    ensures acc != "" ==> AppendAll(acc, pieces) == acc + SpacePrefixed(pieces)
    ensures acc == "" ==> AppendAll(acc, pieces) == SpaceJoin(FromFirstNonEmpty(pieces))
    decreases |pieces|
  {
    if pieces != [] {
      var next := AppendText(acc, pieces[0]);
      AppendAllJoins(next, pieces[1..]);
      if acc != "" {
        assert next == acc + (" " + pieces[0]);
        AppendAssoc(acc, " " + pieces[0], SpacePrefixed(pieces[1..]));
      }
    }
  }

  /** An element visit is `process_element` in the segment it enters; any
      other visit can change the body text only. */
  lemma StepShape(v: Visit, h: Html, env: Env)
    ensures v.node.data.Element? ==>
      Step(v.node, v.seg, v.parent, h, env) == ProcessElement(EnterSegment(v.seg, v.node.data.name), v.node, h, env)
    ensures !v.node.data.Element? ==>
      Step(v.node, v.seg, v.parent, h, env) == h.(textContent := Step(v.node, v.seg, v.parent, h, env).textContent)
  {
  }

  /** One visit's effect on the body text. */
  lemma StepText(v: Visit, h: Html, env: Env)
    ensures Step(v.node, v.seg, v.parent, h, env).textContent ==
      match BodyPiece(v) case Some(t) => AppendText(h.textContent, t) case None => h.textContent
  {
  }

  /** The body text after a list of visits: the pieces of body text, in
      order, appended with the single-space rule. */
  lemma {:induction false} FoldText(vs: seq<Visit>, h: Html, env: Env)
    ensures Fold(vs, h, env).textContent == AppendAll(h.textContent, BodyPieces(vs))
    decreases |vs|
  {
    if vs != [] {
      var v := vs[0];
      var h1 := Step(v.node, v.seg, v.parent, h, env);
      StepText(v, h, env);
      FoldText(vs[1..], h1, env);
      match BodyPiece(v)
      case Some(t) =>
        assert BodyPieces(vs) == [t] + BodyPieces(vs[1..]);
        assert AppendAll(h.textContent, BodyPieces(vs)) == AppendAll(h1.textContent, BodyPieces(vs[1..]));
      case None =>
        assert BodyPieces(vs) == BodyPieces(vs[1..]);
    }
  }

  lemma {:induction false} BodyPiecesAppend(a: seq<Visit>, b: seq<Visit>)
    ensures BodyPieces(a + b) == BodyPieces(a) + BodyPieces(b)
    decreases |a|
  {
    if a == [] {
      assert a + b == b;
    } else {
      assert (a + b)[0] == a[0];
      assert (a + b)[1..] == a[1..] + b;
      BodyPiecesAppend(a[1..], b);
    }
  }

  /** A `style`, `script` or `noscript` element whose children are all
      text (the raw text an HTML parser builds there) adds nothing to the
      body text. */
  lemma RawTextIsNotBodyText(n: Node, seg: Segment, parent: Option<NodeData>, h: Html, env: Env)
    requires NoProcessingInstruction(n)
    requires n.data.Element? && IsExcludedTextParent(n.data.name)
    requires forall i :: 0 <= i < |n.children| ==> n.children[i].data.Text? && n.children[i].children == []
    ensures Traverse(n, seg, parent, h, env).textContent == h.textContent
  {
    RawTextHasNoPieces(n, 0, InnerSegment(n, seg));
    assert BodyPieces(Events(n, seg, parent)) == BodyPieces(EventsIn(n, 0, InnerSegment(n, seg))) by {
      BodyPiecesAppend([Visit(n, seg, parent)], EventsIn(n, 0, InnerSegment(n, seg)));
    }
    TraverseIsPreorderFold(n, seg, parent, h, env);
    FoldText(Events(n, seg, parent), h, env);
  }

  lemma {:induction false} RawTextHasNoPieces(p: Node, i: nat, seg: Segment)
    requires p.data.Element? && IsExcludedTextParent(p.data.name) && i <= |p.children|
    requires forall j :: 0 <= j < |p.children| ==> p.children[j].data.Text? && p.children[j].children == []
    ensures BodyPieces(EventsIn(p, i, seg)) == []
    decreases |p.children| - i
  {
    if i < |p.children| {
      var c := p.children[i];
      assert EventsIn(c, 0, InnerSegment(c, seg)) == [];
      assert Events(c, seg, Some(p.data)) == [Visit(c, seg, Some(p.data))];
      RawTextHasNoPieces(p, i + 1, seg);
      BodyPiecesAppend(Events(c, seg, Some(p.data)), EventsIn(p, i + 1, seg));
    }
  }

  /** Only the immediate parent is checked: text inside an element nested
      in `noscript` does join the body text. */
  lemma NestedNoscriptTextCounts(h: Html, env: Env)
    requires h.textContent == ""
    ensures var p := Node(Element("p", []), [Node(Text("x"), [])]);
      Traverse(Node(Element("noscript", []), [p]), Body, None, h, env).textContent == "x"
  {
    var text := Node(Text("x"), []);
    var p := Node(Element("p", []), [text]);
    var noscript := Node(Element("noscript", []), [p]);
    assert InnerSegment(noscript, Body) == Body && InnerSegment(p, Body) == Body;
    assert EventsIn(text, 0, Body) == [];
    var vText := Events(text, Body, Some(p.data));
    assert vText == [Visit(text, Body, Some(p.data))];
    assert EventsIn(p, 1, Body) == [];
    assert EventsIn(p, 0, Body) == vText;
    var vP := Events(p, Body, Some(noscript.data));
    assert vP == [Visit(p, Body, Some(noscript.data))] + vText;
    assert EventsIn(noscript, 1, Body) == [];
    assert EventsIn(noscript, 0, Body) == vP;
    var vs := Events(noscript, Body, None);
    assert vs == [Visit(noscript, Body, None), Visit(p, Body, Some(noscript.data)), Visit(text, Body, Some(p.data))];
    assert BodyPieces(vs[2..]) == ["x"];
    assert BodyPieces(vs[1..]) == ["x"];
    assert BodyPieces(vs) == ["x"];
    TraverseIsPreorderFold(noscript, Body, None, h, env);
    FoldText(vs, h, env);
  }

  // ---------------------------------------------------------------------
  // Segments

  /** The tag that opens a segment. */
  function SegmentTag(s: Segment): string {
    match s
    case Head => "head"
    case Body => "body"
    case Outside => ""
  }

  /** The subtree holds an element with this tag. */
  predicate HasElement(n: Node, tag: string) {
    || (n.data.Element? && n.data.name == tag)
    || exists i :: 0 <= i < |n.children| && HasElement(n.children[i], tag)
  }

  /** No visit of the list is in segment `s` or enters it. */
  predicate AvoidsSegment(vs: seq<Visit>, s: Segment) {
    forall i :: 0 <= i < |vs| ==> vs[i].seg != s && InnerSegment(vs[i].node, vs[i].seg) != s
  }

  /** Segments are scoped to subtrees: a walk that starts outside the head
      (or body) reaches that segment only through a `head` (or `body`)
      element of the subtree itself. */
  lemma {:induction false} SegmentNeedsItsElement(n: Node, seg: Segment, parent: Option<NodeData>, s: Segment)
    requires s != Outside && seg != s && !HasElement(n, SegmentTag(s))
    ensures AvoidsSegment(Events(n, seg, parent), s)
    decreases n, 1
  {
    var inner := InnerSegment(n, seg);
    assert inner != s;
    forall i | 0 <= i < |n.children|
      ensures !HasElement(n.children[i], SegmentTag(s))
    {
    }
    SegmentNeedsItsElementIn(n, 0, inner, s);
    var vs := Events(n, seg, parent);
    var rest := EventsIn(n, 0, inner);
    assert vs == [Visit(n, seg, parent)] + rest;
    forall i | 0 <= i < |vs|
      ensures vs[i].seg != s && InnerSegment(vs[i].node, vs[i].seg) != s
    {
      if i > 0 {
        assert vs[i] == rest[i - 1];
      }
    }
  }

  lemma {:induction false} SegmentNeedsItsElementIn(p: Node, i: nat, seg: Segment, s: Segment)
    requires i <= |p.children| && s != Outside && seg != s
    requires forall j :: 0 <= j < |p.children| ==> !HasElement(p.children[j], SegmentTag(s))
    ensures AvoidsSegment(EventsIn(p, i, seg), s)
    decreases p, 0, |p.children| - i
  {
    if i < |p.children| {
      var a := Events(p.children[i], seg, Some(p.data));
      var b := EventsIn(p, i + 1, seg);
      SegmentNeedsItsElement(p.children[i], seg, Some(p.data), s);
      SegmentNeedsItsElementIn(p, i + 1, seg, s);
      var vs: seq<Visit> := a + b;
      assert EventsIn(p, i, seg) == vs;
      forall k | 0 <= k < |vs|
        ensures vs[k].seg != s && InnerSegment(vs[k].node, vs[k].seg) != s
      {
        if k >= |a| {
          assert vs[k] == b[k - |a|];
        }
      }
    }
  }

  /** Visits that never enter the head leave the head fields alone. */
  lemma {:induction false} FoldOutsideHead(vs: seq<Visit>, h: Html, env: Env)
    requires AvoidsSegment(vs, Head)
    ensures SameHead(Fold(vs, h, env), h)
    decreases |vs|
  {
    if vs != [] {
      var v := vs[0];
      var h1 := Step(v.node, v.seg, v.parent, h, env);
      assert InnerSegment(v.node, v.seg) != Head;
      assert SameHead(h1, h);
      FoldOutsideHead(vs[1..], h1, env);
    }
  }

  /** Title, description, url, feed, meta and Opengraph come from the head
      only: without a `head` element, a walk starting outside it leaves
      them unchanged. */
  lemma HeadFieldsNeedHead(n: Node, seg: Segment, parent: Option<NodeData>, h: Html, env: Env)
    requires NoProcessingInstruction(n) && seg != Head && !HasElement(n, "head")
    ensures SameHead(Traverse(n, seg, parent, h, env), h)
  {
    SegmentNeedsItsElement(n, seg, parent, Head);
    TraverseIsPreorderFold(n, seg, parent, h, env);
    FoldOutsideHead(Events(n, seg, parent), h, env);
  }

  lemma {:induction false} NoBodyNoPieces(vs: seq<Visit>)
    requires AvoidsSegment(vs, Body)
    ensures BodyPieces(vs) == []
    decreases |vs|
  {
    if vs != [] {
      assert BodyPiece(vs[0]).None?;
      NoBodyNoPieces(vs[1..]);
    }
  }

  /** Body text comes from the body only: without a `body` element, a walk
      starting outside it leaves the body text unchanged. */
  lemma TextNeedsBody(n: Node, seg: Segment, parent: Option<NodeData>, h: Html, env: Env)
    requires NoProcessingInstruction(n) && seg != Body && !HasElement(n, "body")
    ensures Traverse(n, seg, parent, h, env).textContent == h.textContent
  {
    SegmentNeedsItsElement(n, seg, parent, Body);
    NoBodyNoPieces(Events(n, seg, parent));
    TraverseIsPreorderFold(n, seg, parent, h, env);
    FoldText(Events(n, seg, parent), h, env);
  }

  // ---------------------------------------------------------------------
  // Links, Schema.org records, language

  /** The texts of a list of links. */
  function LinkTexts(links: seq<Link>): (r: seq<string>)
    ensures |r| == |links|
    ensures forall i :: 0 <= i < |links| ==> r[i] == links[i].text
  {
    if links == [] then [] else [links[0].text] + LinkTexts(links[1..])
  }

  lemma {:induction false} LinkTextsAppend(a: seq<Link>, b: seq<Link>)
    ensures LinkTexts(a + b) == LinkTexts(a) + LinkTexts(b)
  {
    var l, r := LinkTexts(a + b), LinkTexts(a) + LinkTexts(b);
    assert |l| == |r|;
    forall i | 0 <= i < |l| ensures l[i] == r[i] {
      if i >= |a| {
        assert (a + b)[i] == b[i - |a|];
      }
    }
  }

  /** The anchor texts of the `<a href>` elements among the visits, in order. */
  function AnchorTexts(vs: seq<Visit>): seq<string>
    decreases |vs|
  {
    if vs == [] then []
    else (if IsAnchor(vs[0].node) then [AnchorText(vs[0].node)] else []) + AnchorTexts(vs[1..])
  }

  /** One visit appends the links of its node, resolved against the url
      known at that point. */
  lemma StepLinks(v: Visit, h: Html, env: Env)
    ensures Step(v.node, v.seg, v.parent, h, env).links == h.links + AnchorLinks(v.node, h.urlParsed, env)
  {
    if !v.node.data.Element? {
      assert AnchorLinks(v.node, h.urlParsed, env) == [];
      assert h.links + [] == h.links;
    }
  }

  lemma AnchorLinkTexts(n: Node, base: Option<Url>, env: Env)
    ensures LinkTexts(AnchorLinks(n, base, env)) == if IsAnchor(n) then [AnchorText(n)] else []
  {
  }

  /** One link per `<a href>`, in document order, in any segment, carrying
      the anchor's text; the links found earlier are kept. */
  lemma {:induction false} FoldLinks(vs: seq<Visit>, h: Html, env: Env)
    ensures var r := Fold(vs, h, env);
      h.links <= r.links && LinkTexts(r.links) == LinkTexts(h.links) + AnchorTexts(vs)
    decreases |vs|
  {
    if vs != [] {
      var v := vs[0];
      var h1 := Step(v.node, v.seg, v.parent, h, env);
      var added := AnchorLinks(v.node, h.urlParsed, env);
      StepLinks(v, h, env);
      AnchorLinkTexts(v.node, h.urlParsed, env);
      LinkTextsAppend(h.links, added);
      FoldLinks(vs[1..], h1, env);
    }
  }

  /** The Schema.org records the visits contribute, in order. */
  function Records(vs: seq<Visit>, env: Env): seq<Schema.SchemaOrg>
    decreases |vs|
  {
    if vs == [] then [] else LdJsonRecords(vs[0].node, env) + Records(vs[1..], env)
  }

  /** One visit appends the records of its node. */
  lemma StepRecords(v: Visit, h: Html, env: Env)
    ensures Step(v.node, v.seg, v.parent, h, env).schemaOrg == h.schemaOrg + LdJsonRecords(v.node, env)
  {
    StepShape(v, h, env);
    if !v.node.data.Element? {
      assert !IsLdJsonScript(v.node);
      assert h.schemaOrg + [] == h.schemaOrg;
    }
  }

  /** Every JSON-LD script contributes all of its records, in document
      order and in any segment, after the records found before it. */
  lemma {:induction false} FoldRecords(vs: seq<Visit>, h: Html, env: Env)
    ensures Fold(vs, h, env).schemaOrg == h.schemaOrg + Records(vs, env)
    decreases |vs|
  {
    if vs != [] {
      var v := vs[0];
      var h1 := Step(v.node, v.seg, v.parent, h, env);
      var here := LdJsonRecords(v.node, env);
      var later := Records(vs[1..], env);
      assert Fold(vs, h, env) == Fold(vs[1..], h1, env);
      StepRecords(v, h, env);
      FoldRecords(vs[1..], h1, env);
      assert Records(vs, env) == here + later;
      AppendAssoc(h.schemaOrg, here, later);
    }
  }

  /** The language of the last `html`/`body` element among the visits that
      declares one, or `current` when none does. */
  function LastLanguage(vs: seq<Visit>, current: Option<string>): Option<string>
    decreases |vs|
  {
    if vs == [] then current
    else if DeclaredLanguage(vs[|vs| - 1].node).Some? then DeclaredLanguage(vs[|vs| - 1].node)
    else LastLanguage(vs[..|vs| - 1], current)
  }

  /** One visit's effect on the language. */
  lemma StepLanguage(v: Visit, h: Html, env: Env)
    ensures Step(v.node, v.seg, v.parent, h, env).language == DeclaredLanguage(v.node).OrElse(h.language)
  {
    StepShape(v, h, env);
    if !v.node.data.Element? {
      assert DeclaredLanguage(v.node) == None;
    }
  }

  /** The last declared language wins; without one the language is kept. */
  lemma {:induction false} FoldLanguage(vs: seq<Visit>, h: Html, env: Env)
    ensures Fold(vs, h, env).language == LastLanguage(vs, h.language)
    decreases |vs|
  {
    if vs != [] {
      var v := vs[|vs| - 1];
      FoldLast(vs, h, env);
      FoldLanguage(vs[..|vs| - 1], h, env);
      StepLanguage(v, Fold(vs[..|vs| - 1], h, env), env);
    }
  }

  /** A visit of a `title` element in the head segment. */
  predicate IsHeadTitle(v: Visit) {
    v.node.data.Element? && v.node.data.name == "title" && v.seg == Head
  }

  /** The text of the last head `title` among the visits, or `current` when
      there is none. A title without a text child counts, and gives `None`. */
  function LastTitle(vs: seq<Visit>, current: Option<string>): Option<string>
    decreases |vs|
  {
    if vs == [] then current
    else if IsHeadTitle(vs[|vs| - 1]) then TextContent(vs[|vs| - 1].node)
    else LastTitle(vs[..|vs| - 1], current)
  }

  /** One visit's effect on the title. */
  lemma StepTitle(v: Visit, h: Html, env: Env)
    ensures Step(v.node, v.seg, v.parent, h, env).title ==
      if IsHeadTitle(v) then TextContent(v.node) else h.title
  {
    StepShape(v, h, env);
    if v.node.data.Element? {
      var inner := EnterSegment(v.seg, v.node.data.name);
      assert inner == Head ==> v.seg == Head || v.node.data.name == "head";
    }
  }

  /** The last head title wins, not the first. */
  lemma {:induction false} FoldTitle(vs: seq<Visit>, h: Html, env: Env)
    ensures Fold(vs, h, env).title == LastTitle(vs, h.title)
    decreases |vs|
  {
    if vs != [] {
      var v := vs[|vs| - 1];
      FoldLast(vs, h, env);
      FoldTitle(vs[..|vs| - 1], h, env);
      StepTitle(v, Fold(vs[..|vs| - 1], h, env), env);
    }
  }

  /** The document-level statements, for the walk itself. */
  lemma TraverseFields(n: Node, seg: Segment, parent: Option<NodeData>, h: Html, env: Env)
    requires NoProcessingInstruction(n)
    ensures var r := Traverse(n, seg, parent, h, env);
      var vs := Events(n, seg, parent);
      && r.textContent == AppendAll(h.textContent, BodyPieces(vs))
      && LinkTexts(r.links) == LinkTexts(h.links) + AnchorTexts(vs)
      && r.schemaOrg == h.schemaOrg + Records(vs, env)
      && r.language == LastLanguage(vs, h.language)
      && r.title == LastTitle(vs, h.title)
  {
    var vs := Events(n, seg, parent);
    TraverseIsPreorderFold(n, seg, parent, h, env);
    FoldText(vs, h, env);
    FoldLinks(vs, h, env);
    FoldRecords(vs, h, env);
    FoldLanguage(vs, h, env);
    FoldTitle(vs, h, env);
  }

  // ---------------------------------------------------------------------
  // The two text_content helpers

  /** The walk's `text_content` is the legacy one, trimmed. */
  lemma TextContentIsTrimmedLegacy(n: Node)
    ensures TextContent(n) == match LegacyHtml.TextContent(n) case Some(s) => Some(Trim(s)) case None => None
  {
  }
}
