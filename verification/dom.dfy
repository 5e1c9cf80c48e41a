/** The already-parsed document tree the extraction walks, in the shape of
    markup5ever's RcDom: every node has a payload and an ordered list of
    children (text, comment and doctype nodes included, though a parser
    leaves theirs empty). */
module Dom {
  import opened Common

  /** An element attribute: its local name and its raw value. */
  datatype Attribute = Attribute(name: string, value: string)

  /** `NodeData`: what kind of node this is. */
  datatype NodeData =
    | Document
    | Doctype(name: string)
    | Text(contents: string)
    | Comment(contents: string)
    | Element(name: string, attrs: seq<Attribute>)
    | ProcessingInstruction(target: string, contents: string)

  datatype Node = Node(data: NodeData, children: seq<Node>)

  /** An HTML parser never produces processing instructions; both walks
      treat one as unreachable. */
  predicate NoProcessingInstruction(n: Node) {
    && !n.data.ProcessingInstruction?
    && forall i :: 0 <= i < |n.children| ==> NoProcessingInstruction(n.children[i])
  }

  /** `i` is the position of the first text node in `kids`. */
  predicate FirstTextAt(kids: seq<Node>, i: int) {
    && 0 <= i < |kids|
    && kids[i].data.Text?
    && forall j :: 0 <= j < i ==> !kids[j].data.Text?
  }

  /** The raw contents of the first text node in `kids`, if there is one;
      `FirstTextSpec` states which. */
  function FirstText(kids: seq<Node>): Option<string>
    decreases |kids|
  {
    if kids == [] then None
    else if kids[0].data.Text? then Some(kids[0].data.contents)
    else FirstText(kids[1..])
  }

  /** `FirstText` is the contents of the first text node, and `None`
      exactly when no node is text. */
  lemma {:induction false} FirstTextSpec(kids: seq<Node>)
    ensures FirstText(kids).None? <==> forall i :: 0 <= i < |kids| ==> !kids[i].data.Text?
    ensures forall i :: FirstTextAt(kids, i) ==> FirstText(kids) == Some(kids[i].data.contents)
    decreases |kids|
  {
    if kids != [] && !kids[0].data.Text? {
      FirstTextSpec(kids[1..]);
      assert forall i :: 0 < i < |kids| ==> kids[i] == kids[1..][i - 1];
      assert forall i :: FirstTextAt(kids, i) ==> FirstTextAt(kids[1..], i - 1);
    }
  }
}
