/** Schema.org information from JSON-LD: turning the body of one
    `application/ld+json` script into typed records. */
module Schema {
  import opened Common
  import opened Json

  /** `SchemaOrg`: a `@type` and the whole JSON object it was read from. */
  datatype SchemaOrg = SchemaOrg(schemaType: string, value: Value)

  /** The candidate objects of a root value: the elements of a root array,
      or the root alone. */
  function Candidates(root: Value): (c: seq<Value>)
    ensures root.Array? ==> c == root.items
    ensures !root.Array? ==> c == [root]
  {
    if root.Array? then root.items else [root]
  }

  /** The first candidate holds a JSON-LD `@graph` array. */
  predicate HasGraph(vals: seq<Value>) {
    vals != [] && vals[0].Object? && "@graph" in vals[0].fields && vals[0].fields["@graph"].Array?
  }

  /** `@graph` unwrapping: only the first candidate is looked at, and its
      graph replaces the whole candidate list. */
  function UnwrapGraph(vals: seq<Value>): (r: seq<Value>)
    ensures HasGraph(vals) ==> r == vals[0].fields["@graph"].items
    ensures !HasGraph(vals) ==> r == vals
  {
    if vals != [] && vals[0].Object? then
      var graph := Index(vals[0], "@graph");
      if graph.Array? then graph.items else vals
    else
      vals
  }

  /** A candidate that yields a record: its `@type` is a JSON string. */
  predicate Typed(v: Value) {
    Index(v, "@type").String?
  }

  /** The record a typed candidate yields. */
  function ToRecord(v: Value): (r: SchemaOrg)
    requires Typed(v)
  {
    SchemaOrg(Index(v, "@type").str, v)
  }

  /** The `flat_map` over the candidates: one record per typed candidate. */
  function Collect(vals: seq<Value>): (r: seq<SchemaOrg>)
    ensures |r| <= |vals|
  {
    if vals == [] then []
    else (if Typed(vals[0]) then [ToRecord(vals[0])] else []) + Collect(vals[1..])
  }

  /** Every record is a candidate, labelled with its own string `@type`. */
  lemma {:induction false} CollectSound(vals: seq<Value>)
    ensures forall i :: 0 <= i < |Collect(vals)| ==> Collect(vals)[i].value in vals
    ensures forall i :: 0 <= i < |Collect(vals)| ==> Index(Collect(vals)[i].value, "@type") == String(Collect(vals)[i].schemaType)
    decreases |vals|
  {
    if vals != [] {
      var r := Collect(vals);
      var head := if Typed(vals[0]) then [ToRecord(vals[0])] else [];
      var rest := Collect(vals[1..]);
      assert r == head + rest;
      CollectSound(vals[1..]);
      forall i | 0 <= i < |r|
        ensures r[i].value in vals && Index(r[i].value, "@type") == String(r[i].schemaType)
      {
        if i < |head| {
          assert r[i] == ToRecord(vals[0]);
        } else {
          assert r[i] == rest[i - |head|];
          assert rest[i - |head|].value in vals[1..];
        }
      }
    }
  }

  /** Every candidate with a string `@type` gives its record. */
  lemma {:induction false} CollectComplete(vals: seq<Value>)
    ensures forall v :: v in vals && Typed(v) ==> ToRecord(v) in Collect(vals)
    decreases |vals|
  {
    if vals != [] {
      var head := if Typed(vals[0]) then [ToRecord(vals[0])] else [];
      var rest := Collect(vals[1..]);
      assert Collect(vals) == head + rest;
      CollectComplete(vals[1..]);
      forall v | v in vals && Typed(v)
        ensures ToRecord(v) in Collect(vals)
      {
        if v != vals[0] {
          assert v in vals[1..];
        }
      }
    }
  }

  /** `SchemaOrg::from` once the script body has been parsed: a parse
      failure (`None`) reads as JSON `null`. */
  function FromParsed(parsed: Option<Value>): (r: seq<SchemaOrg>)
    ensures parsed.None? ==> r == []
    ensures |r| <= |UnwrapGraph(Candidates(parsed.UnwrapOr(Null)))|
  {
    Collect(UnwrapGraph(Candidates(parsed.UnwrapOr(Null))))
  }

  /** `SchemaOrg::from`, with `serde_json::from_str` as the `parse` collaborator. */
  function From(content: string, parse: string -> Option<Value>): seq<SchemaOrg> {
    FromParsed(parse(content))
  }

  /** `Collect` keeps the order of the candidates: it distributes over
      concatenation. */
  lemma {:induction false} CollectAppend(a: seq<Value>, b: seq<Value>)
    ensures Collect(a + b) == Collect(a) + Collect(b)
    decreases |a|
  {
    if a == [] {
      assert a + b == b;
    } else {
      assert (a + b)[0] == a[0];
      assert (a + b)[1..] == a[1..] + b;
      CollectAppend(a[1..], b);
      assert Collect(a + b) == (if Typed(a[0]) then [ToRecord(a[0])] else []) + Collect(a[1..] + b);
    }
  }

  /** Together with `CollectAppend`, this pins `Collect` down as the
      order-preserving filter of typed candidates. */
  lemma CollectOne(v: Value)
    ensures Collect([v]) == if Typed(v) then [ToRecord(v)] else []
  {
  }

  /** A root array gives its elements as candidates unless the first one
      carries a `@graph`; any other root is the single candidate. */
  lemma DecodeRoot(root: Value)
    ensures root.Array? && !HasGraph(root.items) ==> FromParsed(Some(root)) == Collect(root.items)
    ensures !root.Array? && !HasGraph([root]) ==> FromParsed(Some(root)) == Collect([root])
    ensures HasGraph(Candidates(root)) ==>
      FromParsed(Some(root)) == Collect(Candidates(root)[0].fields["@graph"].items)
  {
  }

  /** The unit test `test_empty`: `{}` decodes to no records; so does a body
      that does not parse. */
  lemma EmptyTest()
    ensures FromParsed(Some(Object(map[]))) == []
    ensures FromParsed(None) == []
  {
  }

  /** The unit test `test_type`: `{"@type": "NewsArticle"}` gives one
      NewsArticle record. */
  lemma TypeTest()
    ensures var r := FromParsed(Some(Object(map["@type" := String("NewsArticle")])));
      |r| == 1 && r[0].schemaType == "NewsArticle"
  {
    var v := Object(map["@type" := String("NewsArticle")]);
    assert !HasGraph([v]);
    assert Collect([v]) == [ToRecord(v)];
  }

  /** The unit test `test_graph`: the same object wrapped in a `@graph`
      array, next to a `@context`, gives the same single record. */
  lemma GraphTest()
    ensures var article := Object(map["@context" := String("https://schema.org"), "@type" := String("NewsArticle")]);
      var r := FromParsed(Some(Object(map["@context" := String("https://schema.org"), "@graph" := Array([article])])));
      |r| == 1 && r[0].schemaType == "NewsArticle"
  {
    var article := Object(map["@context" := String("https://schema.org"), "@type" := String("NewsArticle")]);
    var root := Object(map["@context" := String("https://schema.org"), "@graph" := Array([article])]);
    assert HasGraph([root]);
    assert UnwrapGraph(Candidates(root)) == [article];
    assert Collect([article]) == [ToRecord(article)];
  }
}
