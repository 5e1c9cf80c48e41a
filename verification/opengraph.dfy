/** Opengraph information (ogp.me): folding the `og:` meta properties of a
    page into a type, a flat property table and three lists of grouped
    media objects, following the protocol's "Structured Properties" and
    "Arrays" conventions. */
module Og {
  import opened Common

  /** `OpengraphObject`: one image, video or audio item. */
  datatype OgObject = OgObject(url: string, properties: map<string, string>)

  /** `Opengraph`: the accumulated result. */
  datatype Opengraph = Opengraph(
    ogType: string,
    properties: map<string, string>,
    images: seq<OgObject>,
    videos: seq<OgObject>,
    audios: seq<OgObject>)
  {
    /** The object list that media kind `kind` groups into. */
    function Objects(kind: string): seq<OgObject>
      requires IsKind(kind)
    {
      if kind == "image" then images else if kind == "video" then videos else audios
    }
  }

  /** The three media kinds that group into object lists. */
  predicate IsKind(kind: string) {
    kind == "image" || kind == "video" || kind == "audio"
  }

  /** Where `extend` sends a property (the `og:` prefix already stripped). */
  datatype Route = SetType | Group(kind: string) | Flat

  /** The dispatch of `extend`: `type` first, then the media prefixes in the
      order image, video, audio, and everything else to the flat table. */
  function RouteOf(property: string): (r: Route)
    ensures r == SetType <==> property == "type"
    ensures r.Group? ==> IsKind(r.kind) && StartsWith(property, r.kind)
    ensures r == Flat <==> property != "type" && forall k :: IsKind(k) ==> !StartsWith(property, k)
  {
    if property == "type" then SetType
    else if StartsWith(property, "image") then Group("image")
    else if StartsWith(property, "video") then Group("video")
    else if StartsWith(property, "audio") then Group("audio")
    else Flat
  }

  /** `OpengraphObject::new`: an object with a url and no properties yet. */
  function NewObject(url: string): OgObject {
    OgObject(url, map[])
  }

  /** `Opengraph::empty`. */
  function Empty(): (g: Opengraph)
    ensures g.ogType == "website" && g.properties == map[]
    ensures forall k :: IsKind(k) ==> g.Objects(k) == []
  {
    Opengraph("website", map[], [], [], [])
  }

  /** A property that starts a new object of media kind `kind`: the bare
      kind, or the kind followed by `:url`. */
  predicate Opens(kind: string, property: string)
    requires StartsWith(property, kind)
  {
    property == kind || property[|kind|..] == ":url"
  }

  /** `parse_object` cuts the sub-property key at the fixed offset `"image:".len()`
      whichever of the three (five-letter) kinds it is grouping. */
  const SubKeyOffset: nat := |"image:"|

  /** `parse_object`: fold one property of media kind `kind` into its list. */
  function ParseObject(kind: string, property: string, content: string, objects: seq<OgObject>): (r: seq<OgObject>)
    requires IsKind(kind) && StartsWith(property, kind)
    // an opener appends a fresh object and keeps every earlier one
    ensures Opens(kind, property) ==>
      |r| == |objects| + 1 && r[..|objects|] == objects && r[|objects|] == NewObject(content)
    // a qualified property lands in the last object, under the key after `kind:`
    ensures !Opens(kind, property) && objects != [] && |property| > |kind| + 1 ==>
      && |r| == |objects|
      && r[..|objects| - 1] == objects[..|objects| - 1]
      && r[|objects| - 1].url == objects[|objects| - 1].url
      && r[|objects| - 1].properties == objects[|objects| - 1].properties[property[SubKeyOffset..] := content]
    // with no open object, or nothing after the kind, the property is dropped
    ensures !Opens(kind, property) && (objects == [] || |property| <= |kind| + 1) ==> r == objects
  {
    if Opens(kind, property) then
      objects + [NewObject(content)]
    else if |objects| > 0 && |property| > |kind| + 1 then
      var last := objects[|objects| - 1];
      objects[..|objects| - 1] + [last.(properties := last.properties[property[SubKeyOffset..] := content])]
    else
      objects
  }

  /** `Opengraph::extend`, with `property` already stripped of `og:`. */
  function Extend(g: Opengraph, property: string, content: string): (r: Opengraph)
    // `type` overwrites the type and nothing else
    ensures RouteOf(property) == SetType ==>
      r.ogType == content && r.properties == g.properties &&
      forall k :: IsKind(k) ==> r.Objects(k) == g.Objects(k)
    // a media property changes only the list of its own kind
    ensures RouteOf(property).Group? ==>
      var kind := RouteOf(property).kind;
      && r.ogType == g.ogType && r.properties == g.properties
      && r.Objects(kind) == ParseObject(kind, property, content, g.Objects(kind))
      && forall k :: IsKind(k) && k != kind ==> r.Objects(k) == g.Objects(k)
    // anything else is written (or overwritten) in the flat table
    ensures RouteOf(property) == Flat ==>
      r.ogType == g.ogType && r.properties == g.properties[property := content] &&
      forall k :: IsKind(k) ==> r.Objects(k) == g.Objects(k)
  {
    match RouteOf(property)
    case SetType => g.(ogType := content)
    case Group(kind) =>
      if kind == "image" then g.(images := ParseObject(kind, property, content, g.images))
      else if kind == "video" then g.(videos := ParseObject(kind, property, content, g.videos))
      else g.(audios := ParseObject(kind, property, content, g.audios))
    case Flat => g.(properties := g.properties[property := content])
  }

  /** Successive `extend` calls, in order. */
  function ExtendAll(g: Opengraph, props: seq<(string, string)>): Opengraph
    decreases |props|
  {
    if props == [] then g
    else ExtendAll(Extend(g, props[0].0, props[0].1), props[1..])
  }

  /** The urls of a list of objects, in order. */
  function Urls(objects: seq<OgObject>): (r: seq<string>)
    ensures |r| == |objects|
    ensures forall i :: 0 <= i < |objects| ==> r[i] == objects[i].url
  {
    if objects == [] then [] else [objects[0].url] + Urls(objects[1..])
  }

  /** The contents of the properties in `props` that open an object of kind
      `kind`: the urls the objects of that kind are created with. */
  function OpenerContents(kind: string, props: seq<(string, string)>): seq<string>
    requires IsKind(kind)
    decreases |props|
  {
    if props == [] then []
    else
      var p := props[0].0;
      var here := if RouteOf(p) == Group(kind) && Opens(kind, p) then [props[0].1] else [];
      here + OpenerContents(kind, props[1..])
  }

  /** The content of the last `type` property in `props`, or `current` if
      there is none. */
  function LastType(props: seq<(string, string)>, current: string): string
    decreases |props|
  {
    if props == [] then current
    else if props[|props| - 1].0 == "type" then props[|props| - 1].1
    else LastType(props[..|props| - 1], current)
  }

  /** Looking for the last `type` from the back agrees with letting the
      first property update `current` and looking through the rest. */
  lemma {:induction false} LastTypeFront(props: seq<(string, string)>, current: string)
    requires props != []
    ensures LastType(props, current)
         == LastType(props[1..], if props[0].0 == "type" then props[0].1 else current)
    decreases |props|
  {
    if |props| > 1 {
      var front := props[..|props| - 1];
      assert front[1..] == props[1..][..|props[1..]| - 1];
      LastTypeFront(front, current);
    }
  }

  /** One `parse_object` step adds the opener's content to the url list and
      otherwise leaves the urls alone. */
  lemma ParseObjectUrls(kind: string, property: string, content: string, objects: seq<OgObject>)
    requires IsKind(kind) && StartsWith(property, kind)
    ensures Urls(ParseObject(kind, property, content, objects))
         == Urls(objects) + (if Opens(kind, property) then [content] else [])
  {
  }

  /** One `extend` call adds the content of an opener of `kind` to that
      kind's url list, and leaves the list's urls alone otherwise. */
  lemma ExtendUrls(g: Opengraph, property: string, content: string, kind: string)
    requires IsKind(kind)
    ensures Urls(Extend(g, property, content).Objects(kind))
         == Urls(g.Objects(kind)) + (if RouteOf(property) == Group(kind) && Opens(kind, property) then [content] else [])
  {
    if RouteOf(property) == Group(kind) {
      ParseObjectUrls(kind, property, content, g.Objects(kind));
    }
  }

  /** Object grouping, over any sequence of properties: the k-th object of a
      kind is the one opened by the k-th opener of that kind, carrying the
      opener's content as its url. Qualified properties never create,
      remove or re-url an object, and other kinds never touch the list. */
  lemma {:induction false} ExtendAllUrls(g: Opengraph, props: seq<(string, string)>, kind: string)
    requires IsKind(kind)
    ensures Urls(ExtendAll(g, props).Objects(kind)) == Urls(g.Objects(kind)) + OpenerContents(kind, props)
    decreases |props|
  {
    if props != [] {
      var g' := Extend(g, props[0].0, props[0].1);
      ExtendUrls(g, props[0].0, props[0].1, kind);
      ExtendAllUrls(g', props[1..], kind);
      assert ExtendAll(g, props) == ExtendAll(g', props[1..]);
    }
  }

  /** The type is "website" until a `type` property arrives; then the last one wins. */
  lemma {:induction false} ExtendAllType(g: Opengraph, props: seq<(string, string)>)
    ensures ExtendAll(g, props).ogType == LastType(props, g.ogType)
    decreases |props|
  {
    if props != [] {
      var g' := Extend(g, props[0].0, props[0].1);
      ExtendAllType(g', props[1..]);
      LastTypeFront(props, g.ogType);
    }
  }

  /** The unit test of `og:type`: the default, then one overwrite. */
  lemma TypeTest()
    ensures Empty().ogType == "website"
    ensures Extend(Empty(), "type", "article").ogType == "article"
  {
  }

  /** Two properties are two `extend` calls. */
  lemma ExtendTwo(g: Opengraph, p: (string, string), q: (string, string))
    ensures ExtendAll(g, [p, q]) == Extend(Extend(g, p.0, p.1), q.0, q.1)
  {
    var g1 := Extend(g, p.0, p.1);
    assert [p, q][1..] == [q];
    assert ExtendAll(g, [p, q]) == ExtendAll(g1, [q]);
    assert [q][1..] == [];
    assert ExtendAll(g1, [q]) == ExtendAll(Extend(g1, q.0, q.1), []);
  }

  /** The opener of the image unit test starts the one image. */
  lemma ImageOpens()
    ensures Extend(Empty(), "image", "http://example.org/image.png").images == [NewObject("http://example.org/image.png")]
  {
    assert RouteOf("image") == Group("image");
  }

  /** `image:secure_url` lands, under `secure_url`, in the last image. */
  lemma SecureUrlAttaches(g: Opengraph, content: string)
    requires g.images != []
    ensures var r := Extend(g, "image:secure_url", content);
      && |r.images| == |g.images|
      && r.images[|r.images| - 1].url == g.images[|g.images| - 1].url
      && r.images[|r.images| - 1].properties == g.images[|g.images| - 1].properties["secure_url" := content]
  {
    assert RouteOf("image:secure_url") == Group("image");
    assert "image:secure_url"[5..] == ":secure_url";
    assert "image:secure_url"[SubKeyOffset..] == "secure_url";
  }

  /** The unit test of image grouping: `image` then `image:secure_url` gives
      one image, with the http url and the https `secure_url` property. */
  lemma ImageTest()
    ensures var g := ExtendAll(Empty(), [("image", "http://example.org/image.png"),
                                         ("image:secure_url", "https://example.org/image.png")]);
      && |g.images| == 1
      && g.images[0].url == "http://example.org/image.png"
      && "secure_url" in g.images[0].properties
      && g.images[0].properties["secure_url"] == "https://example.org/image.png"
  {
    var g1 := Extend(Empty(), "image", "http://example.org/image.png");
    ExtendTwo(Empty(), ("image", "http://example.org/image.png"), ("image:secure_url", "https://example.org/image.png"));
    ImageOpens();
    SecureUrlAttaches(g1, "https://example.org/image.png");
  }

  /** The sub-property key is cut at a fixed offset of six characters, so a
      property that merely starts with a kind name (`imagesize`) also
      attaches to the last object, under the key left after six characters. */
  lemma FixedOffsetSubKey(g: Opengraph)
    requires g.images != []
    ensures var r := Extend(g, "imagesize", "x");
      && |r.images| == |g.images|
      && r.images[|r.images| - 1].properties == g.images[|g.images| - 1].properties["ize" := "x"]
  {
    assert RouteOf("imagesize") == Group("image");
    assert "imagesize"[5..] == "size";
    assert "imagesize"[SubKeyOffset..] == "ize";
  }
}
