# webpage-rs metadata extraction, modelled in Dafny

This project models the metadata-extraction core of the Rust crate
`webpage`. After an HTML document is parsed into a node tree, the crate
walks the tree once, depth-first and in pre-order, and fills in an `HTML`
record with these fields:

- title and description;
- canonical url and its parsed form;
- feed;
- language;
- body text;
- the `<meta>` table;
- Opengraph information;
- Schema.org records;
- outbound links.

The model covers four parts of that core:

- **`Parser`** (`src/parser.rs`) is the walk. It threads a three-valued
  segment (outside, head, body) down the recursion and dispatches on each
  element's tag:
  - `lang` on `html`/`body`;
  - `title`, `meta` and `link`, in the head only;
  - JSON-LD `script`s, in any segment;
  - `a href`, in any segment.

  It also builds the body text with a single-space join.
- **`Og`** (`src/opengraph.rs`) is the Opengraph accumulator. It folds
  `og:` properties into:
  - a type;
  - a flat property table;
  - image, video and audio object lists, following the "Structured
    Properties" and "Arrays" conventions of the Open Graph protocol.
- **`Schema`** (`src/schema_org.rs`) is the Schema.org decoder. It handles
  the root array, the `@graph` unwrap on the first candidate, and the
  filter on a string `@type`.
- **`LegacyHtml`** (`src/html.rs`) is the older title-only variant: a
  first-match depth-first search for `<title>`.

Supporting modules:

- `Common`: an `Option` type, `starts_with`, Rust's `trim`.
- `Dom`: the node tree.
- `Json`: JSON values and serde's `value[key]`.
- `Walk`: describes the walk as a left fold of a per-node step over the
  pre-order list of visits. Body text, links, records, language and title
  are then described by what the individual visits contribute.
- `Scenarios`: walk statements about two small documents and one padded head title.

The walk calls three collaborators: `Url::parse`, `Url::join` (followed by
`to_string`), and `serde_json::from_str`. They are not modelled. They are
the function-valued fields of `Parser.Env`, and each returns `None` on
failure. Every statement holds for every choice of these functions.

## Behaviour as written

The model follows the code. In a few places the code does something a
reader of the crate's documentation might not expect:

- **Title.** Every `<title>` in the head overwrites the title, so the last
  one wins (`Walk.FoldTitle`). A `<title>` without a direct text child
  resets it to `None`. The legacy finder, by contrast, returns the text of
  the first reachable `<title>` that has a direct text child. It never
  descends into a title element, and a title without text lets the search
  continue with the next sibling (`LegacyHtml.FindTitleIsFirstCandidate`).
- **Body text.** Body text pieces are appended untrimmed.
- **`style`/`script`/`noscript`.** Only the immediate parent of a text
  node is checked against these tags. Text inside an element nested in
  `noscript` does reach the body text (`Walk.NestedNoscriptTextCounts`).
  Such an element whose children are all text (the raw text an HTML
  parser builds there) adds nothing (`Walk.RawTextIsNotBodyText`).
- **Segments.** Entering `head` gives the head segment whatever the
  inherited one (src/parser.rs:59-60), so a `title` inside a `head` nested
  in `body` still sets the title. An HTML5 parser never builds that tree.
- **Anchor text.** This is the trimmed first direct text child, as for
  `<title>`. Descendant text is not collected.
- **Opengraph sub-keys.** The sub-key of a grouped property is cut at the
  fixed offset `"image:".len()` (6) for all three kinds. A property that
  merely starts with the kind name, such as `og:imagesize`, therefore
  attaches the key `ize` to the last image (`Og.FixedOffsetSubKey`).
- **Initial record.** The parser-era bodies of `HTML::from_string` with a
  base url (called at `src/lib.rs:121`) and of `set_url` do not appear in
  `src/html.rs`, which holds an older one-field `HTML`. `Parser.Initial` takes the
  record it starts from to be:
  - an empty record,
  - an empty Opengraph (`Og.Empty`),
  - then `set_url(base url)`.

## Model

| member | source | states |
|---|---|---|
| Common.TrimSlice | src/parser.rs:189 | `trim` removes only leading and trailing whitespace; the result is a slice of the input that neither starts nor ends with whitespace |
| Common.TrimmedBlank | src/parser.rs:189 | the trimmed value is empty exactly when the whole input is whitespace |
| Common.TrimUnique | src/parser.rs:189 | only one slice meets those conditions, so `Trim` is fully determined by them |
| Common.TrimIdempotent | src/parser.rs:197 | trimming an already trimmed value changes nothing |
| Common.TrimUnpadded | src/parser.rs:197 | a string without leading or trailing whitespace is its own trim |
| Dom.FirstTextSpec | src/parser.rs:194-201 | the contents of the first direct text child; `None` exactly when no child is a text node |
| Parser.SetUrl | src/parser.rs:138 | `set_url` sets the url, re-derives its parsed form from it, and changes nothing else |
| Parser.Initial | src/lib.rs:121 | the starting record holds the caller's base url with a consistent parsed form; title, description, feed and language are `None`; Opengraph is `Og.Empty`; there is no text, meta entry, record or link |
| Parser.EnterSegment | src/parser.rs:59-63 | entering `head` gives Head, entering `body` gives Body, any other tag keeps the inherited segment |
| Parser.GetAttributeSpec | src/parser.rs:185-190 | the trimmed value of the first attribute with that name; `None` exactly when no attribute has that name |
| Parser.TextContentSpec | src/parser.rs:192-202 | the trimmed text of the first direct text child; `None` exactly when there is no direct text child |
| Parser.ProcessText | src/parser.rs:82-91 | text in the body segment outside `style`/`script`/`noscript` is appended, after one space when the body text is non-empty; otherwise nothing changes; no other field changes |
| Parser.ProcessLanguage | src/parser.rs:100-106 | a `lang` declared on `html`/`body` overwrites the language; otherwise the language is kept; no other field changes |
| Parser.MetaKey | src/parser.rs:116-118 | the key is the first present of `property`, `name`, `http-equiv` |
| Parser.MetaContent | src/parser.rs:114-129 | with content and a key, the entry is written; an `og:` key goes to Opengraph without its prefix; only the key `description` sets the description; without both, nothing changes |
| Parser.ProcessMeta | src/parser.rs:113-134 | `charset` is recorded even without content; the content entry overwrites under its key; no other key changes; an `og:` key never sets the description; only meta, Opengraph and description can change |
| Parser.ProcessLink | src/parser.rs:135-154 | `rel=canonical` calls `set_url` with the href, clearing the url when there is none; `rel=alternate` with one of the six feed types sets the feed; anything else changes nothing |
| Parser.ProcessHead | src/parser.rs:109-155 | in the head, `title` sets the title to the text content, `meta` and `link` go to their branches, and other tags change nothing |
| Parser.Resolve | src/parser.rs:171-179 | the join against the base when there is a base and the join succeeds, the raw href otherwise |
| Parser.AnchorLinks | src/parser.rs:168-182 | an `a` with an `href` gives exactly one link (resolved href, trimmed first text child or empty); any other node gives none |
| Parser.ProcessElement | src/parser.rs:93-183 | body text unchanged; language overwritten only when declared; head fields change only in the head segment, as `ProcessHead` says; the node's JSON-LD records and link are appended in any segment; url and parsed url stay consistent |
| Parser.Traverse | src/parser.rs:30-79 | the walk keeps url and parsed url consistent and only extends the lists of links and Schema.org records |
| Parser.TraverseChildren | src/parser.rs:71-78 | the loop over the children keeps the same two invariants |
| Parser.Parse | src/parser.rs:22-28 | a walk from a fresh record ends with a url and parsed url that agree |
| Walk.Events | src/parser.rs:71-78 | a subtree's visits start with the node itself, before any child |
| Walk.TraverseIsPreorderFold | src/parser.rs:30-79 | the walk is exactly the per-node step applied over the pre-order visit list: each node once, before its children, children in order, each child inheriting the parent's updated segment |
| Walk.TraverseChildrenIsFold | src/parser.rs:71-78 | the children loop is the fold over the children's visit lists, in order |
| Walk.EventsCoverTree | src/parser.rs:71-78 | the visit list has one visit per node of the tree |
| Walk.FoldAppend | src/parser.rs:71-78 | walking two visit lists one after the other is walking their concatenation |
| Walk.AppendAllJoins | src/parser.rs:85-88 | the single-space rule adds exactly one space before each piece after a non-empty text; from an empty text it gives the space-join of the pieces, skipping empty pieces before the first non-empty one |
| Walk.StepShape | src/parser.rs:30-69 | an element visit is `process_element` in the segment it enters; a text, document, doctype or comment visit can change only the body text |
| Walk.StepLanguage | src/parser.rs:100-106 | one visit overwrites the language exactly when its node declares one |
| Walk.StepTitle | src/parser.rs:109-112 | one visit sets the title exactly when it is a `title` element in the head |
| Walk.FoldText | src/parser.rs:39-50 | the body text is the body-text pieces of the visits, in order, joined by the single-space rule |
| Walk.RawTextIsNotBodyText | src/parser.rs:84 | a `style`, `script` or `noscript` element whose children are all text (the raw text an HTML parser builds there) adds nothing to the body text |
| Walk.NestedNoscriptTextCounts | src/parser.rs:40-49 | only the immediate parent is checked: text in a `p` inside `noscript` reaches the body text |
| Walk.SegmentNeedsItsElement | src/parser.rs:57-78 | a walk that starts outside a segment reaches it only through that segment's own element in the subtree |
| Walk.HeadFieldsNeedHead | src/parser.rs:109-155 | without a `head` element, a walk from outside the head leaves title, description, url, feed, meta and Opengraph unchanged |
| Walk.TextNeedsBody | src/parser.rs:83-90 | without a `body` element, a walk from outside the body leaves the body text unchanged |
| Walk.FoldLinks | src/parser.rs:168-182 | one link per `a href`, in document order and in any segment, carrying the anchor text, after the links already found |
| Walk.FoldRecords | src/parser.rs:157-166 | every JSON-LD script contributes all its decoded records, in document order and in any segment, after the records already found |
| Walk.FoldLanguage | src/parser.rs:100-106 | the language is the last one declared on an `html`/`body` element, or the previous one when none is declared |
| Walk.FoldTitle | src/parser.rs:109-112 | the title is the text content of the last head `title` element, so a text-less title resets it; without a head title it is kept |
| Walk.TraverseFields | src/parser.rs:30-79 | for the walk itself: body text, link texts, Schema.org records, language and title as the visits determine them |
| Walk.TextContentIsTrimmedLegacy | src/parser.rs:192-202 | the walk's text content is the legacy one, trimmed |
| Og.RouteOf | src/opengraph.rs:56-66 | `type` sets the type; a property starting with a media kind goes to that kind (image, then video, then audio); everything else goes to the flat table |
| Og.Empty | src/opengraph.rs:44-53 | type "website", no properties, no images, videos or audios |
| Og.ParseObject | src/opengraph.rs:70-86 | an opener (the bare kind or kind`:url`) appends a fresh object with the content as url; a longer property sets a key on the last object only; with no object to attach to, or at most one character after the kind (`image:`, `imagex`), the property is dropped |
| Og.Extend | src/opengraph.rs:55-67 | `type` overwrites only the type; a media property changes only its own kind's list; anything else is written in the flat table, overwriting |
| Og.ParseObjectUrls | src/opengraph.rs:78-85 | an opener adds its content to the url list; any other property leaves the urls unchanged |
| Og.ExtendUrls | src/opengraph.rs:55-67 | one `extend` adds an opener's content to its own kind's url list and leaves the other lists alone |
| Og.ExtendAllUrls | src/opengraph.rs:55-86 | over any sequence of properties, the k-th object of a kind carries the content of the k-th opener of that kind |
| Og.ExtendAllType | src/opengraph.rs:56-57 | over any sequence of properties, the type is the last `type` content, or the previous type when there is none |
| Og.LastTypeFront | src/opengraph.rs:56-57 | reading the last `type` from the back agrees with reading the properties in order |
| Og.TypeTest | src/opengraph.rs:92-99 | the unit test `test_type` |
| Og.ImageTest | src/opengraph.rs:101-116 | the unit test `test_image`: one image with the http url and the https `secure_url` |
| Og.FixedOffsetSubKey | src/opengraph.rs:81 | the sub-key is cut at a fixed six characters: `imagesize` sets `ize` on the last image |
| Schema.Candidates | src/schema_org.rs:20-25 | a root array gives its elements; any other root is the only candidate |
| Schema.UnwrapGraph | src/schema_org.rs:28-35 | when the first candidate is an object with a `@graph` array, that array replaces all candidates; otherwise they are kept |
| Schema.Collect | src/schema_org.rs:37-48 | the `flat_map` gives at most one record per candidate |
| Schema.CollectSound | src/schema_org.rs:37-48 | each record is one of the candidates, labelled with that candidate's own string `@type` |
| Schema.CollectComplete | src/schema_org.rs:37-48 | every candidate whose `@type` is a string gives its record |
| Schema.CollectAppend | src/schema_org.rs:37-48 | the filter preserves order: it distributes over concatenation |
| Schema.CollectOne | src/schema_org.rs:38-46 | a single candidate gives its record exactly when its `@type` is a string |
| Schema.FromParsed | src/schema_org.rs:17-49 | a parse failure gives no records; never more records than candidates after the `@graph` unwrap |
| Schema.DecodeRoot | src/schema_org.rs:20-35 | decoding a root: its elements, or the root alone, or the first candidate's graph, then the filter |
| Schema.EmptyTest | src/schema_org.rs:57-60 | the unit test `test_empty`, and an unparsable body, give no records |
| Schema.TypeTest | src/schema_org.rs:63-67 | the unit test `test_type` |
| Schema.GraphTest | src/schema_org.rs:70-74 | the unit test `test_graph` |
| LegacyHtml.TextContentSpec | src/html.rs:66-76 | the untrimmed first direct text child; `None` exactly when there is none |
| LegacyHtml.FindTitle | src/html.rs:34-64 | doctype, text and comment nodes end the search with `None`; a title element answers with its text content, even `None`, without descending |
| LegacyHtml.FindTitleIsFirstCandidate | src/html.rs:34-64 | the search result is the text of the first reachable title element, in document order, that has a direct text child |
| LegacyHtml.FindTitleInIsFirstCandidate | src/html.rs:57-63 | children are searched in order and the first `Some` wins |
| LegacyHtml.FirstTitleAppend | src/html.rs:57-63 | the first title of a concatenation is the first title of the front part, or else of the back part |
| LegacyHtml.FromString | src/html.rs:15-31 | `None` exactly when no reachable title has text; otherwise the record holds that first title |
| LegacyHtml.TitleWithoutTextStops | src/html.rs:48-51 | a title whose only child is an element (here a nested title) yields `None`; the nested title is never reached |
| LegacyHtml.NoTitleNoRecord | src/html.rs:23-29 | a document with no title element gives no record |
| Scenarios.TitleIsTrimmed | src/parser.rs:110-112 | a head title whose text is `"  Hello  "` gives the title `Hello` |
| Scenarios.HelloContents | src/parser.rs:30-79 | `<html><head><title>Hello</title></head><body>Contents` gives title `Hello`, body text `Contents` and no description |
| Scenarios.AnchorIsResolved | src/parser.rs:168-182 | a bare `<a href='/a'>Link</a>` directly under the document node, with base `https://example.com/` gives the single link (`https://example.com/a`, `Link`) when the url collaborators resolve it so |

## Left out

- Fetching pages over HTTP (`src/http.rs`) and the `Webpage`/`WebpageOptions` plumbing (`src/lib.rs`) are not modelled. They are network I/O and option constants, not extraction.
- HTML tokenising and tree building (html5ever's `parse_document`, RcDom) are not modelled. The model receives the finished tree as a `Dom.Node`. `LegacyHtml.FromString` starts from that tree, so the parse error path of `read_from` is not modelled.
- `serde_json::from_str`, `Url::parse` and `Url::join`/`to_string` are foreign code. They are the `Option`-returning fields of `Parser.Env`, so every statement holds for every behaviour of them.
- Processing-instruction nodes make the source panic (`unreachable!()` in `src/parser.rs:68` and `src/html.rs:54`). `Parser.Traverse` and `LegacyHtml.FindTitle` require a tree without them (`Dom.NoProcessingInstruction`). `Parser.Step` treats one as a no-op.
- Strings are sequences of characters. The byte slicing `&property[3..]`, `&property[og_type.len()..]` and `&property[6..]` can panic in Rust off a UTF-8 character boundary; in the model it slices characters. Those slices only reach past ASCII prefixes that were just checked, except the fixed offset 6.
- `Rc`/`RefCell` sharing and borrowing of nodes are ownership mechanics, not behaviour, and are not modelled.
- Determinism of extraction (the same input gives the same record) holds trivially because every operation is a pure function; no lemma states it.
- Parser.Initial: the record the walk starts from, and `Parser.SetUrl`'s re-parse, are assumptions: the parser-era bodies of `HTML::from_string` and `set_url` do not appear in `src/html.rs`, which holds an older one-field `HTML`. `set_url` is modelled as setting `url` and re-parsing it.
- Parser.Traverse: its own contract states only the invariants the walk keeps. What it computes, field by field, is stated by `Walk.TraverseFields`, `Walk.FoldTitle` and `Walk.HeadFieldsNeedHead`.
- Walk.FoldLinks: states the texts and order of the links; each link's url is stated per element by `Parser.AnchorLinks` (resolved against the url known when the anchor is visited).
- Meta, Opengraph, description, feed and url at document level are described per element (`Parser.ProcessMeta`, which hands `og:` keys to `Og.Extend`, and `Parser.ProcessLink`) and, for the whole walk, only by the fact that they come from the head (`Walk.HeadFieldsNeedHead`). There is no "last writer" lemma for each of them as there is for the title and the language, and no lemma relates the walk's Opengraph to `Og.ExtendAll` over the head's `og:` metas.
