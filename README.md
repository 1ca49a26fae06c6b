# parse_mediawiki_dump: the page-extraction state machine

This project models the core of the Rust crate `parse_mediawiki_dump`: a
streaming parser that walks the events of a MediaWiki XML export and
yields one `Page` per `page` element. Each page holds `format`, `model`,
`namespace`, `redirect_title`, `text` and `title`. The model also proves
properties of that parser.

The XML reader is taken as given. Its output is a finite sequence of
`Event`s:

- a start tag, with its namespace, local name and `title` attribute;
- an end tag;
- text;
- anything else.

Empty elements arrive already expanded into a start and an end tag, as the
parser configures its reader. A position is the number of events consumed
so far; this stands in for the reader's byte offset.

Modules:

- `DumpTypes`: the data model.
  - `Event`, `Page`, `Error` (`Format`, `NotSupported`, `Namespace`) and `RawNamespace` as `u32`.
  - The namespace check `match_namespace`.
  - The classification of page and revision children.
- `Decimal`: `str::parse::<u32>` applied to the text of `ns`, and the decimal rendering a dump writer uses.
- `Extraction`: the parser as functions over the event sequence and a cursor.
  - One function per loop of the source:
    - `ScanRoot`: the root scan on the first call;
    - `RootLoop`;
    - `PageLoop`, with `ResumePage`;
    - `RevisionLoop`;
    - `SkipTo`: `skip_element`;
    - `TextField`: `parse_text`.
  - `NextSpec`: one call of the internal `next`.
  - `ToItem`: `Iterator::next`.
  - `Drain`: a caller that keeps calling until `None` or the first error.
  - Each function returns `Halt(result, cursor)`, or `Hangs` when the source would keep reading end-of-file forever.
- `ParserImpl`: the `Parser` object as a class.
  - It holds the events, the caller's namespace conversion, the cursor and the `started` flag.
  - `SkipElement`, `Next`, `ParsePage` and `ParseRevision` are loops; `ParseText` (two reads) and `NextItem` (one call of `Next`) have none. Each is proved to agree with the functions of `Extraction`, both in its result and in the new cursor and flag.
- `Properties`: properties of the state machine that hold for every input.
- `DumpWriter`: a writer over the document tree. A dump is markup before the root element, then the root's children: pages, and markup such as `siteinfo` that the root loop passes over. A page is a sequence of children, each a field element (`ns`, `title`, `redirect`, `revision` with `format`, `model`, `text`) or markup the extractor passes over: whitespace, other events, and whole elements of any content (`id`, `timestamp`, `contributor`, elements of other namespaces). Reading the tree child by child says which page each `page` element denotes. A given list of pages can be written in any such layout, with `title` before or after `ns`.
- `RoundTrip`: the proof that extracting a written dump yields the pages its `page` elements denote, in document order, followed by exhaustion. It also covers the error cases: a second revision, a page lacking `ns`, `title` or `text`, and a refused namespace.
- `Scenarios`:
  - the two-page dump of the crate's integration test;
  - the sixteen-namespace enum from the crate documentation, as a concrete namespace type.

Notes on what the code does:

- The raw namespace (`RawNamespace`) is `u32`.
- `Error::Namespace` carries the raw value only, with no position.
- When the input ends inside the document, the root scan and the root, page, revision and skip loops do not report an error. The reader keeps returning end-of-file, which these loops pass over, so the call never returns. The model states this as `Hangs` (`Diverges` for the methods).
- Running out of input inside `parse_text` is a format error.

## Model

| member | source | states |
|---|---|---|
| DumpTypes.MatchNamespace | src/lib.rs:299-306 | true exactly when the namespace is present and equal to the export-0.10 URI |
| DumpTypes.ClassifyPageChild | src/lib.rs:377-407 | a page child is recognised exactly when it is in the export namespace and named `ns`, `redirect`, `revision` or `title`, and each of those names gets its own class |
| DumpTypes.ClassifyRevisionChild | src/lib.rs:450-463 | a revision child is recognised exactly when it is in the export namespace and named `format`, `model` or `text`, and each of those names gets its own class |
| Decimal.ParseU32 | src/lib.rs:411-412 | a parse succeeds only on a non-empty string of digits with at most a leading '+' |
| Decimal.ParseRender | src/lib.rs:410-427 | every `u32` parses back from its decimal rendering, with or without a leading '+' |
| Decimal.ParseRejectsOverflow | src/lib.rs:411-418 | any digit string whose value is 2^32 or more is refused, with or without a leading '+', not wrapped |
| Decimal.ParseRejectsNonDigit | src/lib.rs:411-418 | any character other than a digit or a leading '+' (whitespace, '-') makes the parse fail |
| Decimal.LeadingZeros | src/lib.rs:411-412 | leading zeros are accepted and do not change the value, either of the digits or of the parse |
| Decimal.ParseRejectsNoDigits | src/lib.rs:411-418 | the empty string and a lone '+' are refused |
| Extraction.SkipTo | src/lib.rs:565-585 | the level-counting skip, when it stops, stops strictly past where it started and within the input |
| Extraction.SkipToIsFirstClosingEnd | src/lib.rs:559-586 | skipping from just after a start tag stops exactly past the first end tag at which starts and ends balance; it runs off the end exactly when no such end tag exists |
| Extraction.ClosesAtEnd | src/lib.rs:576-580 | the skip stops just past an end tag seen at depth 0 |
| Extraction.ClosesUnique | src/lib.rs:576-580 | an element closes at one position only |
| Extraction.SkipToBalanced | src/lib.rs:565-584 | continuing at the depth reached so far, the level counter stops exactly where the element closes, and runs out of events only if the element never closes |
| Extraction.TextField | src/lib.rs:521-557 | duplicate field: format error before reading. End alone gives "". Text then End gives the text. Anything else, end of input included, gives a format error at the cursor, which stands just past the last event read: past the text when the input ends after it, past the second event when text is followed by something other than an end tag, past the first event when it is neither text nor an end tag, and not moved when the input has already ended |
| Extraction.ResolveNamespace | src/lib.rs:410-427 | unparsable text is a format error, a value the conversion refuses is `Namespace` of exactly that value, otherwise the converted value |
| Extraction.ScanRoot | src/lib.rs:314-332 | the root scan, when it halts, has consumed at least one event and stays within the input |
| Extraction.ScanRootFirstStart | src/lib.rs:314-332 | the scan ignores everything before the first start tag; that tag gives success if it is `mediawiki` in the export namespace, otherwise a format error just past it; with no start tag the scan never returns |
| Extraction.RootLoop | src/lib.rs:333-347 | the root loop, when it halts, has consumed at least one event and stays within the input |
| Extraction.PageLoop | src/lib.rs:354-488 | the page loop, when it halts, has consumed at least one event and stays within the input |
| Extraction.ResumePage | src/lib.rs:480 | after the revision loop the page loop resumes at the revision loop's cursor; when it halts it has moved forward and stays within the input |
| Extraction.RevisionLoop | src/lib.rs:436-479 | the revision loop, when it halts, has consumed at least one event and stays within the input |
| Extraction.NextSpec | src/lib.rs:308-347 | one call of `next`, when it halts, has consumed at least one event and stays within the input |
| Extraction.ToItem | src/lib.rs:291-296 | exhaustion `Ok(None)` and only it becomes `None`; an error `e` becomes `Some(Err(e))`; a page `p` becomes `Some(Ok(p))` |
| Extraction.DrainErrorIsLast | src/lib.rs:52-57 | a caller that keeps calling until `None` or the first error (`Drain`) collects pages only, except that its last item may be the error |
| ParserImpl.Parser.constructor | src/lib.rs:506-519 | a new parser is at the start of the input and has not found the root |
| ParserImpl.Parser.Read | src/lib.rs:316-321 | a read returns the next event and advances by one, or returns end-of-file without moving at the end of the input |
| ParserImpl.Parser.SkipElement | src/lib.rs:559-586 | the level-counting loop returns exactly when a balancing end tag exists, leaving the cursor just past it; otherwise it consumes the whole input and never returns |
| ParserImpl.Parser.ParseText | src/lib.rs:521-557 | the reader's two reads return what `TextField` specifies and leave the cursor where it says |
| ParserImpl.Parser.Next | src/lib.rs:308-347 | result and cursor are those of `NextSpec`; `started` becomes true exactly when the root scan succeeds and is never reset |
| ParserImpl.Parser.ParsePage | src/lib.rs:348-488 | the page loop with its six accumulators returns what `PageLoop` specifies from no collected fields, and leaves the cursor where it says |
| ParserImpl.Parser.ParseRevision | src/lib.rs:436-479 | the revision loop returns the accumulators `RevisionLoop` specifies, and leaves the cursor where it says |
| ParserImpl.Parser.NextItem | src/lib.rs:291-296 | the iterator's item is `ToItem` of the result of `next`, with the same cursor and flag |
| Properties.RootLoopDispatch | src/lib.rs:333-347 | in the root loop an end tag gives exhaustion, a `page` in the export namespace starts a page, any other start tag is skipped whole, and text or other events are ignored |
| Properties.PageEndDecides | src/lib.rs:360-375 | a page's end tag gives the page exactly when `ns`, `text` and `title` were collected, with the other fields as collected; otherwise a format error just past it |
| Properties.RedirectDispatch | src/lib.rs:381-429 | a `redirect` without a `title` attribute is a format error; with one, `redirect_title` takes its value and the element is skipped |
| Properties.RevisionDispatch | src/lib.rs:430-449 | a `revision` once `text` is collected is `NotSupported`; a revision end tag before any `text` is a format error |
| Properties.NamespaceDispatch | src/lib.rs:410-427 | a first `ns`: end of input, `<ns/>` (empty text, which does not parse), other content or unparsable text are format errors at the cursor; a refused value is `Namespace(v)`; otherwise the converted value is collected |
| Properties.DuplicateFieldIsFormatError | src/lib.rs:527-530 | a second `ns`, `title`, `format`, `model` or `text` is a format error just past its start tag, whatever follows |
| Properties.UnknownChildSkipped | src/lib.rs:475-486 | an unrecognised child of a page or revision is skipped whole and every collected field is kept |
| Properties.RevisionKeepsOtherFields | src/lib.rs:436-481 | a completed revision changes only `format`, `model` and `text`, leaves `text` collected, and changes `format` or `model` only if that element appeared |
| Properties.AbsentUnlessSeen | src/lib.rs:348-375 | `format`, `model` and `redirect_title` of a returned page are `None` unless their elements appeared in the page |
| DumpWriter.ReadRevisionFields | src/lib.rs:446-477 | markup among a revision's children that the revision loop passes over changes nothing: reading the children is reading their field elements |
| DumpWriter.ReadPageFields | src/lib.rs:377-486 | markup among a page's children, inside its revision too, changes nothing: reading the children is reading their field elements |
| DumpWriter.PageFieldsRead | src/lib.rs:354-488 | the field elements of a page, with `title` before or after `ns`, collect every field of that page |
| DumpWriter.WritesRead | src/lib.rs:360-375 | children that write a page in any accepted layout read as a complete page equal to that page with its namespace converted |
| DumpWriter.DumpWritesRecords | src/lib.rs:333-347 | root children that write a list of pages denote exactly those pages, in order |
| RoundTrip.ElementSkipped | src/lib.rs:559-586 | an element of any content is skipped whole: from just past its start tag the skip stops just past its own end tag |
| RoundTrip.RootMarkupStep | src/lib.rs:339-346 | the root loop passes over text, other events and every element but a `page` |
| RoundTrip.PageMarkupStep | src/lib.rs:486 | the page loop passes over markup that is not a recognised page child, keeping every field |
| RoundTrip.RevisionMarkupStep | src/lib.rs:475-477 | the revision loop passes over markup that is not a recognised revision child, keeping every field |
| RoundTrip.RevisionItemsStep | src/lib.rs:436-479 | the revision loop reads written revision children as the tree reading does, and stops just past them |
| RoundTrip.RevisionStep | src/lib.rs:430-481 | a written revision that supplies `text` is read into the fields and the page loop resumes after it |
| RoundTrip.PageItemsStep | src/lib.rs:354-488 | the page loop reads written page children as the tree reading does, and stops just past them |
| RoundTrip.PageStep | src/lib.rs:340-375 | a written page whose children read as a complete page is returned as that page, and the cursor stops just past its end tag |
| RoundTrip.DrainItems | src/lib.rs:333-347 | from written root children followed by the root's end tag, the caller collects exactly the records they denote, in order |
| RoundTrip.DumpRoundTrip | src/lib.rs:308-490 | extracting a written dump yields the records its `page` elements denote, in document order, and then exhaustion |
| RoundTrip.WrittenPagesRoundTrip | src/lib.rs:308-490 | a dump that writes a list of pages, in any accepted layout, yields exactly those pages in order with namespaces converted, and then exhaustion |
| RoundTrip.SecondRevisionNotSupported | src/lib.rs:430-435 | a page with a second revision is `NotSupported` just past the second revision's start tag |
| RoundTrip.IncompletePageIsFormatError | src/lib.rs:360-375 | a written page lacking `ns`, `title` or `text` is a format error just past the page's end tag |
| RoundTrip.RefusedNamespace | src/lib.rs:419-424 | a page whose first `ns` the conversion refuses is `Namespace` of exactly the raw value, just past the `ns` element |
| Scenarios.FirstTestPage | tests/main.rs:33-48 | the integration test's first call yields `alpha` in namespace 0 with format `beta`, model `gamma`, text `delta` and no redirect |
| Scenarios.SecondTestPage | tests/main.rs:49-62 | the second call yields `epsilon` in namespace 42 with redirect `zeta`, text `eta` and no format or model |
| Scenarios.TestExhausted | tests/main.rs:63 | the third call is exhausted; a further call would never return |
| Scenarios.TestDumpPages | tests/main.rs:28-64 | collecting the test dump gives exactly the two pages |
| Scenarios.WikiNamespaceConv | src/lib.rs:166-188 | the documented conversion accepts exactly the identifiers 0 to 15 and maps each to the namespace with that discriminant |
| Scenarios.WikiNamespaceRoundTrip | src/lib.rs:147-191 | every documented namespace converts back from its own identifier |
| Scenarios.UnknownWikiNamespace | src/lib.rs:419-424 | with the documented namespace type, `ns` 16 gives `Namespace(16)` |

## Left out

- The XML reader itself is not part of this model. That covers tokenising bytes into events, its buffers, and its errors (`Error::XmlReader`), because it is a foreign library. Every read succeeds in the model.
- Entity unescaping, UTF-8 decoding and the filtering of malformed attributes are left out, because they are foreign library calls. Texts and attribute values arrive already decoded.
- Positions are event counts, not the reader's byte offsets. An error's position is the cursor just past the last event read, which is where the reader's `buffer_position` stands.
- Input that ends too early is modelled as never returning (`Hangs` / `Diverges`), because that is what the code does.
- The `Display` and `From<quick_xml::Error>` implementations, the bzip2 example's file handling and `PhantomData` are left out: they are formatting, glue and type plumbing.
- Extraction.SkipTo and ParserImpl.Parser.SkipElement count depth with an unbounded `nat`. The source's `level` is an inferred `i32`, which overflows after 2^31 nested start tags (a panic in debug builds, a wrap in release builds); the model does not capture that.
- Extraction.SkipTo, ScanRoot, RootLoop, PageLoop, ResumePage, RevisionLoop and NextSpec: their own contracts state only progress and bounds. What they compute is stated by the lemmas of `Extraction`, `Properties`, `RoundTrip` and `Scenarios`.
- ParserImpl.Parser.Next, ParsePage, ParseRevision, SkipElement and NextItem are proved against the functions of `Extraction`. Their contracts use `old`, so the properties stated about those functions carry the weight.
- The iterator wrapper's behaviour after an error (further calls resume reading) is modelled only through `NextSpec` at the new cursor. `Drain` stops at the first error, as the crate documentation's example loop does.
- RoundTrip.WrittenPagesRoundTrip: from a given list of pages, the writer puts each page's field elements in schema order (or with `title` first) and writes one revision holding `format`, `model` and `text` in that order, with markup anywhere. Other orders of the field elements are covered by RoundTrip.DumpRoundTrip, which states its result through the tree reading instead of a given list of pages.
