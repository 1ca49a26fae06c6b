/**
  A dump writer over the document tree. A dump is a prolog, the root
  element and its children, which are pages or markup such as
  `siteinfo`; a page is a sequence of items, each a field element or a
  piece of markup the extractor has no use for (whitespace, comments,
  `id`, `timestamp`, `contributor`, elements of other namespaces).
  Reading the tree item by item says which page each `page` element
  denotes; `RoundTrip` proves the extractor agrees.
 */
module DumpWriter {
  import opened Wrappers
  import opened DumpTypes
  import opened Decimal

  // ---------------------------------------------------------------------
  // Markup

  /** Text, another event kind, or a whole element with any content. */
  datatype Markup =
    | Chars(s: string)
    | Misc
    | Element(ns: Option<string>, name: string, titleAttr: Option<string>, content: seq<Markup>)

  function MarkupEvents(m: Markup): seq<Event>
    decreases m
  {
    match m
    case Chars(s) => [Text(s)]
    case Misc() => [Other]
    case Element(ns, name, t, content) => [Start(ns, name, t)] + ForestEvents(content) + [End]
  }

  function ForestEvents(ms: seq<Markup>): seq<Event>
    decreases ms
  {
    if ms == [] then [] else MarkupEvents(ms[0]) + ForestEvents(ms[1..])
  }

  /** Markup the root loop passes over: anything but a `page` element in the export namespace. */
  predicate RootIgnores(m: Markup) {
    !(m.Element? && MatchNamespace(m.ns) && m.name == "page")
  }

  /** Markup the page loop passes over: anything but a recognised page child. */
  predicate PageIgnores(m: Markup) {
    m.Element? ==> ClassifyPageChild(m.ns, m.name) == UnknownPageChild
  }

  /** Markup the revision loop passes over: anything but a recognised revision child. */
  predicate RevisionIgnores(m: Markup) {
    m.Element? ==> ClassifyRevisionChild(m.ns, m.name) == UnknownRevisionChild
  }

  /** Markup that may precede the root element: no element at all. */
  predicate InProlog(m: Markup) {
    !m.Element?
  }

  // ---------------------------------------------------------------------
  // Documents

  datatype RevisionItem =
    | FormatItem(format: string)
    | ModelItem(model: string)
    | TextItem(text: string)
    | RevisionMarkup(markup: Markup)

  datatype PageItem =
    | NsItem(digits: string)
    | TitleItem(title: string)
    | RedirectItem(target: string)
    | RevisionItems(items: seq<RevisionItem>)
    | PageMarkup(markup: Markup)

  datatype RootItem =
    | PageItems(items: seq<PageItem>)
    | RootMarkup(markup: Markup)

  /** A whole dump: markup before the root element, then the root's children. */
  datatype Dump = Dump(prolog: seq<Markup>, items: seq<RootItem>)

  /** `<name>value</name>`. */
  function FieldEvents(name: string, value: string): seq<Event> {
    [ExportStart(name, None), Text(value), End]
  }

  function RevisionItemEvents(x: RevisionItem): seq<Event> {
    match x
    case FormatItem(s) => FieldEvents("format", s)
    case ModelItem(s) => FieldEvents("model", s)
    case TextItem(s) => FieldEvents("text", s)
    case RevisionMarkup(m) => MarkupEvents(m)
  }

  function RevisionItemsEvents(xs: seq<RevisionItem>): seq<Event> {
    if xs == [] then [] else RevisionItemEvents(xs[0]) + RevisionItemsEvents(xs[1..])
  }

  /** A page child; `redirect` is written empty. */
  function PageItemEvents(x: PageItem): seq<Event> {
    match x
    case NsItem(s) => FieldEvents("ns", s)
    case TitleItem(t) => FieldEvents("title", t)
    case RedirectItem(t) => [ExportStart("redirect", Some(t)), End]
    case RevisionItems(ys) => [ExportStart("revision", None)] + RevisionItemsEvents(ys) + [End]
    case PageMarkup(m) => MarkupEvents(m)
  }

  function PageItemsEvents(xs: seq<PageItem>): seq<Event> {
    if xs == [] then [] else PageItemEvents(xs[0]) + PageItemsEvents(xs[1..])
  }

  function RootItemEvents(x: RootItem): seq<Event> {
    match x
    case PageItems(ys) => [ExportStart("page", None)] + PageItemsEvents(ys) + [End]
    case RootMarkup(m) => MarkupEvents(m)
  }

  function RootItemsEvents(xs: seq<RootItem>): seq<Event> {
    if xs == [] then [] else RootItemEvents(xs[0]) + RootItemsEvents(xs[1..])
  }

  function DumpEvents(d: Dump): seq<Event> {
    ForestEvents(d.prolog) + [ExportStart("mediawiki", None)] + RootItemsEvents(d.items) + [End]
  }

  // ---------------------------------------------------------------------
  // Reading the tree

  /**
    The fields after one child of a revision: a field element fills its
    field, which must still be empty; markup must be something the
    revision loop passes over. `None` when the child is not of that shape.
   */
  function ReadRevisionItem<N>(acc: Fields<N>, x: RevisionItem): Option<Fields<N>> {
    match x
    case FormatItem(s) => if acc.format.Some? then None else Some(acc.(format := Some(s)))
    case ModelItem(s) => if acc.model.Some? then None else Some(acc.(model := Some(s)))
    case TextItem(s) => if acc.text.Some? then None else Some(acc.(text := Some(s)))
    case RevisionMarkup(m) => if RevisionIgnores(m) then Some(acc) else None
  }

  function ReadRevision<N>(acc: Fields<N>, xs: seq<RevisionItem>): Option<Fields<N>>
    decreases |xs|
  {
    if xs == [] then Some(acc)
    else match ReadRevisionItem(acc, xs[0])
      case None() => None
      case Some(a) => ReadRevision(a, xs[1..])
  }

  /**
    The fields after one child of a page: `ns` and `title` fill an empty
    field (`ns` with text that parses as a `u32` the conversion accepts),
    `redirect` sets the
    redirect title, a revision is read when no `text` is collected yet and
    must supply one, and markup must be something the page loop passes over.
   */
  function ReadPageItem<N>(conv: u32 -> Option<N>, acc: Fields<N>, x: PageItem): Option<Fields<N>> {
    match x
    case NsItem(s) =>
      if acc.namespace.Some? then None
      else (match ParseU32(s)
        case None() => None
        case Some(v) => if conv(v).None? then None else Some(acc.(namespace := conv(v))))
    case TitleItem(t) => if acc.title.Some? then None else Some(acc.(title := Some(t)))
    case RedirectItem(t) => Some(acc.(redirectTitle := Some(t)))
    case RevisionItems(ys) =>
      if acc.text.Some? then None
      else (match ReadRevision(acc, ys)
        case None() => None
        case Some(a) => if a.text.Some? then Some(a) else None)
    case PageMarkup(m) => if PageIgnores(m) then Some(acc) else None
  }

  function ReadPage<N>(conv: u32 -> Option<N>, acc: Fields<N>, xs: seq<PageItem>): Option<Fields<N>>
    decreases |xs|
  {
    if xs == [] then Some(acc)
    else match ReadPageItem(conv, acc, xs[0])
      case None() => None
      case Some(a) => ReadPage(conv, a, xs[1..])
  }

  /** The fields a page needs: `ns`, `text` and `title`. */
  predicate Complete<N>(f: Fields<N>) {
    f.namespace.Some? && f.text.Some? && f.title.Some?
  }

  function PageOf<N>(f: Fields<N>): Page<N>
    requires Complete(f)
  {
    Page(f.format, f.model, f.namespace.value, f.redirectTitle, f.text.value, f.title.value)
  }

  /** A root child the extractor turns into a record, or passes over. */
  predicate Extractable<N>(conv: u32 -> Option<N>, x: RootItem) {
    match x
    case PageItems(ys) => var f := ReadPage(conv, NoFields(), ys); f.Some? && Complete(f.value)
    case RootMarkup(m) => RootIgnores(m)
  }

  predicate AllExtractable<N>(conv: u32 -> Option<N>, xs: seq<RootItem>)
    decreases |xs|
  {
    xs == [] || (Extractable(conv, xs[0]) && AllExtractable(conv, xs[1..]))
  }

  /** The records the root's children denote: one page per `page` element, in document order. */
  function Records<N>(conv: u32 -> Option<N>, xs: seq<RootItem>): seq<Result<Page<N>>>
    requires AllExtractable(conv, xs)
    decreases |xs|
  {
    if xs == [] then [] else ItemRecords(conv, xs[0]) + Records(conv, xs[1..])
  }

  /** The record one child of the root denotes: its page, or nothing for markup. */
  function ItemRecords<N>(conv: u32 -> Option<N>, x: RootItem): seq<Result<Page<N>>>
    requires Extractable(conv, x)
  {
    match x
    case PageItems(ys) => [Ok(PageOf(ReadPage(conv, NoFields(), ys).value))]
    case RootMarkup(_) => []
  }

  // ---------------------------------------------------------------------
  // Writing given pages

  function OptionalItem<T>(value: Option<string>, item: string -> T): seq<T> {
    match value
    case None() => []
    case Some(v) => [item(v)]
  }

  /** The field elements of a revision holding the page's `format`, `model` and `text`. */
  function RevisionFieldItems(page: Page<u32>): seq<RevisionItem> {
    OptionalItem(page.format, s => FormatItem(s)) + OptionalItem(page.model, s => ModelItem(s)) +
    [TextItem(page.text)]
  }

  /**
    The field elements of a page: `ns` and `title` (in schema order, or
    `title` first), the redirect if any, then the one revision.
   */
  function PageFieldItems(page: Page<u32>, titleFirst: bool): seq<PageItem> {
    (if titleFirst then [TitleItem(page.title), NsItem(Render(page.namespace))]
     else [NsItem(Render(page.namespace)), TitleItem(page.title)]) +
    OptionalItem(page.redirectTitle, t => RedirectItem(t)) +
    [RevisionItems(RevisionFieldItems(page))]
  }

  /** A revision's children without their markup. */
  function RevisionFields(xs: seq<RevisionItem>): seq<RevisionItem>
    decreases |xs|
  {
    if xs == [] then []
    else (if xs[0].RevisionMarkup? then [] else [xs[0]]) + RevisionFields(xs[1..])
  }

  /** A page's children without their markup, inside its revisions too. */
  function PageFields(xs: seq<PageItem>): seq<PageItem>
    decreases |xs|
  {
    if xs == [] then []
    else
      (match xs[0]
       case PageMarkup(_) => []
       case RevisionItems(ys) => [RevisionItems(RevisionFields(ys))]
       case _ => [xs[0]]) +
      PageFields(xs[1..])
  }

  /** Every piece of markup among a revision's children is passed over by the revision loop. */
  predicate RevisionMarkupIgnored(xs: seq<RevisionItem>) {
    forall i | 0 <= i < |xs| :: xs[i].RevisionMarkup? ==> RevisionIgnores(xs[i].markup)
  }

  /** Every piece of markup among a page's children, and inside its revisions, is passed over. */
  predicate PageMarkupIgnored(xs: seq<PageItem>) {
    forall i | 0 <= i < |xs| ::
      (xs[i].PageMarkup? ==> PageIgnores(xs[i].markup)) &&
      (xs[i].RevisionItems? ==> RevisionMarkupIgnored(xs[i].items))
  }

  /**
    The children `xs` write `page`: apart from markup the extractor passes
    over, placed anywhere, they are the page's field elements.
   */
  predicate Writes(xs: seq<PageItem>, page: Page<u32>) {
    PageMarkupIgnored(xs) &&
    (PageFields(xs) == PageFieldItems(page, false) || PageFields(xs) == PageFieldItems(page, true))
  }

  /** The root's children `xs` write `pages`, in order, with markup the root loop passes over between them. */
  predicate DumpWrites(xs: seq<RootItem>, pages: seq<Page<u32>>)
    decreases |xs|
  {
    if xs == [] then pages == []
    else match xs[0]
      case RootMarkup(m) => RootIgnores(m) && DumpWrites(xs[1..], pages)
      case PageItems(ys) => pages != [] && Writes(ys, pages[0]) && DumpWrites(xs[1..], pages[1..])
  }

  predicate Convertible<N>(pages: seq<Page<u32>>, conv: u32 -> Option<N>) {
    forall i | 0 <= i < |pages| :: conv(pages[i].namespace).Some?
  }

  /** The page as the caller sees it, with its namespace converted. */
  function Converted<N>(page: Page<u32>, conv: u32 -> Option<N>): Page<N>
    requires conv(page.namespace).Some?
  {
    Page(page.format, page.model, conv(page.namespace).value, page.redirectTitle, page.text, page.title)
  }

  function Expected<N>(pages: seq<Page<u32>>, conv: u32 -> Option<N>): seq<Result<Page<N>>>
    requires Convertible(pages, conv)
    decreases |pages|
  {
    if pages == [] then [] else [Ok(Converted(pages[0], conv))] + Expected(pages[1..], conv)
  }

  /** The fields once the whole of `page` has been read. */
  function Collected<N>(page: Page<u32>, n: N): Fields<N> {
    Fields(page.format, page.model, Some(n), page.redirectTitle, Some(page.text), Some(page.title))
  }

  // ---------------------------------------------------------------------
  // Properties of the tree reading

  /** Markup among a revision's children changes nothing: reading them is reading their field elements. */
  lemma {:induction false} ReadRevisionFields<N>(acc: Fields<N>, xs: seq<RevisionItem>)
    requires RevisionMarkupIgnored(xs)
    ensures ReadRevision(acc, xs) == ReadRevision(acc, RevisionFields(xs))
    decreases |xs|
  {
    if xs != [] {
      var rest := RevisionFields(xs[1..]);
      assert RevisionMarkupIgnored(xs[1..]) by {
        forall i | 0 <= i < |xs| - 1 ensures xs[1..][i] == xs[i + 1] { }
      }
      if xs[0].RevisionMarkup? {
        assert RevisionIgnores(xs[0].markup) by { assert xs[0] == xs[0]; }
        assert RevisionFields(xs) == [] + rest;
        assert [] + rest == rest;
        ReadRevisionFields(acc, xs[1..]);
      } else {
        var ys := [xs[0]] + rest;
        assert RevisionFields(xs) == ys;
        assert ys[0] == xs[0] && ys[1..] == rest;
        var a := ReadRevisionItem(acc, xs[0]);
        if a.Some? {
          ReadRevisionFields(a.value, xs[1..]);
        }
      }
    }
  }

  /** Markup among a page's children changes nothing: reading them is reading their field elements. */
  lemma {:induction false} ReadPageFields<N>(conv: u32 -> Option<N>, acc: Fields<N>, xs: seq<PageItem>)
    requires PageMarkupIgnored(xs)
    ensures ReadPage(conv, acc, xs) == ReadPage(conv, acc, PageFields(xs))
    decreases |xs|
  {
    if xs != [] {
      var rest := PageFields(xs[1..]);
      assert PageMarkupIgnored(xs[1..]) by {
        forall i | 0 <= i < |xs| - 1 ensures xs[1..][i] == xs[i + 1] { }
      }
      assert (xs[0].PageMarkup? ==> PageIgnores(xs[0].markup)) &&
        (xs[0].RevisionItems? ==> RevisionMarkupIgnored(xs[0].items));
      match xs[0]
      case PageMarkup(_) =>
        assert PageFields(xs) == [] + rest;
        assert [] + rest == rest;
        ReadPageFields(conv, acc, xs[1..]);
      case RevisionItems(zs) =>
        var x := RevisionItems(RevisionFields(zs));
        var ys := [x] + rest;
        assert PageFields(xs) == ys;
        assert ys[0] == x && ys[1..] == rest;
        ReadRevisionFields(acc, zs);
        assert ReadPageItem(conv, acc, x) == ReadPageItem(conv, acc, xs[0]);
        var a := ReadPageItem(conv, acc, xs[0]);
        if a.Some? {
          ReadPageFields(conv, a.value, xs[1..]);
        }
      case _ =>
        var ys := [xs[0]] + rest;
        assert PageFields(xs) == ys;
        assert ys[0] == xs[0] && ys[1..] == rest;
        var a := ReadPageItem(conv, acc, xs[0]);
        if a.Some? {
          ReadPageFields(conv, a.value, xs[1..]);
        }
    }
  }

  /** Reading two runs of page children one after the other. */
  lemma {:induction false} ReadPageAppend<N>(conv: u32 -> Option<N>, acc: Fields<N>, xs: seq<PageItem>, ys: seq<PageItem>)
    ensures ReadPage(conv, acc, xs + ys) ==
      match ReadPage(conv, acc, xs)
      case None() => None
      case Some(a) => ReadPage(conv, a, ys)
    decreases |xs|
  {
    if xs == [] {
      assert xs + ys == ys;
    } else {
      assert (xs + ys)[0] == xs[0] && (xs + ys)[1..] == xs[1..] + ys;
      var a := ReadPageItem(conv, acc, xs[0]);
      if a.Some? {
        ReadPageAppend(conv, a.value, xs[1..], ys);
      }
    }
  }

  /** Reading two runs of revision children one after the other. */
  lemma {:induction false} ReadRevisionAppend<N>(acc: Fields<N>, xs: seq<RevisionItem>, ys: seq<RevisionItem>)
    ensures ReadRevision(acc, xs + ys) ==
      match ReadRevision(acc, xs)
      case None() => None
      case Some(a) => ReadRevision(a, ys)
    decreases |xs|
  {
    if xs == [] {
      assert xs + ys == ys;
    } else {
      assert (xs + ys)[0] == xs[0] && (xs + ys)[1..] == xs[1..] + ys;
      var a := ReadRevisionItem(acc, xs[0]);
      if a.Some? {
        ReadRevisionAppend(a.value, xs[1..], ys);
      }
    }
  }

  /** The revision of a page, read with no `format`, `model` or `text` collected, supplies exactly those three. */
  lemma {:induction false} RevisionFieldsRead<N>(acc: Fields<N>, page: Page<u32>)
    requires acc.format.None? && acc.model.None? && acc.text.None?
    ensures ReadRevision(acc, RevisionFieldItems(page)) ==
      Some(acc.(format := page.format, model := page.model, text := Some(page.text)))
  {
    var f := OptionalItem(page.format, s => FormatItem(s));
    var m := OptionalItem(page.model, s => ModelItem(s));
    var t: seq<RevisionItem> := [TextItem(page.text)];
    var a1 := acc.(format := page.format);
    var a2 := a1.(model := page.model);
    assert ReadRevision(acc, f) == Some(a1);
    assert ReadRevision(a1, m) == Some(a2);
    assert ReadRevision(a2, t) == Some(a2.(text := Some(page.text)));
    ReadRevisionAppend(acc, f + m, t);
    ReadRevisionAppend(acc, f, m);
  }

  /** The field elements of a page, in either order, collect every field of the page. */
  lemma {:induction false} PageFieldsRead<N>(conv: u32 -> Option<N>, page: Page<u32>, titleFirst: bool)
    requires conv(page.namespace).Some?
    ensures ReadPage(conv, NoFields(), PageFieldItems(page, titleFirst)) ==
      Some(Collected(page, conv(page.namespace).value))
  {
    var ns := NsItem(Render(page.namespace));
    var head: seq<PageItem> :=
      if titleFirst then [TitleItem(page.title), ns] else [ns, TitleItem(page.title)];
    ParseRender(page.namespace);
    var redirect := OptionalItem(page.redirectTitle, t => RedirectItem(t));
    var revision: seq<PageItem> := [RevisionItems(RevisionFieldItems(page))];
    var a1 := NoFields<N>().(namespace := conv(page.namespace), title := Some(page.title));
    var a2 := a1.(redirectTitle := page.redirectTitle);
    if titleFirst {
      var a0 := NoFields<N>().(title := Some(page.title));
      assert head[1..] == [ns] && ReadPage(conv, a0, head[1..]) == Some(a1);
    } else {
      var a0 := NoFields<N>().(namespace := conv(page.namespace));
      assert head[1..] == [TitleItem(page.title)] && ReadPage(conv, a0, head[1..]) == Some(a1);
    }
    assert ReadPage(conv, a1, redirect) == Some(a2);
    RevisionFieldsRead(a2, page);
    assert ReadPage(conv, a2, revision) == Some(Collected(page, conv(page.namespace).value));
    ReadPageAppend(conv, NoFields(), head + redirect, revision);
    ReadPageAppend(conv, NoFields(), head, redirect);
  }

  /** Children that write a page are read as exactly that page. */
  lemma {:induction false} WritesRead<N>(conv: u32 -> Option<N>, xs: seq<PageItem>, page: Page<u32>)
    requires Writes(xs, page) && conv(page.namespace).Some?
    ensures var f := ReadPage(conv, NoFields(), xs);
      f.Some? && Complete(f.value) && PageOf(f.value) == Converted(page, conv)
  {
    ReadPageFields(conv, NoFields(), xs);
    if PageFields(xs) == PageFieldItems(page, false) {
      PageFieldsRead(conv, page, false);
    } else {
      PageFieldsRead(conv, page, true);
    }
  }

  lemma {:induction false} ConvertibleTail<N>(pages: seq<Page<u32>>, conv: u32 -> Option<N>)
    requires pages != [] && Convertible(pages, conv)
    ensures Convertible(pages[1..], conv)
  {
    forall i | 0 <= i < |pages| - 1 ensures conv(pages[1..][i].namespace).Some? {
      assert pages[1..][i] == pages[i + 1];
    }
  }

  /** Root children that write `pages` denote exactly those pages, in order. */
  lemma {:induction false} DumpWritesRecords<N>(conv: u32 -> Option<N>, xs: seq<RootItem>, pages: seq<Page<u32>>)
    requires DumpWrites(xs, pages) && Convertible(pages, conv)
    ensures AllExtractable(conv, xs) && Records(conv, xs) == Expected(pages, conv)
    decreases |xs|
  {
    if xs != [] {
      match xs[0]
      case RootMarkup(m) =>
        DumpWritesRecords(conv, xs[1..], pages);
        assert Records(conv, xs) == [] + Records(conv, xs[1..]);
      case PageItems(ys) =>
        assert conv(pages[0].namespace).Some?;
        WritesRead(conv, ys, pages[0]);
        ConvertibleTail(pages, conv);
        DumpWritesRecords(conv, xs[1..], pages[1..]);
    }
  }
}
