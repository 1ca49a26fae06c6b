/**
  Extraction of what the writer writes. The loops over events are proved
  to agree with the reading of the document tree: markup is passed over
  (unknown elements skipped whole, whatever they contain), field elements
  fill their fields in any order, and a dump yields the records its `page`
  elements denote, in document order, followed by exhaustion. Malformed
  pages give the documented errors.
 */
module RoundTrip {
  import opened Wrappers
  import opened DumpTypes
  import opened Decimal
  import opened Extraction
  import opened Properties
  import opened DumpWriter

  // ---------------------------------------------------------------------
  // Locating pieces in an event sequence

  /** `piece` occurs in `evs` at position `p`. */
  predicate At(evs: seq<Event>, p: nat, piece: seq<Event>) {
    p + |piece| <= |evs| && Placed(evs, p, piece)
  }

  /** The events of `piece` are those of `evs` from `p` on, one by one. */
  predicate Placed(evs: seq<Event>, p: nat, piece: seq<Event>)
    decreases |piece|
  {
    piece == [] || (p < |evs| && evs[p] == piece[0] && Placed(evs, p + 1, piece[1..]))
  }

  /** Event by event, what `At` says. */
  lemma {:induction false} AtIndex(evs: seq<Event>, p: nat, piece: seq<Event>)
    ensures At(evs, p, piece) <==>
      p + |piece| <= |evs| && forall i | 0 <= i < |piece| :: evs[p + i] == piece[i]
    decreases |piece|
  {
    if piece != [] {
      AtIndex(evs, p + 1, piece[1..]);
      if p + |piece| <= |evs| && forall i | 0 <= i < |piece| :: evs[p + i] == piece[i] {
        forall i | 0 <= i < |piece| - 1 ensures evs[p + 1 + i] == piece[1..][i] {
          assert evs[p + (i + 1)] == piece[i + 1];
        }
      }
      if At(evs, p, piece) {
        forall i | 0 <= i < |piece| ensures evs[p + i] == piece[i] {
          if i > 0 {
            assert evs[p + 1 + (i - 1)] == piece[1..][i - 1];
          }
        }
      }
    }
  }

  lemma {:induction false} Split(evs: seq<Event>, p: nat, a: seq<Event>, b: seq<Event>)
    requires At(evs, p, a + b)
    ensures At(evs, p, a) && At(evs, p + |a|, b)
  {
    AtIndex(evs, p, a + b);
    forall i | 0 <= i < |a| ensures evs[p + i] == a[i] {
      assert (a + b)[i] == a[i];
    }
    forall i | 0 <= i < |b| ensures evs[p + |a| + i] == b[i] {
      assert (a + b)[|a| + i] == b[i];
    }
    AtIndex(evs, p, a);
    AtIndex(evs, p + |a|, b);
  }

  /** A piece made of two parts, located part by part. */
  lemma {:induction false} SplitAt(evs: seq<Event>, p: nat, whole: seq<Event>, a: seq<Event>, b: seq<Event>)
    requires At(evs, p, whole) && whole == a + b
    ensures |whole| == |a| + |b| && At(evs, p, a) && At(evs, p + |a|, b)
  {
    Split(evs, p, a, b);
  }

  lemma {:induction false} Element3(evs: seq<Event>, p: nat, piece: seq<Event>)
    requires |piece| == 3 && At(evs, p, piece)
    ensures evs[p] == piece[0] && evs[p + 1] == piece[1] && evs[p + 2] == piece[2]
  {
    AtIndex(evs, p, piece);
  }

  lemma {:induction false} Element1(evs: seq<Event>, p: nat, e: Event)
    requires At(evs, p, [e])
    ensures evs[p] == e
  {
    assert [e][0] == e;
  }


  // ---------------------------------------------------------------------
  // Skipping markup

  /** Markup leaves the skip's depth as it found it. */
  lemma {:induction false} SkipMarkup(evs: seq<Event>, p: nat, m: Markup, level: nat)
    requires At(evs, p, MarkupEvents(m))
    ensures SkipTo(evs, p, level) == SkipTo(evs, p + |MarkupEvents(m)|, level)
    decreases m, 1
  {
    match m
    case Chars(s) =>
      Element1(evs, p, Text(s));
    case Misc() =>
      Element1(evs, p, Other);
    case Element(ns, name, t, content) =>
      ElementLayout(evs, p, m, ForestEvents(content));
      SkipForest(evs, p + 1, content, level + 1);
  }

  lemma {:induction false} SkipForest(evs: seq<Event>, p: nat, ms: seq<Markup>, level: nat)
    requires At(evs, p, ForestEvents(ms))
    ensures SkipTo(evs, p, level) == SkipTo(evs, p + |ForestEvents(ms)|, level)
    decreases ms, 0
  {
    if ms != [] {
      ForestLayout(evs, p, ms, MarkupEvents(ms[0]), ForestEvents(ms[1..]));
      SkipMarkup(evs, p, ms[0], level);
      SkipForest(evs, p + |MarkupEvents(ms[0])|, ms[1..], level);
    }
  }

  /** The first piece of markup of a forest, then the others. */
  lemma {:induction false} ForestLayout(evs: seq<Event>, p: nat, ms: seq<Markup>, a: seq<Event>, b: seq<Event>)
    requires At(evs, p, ForestEvents(ms)) && ms != [] && a == MarkupEvents(ms[0]) && b == ForestEvents(ms[1..])
    ensures |ForestEvents(ms)| == |a| + |b| && At(evs, p, a) && At(evs, p + |a|, b)
  {
    assert ForestEvents(ms) == a + b;
    SplitAt(evs, p, ForestEvents(ms), a, b);
  }

  /** Where the start tag, the content (`inner`) and the end tag of an element lie. */
  lemma {:induction false} ElementLayout(evs: seq<Event>, p: nat, m: Markup, inner: seq<Event>)
    requires m.Element? && At(evs, p, MarkupEvents(m)) && inner == ForestEvents(m.content)
    ensures |MarkupEvents(m)| == |inner| + 2 && evs[p] == Start(m.ns, m.name, m.titleAttr) &&
      At(evs, p + 1, inner) && evs[p + 1 + |inner|] == End
  {
    var start := Start(m.ns, m.name, m.titleAttr);
    assert MarkupEvents(m) == [start] + inner + [End];
    Framed(evs, p, MarkupEvents(m), inner, start, End);
  }

  /**
    An element is skipped whole, whatever it contains: from just past its
    start tag, `skip_element` stops just past its own end tag.
   */
  lemma {:induction false} ElementSkipped(evs: seq<Event>, p: nat, m: Markup)
    requires m.Element? && At(evs, p, MarkupEvents(m))
    ensures evs[p] == Start(m.ns, m.name, m.titleAttr)
    ensures SkipTo(evs, p + 1, 0) == Some(p + |MarkupEvents(m)|)
  {
    ElementLayout(evs, p, m, ForestEvents(m.content));
    SkipForest(evs, p + 1, m.content, 0);
  }

  /** The root loop passes over markup that is not a `page` element. */
  lemma {:induction false} RootMarkupStep<N>(evs: seq<Event>, conv: u32 -> Option<N>, p: nat, m: Markup)
    requires At(evs, p, MarkupEvents(m)) && RootIgnores(m)
    ensures RootLoop(evs, conv, p) == RootLoop(evs, conv, p + |MarkupEvents(m)|)
  {
    match m
    case Chars(s) => Element1(evs, p, Text(s));
    case Misc() => Element1(evs, p, Other);
    case Element(_, _, _, _) => ElementSkipped(evs, p, m);
  }

  /** The page loop passes over markup that is not a recognised page child, keeping every field. */
  lemma {:induction false} PageMarkupStep<N>(evs: seq<Event>, conv: u32 -> Option<N>, p: nat, acc: Fields<N>, m: Markup)
    requires At(evs, p, MarkupEvents(m)) && PageIgnores(m)
    ensures PageLoop(evs, conv, p, acc) == PageLoop(evs, conv, p + |MarkupEvents(m)|, acc)
  {
    match m
    case Chars(s) => Element1(evs, p, Text(s));
    case Misc() => Element1(evs, p, Other);
    case Element(_, _, _, _) => ElementSkipped(evs, p, m);
  }

  /** The revision loop passes over markup that is not a recognised revision child, keeping every field. */
  lemma {:induction false} RevisionMarkupStep<N>(evs: seq<Event>, p: nat, acc: Fields<N>, m: Markup)
    requires At(evs, p, MarkupEvents(m)) && RevisionIgnores(m)
    ensures RevisionLoop(evs, p, acc) == RevisionLoop(evs, p + |MarkupEvents(m)|, acc)
  {
    match m
    case Chars(s) => Element1(evs, p, Text(s));
    case Misc() => Element1(evs, p, Other);
    case Element(_, _, _, _) => ElementSkipped(evs, p, m);
  }

  // ---------------------------------------------------------------------
  // The revision loop over written children

  /** One child of a revision is read by the revision loop as the tree reading says. */
  lemma {:induction false} RevisionItemStep<N>(evs: seq<Event>, p: nat, acc: Fields<N>, x: RevisionItem, a: Fields<N>, q: nat)
    requires At(evs, p, RevisionItemEvents(x)) && ReadRevisionItem(acc, x) == Some(a) && q == p + |RevisionItemEvents(x)|
    ensures RevisionLoop(evs, p, acc) == RevisionLoop(evs, q, a)
  {
    match x
    case FormatItem(s) => Element3(evs, p, FieldEvents("format", s));
    case ModelItem(s) => Element3(evs, p, FieldEvents("model", s));
    case TextItem(s) => Element3(evs, p, FieldEvents("text", s));
    case RevisionMarkup(m) => RevisionMarkupStep(evs, p, acc, m);
  }

  /**
    The children of a revision are read by the revision loop as the tree
    reading says: the loop goes from `p` to `e`, just past them.
   */
  lemma {:induction false} RevisionItemsStep<N>(evs: seq<Event>, p: nat, acc: Fields<N>, xs: seq<RevisionItem>,
                                                a: Fields<N>, e: nat)
    requires At(evs, p, RevisionItemsEvents(xs)) && ReadRevision(acc, xs) == Some(a)
    requires e == p + |RevisionItemsEvents(xs)|
    ensures RevisionLoop(evs, p, acc) == RevisionLoop(evs, e, a)
    decreases |xs|, 2
  {
    if xs == [] {
      assert a == acc && e == p;
    } else {
      RevisionItemsLayout(evs, p, acc, xs, a);
      RevisionItemsThen(evs, p, acc, xs, a, ReadRevisionItem(acc, xs[0]).value, p + |RevisionItemEvents(xs[0])|, e);
    }
  }

  /** The first child of a revision, then the others. */
  lemma {:induction false} RevisionItemsThen<N>(evs: seq<Event>, p: nat, acc: Fields<N>, xs: seq<RevisionItem>,
                                                a: Fields<N>, b: Fields<N>, q: nat, e: nat)
    requires xs != [] && At(evs, p, RevisionItemEvents(xs[0])) && ReadRevisionItem(acc, xs[0]) == Some(b)
    requires q == p + |RevisionItemEvents(xs[0])|
    requires At(evs, q, RevisionItemsEvents(xs[1..])) && ReadRevision(b, xs[1..]) == Some(a)
    requires e == q + |RevisionItemsEvents(xs[1..])|
    ensures RevisionLoop(evs, p, acc) == RevisionLoop(evs, e, a)
    decreases |xs|, 1
  {
    RevisionItemStep(evs, p, acc, xs[0], b, q);
    RevisionItemsStep(evs, q, b, xs[1..], a, e);
  }

  /** Where the first child of a revision and the others lie, and how each is read. */
  lemma {:induction false} RevisionItemsLayout<N>(evs: seq<Event>, p: nat, acc: Fields<N>, xs: seq<RevisionItem>,
                                                  a: Fields<N>)
    requires At(evs, p, RevisionItemsEvents(xs)) && ReadRevision(acc, xs) == Some(a) && xs != []
    ensures At(evs, p, RevisionItemEvents(xs[0])) && ReadRevisionItem(acc, xs[0]).Some?
    ensures At(evs, p + |RevisionItemEvents(xs[0])|, RevisionItemsEvents(xs[1..]))
    ensures ReadRevision(ReadRevisionItem(acc, xs[0]).value, xs[1..]) == Some(a)
    ensures |RevisionItemsEvents(xs)| == |RevisionItemEvents(xs[0])| + |RevisionItemsEvents(xs[1..])|
  {
    assert RevisionItemsEvents(xs) == RevisionItemEvents(xs[0]) + RevisionItemsEvents(xs[1..]);
    Split(evs, p, RevisionItemEvents(xs[0]), RevisionItemsEvents(xs[1..]));
  }

  /** Where the start tag, the children and the end tag of a revision lie. */
  lemma {:induction false} RevisionLayout(evs: seq<Event>, p: nat, ys: seq<RevisionItem>, inner: seq<Event>)
    requires At(evs, p, PageItemEvents(RevisionItems(ys))) && inner == RevisionItemsEvents(ys)
    ensures |PageItemEvents(RevisionItems(ys))| == |inner| + 2 && evs[p] == ExportStart("revision", None) &&
      At(evs, p + 1, inner) && evs[p + 1 + |inner|] == End
  {
    var start := ExportStart("revision", None);
    assert PageItemEvents(RevisionItems(ys)) == [start] + inner + [End];
    Framed(evs, p, PageItemEvents(RevisionItems(ys)), inner, start, End);
  }

  /** A revision that supplies `text` is read into the fields and the page loop resumes after it. */
  lemma {:induction false} RevisionStep<N>(evs: seq<Event>, conv: u32 -> Option<N>, p: nat, acc: Fields<N>,
                                           ys: seq<RevisionItem>, a: Fields<N>)
    requires At(evs, p, PageItemEvents(RevisionItems(ys)))
    requires acc.text.None? && ReadRevision(acc, ys) == Some(a) && a.text.Some?
    ensures PageLoop(evs, conv, p, acc) == PageLoop(evs, conv, p + |PageItemEvents(RevisionItems(ys))|, a)
  {
    var inner := RevisionItemsEvents(ys);
    var q := p + 1 + |inner|;
    assert |PageItemEvents(RevisionItems(ys))| == |inner| + 2 && evs[p] == ExportStart("revision", None) &&
      At(evs, p + 1, inner) && evs[q] == End by {
      RevisionLayout(evs, p, ys, inner);
    }
    assert RevisionLoop(evs, p + 1, acc) == RevisionLoop(evs, q, a) by {
      RevisionItemsStep(evs, p + 1, acc, ys, a, q);
    }
    assert RevisionLoop(evs, q, a) == Halt(Ok(a), q + 1);
    assert PageLoop(evs, conv, p, acc) == ResumePage(evs, conv, p, RevisionLoop(evs, p + 1, acc));
  }

  // ---------------------------------------------------------------------
  // The page loop over written children

  lemma {:induction false} NsStep<N>(evs: seq<Event>, conv: u32 -> Option<N>, p: nat, acc: Fields<N>, s: string)
    requires At(evs, p, FieldEvents("ns", s))
    requires acc.namespace.None? && ParseU32(s).Some? && conv(ParseU32(s).value).Some?
    ensures PageLoop(evs, conv, p, acc) == PageLoop(evs, conv, p + 3, acc.(namespace := conv(ParseU32(s).value)))
  {
    Element3(evs, p, FieldEvents("ns", s));
  }

  lemma {:induction false} RedirectStep<N>(evs: seq<Event>, conv: u32 -> Option<N>, p: nat, acc: Fields<N>, target: string)
    requires At(evs, p, PageItemEvents(RedirectItem(target)))
    ensures PageLoop(evs, conv, p, acc) == PageLoop(evs, conv, p + 2, acc.(redirectTitle := Some(target)))
  {
    var start := ExportStart("redirect", Some(target));
    assert PageItemEvents(RedirectItem(target)) == [start] + [End];
    Split(evs, p, [start], [End]);
    Element1(evs, p, start);
    Element1(evs, p + 1, End);
  }

  /** One child of a page is read by the page loop as the tree reading says. */
  lemma {:induction false} PageItemStep<N>(evs: seq<Event>, conv: u32 -> Option<N>, p: nat, acc: Fields<N>,
                                           x: PageItem, a: Fields<N>, q: nat)
    requires At(evs, p, PageItemEvents(x)) && ReadPageItem(conv, acc, x) == Some(a) && q == p + |PageItemEvents(x)|
    ensures PageLoop(evs, conv, p, acc) == PageLoop(evs, conv, q, a)
  {
    match x
    case NsItem(s) => NsStep(evs, conv, p, acc, s);
    case TitleItem(t) => Element3(evs, p, FieldEvents("title", t));
    case RedirectItem(t) => RedirectStep(evs, conv, p, acc, t);
    case RevisionItems(ys) => RevisionStep(evs, conv, p, acc, ys, a);
    case PageMarkup(m) => PageMarkupStep(evs, conv, p, acc, m);
  }

  /**
    The children of a page are read by the page loop as the tree reading
    says: the loop goes from `p` to `e`, just past them.
   */
  lemma {:induction false} PageItemsStep<N>(evs: seq<Event>, conv: u32 -> Option<N>, p: nat, acc: Fields<N>,
                                            xs: seq<PageItem>, a: Fields<N>, e: nat)
    requires At(evs, p, PageItemsEvents(xs)) && ReadPage(conv, acc, xs) == Some(a)
    requires e == p + |PageItemsEvents(xs)|
    ensures PageLoop(evs, conv, p, acc) == PageLoop(evs, conv, e, a)
    decreases |xs|, 2
  {
    if xs == [] {
      assert a == acc && e == p;
    } else {
      PageItemsLayout(evs, conv, p, acc, xs, a);
      PageItemsThen(evs, conv, p, acc, xs, a, ReadPageItem(conv, acc, xs[0]).value, p + |PageItemEvents(xs[0])|, e);
    }
  }

  /** The first child of a page, then the others. */
  lemma {:induction false} PageItemsThen<N>(evs: seq<Event>, conv: u32 -> Option<N>, p: nat, acc: Fields<N>,
                                            xs: seq<PageItem>, a: Fields<N>, b: Fields<N>, q: nat, e: nat)
    requires xs != [] && At(evs, p, PageItemEvents(xs[0])) && ReadPageItem(conv, acc, xs[0]) == Some(b)
    requires q == p + |PageItemEvents(xs[0])|
    requires At(evs, q, PageItemsEvents(xs[1..])) && ReadPage(conv, b, xs[1..]) == Some(a)
    requires e == q + |PageItemsEvents(xs[1..])|
    ensures PageLoop(evs, conv, p, acc) == PageLoop(evs, conv, e, a)
    decreases |xs|, 1
  {
    PageItemStep(evs, conv, p, acc, xs[0], b, q);
    PageItemsStep(evs, conv, q, b, xs[1..], a, e);
  }

  /** Where the first child of a page and the others lie, and how each is read. */
  lemma {:induction false} PageItemsLayout<N>(evs: seq<Event>, conv: u32 -> Option<N>, p: nat, acc: Fields<N>,
                                              xs: seq<PageItem>, a: Fields<N>)
    requires At(evs, p, PageItemsEvents(xs)) && ReadPage(conv, acc, xs) == Some(a) && xs != []
    ensures At(evs, p, PageItemEvents(xs[0])) && ReadPageItem(conv, acc, xs[0]).Some?
    ensures At(evs, p + |PageItemEvents(xs[0])|, PageItemsEvents(xs[1..]))
    ensures ReadPage(conv, ReadPageItem(conv, acc, xs[0]).value, xs[1..]) == Some(a)
    ensures |PageItemsEvents(xs)| == |PageItemEvents(xs[0])| + |PageItemsEvents(xs[1..])|
  {
    assert PageItemsEvents(xs) == PageItemEvents(xs[0]) + PageItemsEvents(xs[1..]);
    Split(evs, p, PageItemEvents(xs[0]), PageItemsEvents(xs[1..]));
  }

  /** Where the start tag, the children and the end tag of a page lie. */
  lemma {:induction false} PageLayout(evs: seq<Event>, p: nat, xs: seq<PageItem>, inner: seq<Event>)
    requires At(evs, p, RootItemEvents(PageItems(xs))) && inner == PageItemsEvents(xs)
    ensures |RootItemEvents(PageItems(xs))| == |inner| + 2 && evs[p] == ExportStart("page", None) &&
      At(evs, p + 1, inner) && evs[p + 1 + |inner|] == End
  {
    var start := ExportStart("page", None);
    assert RootItemEvents(PageItems(xs)) == [start] + inner + [End];
    Framed(evs, p, RootItemEvents(PageItems(xs)), inner, start, End);
  }

  /** A `page` start tag in the export namespace: the root loop enters the page with nothing collected. */
  lemma {:induction false} PageEntered<N>(evs: seq<Event>, conv: u32 -> Option<N>, p: nat)
    requires p < |evs| && evs[p] == ExportStart("page", None)
    ensures RootLoop(evs, conv, p) == PageLoop(evs, conv, p + 1, NoFields())
  {
    RootLoopDispatch(evs, conv, p);
  }

  /**
    A `page` start tag followed by children that read as the fields `f`:
    the root loop enters the page and reaches `e`, just past those
    children, with `f` collected.
   */
  lemma {:induction false} PageChildrenRead<N>(evs: seq<Event>, conv: u32 -> Option<N>, p: nat, xs: seq<PageItem>,
                                               f: Fields<N>, e: nat)
    requires p < |evs| && evs[p] == ExportStart("page", None) && At(evs, p + 1, PageItemsEvents(xs))
    requires ReadPage(conv, NoFields(), xs) == Some(f) && e == p + 1 + |PageItemsEvents(xs)|
    ensures RootLoop(evs, conv, p) == PageLoop(evs, conv, e, f)
  {
    PageEntered(evs, conv, p);
    PageItemsStep(evs, conv, p + 1, NoFields(), xs, f, e);
  }

  /**
    A `page` element whose children read as a complete page is returned by
    the root loop as that page, and the cursor stops just past its end tag.
   */
  lemma {:induction false} PageStep<N>(evs: seq<Event>, conv: u32 -> Option<N>, p: nat, xs: seq<PageItem>)
    requires At(evs, p, RootItemEvents(PageItems(xs))) && Extractable(conv, PageItems(xs))
    ensures RootLoop(evs, conv, p) ==
      Halt(Ok(Some(PageOf(ReadPage(conv, NoFields(), xs).value))), p + |RootItemEvents(PageItems(xs))|)
  {
    var f := ReadPage(conv, NoFields(), xs).value;
    var q := p + 1 + |PageItemsEvents(xs)|;
    PageLayout(evs, p, xs, PageItemsEvents(xs));
    PageChildrenRead(evs, conv, p, xs, f, q);
    PageEnd(evs, conv, q, f);
  }

  /** The end tag of a page whose fields are complete: the page is returned, just past the end tag. */
  lemma {:induction false} PageEnd<N>(evs: seq<Event>, conv: u32 -> Option<N>, p: nat, f: Fields<N>)
    requires p < |evs| && evs[p] == End && Complete(f)
    ensures PageLoop(evs, conv, p, f) == Halt(Ok(Some(PageOf(f))), p + 1)
  {
    PageEndDecides(evs, conv, p, f);
  }

  // ---------------------------------------------------------------------
  // What the caller collects

  /** The root's end tag: the iterator is exhausted and the caller collects nothing more. */
  lemma {:induction false} DrainEnd<N>(evs: seq<Event>, conv: u32 -> Option<N>, p: nat)
    requires p < |evs| && evs[p] == End
    ensures Drain(evs, conv, p, true) == Returns([])
  {
    assert NextSpec(evs, conv, p, true) == Halt(Ok(None), p + 1);
  }

  /** Two cursors from which the root loop does the same collect the same. */
  lemma {:induction false} DrainSame<N>(evs: seq<Event>, conv: u32 -> Option<N>, p: nat, q: nat)
    requires p <= |evs| && q <= |evs| && RootLoop(evs, conv, p) == RootLoop(evs, conv, q)
    ensures Drain(evs, conv, p, true) == Drain(evs, conv, q, true)
  {
    assert NextSpec(evs, conv, p, true) == NextSpec(evs, conv, q, true);
  }

  /** One item read by the iterator: a page, after which the caller asks again. */
  lemma {:induction false} DrainPage<N>(evs: seq<Event>, conv: u32 -> Option<N>, p: nat, started: bool,
                                        page: Page<N>, q: nat, rest: seq<Result<Page<N>>>)
    requires p <= |evs|
    requires NextSpec(evs, conv, p, started) == Halt(Ok(Some(page)), q)
    requires q <= |evs| && Drain(evs, conv, q, true) == Returns(rest)
    ensures Drain(evs, conv, p, started) == Returns([Ok(page)] + rest)
  {
  }

  /** Where the first child of the root and the children after it lie. */
  lemma {:induction false} ItemsLayout(evs: seq<Event>, p: nat, xs: seq<RootItem>)
    requires At(evs, p, RootItemsEvents(xs)) && xs != []
    ensures At(evs, p, RootItemEvents(xs[0])) && At(evs, p + |RootItemEvents(xs[0])|, RootItemsEvents(xs[1..]))
    ensures |RootItemsEvents(xs)| == |RootItemEvents(xs[0])| + |RootItemsEvents(xs[1..])|
  {
    assert RootItemsEvents(xs) == RootItemEvents(xs[0]) + RootItemsEvents(xs[1..]);
    Split(evs, p, RootItemEvents(xs[0]), RootItemsEvents(xs[1..]));
  }

  /**
    One child of the root, after which the caller collects `rest`: a page
    adds its record in front, markup adds nothing.
   */
  lemma {:induction false} DrainItem<N>(evs: seq<Event>, conv: u32 -> Option<N>, p: nat, x: RootItem, q: nat,
                                        rest: seq<Result<Page<N>>>)
    requires At(evs, p, RootItemEvents(x)) && q == p + |RootItemEvents(x)| && Extractable(conv, x)
    requires Drain(evs, conv, q, true) == Returns(rest)
    ensures Drain(evs, conv, p, true) == Returns(ItemRecords(conv, x) + rest)
  {
    match x
    case RootMarkup(m) =>
      assert RootLoop(evs, conv, p) == RootLoop(evs, conv, q) by {
        RootMarkupStep(evs, conv, p, m);
      }
      DrainSame(evs, conv, p, q);
      assert ItemRecords(conv, x) + rest == rest;
    case PageItems(ys) =>
      var page := PageOf(ReadPage(conv, NoFields(), ys).value);
      assert NextSpec(evs, conv, p, true) == Halt(Ok(Some(page)), q) by {
        PageStep(evs, conv, p, ys);
      }
      DrainPage(evs, conv, p, true, page, q, rest);
  }

  /**
    From the root's children followed by its end tag at
    `e`, the caller collects exactly the records those children denote, in
    order.
   */
  lemma {:induction false} DrainItems<N>(evs: seq<Event>, conv: u32 -> Option<N>, p: nat, xs: seq<RootItem>,
                                         e: nat)
    requires At(evs, p, RootItemsEvents(xs)) && AllExtractable(conv, xs)
    requires e == p + |RootItemsEvents(xs)| && e < |evs| && evs[e] == End
    ensures Drain(evs, conv, p, true) == Returns(Records(conv, xs))
    decreases |xs|, 2
  {
    if xs == [] {
      assert e == p;
      DrainEnd(evs, conv, p);
    } else {
      ItemsLayout(evs, p, xs);
      DrainFirstItem(evs, conv, p, xs, p + |RootItemEvents(xs[0])|, e);
    }
  }

  /** The first child of the root, after which the caller collects what the other children denote. */
  lemma {:induction false} DrainFirstItem<N>(evs: seq<Event>, conv: u32 -> Option<N>, p: nat, xs: seq<RootItem>,
                                             q: nat, e: nat)
    requires xs != [] && AllExtractable(conv, xs)
    requires At(evs, p, RootItemEvents(xs[0])) && q == p + |RootItemEvents(xs[0])|
    requires At(evs, q, RootItemsEvents(xs[1..])) && e == q + |RootItemsEvents(xs[1..])| && e < |evs| && evs[e] == End
    ensures Drain(evs, conv, p, true) == Returns(Records(conv, xs))
    decreases |xs|, 1
  {
    RecordsCons(conv, xs);
    DrainItems(evs, conv, q, xs[1..], e);
    DrainItem(evs, conv, p, xs[0], q, Records(conv, xs[1..]));
  }

  /** The records of the root's children: those of the first child, then those of the others. */
  lemma {:induction false} RecordsCons<N>(conv: u32 -> Option<N>, xs: seq<RootItem>)
    requires AllExtractable(conv, xs) && xs != []
    ensures Extractable(conv, xs[0]) && AllExtractable(conv, xs[1..])
    ensures Records(conv, xs) == ItemRecords(conv, xs[0]) + Records(conv, xs[1..])
  {
  }

  /** Markup without elements has no start tag. */
  lemma {:induction false} PrologHasNoStart(ms: seq<Markup>)
    requires forall i | 0 <= i < |ms| :: InProlog(ms[i])
    ensures forall j | 0 <= j < |ForestEvents(ms)| :: !ForestEvents(ms)[j].Start?
    decreases |ms|
  {
    if ms != [] {
      assert InProlog(ms[0]);
      assert forall i | 0 <= i < |ms| - 1 :: InProlog(ms[1..][i]) by {
        forall i | 0 <= i < |ms| - 1 ensures InProlog(ms[1..][i]) {
          assert ms[1..][i] == ms[i + 1];
        }
      }
      PrologHasNoStart(ms[1..]);
    }
  }

  /** Where the prolog, the root's start tag, its children and its end tag lie in a written dump. */
  lemma {:induction false} DumpLayout(d: Dump, evs: seq<Event>, prolog: seq<Event>, body: seq<Event>)
    requires evs == DumpEvents(d) && prolog == ForestEvents(d.prolog) && body == RootItemsEvents(d.items)
    ensures var k := |prolog|;
      k < |evs| && evs[k] == ExportStart("mediawiki", None) &&
      (forall j | 0 <= j < k :: evs[j] == prolog[j]) &&
      At(evs, k + 1, body) && k + 1 + |body| < |evs| && evs[k + 1 + |body|] == End
  {
    assert evs == prolog + [ExportStart("mediawiki", None)] + body + [End];
    RootFrame(evs, prolog, ExportStart("mediawiki", None), body);
  }

  /** Where the prolog, the root's start tag, its children and its end tag lie. */
  lemma {:induction false} RootFrame(evs: seq<Event>, prolog: seq<Event>, start: Event, body: seq<Event>)
    requires evs == prolog + [start] + body + [End]
    ensures var k := |prolog|;
      k < |evs| && evs[k] == start && (forall j | 0 <= j < k :: evs[j] == prolog[j]) &&
      At(evs, k + 1, body) && k + 1 + |body| < |evs| && evs[k + 1 + |body|] == End
  {
    var k := |prolog|;
    forall i | 0 <= i < |body| ensures evs[k + 1 + i] == body[i] {
    }
    AtIndex(evs, k + 1, body);
  }

  /**
    Extracting a written dump yields the records its `page` elements
    denote, in document order, and then exhaustion; whatever markup
    precedes the root or lies between, around and inside the pages is
    passed over.
   */
  lemma {:induction false} DumpRoundTrip<N>(d: Dump, conv: u32 -> Option<N>)
    requires forall i | 0 <= i < |d.prolog| :: InProlog(d.prolog[i])
    requires AllExtractable(conv, d.items)
    ensures Drain(DumpEvents(d), conv, 0, false) == Returns(Records(conv, d.items))
  {
    var evs := DumpEvents(d);
    var k := |ForestEvents(d.prolog)|;
    var r := k + 1 + |RootItemsEvents(d.items)|;
    assert k < |evs| && evs[k] == ExportStart("mediawiki", None) &&
      (forall j | 0 <= j < k :: evs[j] == ForestEvents(d.prolog)[j]) &&
      At(evs, k + 1, RootItemsEvents(d.items)) && r < |evs| && evs[r] == End by {
      DumpLayout(d, evs, ForestEvents(d.prolog), RootItemsEvents(d.items));
    }
    assert ScanRoot(evs, 0) == Halt(Ok(()), k + 1) by {
      PrologHasNoStart(d.prolog);
      ScanRootFirstStart(evs, 0, k);
    }
    assert NextSpec(evs, conv, 0, false) == NextSpec(evs, conv, k + 1, true);
    assert Drain(evs, conv, k + 1, true) == Returns(Records(conv, d.items)) by {
      DrainItems(evs, conv, k + 1, d.items, r);
    }
  }

  /**
    A dump that writes `pages`, each in any layout the extractor accepts
    (`title` before or after `ns`; whitespace, comments and unknown
    elements anywhere, `siteinfo` among the root's children), yields exactly those pages, in order, with
    their namespaces converted, and then exhaustion: the number of records
    equals the number of `page` elements.
   */
  lemma {:induction false} WrittenPagesRoundTrip<N>(d: Dump, pages: seq<Page<u32>>, conv: u32 -> Option<N>)
    requires forall i | 0 <= i < |d.prolog| :: InProlog(d.prolog[i])
    requires DumpWrites(d.items, pages) && Convertible(pages, conv)
    ensures Drain(DumpEvents(d), conv, 0, false) == Returns(Expected(pages, conv))
  {
    DumpWritesRecords(conv, d.items, pages);
    DumpRoundTrip(d, conv);
  }

  // ---------------------------------------------------------------------
  // Malformed pages

  /**
    Once a revision has supplied `text`, a further `revision` in the same
    page is the unsupported-feature error, reported just past its start tag.
   */
  lemma {:induction false} SecondRevisionNotSupported<N>(evs: seq<Event>, conv: u32 -> Option<N>, p: nat,
                                                          xs: seq<PageItem>)
    requires At(evs, p, [ExportStart("page", None)] + PageItemsEvents(xs) + [ExportStart("revision", None)])
    requires var f := ReadPage(conv, NoFields(), xs); f.Some? && f.value.text.Some?
    ensures var r := p + 1 + |PageItemsEvents(xs)|;
      RootLoop(evs, conv, p) == Halt(Err(NotSupported(r + 1)), r + 1)
  {
    var inner := PageItemsEvents(xs);
    var f := ReadPage(conv, NoFields(), xs).value;
    var r := p + 1 + |inner|;
    assert At(evs, p + 1, inner) && evs[p] == ExportStart("page", None) &&
      evs[r] == ExportStart("revision", None) by {
      TwoEnds(evs, p, inner, ExportStart("page", None), ExportStart("revision", None));
    }
    PageChildrenRead(evs, conv, p, xs, f, r);
    assert PageLoop(evs, conv, r, f) == Halt(Err(NotSupported(r + 1)), r + 1) by {
      RevisionDispatch(evs, conv, r, f);
    }
  }

  /**
    A `page` element whose children read without error but lack `ns`,
    `title` or a revision with `text` is a format error just past the
    page's end tag.
   */
  lemma {:induction false} IncompletePageIsFormatError<N>(evs: seq<Event>, conv: u32 -> Option<N>, p: nat,
                                                           xs: seq<PageItem>)
    requires At(evs, p, RootItemEvents(PageItems(xs)))
    requires var f := ReadPage(conv, NoFields(), xs); f.Some? && !Complete(f.value)
    ensures var e := p + |RootItemEvents(PageItems(xs))|;
      RootLoop(evs, conv, p) == Halt(Err(Format(e)), e)
  {
    var f := ReadPage(conv, NoFields(), xs).value;
    var q := p + 1 + |PageItemsEvents(xs)|;
    assert At(evs, p + 1, PageItemsEvents(xs)) && evs[p] == ExportStart("page", None) &&
      evs[q] == End && q + 1 == p + |RootItemEvents(PageItems(xs))| by {
      PageLayout(evs, p, xs, PageItemsEvents(xs));
    }
    PageChildrenRead(evs, conv, p, xs, f, q);
    assert PageLoop(evs, conv, q, f) == Halt(Err(Format(q + 1)), q + 1) by {
      PageEndDecides(evs, conv, q, f);
    }
  }

  /**
    The first `ns` of a page whose text parses as a value the conversion
    refuses is the namespace error carrying exactly that value, reported
    just past the `ns` element; nothing after it is read.
   */
  lemma {:induction false} RefusedNamespace<N>(evs: seq<Event>, conv: u32 -> Option<N>, p: nat,
                                               xs: seq<PageItem>, s: string, raw: u32)
    requires At(evs, p, [ExportStart("page", None)] + PageItemsEvents(xs) + FieldEvents("ns", s))
    requires var f := ReadPage(conv, NoFields(), xs); f.Some? && f.value.namespace.None?
    requires ParseU32(s) == Some(raw) && conv(raw).None?
    ensures var r := p + 1 + |PageItemsEvents(xs)|;
      RootLoop(evs, conv, p) == Halt(Err(Namespace(raw)), r + 3)
  {
    var inner := PageItemsEvents(xs);
    var f := ReadPage(conv, NoFields(), xs).value;
    var r := p + 1 + |inner|;
    assert At(evs, p + 1, inner) && evs[p] == ExportStart("page", None) &&
      evs[r] == ExportStart("ns", None) && evs[r + 1] == Text(s) && evs[r + 2] == End by {
      RefusedNamespaceLayout(evs, p, inner, s);
    }
    assert RootLoop(evs, conv, p) == PageLoop(evs, conv, r, f) by {
      PageChildrenRead(evs, conv, p, xs, f, r);
    }
    assert PageLoop(evs, conv, r, f) == Halt(Err(Namespace(raw)), r + 3) by {
      NamespaceDispatch(evs, conv, r, f);
    }
  }

  /** Where the start tag of a page, the children before its `ns` and the `ns` element lie. */
  lemma {:induction false} RefusedNamespaceLayout(evs: seq<Event>, p: nat, inner: seq<Event>, s: string)
    requires At(evs, p, [ExportStart("page", None)] + inner + FieldEvents("ns", s))
    ensures evs[p] == ExportStart("page", None) && At(evs, p + 1, inner)
    ensures var r := p + 1 + |inner|;
      evs[r] == ExportStart("ns", None) && evs[r + 1] == Text(s) && evs[r + 2] == End
  {
    var ns := FieldEvents("ns", s);
    Split(evs, p, [ExportStart("page", None)] + inner, ns);
    Split(evs, p, [ExportStart("page", None)], inner);
    Element1(evs, p, ExportStart("page", None));
    Element3(evs, p + 1 + |inner|, ns);
  }

  /** A piece made of a first event, an inner part and a last event, located part by part. */
  lemma {:induction false} Framed(evs: seq<Event>, p: nat, whole: seq<Event>, inner: seq<Event>, first: Event, last: Event)
    requires At(evs, p, whole) && whole == [first] + inner + [last]
    ensures |whole| == |inner| + 2 && evs[p] == first && At(evs, p + 1, inner) && evs[p + 1 + |inner|] == last
  {
    TwoEnds(evs, p, inner, first, last);
  }

  /** Where a start tag, the page children after it and the start tag that follows them lie. */
  lemma {:induction false} TwoEnds(evs: seq<Event>, p: nat, inner: seq<Event>, first: Event, last: Event)
    requires At(evs, p, [first] + inner + [last])
    ensures evs[p] == first && At(evs, p + 1, inner) && evs[p + 1 + |inner|] == last
  {
    Split(evs, p, [first] + inner, [last]);
    Split(evs, p, [first], inner);
    Element1(evs, p, first);
    Element1(evs, p + 1 + |inner|, last);
  }
}
