/**
  Properties of the page-extraction state machine that hold for every
  event sequence: how each loop dispatches on the next event, and which
  page fields can be set by which elements.
 */
module Properties {
  import opened Wrappers
  import opened DumpTypes
  import opened Decimal
  import opened Extraction

  /** No start tag of element `name` in the export namespace occurs in `evs[lo..hi]`. */
  ghost predicate Unseen(evs: seq<Event>, lo: nat, hi: nat, name: string)
    requires lo <= hi <= |evs|
  {
    forall k | lo <= k < hi :: !IsElement(evs[k], name)
  }

  /**
    The root loop: the first end tag ends the extraction, a `page` start
    tag in the export namespace starts a page with nothing collected, any
    other start tag (a `page` in another or no namespace included) is
    skipped whole, and text or other events are ignored.
   */
  lemma RootLoopDispatch<N>(evs: seq<Event>, conv: u32 -> Option<N>, p: nat)
    requires p < |evs|
    ensures evs[p] == End ==> RootLoop(evs, conv, p) == Halt(Ok(None), p + 1)
    ensures IsElement(evs[p], "page") ==>
      RootLoop(evs, conv, p) == PageLoop(evs, conv, p + 1, NoFields())
    ensures evs[p].Start? && !IsElement(evs[p], "page") ==>
      RootLoop(evs, conv, p) ==
        match SkipTo(evs, p + 1, 0)
        case None() => Hangs
        case Some(q) => RootLoop(evs, conv, q)
    ensures evs[p].Text? || evs[p].Other? ==> RootLoop(evs, conv, p) == RootLoop(evs, conv, p + 1)
  {
  }

  /**
    The end tag of a page yields the page exactly when `ns`, `title` and
    `text` were all collected, with `format`, `model` and `redirect_title`
    as collected; otherwise it is a format error just past that end tag.
   */
  lemma PageEndDecides<N>(evs: seq<Event>, conv: u32 -> Option<N>, p: nat, acc: Fields<N>)
    requires p < |evs| && evs[p] == End
    ensures var o := PageLoop(evs, conv, p, acc);
      o.at == p + 1 &&
      (o.result.Ok? <==> acc.namespace.Some? && acc.text.Some? && acc.title.Some?) &&
      (o.result.Ok? ==> o.result.value == Some(Page(acc.format, acc.model, acc.namespace.value,
                                                     acc.redirectTitle, acc.text.value, acc.title.value))) &&
      (o.result.Err? ==> o.result.error == Format(p + 1))
  {
  }

  /**
    A `redirect` start tag sets `redirect_title` to its `title` attribute
    and skips the element; without the attribute it is a format error
    just past the start tag. Repeated `redirect` elements overwrite.
   */
  lemma RedirectDispatch<N>(evs: seq<Event>, conv: u32 -> Option<N>, p: nat, acc: Fields<N>)
    requires p < |evs| && IsElement(evs[p], "redirect")
    ensures evs[p].titleAttr.None? ==> PageLoop(evs, conv, p, acc) == Halt(Err(Format(p + 1)), p + 1)
    ensures evs[p].titleAttr.Some? ==>
      PageLoop(evs, conv, p, acc) ==
        match SkipTo(evs, p + 1, 0)
        case None() => Hangs
        case Some(q) => PageLoop(evs, conv, q, acc.(redirectTitle := evs[p].titleAttr))
  {
  }

  /**
    A `revision` start tag when `text` is already collected is the
    unsupported-feature error, not a format error; a revision whose end
    tag comes before any `text` is a format error just past that end tag.
   */
  lemma RevisionDispatch<N>(evs: seq<Event>, conv: u32 -> Option<N>, p: nat, acc: Fields<N>)
    requires p < |evs|
    ensures IsElement(evs[p], "revision") && acc.text.Some? ==>
      PageLoop(evs, conv, p, acc) == Halt(Err(NotSupported(p + 1)), p + 1)
    ensures evs[p] == End && acc.text.None? ==>
      RevisionLoop(evs, p, acc) == Halt(Err(Format(p + 1)), p + 1)
  {
  }

  /**
    The first `ns` element of a page: its content is read as by
    `parse_text`, so an empty element, a nested element, another event or
    a missing end tag is a format error; text that is not a `u32` is a
    format error just past the element; a value `v` the conversion refuses
    is `Namespace(v)`; otherwise the converted value is collected and the
    page loop goes on just past the element.
   */
  lemma NamespaceDispatch<N>(evs: seq<Event>, conv: u32 -> Option<N>, p: nat, acc: Fields<N>)
    requires p < |evs| && IsElement(evs[p], "ns") && acc.namespace.None?
    ensures p + 1 == |evs| ==> PageLoop(evs, conv, p, acc) == Halt(Err(Format(p + 1)), p + 1)
    ensures p + 1 < |evs| && evs[p + 1] == End ==>
      PageLoop(evs, conv, p, acc) == Halt(Err(Format(p + 2)), p + 2)
    ensures p + 1 < |evs| && (evs[p + 1].Start? || evs[p + 1].Other?) ==>
      PageLoop(evs, conv, p, acc) == Halt(Err(Format(p + 2)), p + 2)
    ensures p + 2 == |evs| && evs[p + 1].Text? ==>
      PageLoop(evs, conv, p, acc) == Halt(Err(Format(p + 2)), p + 2)
    ensures p + 2 < |evs| && evs[p + 1].Text? && evs[p + 2] != End ==>
      PageLoop(evs, conv, p, acc) == Halt(Err(Format(p + 3)), p + 3)
    ensures p + 2 < |evs| && evs[p + 1].Text? && evs[p + 2] == End ==>
      var v := ParseU32(evs[p + 1].content);
      (v.None? ==> PageLoop(evs, conv, p, acc) == Halt(Err(Format(p + 3)), p + 3)) &&
      (v.Some? && conv(v.value).None? ==>
        PageLoop(evs, conv, p, acc) == Halt(Err(Namespace(v.value)), p + 3)) &&
      (v.Some? && conv(v.value).Some? ==>
        PageLoop(evs, conv, p, acc) == PageLoop(evs, conv, p + 3, acc.(namespace := conv(v.value))))
  {
    assert ParseU32("") == None;
  }

  /**
    A second `ns` or `title` in a page, or a second `format`, `model` or
    `text` in a revision, is a format error at the cursor just past its
    start tag, before any of its content is read.
   */
  lemma DuplicateFieldIsFormatError<N>(evs: seq<Event>, conv: u32 -> Option<N>, p: nat, acc: Fields<N>)
    requires p < |evs|
    ensures IsElement(evs[p], "ns") && acc.namespace.Some? ==>
      PageLoop(evs, conv, p, acc) == Halt(Err(Format(p + 1)), p + 1)
    ensures IsElement(evs[p], "title") && acc.title.Some? ==>
      PageLoop(evs, conv, p, acc) == Halt(Err(Format(p + 1)), p + 1)
    ensures IsElement(evs[p], "format") && acc.format.Some? ==>
      RevisionLoop(evs, p, acc) == Halt(Err(Format(p + 1)), p + 1)
    ensures IsElement(evs[p], "model") && acc.model.Some? ==>
      RevisionLoop(evs, p, acc) == Halt(Err(Format(p + 1)), p + 1)
    ensures IsElement(evs[p], "text") && acc.text.Some? ==>
      RevisionLoop(evs, p, acc) == Halt(Err(Format(p + 1)), p + 1)
  {
  }

  /**
    A start tag the page or revision loop does not recognise (an unknown
    name, or a known name outside the export namespace) is skipped whole
    and the loop resumes after its balancing end tag with every collected
    field unchanged.
   */
  lemma UnknownChildSkipped<N>(evs: seq<Event>, conv: u32 -> Option<N>, p: nat, acc: Fields<N>)
    requires p < |evs| && evs[p].Start?
    ensures ClassifyPageChild(evs[p].ns, evs[p].local) == UnknownPageChild ==>
      PageLoop(evs, conv, p, acc) ==
        match SkipTo(evs, p + 1, 0)
        case None() => Hangs
        case Some(q) => PageLoop(evs, conv, q, acc)
    ensures ClassifyRevisionChild(evs[p].ns, evs[p].local) == UnknownRevisionChild ==>
      RevisionLoop(evs, p, acc) ==
        match SkipTo(evs, p + 1, 0)
        case None() => Hangs
        case Some(q) => RevisionLoop(evs, q, acc)
  {
  }

  /**
    The revision loop only ever changes `format`, `model` and `text`; when
    it completes, `text` is collected, and `format` (`model`) is unchanged
    unless a `format` (`model`) element started inside the revision.
   */
  lemma {:induction false} RevisionKeepsOtherFields<N>(evs: seq<Event>, p: nat, acc: Fields<N>)
    requires p <= |evs|
    ensures var o := RevisionLoop(evs, p, acc);
      o.Halt? && o.result.Ok? ==>
        var acc' := o.result.value;
        acc'.namespace == acc.namespace && acc'.title == acc.title &&
        acc'.redirectTitle == acc.redirectTitle && acc'.text.Some? &&
        (Unseen(evs, p, o.at, "format") ==> acc'.format == acc.format) &&
        (Unseen(evs, p, o.at, "model") ==> acc'.model == acc.model)
    decreases |evs| - p
  {
    if p < |evs| {
      match evs[p]
      case Start(ns, local, _) =>
        match ClassifyRevisionChild(ns, local) {
        case FormatChild() =>
          var t := TextField(evs, p + 1, acc.format.Some?);
          if t.result.Ok? {
            RevisionKeepsOtherFields(evs, t.at, acc.(format := Some(t.result.value)));
          }
        case ModelChild() =>
          var t := TextField(evs, p + 1, acc.model.Some?);
          if t.result.Ok? {
            RevisionKeepsOtherFields(evs, t.at, acc.(model := Some(t.result.value)));
          }
        case TextChild() =>
          var t := TextField(evs, p + 1, acc.text.Some?);
          if t.result.Ok? {
            RevisionKeepsOtherFields(evs, t.at, acc.(text := Some(t.result.value)));
          }
        case UnknownRevisionChild() =>
          var s := SkipTo(evs, p + 1, 0);
          if s.Some? {
            RevisionKeepsOtherFields(evs, s.value, acc);
          }
        }
      case End() =>
      case Text(_) =>
        RevisionKeepsOtherFields(evs, p + 1, acc);
      case Other() =>
        RevisionKeepsOtherFields(evs, p + 1, acc);
    }
  }

  /**
    A page's `format`, `model` and `redirect_title` stay absent unless the
    corresponding element appeared between the cursor and the page's end
    tag.
   */
  lemma {:induction false} AbsentUnlessSeen<N>(evs: seq<Event>, conv: u32 -> Option<N>, p: nat, acc: Fields<N>)
    requires p <= |evs|
    ensures var o := PageLoop(evs, conv, p, acc);
      o.Halt? && o.result.Ok? && o.result.value.Some? ==>
        var page := o.result.value.value;
        (acc.format.None? && Unseen(evs, p, o.at, "format") ==> page.format.None?) &&
        (acc.model.None? && Unseen(evs, p, o.at, "model") ==> page.model.None?) &&
        (acc.redirectTitle.None? && Unseen(evs, p, o.at, "redirect") ==> page.redirectTitle.None?)
    decreases |evs| - p
  {
    if p < |evs| {
      match evs[p]
      case Start(ns, local, titleAttr) =>
        match ClassifyPageChild(ns, local) {
        case Ns() =>
          var t := TextField(evs, p + 1, acc.namespace.Some?);
          if t.result.Ok? {
            var n := ResolveNamespace(t.result.value, conv, t.at);
            if n.Ok? {
              AbsentUnlessSeen(evs, conv, t.at, acc.(namespace := Some(n.value)));
            }
          }
        case Title() =>
          var t := TextField(evs, p + 1, acc.title.Some?);
          if t.result.Ok? {
            AbsentUnlessSeen(evs, conv, t.at, acc.(title := Some(t.result.value)));
          }
        case Redirect() =>
          var s := SkipTo(evs, p + 1, 0);
          if titleAttr.Some? && s.Some? {
            AbsentUnlessSeen(evs, conv, s.value, acc.(redirectTitle := titleAttr));
          }
        case Revision() =>
          var rev := RevisionLoop(evs, p + 1, acc);
          if acc.text.None? && rev.Halt? && rev.result.Ok? {
            RevisionKeepsOtherFields(evs, p + 1, acc);
            AbsentUnlessSeen(evs, conv, rev.at, rev.result.value);
          }
        case UnknownPageChild() =>
          var s := SkipTo(evs, p + 1, 0);
          if s.Some? {
            AbsentUnlessSeen(evs, conv, s.value, acc);
          }
        }
      case End() =>
      case Text(_) =>
        AbsentUnlessSeen(evs, conv, p + 1, acc);
      case Other() =>
        AbsentUnlessSeen(evs, conv, p + 1, acc);
    }
  }
}
