/**
  The page-extraction state machine as functions over a finite event
  sequence `evs` read from cursor `p`. Each loop of the extractor is a
  function that recurses where the loop iterates; running out of events in
  a loop that never matches end-of-file is the outcome `Hangs`.
 */
module Extraction {
  import opened Wrappers
  import opened DumpTypes
  import opened Decimal

  // ---------------------------------------------------------------------
  // Subtree skipper

  /** How an event moves the nesting depth: start tags open, end tags close. */
  function Weight(e: Event): int {
    match e
    case Start(_, _, _) => 1
    case End() => -1
    case _ => 0
  }

  /** Net nesting depth of the events `evs[lo..hi]`. */
  function Balance(evs: seq<Event>, lo: nat, hi: nat): int
    requires lo <= hi <= |evs|
    decreases hi
  {
    if hi == lo then 0 else Balance(evs, lo, hi - 1) + Weight(evs[hi - 1])
  }

  /** `q` is just past the end tag that balances an element whose content starts at `lo`. */
  ghost predicate Closes(evs: seq<Event>, lo: nat, q: nat)
    requires lo <= |evs|
  {
    lo < q <= |evs| && Balance(evs, lo, q) == -1 &&
    forall k | lo <= k < q :: Balance(evs, lo, k) >= 0
  }

  /** No end tag after `lo` balances the element: the input ends inside it. */
  ghost predicate NeverCloses(evs: seq<Event>, lo: nat)
    requires lo <= |evs|
  {
    forall k | lo <= k <= |evs| :: Balance(evs, lo, k) >= 0
  }

  /**
    `skip_element` from cursor `p` at depth `level`: the cursor just past
    the end tag met at depth 0, or `None` when the events run out first.
   */
  function SkipTo(evs: seq<Event>, p: nat, level: nat): (r: Option<nat>)
    requires p <= |evs|
    ensures r.Some? ==> p < r.value <= |evs|
    decreases |evs| - p
  {
    if p == |evs| then None
    else match evs[p]
      case End() => if level == 0 then Some(p + 1) else SkipTo(evs, p + 1, level - 1)
      case Start(_, _, _) => SkipTo(evs, p + 1, level + 1)
      case _ => SkipTo(evs, p + 1, level)
  }

  /**
    The loop invariant of `skip_element`: `level` is the net depth of what
    was consumed since the element's content began, which never closed it.
   */
  lemma {:induction false} SkipToBalanced(evs: seq<Event>, lo: nat, p: nat, level: nat)
    requires lo <= p <= |evs|
    requires Balance(evs, lo, p) == level
    requires forall k | lo <= k <= p :: Balance(evs, lo, k) >= 0
    ensures SkipTo(evs, p, level).Some? ==> Closes(evs, lo, SkipTo(evs, p, level).value)
    ensures SkipTo(evs, p, level).None? ==> NeverCloses(evs, lo)
    decreases |evs| - p
  {
    if p < |evs| {
      assert Balance(evs, lo, p + 1) == level + Weight(evs[p]);
      match evs[p]
      case End() =>
        if level > 0 {
          SkipToBalanced(evs, lo, p + 1, level - 1);
        }
      case Start(_, _, _) =>
        SkipToBalanced(evs, lo, p + 1, level + 1);
      case Text(_) =>
        SkipToBalanced(evs, lo, p + 1, level);
      case Other() =>
        SkipToBalanced(evs, lo, p + 1, level);
    }
  }

  /** The closing position is just past an end tag, at which the depth had returned to that of entry. */
  lemma ClosesAtEnd(evs: seq<Event>, lo: nat, q: nat)
    requires lo <= |evs| && Closes(evs, lo, q)
    ensures evs[q - 1] == End && Balance(evs, lo, q - 1) == 0
  {
    assert Balance(evs, lo, q) == Balance(evs, lo, q - 1) + Weight(evs[q - 1]);
  }

  /**
    Skipping from just after a start tag stops exactly past the first end
    tag that balances it, and runs out of events exactly when none does.
   */
  lemma SkipToIsFirstClosingEnd(evs: seq<Event>, lo: nat, q: nat)
    requires lo <= |evs|
    ensures SkipTo(evs, lo, 0) == Some(q) <==> Closes(evs, lo, q)
    ensures SkipTo(evs, lo, 0).None? <==> NeverCloses(evs, lo)
  {
    SkipToBalanced(evs, lo, lo, 0);
    var r := SkipTo(evs, lo, 0);
    if r.Some? && Closes(evs, lo, q) {
      ClosesUnique(evs, lo, q, r.value);
    }
  }

  /** At most one position closes an element. */
  lemma ClosesUnique(evs: seq<Event>, lo: nat, q: nat, q': nat)
    requires lo <= |evs| && Closes(evs, lo, q) && Closes(evs, lo, q')
    ensures q == q'
  {
  }

  // ---------------------------------------------------------------------
  // Text field reader

  /**
    `parse_text` with the cursor just after the field's start tag;
    `present` says whether the field already holds a value. Reading past
    the last event yields end-of-file, which is neither text nor an end tag.
   */
  function TextField(evs: seq<Event>, p: nat, present: bool): (o: Outcome<string>)
    requires p <= |evs|
    ensures o.Halt? && p <= o.at <= |evs|
    ensures present ==> o == Halt(Err(Format(p)), p)
    ensures o.result.Ok? <==>
      !present && p < |evs| &&
      (evs[p] == End || (evs[p].Text? && p + 1 < |evs| && evs[p + 1] == End))
    ensures o.result.Ok? ==>
      o == if evs[p] == End then Halt(Ok(""), p + 1) else Halt(Ok(evs[p].content), p + 2)
    ensures o.result.Err? ==> o.result.error == Format(o.at)
    ensures o.at == if present || p == |evs| then p else if evs[p].Text? && p + 1 < |evs| then p + 2 else p + 1
  {
    if present then Halt(Err(Format(p)), p)
    else if p == |evs| then Halt(Err(Format(p)), p)
    else match evs[p]
      case End() => Halt(Ok(""), p + 1)
      case Text(s) =>
        if p + 1 == |evs| then Halt(Err(Format(p + 1)), p + 1)
        else if evs[p + 1] == End then Halt(Ok(s), p + 2)
        else Halt(Err(Format(p + 2)), p + 2)
      case _ => Halt(Err(Format(p + 1)), p + 1)
  }

  // ---------------------------------------------------------------------
  // Namespace resolver

  /**
    The `ns` text turned into the caller's namespace type: text that is not
    a `u32` is a format error at `at`, a `u32` the conversion refuses is a
    namespace error carrying exactly that value.
   */
  function ResolveNamespace<N>(s: string, conv: u32 -> Option<N>, at: nat): (r: Result<N>)
    ensures ParseU32(s).None? ==> r == Err(Format(at))
    ensures ParseU32(s).Some? && conv(ParseU32(s).value).None? ==>
      r == Err(Namespace(ParseU32(s).value))
    ensures r.Ok? <==> ParseU32(s).Some? && conv(ParseU32(s).value).Some?
    ensures r.Ok? ==> conv(ParseU32(s).value) == Some(r.value)
  {
    match ParseU32(s)
    case None() => Err(Format(at))
    case Some(v) =>
      match conv(v)
      case None() => Err(Namespace(v))
      case Some(n) => Ok(n)
  }

  // ---------------------------------------------------------------------
  // The state machine

  /** The one-time scan: skip non-start events; the first start tag must be the root. */
  function ScanRoot(evs: seq<Event>, p: nat): (o: Outcome<()>)
    requires p <= |evs|
    ensures o.Halt? ==> p < o.at <= |evs|
    decreases |evs| - p
  {
    if p == |evs| then Hangs
    else if evs[p].Start? then
      Halt(if IsElement(evs[p], "mediawiki") then Ok(()) else Err(Format(p + 1)), p + 1)
    else ScanRoot(evs, p + 1)
  }

  /** The loop over the children of the root element. */
  function RootLoop<N>(evs: seq<Event>, conv: u32 -> Option<N>, p: nat): (o: Outcome<Option<Page<N>>>)
    requires p <= |evs|
    ensures o.Halt? ==> p < o.at <= |evs|
    decreases |evs| - p
  {
    if p == |evs| then Hangs
    else match evs[p]
      case End() => Halt(Ok(None), p + 1)
      case Start(ns, local, _) =>
        if MatchNamespace(ns) && local == "page" then PageLoop(evs, conv, p + 1, NoFields())
        else (match SkipTo(evs, p + 1, 0)
          case None() => Hangs
          case Some(q) => RootLoop(evs, conv, q))
      case _ => RootLoop(evs, conv, p + 1)
  }

  /** The loop over the children of one `page` element, collecting into `acc`. */
  function PageLoop<N>(evs: seq<Event>, conv: u32 -> Option<N>, p: nat, acc: Fields<N>)
    : (o: Outcome<Option<Page<N>>>)
    requires p <= |evs|
    ensures o.Halt? ==> p < o.at <= |evs|
    decreases |evs| - p, 1
  {
    if p == |evs| then Hangs
    else match evs[p]
      case End() =>
        if acc.namespace.Some? && acc.text.Some? && acc.title.Some? then
          Halt(Ok(Some(Page(acc.format, acc.model, acc.namespace.value, acc.redirectTitle,
                            acc.text.value, acc.title.value))), p + 1)
        else Halt(Err(Format(p + 1)), p + 1)
      case Start(ns, local, titleAttr) =>
        (match ClassifyPageChild(ns, local)
        case Ns() =>
          var t := TextField(evs, p + 1, acc.namespace.Some?);
          if t.result.Err? then Halt(Err(t.result.error), t.at)
          else (match ResolveNamespace(t.result.value, conv, t.at)
            case Err(e) => Halt(Err(e), t.at)
            case Ok(n) => PageLoop(evs, conv, t.at, acc.(namespace := Some(n))))
        case Title() =>
          var t := TextField(evs, p + 1, acc.title.Some?);
          if t.result.Err? then Halt(Err(t.result.error), t.at)
          else PageLoop(evs, conv, t.at, acc.(title := Some(t.result.value)))
        case Redirect() =>
          if titleAttr.None? then Halt(Err(Format(p + 1)), p + 1)
          else (match SkipTo(evs, p + 1, 0)
            case None() => Hangs
            case Some(q) => PageLoop(evs, conv, q, acc.(redirectTitle := titleAttr)))
        case Revision() =>
          if acc.text.Some? then Halt(Err(NotSupported(p + 1)), p + 1)
          else ResumePage(evs, conv, p, RevisionLoop(evs, p + 1, acc))
        case UnknownPageChild() =>
          (match SkipTo(evs, p + 1, 0)
          case None() => Hangs
          case Some(q) => PageLoop(evs, conv, q, acc)))
      case _ => PageLoop(evs, conv, p + 1, acc)
  }

  /** Back in the page loop after the revision loop ended with `o`. */
  function ResumePage<N>(evs: seq<Event>, conv: u32 -> Option<N>, p: nat, o: Outcome<Fields<N>>)
    : (r: Outcome<Option<Page<N>>>)
    requires p <= |evs|
    requires o.Halt? ==> p < o.at <= |evs|
    ensures r.Halt? ==> p < r.at <= |evs|
    decreases |evs| - p, 0
  {
    match o
    case Hangs() => Hangs
    case Halt(Err(e), q) => Halt(Err(e), q)
    case Halt(Ok(acc), q) => PageLoop(evs, conv, q, acc)
  }

  /** The loop over the children of the `revision` element; ends with the updated accumulators. */
  function RevisionLoop<N>(evs: seq<Event>, p: nat, acc: Fields<N>): (o: Outcome<Fields<N>>)
    requires p <= |evs|
    ensures o.Halt? ==> p < o.at <= |evs|
    decreases |evs| - p
  {
    if p == |evs| then Hangs
    else match evs[p]
      case End() =>
        if acc.text.Some? then Halt(Ok(acc), p + 1) else Halt(Err(Format(p + 1)), p + 1)
      case Start(ns, local, _) =>
        (match ClassifyRevisionChild(ns, local)
        case FormatChild() =>
          var t := TextField(evs, p + 1, acc.format.Some?);
          if t.result.Err? then Halt(Err(t.result.error), t.at)
          else RevisionLoop(evs, t.at, acc.(format := Some(t.result.value)))
        case ModelChild() =>
          var t := TextField(evs, p + 1, acc.model.Some?);
          if t.result.Err? then Halt(Err(t.result.error), t.at)
          else RevisionLoop(evs, t.at, acc.(model := Some(t.result.value)))
        case TextChild() =>
          var t := TextField(evs, p + 1, acc.text.Some?);
          if t.result.Err? then Halt(Err(t.result.error), t.at)
          else RevisionLoop(evs, t.at, acc.(text := Some(t.result.value)))
        case UnknownRevisionChild() =>
          (match SkipTo(evs, p + 1, 0)
          case None() => Hangs
          case Some(q) => RevisionLoop(evs, q, acc)))
      case _ => RevisionLoop(evs, p + 1, acc)
  }

  /** One call of `next`: the root scan on the first call only, then the root loop. */
  function NextSpec<N>(evs: seq<Event>, conv: u32 -> Option<N>, p: nat, started: bool)
    : (o: Outcome<Option<Page<N>>>)
    requires p <= |evs|
    ensures o.Halt? ==> p < o.at <= |evs|
  {
    if started then RootLoop(evs, conv, p)
    else match ScanRoot(evs, p)
      case Hangs() => Hangs
      case Halt(Err(e), q) => Halt(Err(e), q)
      case Halt(Ok(_), q) => RootLoop(evs, conv, q)
  }

  /** Whether a call of `next` from `p` leaves the parser started. */
  function StartedAfter(evs: seq<Event>, p: nat, started: bool): bool
    requires p <= |evs|
  {
    started || (var s := ScanRoot(evs, p); s.Halt? && s.result.Ok?)
  }

  /** `Iterator::next`: exhaustion becomes `None`, a page or an error becomes an item. */
  function ToItem<N>(r: Result<Option<Page<N>>>): (item: Option<Result<Page<N>>>)
    ensures item.None? <==> r == Ok(None)
    ensures r.Err? ==> item == Some(Err(r.error))
    ensures r.Ok? && r.value.Some? ==> item == Some(Ok(r.value.value))
  {
    match r
    case Err(e) => Some(Err(e))
    case Ok(None()) => None
    case Ok(Some(page)) => Some(Ok(page))
  }

  /**
    The items a caller collects by calling the iterator until it returns
    `None`, stopping after the first error, as the crate documentation's
    example loop does.
   */
  function Drain<N>(evs: seq<Event>, conv: u32 -> Option<N>, p: nat, started: bool)
    : (r: Run<seq<Result<Page<N>>>>)
    requires p <= |evs|
    decreases |evs| - p
  {
    match NextSpec(evs, conv, p, started)
    case Hangs() => Diverges
    case Halt(r, q) =>
      match ToItem(r)
      case None() => Returns([])
      case Some(Err(e)) => Returns([Err(e)])
      case Some(Ok(page)) =>
        (match Drain(evs, conv, q, true)
        case Diverges() => Diverges
        case Returns(rest) => Returns([Ok(page)] + rest))
  }

  /** Every item but the last is a page: an error can only come last. */
  predicate ErrorOnlyLast<N>(items: seq<Result<Page<N>>>) {
    forall i | 0 <= i < |items| - 1 :: items[i].Ok?
  }

  /** The caller collects pages only: an error, if any, is the last thing it collects. */
  lemma {:induction false} DrainErrorIsLast<N>(evs: seq<Event>, conv: u32 -> Option<N>, p: nat, started: bool)
    requires p <= |evs|
    ensures Drain(evs, conv, p, started).Returns? ==> ErrorOnlyLast(Drain(evs, conv, p, started).value)
    decreases |evs| - p
  {
    match NextSpec(evs, conv, p, started)
    case Hangs() =>
    case Halt(r, q) =>
      match ToItem(r)
      case None() =>
      case Some(Err(e)) =>
      case Some(Ok(page)) =>
        DrainErrorIsLast(evs, conv, q, true);
        var rest := Drain(evs, conv, q, true);
        if rest.Returns? {
          PageBeforeErrorOnlyLast(page, rest.value);
        }
  }

  /** A page in front of items where an error can only come last keeps it so. */
  lemma {:induction false} PageBeforeErrorOnlyLast<N>(page: Page<N>, items: seq<Result<Page<N>>>)
    requires ErrorOnlyLast(items)
    ensures ErrorOnlyLast([Ok(page)] + items)
  {
    var all := [Ok(page)] + items;
    forall i | 0 <= i < |all| - 1 ensures all[i].Ok? {
      if i > 0 {
        assert all[i] == items[i - 1];
      }
    }
  }

  // ---------------------------------------------------------------------
  // Properties of the root scan

  /** No start tag occurs in `evs[p..q]`. */
  ghost predicate NoStartBetween(evs: seq<Event>, p: nat, q: nat)
    requires p <= q <= |evs|
  {
    forall j | p <= j < q :: !evs[j].Start?
  }

  /**
    The root scan ignores everything up to the first start tag; that tag
    decides: the root element gives success just past it, any other start
    tag a format error at that position. With no start tag at all the scan
    runs out of events.
   */
  lemma {:induction false} ScanRootFirstStart(evs: seq<Event>, p: nat, k: nat)
    requires p <= k <= |evs| && NoStartBetween(evs, p, k)
    ensures k == |evs| ==> ScanRoot(evs, p) == Hangs
    ensures k < |evs| && evs[k].Start? ==>
      ScanRoot(evs, p) == Halt(if IsElement(evs[k], "mediawiki") then Ok(()) else Err(Format(k + 1)), k + 1)
    decreases k - p
  {
    if p < k {
      ScanRootFirstStart(evs, p + 1, k);
    }
  }
}
