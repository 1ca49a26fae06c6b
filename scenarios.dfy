/**
  The two-page dump of the crate's integration test, as the events the
  namespaced reader produces for it (whitespace between tags included),
  extracted with the default namespace type `RawNamespace`.
 */
module Scenarios {
  import opened Wrappers
  import opened DumpTypes
  import opened Decimal
  import opened Extraction
  import opened Properties

  /** `parse`: the namespace type is `RawNamespace` itself, so every value converts. */
  function RawNamespaceConv(v: u32): Option<u32> {
    Some(v)
  }

  const Indent4: string := "\n    "
  const Indent8: string := "\n        "
  const Indent12: string := "\n            "

  /** The events of the test's `DUMP`, one group per line of the document. */
  const TestEvents: seq<Event> :=
    [Text("\n")] +
    [ExportStart("mediawiki", None), Text(",\n    ")] +
    [ExportStart("page", None), Text(Indent8)] +
    [ExportStart("ns", None), Text("0"), End, Text(Indent8)] +
    [ExportStart("title", None), Text("alpha"), End, Text(Indent8)] +
    [ExportStart("revision", None), Text(Indent12)] +
    [ExportStart("format", None), Text("beta"), End, Text(Indent12)] +
    [ExportStart("model", None), Text("gamma"), End, Text(Indent12)] +
    [ExportStart("text", None), Text("delta"), End, Text(Indent8)] +
    [End, Text(Indent4)] +
    [End, Text(Indent4)] +
    [ExportStart("page", None), Text(Indent8)] +
    [ExportStart("title", None), Text("epsilon"), End, Text(Indent8)] +
    [ExportStart("ns", None), Text("42"), End, Text(Indent8)] +
    [ExportStart("redirect", Some("zeta")), End, Text(Indent8)] +
    [ExportStart("revision", None), Text(Indent12)] +
    [ExportStart("text", None), Text("eta"), End, Text(Indent8)] +
    [End, Text(Indent4)] +
    [End, Text("\n")] +
    [End]

  const Alpha: Page<u32> := Page(Some("beta"), Some("gamma"), 0, None, "delta", "alpha")
  const Epsilon: Page<u32> := Page(None, None, 42, Some("zeta"), "eta", "epsilon")

  /**
    The test's first call: the root scan skips the leading whitespace and
    finds `mediawiki`; the first page is `alpha` in namespace 0 with
    format `beta`, model `gamma`, text `delta` and no redirect.
   */
  lemma FirstTestPage()
    ensures NextSpec(TestEvents, RawNamespaceConv, 0, false) == Halt(Ok(Some(Alpha)), 30)
  {
    var evs := TestEvents;
    assert !evs[0].Start?;
    ScanRootFirstStart(evs, 0, 1);
    FirstTestFields();
    FirstTestRevision(Fields(None, None, Some(0), None, None, Some("alpha")));
  }

  /** The first page up to its `revision` start tag: namespace 0 and title `alpha` are collected. */
  lemma FirstTestFields()
    ensures RootLoop(TestEvents, RawNamespaceConv, 2) ==
      PageLoop(TestEvents, RawNamespaceConv, 12, Fields(None, None, Some(0), None, None, Some("alpha")))
  {
    var a1: Fields<u32> := NoFields().(namespace := Some(0));
    FirstTestNamespace();
    assert PageLoop(TestEvents, RawNamespaceConv, 9, a1) ==
      PageLoop(TestEvents, RawNamespaceConv, 12, a1.(title := Some("alpha")));
  }

  /** The first page up to its `title`: namespace 0 is collected from `ns`. */
  lemma FirstTestNamespace()
    ensures RootLoop(TestEvents, RawNamespaceConv, 2) ==
      PageLoop(TestEvents, RawNamespaceConv, 9, NoFields().(namespace := Some(0)))
  {
    var a0: Fields<u32> := NoFields();
    assert RootLoop(TestEvents, RawNamespaceConv, 2) == PageLoop(TestEvents, RawNamespaceConv, 4, a0);
    FirstTestNs();
  }

  /** The first page's `ns` element and the whitespace after it. */
  lemma FirstTestNs()
    ensures PageLoop(TestEvents, RawNamespaceConv, 4, NoFields()) ==
      PageLoop(TestEvents, RawNamespaceConv, 9, NoFields().(namespace := Some(0)))
  {
    var evs := TestEvents;
    var conv := RawNamespaceConv;
    var a0: Fields<u32> := NoFields();
    assert ParseU32("0") == Some(0);
    assert PageLoop(evs, conv, 5, a0) == PageLoop(evs, conv, 8, a0.(namespace := Some(0)));
  }

  /** The first page from its `revision` start tag on, with namespace and title collected. */
  lemma FirstTestRevision(acc: Fields<u32>)
    requires acc == Fields(None, None, Some(0), None, None, Some("alpha"))
    ensures PageLoop(TestEvents, RawNamespaceConv, 12, acc) == Halt(Ok(Some(Alpha)), 30)
  {
    var evs := TestEvents;
    var conv := RawNamespaceConv;
    var done := acc.(format := Some("beta"), model := Some("gamma"), text := Some("delta"));
    FirstTestRevisionChildren(acc);
    assert PageLoop(evs, conv, 28, done) == Halt(Ok(Some(Alpha)), 30);
    assert PageLoop(evs, conv, 13, acc) == PageLoop(evs, conv, 28, done);
  }

  /** The children of the first page's revision: format, model and text, in that order. */
  lemma FirstTestRevisionChildren(acc: Fields<u32>)
    requires acc == Fields(None, None, Some(0), None, None, Some("alpha"))
    ensures RevisionLoop(TestEvents, 14, acc) ==
      Halt(Ok(acc.(format := Some("beta"), model := Some("gamma"), text := Some("delta"))), 28)
  {
    var evs := TestEvents;
    var a3 := acc.(format := Some("beta"));
    var a4 := a3.(model := Some("gamma"));
    var a5 := a4.(text := Some("delta"));
    assert RevisionLoop(evs, 26, a5) == Halt(Ok(a5), 28);
    assert RevisionLoop(evs, 23, a4) == RevisionLoop(evs, 26, a5);
    assert RevisionLoop(evs, 19, a3) == RevisionLoop(evs, 22, a4);
    assert RevisionLoop(evs, 15, acc) == RevisionLoop(evs, 18, a3);
  }

  /**
    The test's second call: the page `epsilon` in namespace 42, with the
    redirect `zeta` taken from the attribute of the empty `redirect`
    element, text `eta` and neither format nor model.
   */
  lemma SecondTestPage()
    ensures NextSpec(TestEvents, RawNamespaceConv, 30, true) == Halt(Ok(Some(Epsilon)), 53)
  {
    var a0: Fields<u32> := NoFields();
    var collected := Fields(None, None, Some(42), Some("zeta"), None, Some("epsilon"));
    SecondTestHead(a0);
    SecondTestRevision(collected);
    assert RootLoop(TestEvents, RawNamespaceConv, 30) == PageLoop(TestEvents, RawNamespaceConv, 32, a0);
  }

  /** The second page up to its `revision` start tag: title, namespace and redirect, in that order. */
  lemma SecondTestHead(acc: Fields<u32>)
    requires acc == NoFields()
    ensures PageLoop(TestEvents, RawNamespaceConv, 32, acc) ==
      PageLoop(TestEvents, RawNamespaceConv, 43, Fields(None, None, Some(42), Some("zeta"), None, Some("epsilon")))
  {
    var evs := TestEvents;
    var conv := RawNamespaceConv;
    var b1 := acc.(title := Some("epsilon"));
    var b2 := b1.(namespace := Some(42));
    var b3 := b2.(redirectTitle := Some("zeta"));
    assert "42"[..1] == "4" && "4"[..0] == [];
    assert ParseU32("42") == Some(42);
    assert SkipTo(evs, 42, 0) == Some(43);
    assert PageLoop(evs, conv, 41, b2) == PageLoop(evs, conv, 43, b3);
    assert PageLoop(evs, conv, 37, b1) == PageLoop(evs, conv, 40, b2);
    assert PageLoop(evs, conv, 33, acc) == PageLoop(evs, conv, 36, b1);
  }

  /** The second page from its `revision` start tag on, with title, namespace and redirect collected. */
  lemma SecondTestRevision(acc: Fields<u32>)
    requires acc == Fields(None, None, Some(42), Some("zeta"), None, Some("epsilon"))
    ensures PageLoop(TestEvents, RawNamespaceConv, 43, acc) == Halt(Ok(Some(Epsilon)), 53)
  {
    var evs := TestEvents;
    var conv := RawNamespaceConv;
    var done := acc.(text := Some("eta"));
    assert RevisionLoop(evs, 49, done) == Halt(Ok(done), 51);
    assert RevisionLoop(evs, 45, acc) == RevisionLoop(evs, 49, done);
    assert PageLoop(evs, conv, 51, done) == Halt(Ok(Some(Epsilon)), 53);
    assert PageLoop(evs, conv, 44, acc) == PageLoop(evs, conv, 51, done);
  }

  /**
    The test's third call: the root's end tag, so the iterator is exhausted.
    A fourth call would find only end-of-file, which the root loop skips
    forever: the iterator is not fused.
   */
  lemma TestExhausted()
    ensures NextSpec(TestEvents, RawNamespaceConv, 53, true) == Halt(Ok(None), 55)
    ensures NextSpec(TestEvents, RawNamespaceConv, 55, true) == Hangs
  {
    assert |TestEvents| == 55 && TestEvents[53].Text? && TestEvents[54] == End;
    assert RootLoop(TestEvents, RawNamespaceConv, 53) == RootLoop(TestEvents, RawNamespaceConv, 54);
  }

  /** The three calls together: collecting the iterator gives exactly the two pages. */
  lemma TestDumpPages()
    ensures Drain(TestEvents, RawNamespaceConv, 0, false) == Returns([Ok(Alpha), Ok(Epsilon)])
  {
    FirstTestPage();
    SecondTestPage();
    TestExhausted();
    assert |TestEvents| == 55;
    var none: seq<Result<Page<u32>>> := [];
    assert Drain(TestEvents, RawNamespaceConv, 53, true) == Returns(none);
    assert Drain(TestEvents, RawNamespaceConv, 30, true) == Returns([Ok(Epsilon)] + none);
    assert [Ok(Epsilon)] + none == [Ok(Epsilon)];
    assert Drain(TestEvents, RawNamespaceConv, 0, false) == Returns([Ok(Alpha)] + [Ok(Epsilon)]);
    assert [Ok(Alpha)] + [Ok(Epsilon)] == [Ok(Alpha), Ok(Epsilon)];
  }

  /**
    The namespace type the crate documentation suggests: the sixteen
    namespaces present in every MediaWiki installation.
   */
  datatype WikiNamespace =
    | Main | Talk | User | UserTalk | Wiktionary | WiktionaryTalk
    | File | FileTalk | MediaWiki | MediaWikiTalk | Template | TemplateTalk
    | Help | HelpTalk | Category | CategoryTalk

  /** The enum's discriminants. */
  function WikiNamespaceId(n: WikiNamespace): u32 {
    match n
    case Main() => 0
    case Talk() => 1
    case User() => 2
    case UserTalk() => 3
    case Wiktionary() => 4
    case WiktionaryTalk() => 5
    case File() => 6
    case FileTalk() => 7
    case MediaWiki() => 8
    case MediaWikiTalk() => 9
    case Template() => 10
    case TemplateTalk() => 11
    case Help() => 12
    case HelpTalk() => 13
    case Category() => 14
    case CategoryTalk() => 15
  }

  /** `TryFrom<RawNamespace>`: the identifiers 0 to 15, every other value refused. */
  function WikiNamespaceConv(id: u32): (r: Option<WikiNamespace>)
    ensures r.Some? <==> id <= 15
    ensures r.Some? ==> WikiNamespaceId(r.value) == id
  {
    match id
    case 0 => Some(Main)
    case 1 => Some(Talk)
    case 2 => Some(User)
    case 3 => Some(UserTalk)
    case 4 => Some(Wiktionary)
    case 5 => Some(WiktionaryTalk)
    case 6 => Some(File)
    case 7 => Some(FileTalk)
    case 8 => Some(MediaWiki)
    case 9 => Some(MediaWikiTalk)
    case 10 => Some(Template)
    case 11 => Some(TemplateTalk)
    case 12 => Some(Help)
    case 13 => Some(HelpTalk)
    case 14 => Some(Category)
    case 15 => Some(CategoryTalk)
    case _ => None
  }

  /** Every namespace converts back from its own identifier. */
  lemma WikiNamespaceRoundTrip(n: WikiNamespace)
    ensures WikiNamespaceConv(WikiNamespaceId(n)) == Some(n)
  {
  }

  /**
    With that namespace type, a page whose `ns` reads 16 ends with the
    namespace error carrying 16, just past the `ns` element.
   */
  lemma UnknownWikiNamespace(evs: seq<Event>, p: nat, acc: Fields<WikiNamespace>)
    requires p + 3 <= |evs| && acc.namespace.None?
    requires evs[p] == ExportStart("ns", None) && evs[p + 1] == Text("16") && evs[p + 2] == End
    ensures PageLoop(evs, WikiNamespaceConv, p, acc) == Halt(Err(Namespace(16)), p + 3)
  {
    assert "16"[..1] == "1" && "1"[..0] == [];
    assert ParseU32("16") == Some(16);
    NamespaceDispatch(evs, WikiNamespaceConv, p, acc);
  }
}
