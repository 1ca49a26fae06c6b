/**
  The values exchanged between the namespaced XML reader and the page
  extractor: lexical events, the error taxonomy, page records and the
  classification of child elements.
 */
module DumpTypes {
  import opened Wrappers

  /** `RawNamespace`: the unsigned 32-bit identifier parsed from `ns` text. */
  type u32 = x: int | 0 <= x < 0x1_0000_0000

  /** The only namespace URI under which elements are recognised. */
  const ExportNamespace: string := "http://www.mediawiki.org/xml/export-0.10/"

  /**
    One event of the namespaced reader. Empty elements arrive already
    expanded into `Start` followed by `End`. `ns` is the namespace URI bound
    to the element, if any; `titleAttr` is the decoded value of its
    `title` attribute, if it has one. Every other event kind (comments,
    declarations, CDATA, processing instructions) is `Other`.
   */
  datatype Event =
    | Start(ns: Option<string>, local: string, titleAttr: Option<string>)
    | End
    | Text(content: string)
    | Other

  /** The error kinds the extractor itself raises. */
  datatype Error =
    | Format(position: nat)
    | NotSupported(position: nat)
    | Namespace(raw: u32)

  datatype Result<T> = Ok(value: T) | Err(error: Error)

  /**
    What a call of the source does: it returns a value, or, having run out
    of events inside a loop that never matches end-of-file, it keeps
    reading end-of-file forever.
   */
  datatype Run<T> = Returns(value: T) | Diverges

  /**
    The outcome of a loop of the extractor as a specification: the result
    together with the reader position at which it was produced, or `Hangs`
    when the loop runs out of events.
   */
  datatype Outcome<T> = Halt(result: Result<T>, at: nat) | Hangs

  /** What a caller of the extractor observes of an outcome. */
  function Observed<T>(o: Outcome<T>): Run<Result<T>> {
    match o
    case Halt(r, _) => Returns(r)
    case Hangs => Diverges
  }

  /** The reader position after an outcome; a hanging loop has consumed every event. */
  function Cursor<T>(o: Outcome<T>, end: nat): nat {
    match o
    case Halt(_, at) => at
    case Hangs => end
  }

  /** A page record; `N` is the caller's namespace type. */
  datatype Page<N> = Page(
    format: Option<string>,
    model: Option<string>,
    namespace: N,
    redirectTitle: Option<string>,
    text: string,
    title: string)

  /** The six accumulators a page is collected in. */
  datatype Fields<N> = Fields(
    format: Option<string>,
    model: Option<string>,
    namespace: Option<N>,
    redirectTitle: Option<string>,
    text: Option<string>,
    title: Option<string>)

  /** The accumulators at the start of every page: nothing collected. */
  function NoFields<N>(): Fields<N> {
    Fields(None, None, None, None, None, None)
  }

  /** `match_namespace`: recognised only when the bound URI is exactly the export namespace. */
  function MatchNamespace(ns: Option<string>): (r: bool)
    ensures r <==> ns == Some(ExportNamespace)
  {
    match ns
    case None => false
    case Some(uri) => uri == ExportNamespace
  }

  /** A start tag of element `name` in the export namespace, with the given `title` attribute. */
  function ExportStart(name: string, titleAttr: Option<string>): (e: Event)
    ensures IsElement(e, name)
  {
    Start(Some(ExportNamespace), name, titleAttr)
  }

  /** `e` is a start tag of element `name` in the export namespace. */
  predicate IsElement(e: Event, name: string) {
    e.Start? && MatchNamespace(e.ns) && e.local == name
  }

  datatype PageChildElement = Ns | Revision | Title | Redirect | UnknownPageChild

  datatype RevisionChildElement = FormatChild | ModelChild | TextChild | UnknownRevisionChild

  /** How a start tag inside `page` is dispatched. */
  function ClassifyPageChild(ns: Option<string>, local: string): (c: PageChildElement)
    ensures c != UnknownPageChild <==>
      MatchNamespace(ns) && local in {"ns", "redirect", "revision", "title"}
    ensures MatchNamespace(ns) && local == "ns" ==> c == Ns
    ensures MatchNamespace(ns) && local == "redirect" ==> c == Redirect
    ensures MatchNamespace(ns) && local == "revision" ==> c == Revision
    ensures MatchNamespace(ns) && local == "title" ==> c == Title
  {
    if !MatchNamespace(ns) then UnknownPageChild
    else if local == "ns" then Ns
    else if local == "redirect" then Redirect
    else if local == "revision" then Revision
    else if local == "title" then Title
    else UnknownPageChild
  }

  /** How a start tag inside `revision` is dispatched. */
  function ClassifyRevisionChild(ns: Option<string>, local: string): (c: RevisionChildElement)
    ensures c != UnknownRevisionChild <==>
      MatchNamespace(ns) && local in {"format", "model", "text"}
    ensures MatchNamespace(ns) && local == "format" ==> c == FormatChild
    ensures MatchNamespace(ns) && local == "model" ==> c == ModelChild
    ensures MatchNamespace(ns) && local == "text" ==> c == TextChild
  {
    if !MatchNamespace(ns) then UnknownRevisionChild
    else if local == "format" then FormatChild
    else if local == "model" then ModelChild
    else if local == "text" then TextChild
    else UnknownRevisionChild
  }
}
