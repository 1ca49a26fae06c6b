/**
  The parser object: a cursor over a finite sequence of reader events,
  the caller's namespace conversion and the `started` flag. Every method
  is proved to do what the corresponding function of `Extraction` says,
  both in what it returns and in where it leaves the cursor.
 */
module ParserImpl {
  import opened Wrappers
  import opened DumpTypes
  import opened Extraction

  class Parser<N> {
    /** The events the reader produces, in order; reading past the last one yields end-of-file. */
    const events: seq<Event>
    /** The caller's fallible conversion from `RawNamespace` (the `TryInto` bound). */
    const conv: u32 -> Option<N>
    /** The reader's position: the number of events consumed so far. */
    var pos: nat
    /** Whether the root element has been found. */
    var started: bool

    ghost predicate Valid()
      reads this
    {
      pos <= |events|
    }

    /** `parse_with_namespace`: a parser at the start of the input that has not yet found the root. */
    constructor (events: seq<Event>, conv: u32 -> Option<N>)
      ensures Valid()
      ensures this.events == events && this.conv == conv
      ensures pos == 0 && !started
    {
      this.events := events;
      this.conv := conv;
      pos := 0;
      started := false;
    }

    /** One read of the reader: the next event, or end-of-file (`None`) without moving. */
    method Read() returns (e: Option<Event>)
      requires Valid()
      modifies this`pos
      ensures Valid()
      ensures old(pos) < |events| ==> e == Some(events[old(pos)]) && pos == old(pos) + 1
      ensures old(pos) == |events| ==> e == None && pos == old(pos)
    {
      if pos < |events| {
        e := Some(events[pos]);
        pos := pos + 1;
      } else {
        e := None;
      }
    }

    /**
      `skip_element`: called just after a start tag, consumes events up to
      and including the end tag that balances it. It produces no value and
      no error; it diverges when the events run out first.
     */
    method SkipElement() returns (r: Run<()>)
      requires Valid()
      modifies this`pos
      ensures Valid()
      ensures r.Returns? <==> SkipTo(events, old(pos), 0).Some?
      ensures r.Returns? ==> SkipTo(events, old(pos), 0) == Some(pos)
      ensures r.Returns? ==> Closes(events, old(pos), pos) && events[pos - 1] == End
      ensures r.Diverges? ==> NeverCloses(events, old(pos)) && pos == |events|
    {
      var level: nat := 0;
      while true
        invariant Valid() && old(pos) <= pos
        invariant SkipTo(events, pos, level) == SkipTo(events, old(pos), 0)
        decreases |events| - pos
      {
        var e := Read();
        match e {
          case None() =>
            SkipToIsFirstClosingEnd(events, old(pos), 0);
            return Diverges;
          case Some(End()) =>
            if level == 0 {
              SkipToIsFirstClosingEnd(events, old(pos), pos);
              ClosesAtEnd(events, old(pos), pos);
              return Returns(());
            }
            level := level - 1;
          case Some(Start(_, _, _)) =>
            level := level + 1;
          case Some(_) =>
        }
      }
    }

    /**
      `parse_text`: reads the scalar content of a field whose start tag was
      just consumed; `present` says whether the field already has a value.
     */
    method ParseText(present: bool) returns (r: Result<string>)
      requires Valid()
      modifies this`pos
      ensures Valid()
      ensures TextField(events, old(pos), present) == Halt(r, pos)
    {
      if present {
        return Err(Format(pos));
      }
      var first := Read();
      var text: string;
      match first {
        case Some(Text(s)) =>
          text := s;
        case Some(End()) =>
          return Ok("");
        case _ =>
          return Err(Format(pos));
      }
      var second := Read();
      if second == Some(End) {
        r := Ok(text);
      } else {
        r := Err(Format(pos));
      }
    }

    /**
      The internal `next`: on the first call only, scans for the root
      element; then runs the root loop. The result and the new cursor are
      those of `NextSpec`; `started` becomes true exactly when the scan
      succeeds and is never reset.
     */
    method Next() returns (r: Run<Result<Option<Page<N>>>>)
      requires Valid()
      modifies this
      ensures Valid()
      ensures r == Observed(NextSpec(events, conv, old(pos), old(started)))
      ensures pos == Cursor(NextSpec(events, conv, old(pos), old(started)), |events|)
      ensures started == StartedAfter(events, old(pos), old(started))
    {
      if !started {
        while true
          invariant Valid() && old(pos) <= pos && !started
          invariant ScanRoot(events, pos) == ScanRoot(events, old(pos))
          decreases |events| - pos
        {
          var e := Read();
          match e {
            case None() =>
              return Diverges;
            case Some(Start(ns, local, _)) =>
              if MatchNamespace(ns) && local == "mediawiki" {
                break;
              }
              return Returns(Err(Format(pos)));
            case Some(_) =>
          }
        }
        assert ScanRoot(events, old(pos)) == Halt(Ok(()), pos);
        started := true;
      }
      ghost var root := pos;
      assert NextSpec(events, conv, old(pos), old(started)) == RootLoop(events, conv, root);
      while true
        invariant Valid() && root <= pos && started
        invariant started == StartedAfter(events, old(pos), old(started))
        invariant RootLoop(events, conv, pos) == RootLoop(events, conv, root)
        decreases |events| - pos
      {
        var e := Read();
        match e {
          case None() =>
            return Diverges;
          case Some(End()) =>
            return Returns(Ok(None));
          case Some(Start(ns, local, _)) =>
            if MatchNamespace(ns) && local == "page" {
              r := ParsePage();
              return;
            }
            var skipped := SkipElement();
            if skipped.Diverges? {
              return Diverges;
            }
          case Some(_) =>
        }
      }
    }

    /** The page loop of `next`, entered just after a `page` start tag with nothing collected. */
    method ParsePage() returns (r: Run<Result<Option<Page<N>>>>)
      requires Valid()
      modifies this`pos
      ensures Valid()
      ensures r == Observed(PageLoop(events, conv, old(pos), NoFields()))
      ensures pos == Cursor(PageLoop(events, conv, old(pos), NoFields()), |events|)
    {
      var fields: Fields<N> := NoFields();
      while true
        invariant Valid() && old(pos) <= pos
        invariant PageLoop(events, conv, pos, fields) == PageLoop(events, conv, old(pos), NoFields())
        decreases |events| - pos
      {
        var e := Read();
        match e {
          case None() =>
            return Diverges;
          case Some(End()) =>
            if fields.namespace.Some? && fields.text.Some? && fields.title.Some? {
              return Returns(Ok(Some(Page(fields.format, fields.model, fields.namespace.value,
                                          fields.redirectTitle, fields.text.value, fields.title.value))));
            }
            return Returns(Err(Format(pos)));
          case Some(Start(ns, local, titleAttr)) =>
            match ClassifyPageChild(ns, local) {
              case Ns() =>
                var t := ParseText(fields.namespace.Some?);
                if t.Err? {
                  return Returns(Err(t.error));
                }
                var n := ResolveNamespace(t.value, conv, pos);
                if n.Err? {
                  return Returns(Err(n.error));
                }
                fields := fields.(namespace := Some(n.value));
              case Title() =>
                var t := ParseText(fields.title.Some?);
                if t.Err? {
                  return Returns(Err(t.error));
                }
                fields := fields.(title := Some(t.value));
              case Redirect() =>
                if titleAttr.None? {
                  return Returns(Err(Format(pos)));
                }
                fields := fields.(redirectTitle := titleAttr);
                var skipped := SkipElement();
                if skipped.Diverges? {
                  return Diverges;
                }
              case Revision() =>
                if fields.text.Some? {
                  return Returns(Err(NotSupported(pos)));
                }
                var revision := ParseRevision(fields);
                match revision {
                  case Diverges() =>
                    return Diverges;
                  case Returns(Err(err)) =>
                    return Returns(Err(err));
                  case Returns(Ok(updated)) =>
                    fields := updated;
                }
              case UnknownPageChild() =>
                var skipped := SkipElement();
                if skipped.Diverges? {
                  return Diverges;
                }
            }
          case Some(_) =>
        }
      }
    }

    /**
      The revision loop of `next`, entered just after a `revision` start
      tag; on the revision's end tag it returns the updated accumulators.
     */
    method ParseRevision(fields: Fields<N>) returns (r: Run<Result<Fields<N>>>)
      requires Valid()
      modifies this`pos
      ensures Valid()
      ensures r == Observed(RevisionLoop(events, old(pos), fields))
      ensures pos == Cursor(RevisionLoop(events, old(pos), fields), |events|)
    {
      var acc := fields;
      while true
        invariant Valid() && old(pos) <= pos
        invariant RevisionLoop(events, pos, acc) == RevisionLoop(events, old(pos), fields)
        decreases |events| - pos
      {
        var e := Read();
        match e {
          case None() =>
            return Diverges;
          case Some(End()) =>
            if acc.text.None? {
              return Returns(Err(Format(pos)));
            }
            return Returns(Ok(acc));
          case Some(Start(ns, local, _)) =>
            match ClassifyRevisionChild(ns, local) {
              case FormatChild() =>
                var t := ParseText(acc.format.Some?);
                if t.Err? {
                  return Returns(Err(t.error));
                }
                acc := acc.(format := Some(t.value));
              case ModelChild() =>
                var t := ParseText(acc.model.Some?);
                if t.Err? {
                  return Returns(Err(t.error));
                }
                acc := acc.(model := Some(t.value));
              case TextChild() =>
                var t := ParseText(acc.text.Some?);
                if t.Err? {
                  return Returns(Err(t.error));
                }
                acc := acc.(text := Some(t.value));
              case UnknownRevisionChild() =>
                var skipped := SkipElement();
                if skipped.Diverges? {
                  return Diverges;
                }
            }
          case Some(_) =>
        }
      }
    }

    /**
      `Iterator::next`: exhaustion (`Ok(None)`) becomes `None`, an error
      `e` becomes `Some(Err(e))` and a page `p` becomes `Some(Ok(p))`.
     */
    method NextItem() returns (item: Run<Option<Result<Page<N>>>>)
      requires Valid()
      modifies this
      ensures Valid()
      ensures item == match NextSpec(events, conv, old(pos), old(started))
                      case Hangs() => Diverges
                      case Halt(r, _) => Returns(ToItem(r))
      ensures pos == Cursor(NextSpec(events, conv, old(pos), old(started)), |events|)
      ensures started == StartedAfter(events, old(pos), old(started))
    {
      var r := Next();
      match r {
        case Diverges() =>
          return Diverges;
        case Returns(res) =>
          return Returns(ToItem(res));
      }
    }
  }
}
