/**
 Exactly which URLs survive a feed. The writer folds a URL without escaping it, and the reader splits physical lines at
 LF and drops the CRs at the end of each, so an LF is always lost, and a CR exactly when it ends a physical line.
 */
module FeedUrls {
  import opened Prelude
  import opened Text
  import opened CivilTime
  import opened TimeFormat
  import opened Escaping
  import opened Folding
  import opened Properties
  import opened ICalendar
  import opened FeedReader
  import opened FeedRoundTrip

  // ----- the reader never yields an LF in a URL -----

  predicate NoLF(lines: seq<string>) {
    forall i :: 0 <= i < |lines| ==> '\n' !in lines[i]
  }

  lemma {:induction false} PhysicalLinesHoldNoLF(doc: string)
    ensures NoLF(PhysicalLines(doc))
    decreases |doc|
  {
    hide TrimRightCR, PhysicalLines;
    if doc == "" {
      assert PhysicalLines(doc) == [] by { NoPhysicalLines(); }
    } else {
      var k := IndexFrom(doc, '\n', 0);
      var rest := if k == |doc| then "" else doc[k + 1..];
      PhysicalLinesOpen(doc);
      TrimShortens(doc[..k]);
      PhysicalLinesHoldNoLF(rest);
      var first := TrimRightCR(doc[..k]);
      assert '\n' !in first;
      assert PhysicalLines(doc) == [first] + PhysicalLines(rest);
    }
  }

  lemma NoPhysicalLines()
    ensures PhysicalLines("") == []
  {
  }

  lemma {:induction false} RejoinHoldsNoLF(lines: seq<string>, physical: seq<string>)
    requires NoLF(lines) && NoLF(physical)
    ensures NoLF(Rejoin(lines, physical))
    decreases |physical|
  {
    if physical != [] {
      assert NoLF(physical[1..]) && '\n' !in physical[0];
      RejoinHoldsNoLF(RejoinOne(lines, physical[0]), physical[1..]);
    }
  }

  /** What has been read so far holds no LF in a URL. */
  predicate UrlsHoldNoLF(st: Scan) {
    && (forall i :: 0 <= i < |st.events| ==> '\n' !in st.events[i].url)
    && (st.current.Some? ==> '\n' !in st.current.value.ev.url)
  }

  lemma AppliedHoldsNoLF(d: Draft, name: string, value: string)
    requires '\n' !in d.ev.url && '\n' !in value
    ensures '\n' !in Applied(d, name, value).ev.url
  {
    hide Unescaped, ParseTime, WithExceptions, EqualFold, EndOf;
  }

  lemma {:induction false} OccurrencesKeepUrl(d: Draft, occs: seq<int>, i: nat)
    requires i <= |occs|
    ensures forall k :: 0 <= k < |ExpandedFrom(d, occs, i)| ==> ExpandedFrom(d, occs, i)[k].url == d.ev.url
    decreases |occs| - i
  {
    hide OccurrenceOf;
    if i < |occs| {
      OccurrencesKeepUrl(d, occs, i + 1);
      OccurrenceKeepsUrl(d.ev, occs[i]);
    }
  }

  lemma OccurrenceKeepsUrl(ev: Event, occ: Instant)
    ensures OccurrenceOf(ev, occ).url == ev.url
  {
  }

  lemma ExpandedKeepsUrl(d: Draft, from: int, until: int)
    ensures forall k :: 0 <= k < |Expanded(d, from, until)| ==> Expanded(d, from, until)[k].url == d.ev.url
  {
    hide ExpandedFrom;
    if d.hasStart && d.ev.uid != "" && d.rrule != "" {
      OccurrencesKeepUrl(d, Recurrence.Occurring(Recurrence.RuleOf(d.rrule), d.ev.start, from, until), 0);
    }
  }

  lemma ValueHoldsNoLF(line: string)
    requires '\n' !in line
    ensures '\n' !in SplitLine(line).value
  {
    hide UnquotedPieces, ParamsOf;
  }

  lemma ScanLineHoldsNoLF(st: Scan, line: string, from: int, until: int)
    requires UrlsHoldNoLF(st) && '\n' !in line
    ensures UrlsHoldNoLF(ScanLine(st, line, from, until))
  {
    hide SplitLine, ToUpper, EqualFold, Applied, Expanded;
    ValueHoldsNoLF(line);
    if st.current.Some? {
      ExpandedKeepsUrl(st.current.value, from, until);
      AppliedHoldsNoLF(st.current.value, ToUpper(SplitLine(line).name), SplitLine(line).value);
    }
  }

  lemma {:induction false} ScanLinesHoldNoLF(st: Scan, lines: seq<string>, from: int, until: int)
    requires UrlsHoldNoLF(st) && NoLF(lines)
    ensures UrlsHoldNoLF(ScanLines(st, lines, from, until))
    decreases |lines|
  {
    hide ScanLine, UrlsHoldNoLF;
    if lines != [] {
      ScanLinesHoldNoLF(st, lines[..|lines| - 1], from, until);
      ScanLineHoldsNoLF(ScanLines(st, lines[..|lines| - 1], from, until), lines[|lines| - 1], from, until);
    }
  }

  /** Whatever the document, no event read from it has an LF in its URL. */
  lemma ParsedUrlsHoldNoLF(doc: string, from: Instant, until: Instant)
    ensures var r := Parsed(doc, from, until);
            r.Ok? ==> forall i :: 0 <= i < |r.value| ==> '\n' !in r.value[i].url
  {
    hide ScanLines, ContainsStart, PhysicalLines, Rejoin, Body, Overlong;
    PhysicalLinesHoldNoLF(Body(doc));
    RejoinHoldsNoLF([], PhysicalLines(Body(doc)));
    ScanLinesHoldNoLF(Scan([], None), UnfoldedLines(doc), from, until);
  }

  lemma {:induction false} ImportedHolds(events: seq<Event>, from: Instant, until: Instant, i: nat)
    requires i < |events| && Importable(Normalized(events[i]), from, until)
    ensures exists k :: 0 <= k < |Imported(events, from, until)| && Imported(events, from, until)[k].url == events[i].url
    decreases |events|
  {
    hide Normalized;
    var n := |events| - 1;
    var front := Imported(events[..n], from, until);
    NormalizedUrl(events[i]);
    if i == n {
      assert Imported(events, from, until)[|front|].url == events[i].url;
    } else {
      ImportedHolds(events[..n], from, until, i);
      var k :| 0 <= k < |front| && front[k].url == events[i].url;
      assert Imported(events, from, until)[k] == front[k];
    }
  }

  // ----- the exact condition -----

  /**
   Parsing a rendered feed gives back the events that start in the window if and only if each of their URLs survives.
   An event outside the window may still not hold an LF, because what follows one could be read as anything.
   */
  lemma RoundTripIffUrlsKept(calName: string, events: seq<Event>, stamp: Instant, from: Instant, until: Instant)
    requires forall i :: 0 <= i < |events| ==> Printable(events[i])
    requires forall i :: 0 <= i < |events| ==> Importable(Normalized(events[i]), from, until) || '\n' !in events[i].url
    requires |Rendered(calName, events, stamp)| <= MAX_FEED_BYTES
    ensures Parsed(Rendered(calName, events, stamp), from, until) == Ok(Imported(events, from, until))
       <==> forall i :: 0 <= i < |events| && Importable(Normalized(events[i]), from, until) ==> UrlKept(events[i].url)
  {
    hide Rendered, Parsed, ReadEvents, Imported, Printable, PiecesKept, Normalized, Importable;
    if i :| 0 <= i < |events| && '\n' in events[i].url {
      ParsedUrlsHoldNoLF(Rendered(calName, events, stamp), from, until);
      ImportedHolds(events, from, until, i);
      assert !UrlKept(events[i].url);
    } else {
      ParseReadsBack(calName, events, stamp, from, until);
      ReadEventsIff(events, from, until);
    }
  }

  /** Any URL without a line break survives. */
  lemma PlainUrlIsKept(url: string)
    requires SingleLine(url)
    ensures UrlKept(url)
  {
    hide ReadBack, PiecesKept;
    SingleLineIsKept("URL" + ":" + url);
    ReadBackIff("URL" + ":" + url);
  }

  // ----- an example -----

  const CANCELLATION: string := "STATUS:CANCELLED"

  /** The event with a line break in its URL, and what looks like a property after it. */
  function BrokenUrl(e: Event): Event {
    e.(url := e.url + CRLF + CANCELLATION)
  }

  lemma ShortFolds(s: string)
    requires |s| <= FOLD_AT
    ensures Folded(s) == s + CRLF
  {
  }

  lemma ShortPairFolds(x: string, y: string)
    requires |x| + |y| + 2 <= FOLD_AT
    ensures Folded(x + CRLF + y) == FoldedAll([x] + [y])
  {
    hide Folded, FoldedAll;
    ShortFolds(x + CRLF + y);
    ShortFolds(x);
    ShortFolds(y);
    FoldedAllSnoc([x], y);
    FoldedAllSnoc([], x);
    assert [] + [x] == [x];
    assert FoldedAll([]) == "" by { NothingFolds(); }
    Associate(x + CRLF, y, CRLF);
  }

  lemma NothingFolds()
    ensures FoldedAll([]) == ""
  {
  }

  /** The lines of an event ahead of its URL. */
  function LinesBeforeUrl(e: Event, stamp: Instant): seq<string> {
    ["BEGIN:VEVENT", "UID:" + EscapeText(e.uid), "DTSTAMP:" + FormatUTC(stamp), StartLine(e)]
    + EndLine(e)
    + Optional("SUMMARY", EscapeText(e.summary))
    + Optional("DESCRIPTION", EscapeText(e.description))
    + Optional("LOCATION", EscapeText(e.location))
  }

  lemma FoldedEvent(e: Event, stamp: Instant, url: seq<string>)
    requires Optional("URL", e.url) + ModifiedLine(e) + StatusLine(e) == url
    ensures FoldedAll(EventLines(e, stamp)) ==
            FoldedAll(LinesBeforeUrl(e, stamp)) + FoldedAll(url) + FoldedAll(["END:VEVENT"])
  {
    hide EscapeText, FormatUTC, StartLine, EndLine, Optional, ModifiedLine, StatusLine, FoldedAll;
    var front := LinesBeforeUrl(e, stamp);
    Grouped(front, Optional("URL", e.url), ModifiedLine(e));
    Grouped(front, Optional("URL", e.url) + ModifiedLine(e), StatusLine(e));
    assert EventLines(e, stamp) == front + url + ["END:VEVENT"];
    FoldedAllConcat(front + url, ["END:VEVENT"]);
    FoldedAllConcat(front, url);
  }

  lemma UrlLines(e: Event)
    requires e.url != "" && !e.cancelled && e.lastModified == 0
    ensures Optional("URL", BrokenUrl(e).url) + ModifiedLine(BrokenUrl(e)) + StatusLine(BrokenUrl(e))
         == [("URL" + ":" + e.url) + CRLF + CANCELLATION]
    ensures var c := e.(cancelled := true);
            Optional("URL", c.url) + ModifiedLine(c) + StatusLine(c) == ["URL" + ":" + e.url] + [CANCELLATION]
  {
    hide FormatUTC;
    Associate("URL" + ":", e.url, CRLF);
    Associate("URL" + ":", e.url + CRLF, CANCELLATION);
  }

  /** It is written exactly as if it were the same event, canceled. */
  lemma BrokenUrlIsWrittenCancelled(e: Event, stamp: Instant)
    requires e.url != "" && |e.url| <= 50 && !e.cancelled && e.lastModified == 0
    ensures FoldedAll(EventLines(BrokenUrl(e), stamp)) == FoldedAll(EventLines(e.(cancelled := true), stamp))
  {
    hide EscapeText, FormatUTC, StartLine, EndLine, FoldedAll, EventLines, Optional, ModifiedLine, StatusLine;
    var line := "URL" + ":" + e.url;
    UrlLines(e);
    FoldedEvent(BrokenUrl(e), stamp, [line + CRLF + CANCELLATION]);
    FoldedEvent(e.(cancelled := true), stamp, [line] + [CANCELLATION]);
    assert LinesBeforeUrl(BrokenUrl(e), stamp) == LinesBeforeUrl(e.(cancelled := true), stamp) by {
      SameLinesBeforeUrl(e, stamp);
    }
    ShortPairFolds(line, CANCELLATION);
    FoldedAllSnoc([], line + CRLF + CANCELLATION);
    assert [] + [line + CRLF + CANCELLATION] == [line + CRLF + CANCELLATION];
    assert FoldedAll([]) == "" by { NothingFolds(); }
  }

  lemma SameLinesBeforeUrl(e: Event, stamp: Instant)
    ensures LinesBeforeUrl(BrokenUrl(e), stamp) == LinesBeforeUrl(e.(cancelled := true), stamp)
  {
    hide EscapeText, FormatUTC, FormatDate, CivilTime.AddDate, Optional;
  }

  /**
   What follows a line break in a URL is read as a property of its own: here the event comes back with a shorter URL
   and canceled.
   */
  lemma BrokenUrlReadsCancelled(calName: string, e: Event, stamp: Instant, from: Instant, until: Instant)
    requires e.url != "" && |e.url| <= 50 && !e.cancelled && e.lastModified == 0
    requires Printable(e) && UrlKept(e.url) && Importable(Normalized(e), from, until)
    requires |Rendered(calName, [BrokenUrl(e)], stamp)| <= MAX_FEED_BYTES
    ensures Parsed(Rendered(calName, [BrokenUrl(e)], stamp), from, until) == Ok([Normalized(e.(cancelled := true))])
    ensures Normalized(BrokenUrl(e)) != Normalized(e.(cancelled := true))
  {
    hide EscapeText, EventLines, FormatUTC, HeaderLines, FoldedAll, Parsed, FourDigitYear, NormalizeNewlines, UrlKept;
    var c := e.(cancelled := true);
    BrokenUrlIsWrittenCancelled(e, stamp);
    RenderedOne(calName, BrokenUrl(e), stamp);
    RenderedOne(calName, c, stamp);
    ParseUndoesRender(calName, [c], stamp, from, until);
    ImportedOne(c, from, until);
  }

  lemma ImportedOne(e: Event, from: Instant, until: Instant)
    ensures Imported([e], from, until) == if Importable(Normalized(e), from, until) then [Normalized(e)] else []
  {
    hide Normalized, Importable;
    assert [e][..0] == [] && Imported([e][..0], from, until) == [];
  }

  lemma RenderedOne(calName: string, e: Event, stamp: Instant)
    ensures Rendered(calName, [e], stamp) ==
            FoldedAll(HeaderLines(calName)) + FoldedAll(EventLines(e, stamp)) + FoldedAll(["END:VCALENDAR"])
  {
    hide EventLines, HeaderLines, FoldedAll;
    AllEventLinesSnoc([e], 0, stamp);
    assert [e][..1] == [e] && [e][..0] == [] && AllEventLines([e][..0], stamp) == [];
    assert AllEventLines([e], stamp) == EventLines(e, stamp);
    FoldedAllConcat(HeaderLines(calName) + EventLines(e, stamp), ["END:VCALENDAR"]);
    FoldedAllConcat(HeaderLines(calName), EventLines(e, stamp));
  }
}
