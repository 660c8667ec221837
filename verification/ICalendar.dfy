/**
 The feed itself: writing a unit's events as an iCalendar document and reading somebody else's document
 back as events (section 3.6.1 of RFC 5545).
 */
module ICalendar {
  import opened Prelude
  import opened Text
  import opened CivilTime
  import opened TimeFormat
  import opened Escaping
  import opened Folding
  import opened Properties
  import opened Recurrence

  /** One calendar entry. An end or a last modification of 0 means that none is given. */
  datatype Event = Event(
    uid: string, summary: string, description: string, location: string, url: string,
    start: Instant, end: Instant, allDay: bool, lastModified: Instant, cancelled: bool)

  const NO_EVENT: Event := Event("", "", "", "", "", 0, 0, false, 0, false)

  // ----- writing -----

  /** A line, or nothing when the text it would carry is empty. */
  function Optional(name: string, text: string): seq<string> {
    if text == "" then [] else [name + ":" + text]
  }

  function StartLine(e: Event): string {
    if e.allDay then "DTSTART;VALUE=DATE:" + FormatDate(DayOf(e.start)) else "DTSTART:" + FormatUTC(e.start)
  }

  /** The end of an all-day event is written as the day after its last day. */
  function EndLine(e: Event): seq<string> {
    if e.end == 0 then []
    else if e.allDay then ["DTEND;VALUE=DATE:" + FormatDate(DayOf(AddDate(e.end, 0, 0, 1)))]
    else ["DTEND:" + FormatUTC(e.end)]
  }

  function ModifiedLine(e: Event): seq<string> {
    if e.lastModified == 0 then [] else ["LAST-MODIFIED:" + FormatUTC(e.lastModified)]
  }

  function StatusLine(e: Event): seq<string> {
    if e.cancelled then ["STATUS:CANCELLED"] else []
  }

  function EventLines(e: Event, stamp: Instant): seq<string> {
    ["BEGIN:VEVENT", "UID:" + EscapeText(e.uid), "DTSTAMP:" + FormatUTC(stamp), StartLine(e)]
    + EndLine(e)
    + Optional("SUMMARY", EscapeText(e.summary))
    + Optional("DESCRIPTION", EscapeText(e.description))
    + Optional("LOCATION", EscapeText(e.location))
    + Optional("URL", e.url)
    + ModifiedLine(e)
    + StatusLine(e)
    + ["END:VEVENT"]
  }

  function AllEventLines(events: seq<Event>, stamp: Instant): seq<string> {
    if events == [] then []
    else AllEventLines(events[..|events| - 1], stamp) + EventLines(events[|events| - 1], stamp)
  }

  const PRODUCT: string := "-//47 Yonkers Scouting//Scout Site//EN"

  function HeaderLines(calName: string): seq<string> {
    ["BEGIN:VCALENDAR", "VERSION:2.0", "PRODID:" + PRODUCT,
     "CALSCALE:GREGORIAN", "METHOD:PUBLISH"]
    + Optional("X-WR-CALNAME", EscapeText(calName))
    + ["REFRESH-INTERVAL;VALUE=DURATION:PT4H", "X-PUBLISHED-TTL:PT4H"]
  }

  /** Every content line of the document, one per property. */
  function DocumentLines(calName: string, events: seq<Event>, stamp: Instant): seq<string> {
    HeaderLines(calName) + AllEventLines(events, stamp) + ["END:VCALENDAR"]
  }

  function Rendered(calName: string, events: seq<Event>, stamp: Instant): string {
    FoldedAll(DocumentLines(calName, events, stamp))
  }

  lemma EscapeKeepsEmptiness(s: string)
    ensures EscapeText(s) == "" <==> s == ""
  {
    EscapeTextIsOnePass(s);
  }

  lemma Grouped<T>(before: seq<T>, a: seq<T>, b: seq<T>)
    ensures before + a + b == before + (a + b)
  {
  }

  /** Writing blocks one after the other is writing them all at once. */
  lemma GroupedAll<T>(before: seq<T>, a: seq<T>, b: seq<T>, c: seq<T>, d: seq<T>, e: seq<T>, f: seq<T>, g: seq<T>,
                      h: seq<T>, i: seq<T>)
    ensures before + a + b + c + d + e + f + g + h + i == before + (a + b + c + d + e + f + g + h + i)
  {
    Grouped(before, a, b);
    Grouped(before, a + b, c);
    Grouped(before, a + b + c, d);
    Grouped(before, a + b + c + d, e);
    Grouped(before, a + b + c + d + e, f);
    Grouped(before, a + b + c + d + e + f, g);
    Grouped(before, a + b + c + d + e + f + g, h);
    Grouped(before, a + b + c + d + e + f + g + h, i);
  }

  /** DTSTART and DTEND, in the form the event calls for. */
  method WriteTimes(b: Builder, e: Event)
    requires b.Valid()
    modifies b
    ensures b.Valid() && b.lines == old(b.lines) + [StartLine(e)] + EndLine(e)
  {
    hide FormatUTC, FormatDate, CivilTime.AddDate, FoldedAll;
    if e.allDay {
      b.Line("DTSTART;VALUE=DATE:" + FormatDate(DayOf(e.start)));
      if e.end != 0 {
        b.Line("DTEND;VALUE=DATE:" + FormatDate(DayOf(AddDate(e.end, 0, 0, 1))));
      }
    } else {
      b.Line("DTSTART:" + FormatUTC(e.start));
      if e.end != 0 {
        b.Line("DTEND:" + FormatUTC(e.end));
      }
    }
  }

  method WriteTexts(b: Builder, e: Event)
    requires b.Valid()
    modifies b
    ensures b.Valid()
    ensures b.lines == old(b.lines) + Optional("SUMMARY", EscapeText(e.summary))
                       + Optional("DESCRIPTION", EscapeText(e.description))
                       + Optional("LOCATION", EscapeText(e.location)) + Optional("URL", e.url)
  {
    hide EscapeText, FoldedAll;
    EscapeKeepsEmptiness(e.summary);
    EscapeKeepsEmptiness(e.description);
    EscapeKeepsEmptiness(e.location);
    if e.summary != "" {
      b.Line("SUMMARY" + ":" + EscapeText(e.summary));
    }
    label L1:
    assert b.lines == old(b.lines) + Optional("SUMMARY", EscapeText(e.summary));
    if e.description != "" {
      b.Line("DESCRIPTION" + ":" + EscapeText(e.description));
    }
    label L2:
    assert b.lines == old@L1(b.lines) + Optional("DESCRIPTION", EscapeText(e.description));
    if e.location != "" {
      b.Line("LOCATION" + ":" + EscapeText(e.location));
    }
    label L3:
    assert b.lines == old@L2(b.lines) + Optional("LOCATION", EscapeText(e.location));
    if e.url != "" {
      b.Line("URL" + ":" + e.url);
    }
    assert b.lines == old@L3(b.lines) + Optional("URL", e.url);
  }

  method WriteFlags(b: Builder, e: Event)
    requires b.Valid()
    modifies b
    ensures b.Valid() && b.lines == old(b.lines) + ModifiedLine(e) + StatusLine(e)
  {
    hide FormatUTC, FoldedAll;
    if e.lastModified != 0 {
      b.Line("LAST-MODIFIED:" + FormatUTC(e.lastModified));
    }
    label Modified:
    assert b.lines == old(b.lines) + ModifiedLine(e);
    if e.cancelled {
      b.Line("STATUS:CANCELLED");
    }
    assert b.lines == old@Modified(b.lines) + StatusLine(e);
  }

  method RenderEvent(b: Builder, e: Event, stamp: Instant)
    requires b.Valid()
    modifies b
    ensures b.Valid() && b.lines == old(b.lines) + EventLines(e, stamp)
  {
    hide EscapeText, FormatUTC, StartLine, EndLine, Optional, ModifiedLine, StatusLine, FoldedAll;
    ghost var before := b.lines;
    b.Line("BEGIN:VEVENT");
    b.Line("UID:" + EscapeText(e.uid));
    b.Line("DTSTAMP:" + FormatUTC(stamp));
    WriteTimes(b, e);
    WriteTexts(b, e);
    WriteFlags(b, e);
    b.Line("END:VEVENT");
    FirstFour(before, "BEGIN:VEVENT", "UID:" + EscapeText(e.uid), "DTSTAMP:" + FormatUTC(stamp), StartLine(e));
    GroupedAll(before,
      ["BEGIN:VEVENT", "UID:" + EscapeText(e.uid), "DTSTAMP:" + FormatUTC(stamp), StartLine(e)], EndLine(e),
      Optional("SUMMARY", EscapeText(e.summary)), Optional("DESCRIPTION", EscapeText(e.description)),
      Optional("LOCATION", EscapeText(e.location)), Optional("URL", e.url),
      ModifiedLine(e), StatusLine(e), ["END:VEVENT"]);
  }

  lemma FirstFour<T>(before: seq<T>, a: T, b: T, c: T, d: T)
    ensures before + [a] + [b] + [c] + [d] == before + [a, b, c, d]
  {
  }

  method RenderHeader(b: Builder, calName: string)
    requires b.Valid() && b.lines == []
    modifies b
    ensures b.Valid() && b.lines == HeaderLines(calName)
  {
    hide EscapeText, Optional, FoldedAll;
    b.Line("BEGIN:VCALENDAR");
    b.Line("VERSION:2.0");
    b.Line("PRODID:" + PRODUCT);
    b.Line("CALSCALE:GREGORIAN");
    b.Line("METHOD:PUBLISH");
    WriteName(b, calName);
    b.Line("REFRESH-INTERVAL;VALUE=DURATION:PT4H");
    b.Line("X-PUBLISHED-TTL:PT4H");
  }

  method WriteName(b: Builder, calName: string)
    requires b.Valid()
    modifies b
    ensures b.Valid() && b.lines == old(b.lines) + Optional("X-WR-CALNAME", EscapeText(calName))
  {
    hide EscapeText, FoldedAll;
    EscapeKeepsEmptiness(calName);
    if calName != "" {
      b.Line("X-WR-CALNAME" + ":" + EscapeText(calName));
    }
  }

  method Render(calName: string, events: seq<Event>, stamp: Instant) returns (doc: string)
    ensures doc == Rendered(calName, events, stamp)
  {
    hide EscapeText, EventLines;
    var b := new Builder();
    RenderHeader(b, calName);
    for i := 0 to |events|
      invariant b.Valid()
      invariant b.lines == HeaderLines(calName) + AllEventLines(events[..i], stamp)
    {
      AllEventLinesSnoc(events, i, stamp);
      RenderEvent(b, events[i], stamp);
      Grouped(HeaderLines(calName), AllEventLines(events[..i], stamp), EventLines(events[i], stamp));
    }
    assert events[..|events|] == events;
    b.Line("END:VCALENDAR");
    doc := b.content;
  }

  lemma AllEventLinesSnoc(events: seq<Event>, i: nat, stamp: Instant)
    requires i < |events|
    ensures AllEventLines(events[..i + 1], stamp) == AllEventLines(events[..i], stamp) + EventLines(events[i], stamp)
  {
    hide EventLines;
    assert events[..i + 1][..i] == events[..i];
  }
}
