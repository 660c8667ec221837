/** The reader undoes the writer: a rendered feed reads back as the events it was rendered from. */
module FeedRoundTrip {
  import opened Prelude
  import opened Text
  import opened CivilTime
  import opened TimeFormat
  import opened Escaping
  import opened Folding
  import opened Properties
  import opened ICalendar
  import opened FeedReader

  /** What a trip through a feed leaves of an event: single LFs in its texts, whole days if all-day. */
  function Normalized(e: Event): Event {
    Event(NormalizeNewlines(e.uid), NormalizeNewlines(e.summary), NormalizeNewlines(e.description),
          NormalizeNewlines(e.location), e.url,
          if e.allDay then Midnight(DayOf(e.start)) else e.start,
          if e.allDay && e.end != 0 then Midnight(DayOf(e.end)) else e.end,
          e.allDay, e.lastModified, e.cancelled)
  }

  /** The day an event's end is printed with. */
  function PrintedEndDay(e: Event): int {
    if e.allDay then DayOf(e.end) + 1 else DayOf(e.end)
  }

  /** An event whose times print with four-digit years. */
  predicate Printable(e: Event) {
    && FourDigitYear(DayOf(e.start))
    && (e.end != 0 ==> FourDigitYear(PrintedEndDay(e)))
    && (e.lastModified != 0 ==> FourDigitYear(DayOf(e.lastModified)))
  }

  /** A URL is written as it is: it survives if it holds no LF and no physical line of its ends in a CR of its own. */
  predicate UrlKept(url: string) {
    '\n' !in url && PiecesKept("URL" + ":" + url)
  }

  lemma {:induction false} PrefixIsKept(s: string, n: nat)
    requires n <= |s| && '\r' !in s[..n]
    ensures n <= |ReadBack(s)| && ReadBack(s)[..n] == s[..n]
    decreases |s|
  {
    hide TrimRightCR, CutBack;
    if |s| <= FOLD_AT {
      TrimKeepsPrefix(s, n);
    } else {
      var cut := CutBack(s, FOLD_AT);
      if n <= cut {
        TrimKeepsPrefix(s[..cut], n);
        assert s[..cut][..n] == s[..n];
      } else {
        TrimKeepsPrefix(s[..cut], cut);
        TrimShortens(s[..cut]);
        assert s[..n] == s[..cut] + s[cut..][..n - cut];
        PrefixIsKept(s[cut..], n - cut);
      }
    }
  }

  lemma {:induction false} TrimKeepsPrefix(s: string, n: nat)
    requires n <= |s| && '\r' !in s[..n]
    ensures n <= |TrimRightCR(s)| && TrimRightCR(s)[..n] == s[..n]
  {
    if EndsInCR(s) {
      assert s[..|s| - 1][..n] == s[..n];
      TrimKeepsPrefix(s[..|s| - 1], n);
    }
  }

  /** A URL as the reader finds it. */
  function ReadUrl(url: string): (r: string)
    ensures "URL" + ":" + r == ReadBack("URL" + ":" + url)
  {
    var line := "URL" + ":" + url;
    assert line[..4] == "URL" + ":";
    PrefixIsKept(line, 4);
    ReadBack(line)[4..]
  }

  lemma ReadUrlIff(url: string)
    ensures ReadUrl(url) == url <==> PiecesKept("URL" + ":" + url)
  {
    hide PiecesKept, ReadBack;
    ReadBackIff("URL" + ":" + url);
    assert ("URL" + ":" + ReadUrl(url))[4..] == ReadUrl(url);
    assert ("URL" + ":" + url)[4..] == url;
  }

  predicate Importable(e: Event, from: Instant, until: Instant) {
    e.uid != "" && from <= e.start <= until
  }

  /** The events of the feed that fall in the window, as the reader sees them. */
  function Imported(events: seq<Event>, from: Instant, until: Instant): seq<Event> {
    if events == [] then []
    else
      var e := Normalized(events[|events| - 1]);
      Imported(events[..|events| - 1], from, until) + if Importable(e, from, until) then [e] else []
  }

  /** An event as the reader finds it, whatever CRs its URL holds. */
  function AsRead(e: Event): Event {
    Normalized(e).(url := ReadUrl(e.url))
  }

  function ReadEvents(events: seq<Event>, from: Instant, until: Instant): seq<Event> {
    if events == [] then []
    else
      var e := AsRead(events[|events| - 1]);
      ReadEvents(events[..|events| - 1], from, until) + if Importable(e, from, until) then [e] else []
  }

  // ----- every line written is a content line of its own -----

  /** A line that is read back as it was written. */
  predicate Clean(s: string) {
    GoodLine(s) && SingleLine(s)
  }

  predicate AllClean(lines: seq<string>) {
    forall i :: 0 <= i < |lines| ==> Clean(lines[i])
  }

  lemma AllCleanConcat(xs: seq<string>, ys: seq<string>)
    requires AllClean(xs) && AllClean(ys)
    ensures AllClean(xs + ys)
  {
    hide Clean;
  }

  lemma CleanIsKept(lines: seq<string>)
    requires AllClean(lines)
    ensures AllGood(lines) && ReadBackAll(lines) == lines
  {
    hide ReadBack;
    forall i | 0 <= i < |lines|
      ensures GoodLine(lines[i]) && ReadBack(lines[i]) == lines[i]
    {
      assert Clean(lines[i]);
      SingleLineIsKept(lines[i]);
    }
  }

  /** Text without control characters that does not begin with a blank, like everything the writer adds itself. */
  predicate Visible(s: string) {
    s != "" && s[0] > ' ' && forall i :: 0 <= i < |s| ==> s[i] >= ' '
  }

  lemma VisibleIsClean(s: string)
    requires Visible(s)
    ensures Clean(s)
  {
  }

  lemma PrefixedIsGood(head: string, text: string)
    requires Visible(head) && SingleLine(text)
    ensures Clean(head + text)
  {
  }

  lemma OptionalIsGood(name: string, text: string)
    requires Visible(name) && SingleLine(text)
    ensures AllClean(Optional(name, text))
  {
    PrefixedIsGood(name + ":", text);
  }

  lemma TimesAreGood(e: Event)
    ensures Clean(StartLine(e)) && AllClean(EndLine(e)) && AllClean(ModifiedLine(e))
  {
    hide FormatUTC, FormatDate, CivilTime.AddDate, Clean, SingleLine;
    FormatIsSingleLine(e.start);
    FormatIsSingleLine(e.end);
    FormatIsSingleLine(AddDate(e.end, 0, 0, 1));
    FormatIsSingleLine(e.lastModified);
    PrefixedIsGood("DTSTART;VALUE=DATE:", FormatDate(DayOf(e.start)));
    PrefixedIsGood("DTSTART:", FormatUTC(e.start));
    PrefixedIsGood("DTEND;VALUE=DATE:", FormatDate(DayOf(AddDate(e.end, 0, 0, 1))));
    PrefixedIsGood("DTEND:", FormatUTC(e.end));
    PrefixedIsGood("LAST-MODIFIED:", FormatUTC(e.lastModified));
  }

  lemma IdentityIsGood(e: Event, stamp: Instant)
    ensures Clean("UID:" + EscapeText(e.uid)) && Clean("DTSTAMP:" + FormatUTC(stamp))
  {
    hide FormatUTC, FormatDate, EscapeText, Clean, SingleLine;
    EscapeIsSingleLine(e.uid);
    FormatIsSingleLine(stamp);
    PrefixedIsGood("UID:", EscapeText(e.uid));
    PrefixedIsGood("DTSTAMP:", FormatUTC(stamp));
  }

  lemma FirstLinesAreGood(e: Event, stamp: Instant)
    ensures AllClean(["BEGIN:VEVENT", "UID:" + EscapeText(e.uid), "DTSTAMP:" + FormatUTC(stamp), StartLine(e)])
  {
    hide FormatUTC, EscapeText, StartLine, Clean;
    IdentityIsGood(e, stamp);
    TimesAreGood(e);
    BeginIsGood();
    FourGood("BEGIN:VEVENT", "UID:" + EscapeText(e.uid), "DTSTAMP:" + FormatUTC(stamp), StartLine(e));
  }

  lemma BeginIsGood()
    ensures Clean("BEGIN:VEVENT")
  {
    hide Clean;
    VisibleIsClean("BEGIN:VEVENT");
  }

  lemma FourGood(a: string, b: string, c: string, d: string)
    requires Clean(a) && Clean(b) && Clean(c) && Clean(d)
    ensures AllClean([a, b, c, d])
  {
    hide Clean;
  }

  lemma NineGood(a: seq<string>, b: seq<string>, c: seq<string>, d: seq<string>, e: seq<string>,
                 f: seq<string>, g: seq<string>, h: seq<string>, i: seq<string>)
    requires AllGood(a) && AllGood(b) && AllGood(c) && AllGood(d) && AllGood(e)
    requires AllGood(f) && AllGood(g) && AllGood(h) && AllGood(i)
    ensures AllGood(a + b + c + d + e + f + g + h + i)
    ensures ReadBackAll(a + b + c + d + e + f + g + h + i)
         == ReadBackAll(a) + ReadBackAll(b) + ReadBackAll(c) + ReadBackAll(d) + ReadBackAll(e)
            + ReadBackAll(f) + ReadBackAll(g) + ReadBackAll(h) + ReadBackAll(i)
  {
    hide AllGood, ReadBackAll;
    TwoGood(a, b);
    TwoGood(a + b, c);
    TwoGood(a + b + c, d);
    TwoGood(a + b + c + d, e);
    TwoGood(a + b + c + d + e, f);
    TwoGood(a + b + c + d + e + f, g);
    TwoGood(a + b + c + d + e + f + g, h);
    TwoGood(a + b + c + d + e + f + g + h, i);
  }

  lemma TwoGood(a: seq<string>, b: seq<string>)
    requires AllGood(a) && AllGood(b)
    ensures AllGood(a + b) && ReadBackAll(a + b) == ReadBackAll(a) + ReadBackAll(b)
  {
    hide ReadBack, GoodLine;
  }

  lemma TextsAreGood(e: Event)
    ensures AllClean(Optional("SUMMARY", EscapeText(e.summary)))
    ensures AllClean(Optional("DESCRIPTION", EscapeText(e.description)))
    ensures AllClean(Optional("LOCATION", EscapeText(e.location)))
  {
    hide EscapeText, Optional;
    EscapeIsSingleLine(e.summary);
    EscapeIsSingleLine(e.description);
    EscapeIsSingleLine(e.location);
    OptionalIsGood("SUMMARY", EscapeText(e.summary));
    OptionalIsGood("DESCRIPTION", EscapeText(e.description));
    OptionalIsGood("LOCATION", EscapeText(e.location));
  }

  /** The URL line as the reader finds it. */
  function ReadUrlLines(url: string): seq<string> {
    if url == "" then [] else ["URL" + ":" + ReadUrl(url)]
  }

  lemma UrlIsGood(url: string)
    requires '\n' !in url
    ensures AllGood(Optional("URL", url)) && ReadBackAll(Optional("URL", url)) == ReadUrlLines(url)
  {
    hide ReadBack;
  }

  /** The lines of one event as the reader finds them. */
  function ReadEventLines(e: Event, stamp: Instant): seq<string> {
    ["BEGIN:VEVENT", "UID:" + EscapeText(e.uid), "DTSTAMP:" + FormatUTC(stamp), StartLine(e)]
    + EndLine(e)
    + Optional("SUMMARY", EscapeText(e.summary))
    + Optional("DESCRIPTION", EscapeText(e.description))
    + Optional("LOCATION", EscapeText(e.location))
    + ReadUrlLines(e.url)
    + ModifiedLine(e)
    + StatusLine(e)
    + ["END:VEVENT"]
  }

  lemma EventLinesAreRead(e: Event, stamp: Instant)
    requires '\n' !in e.url
    ensures AllGood(EventLines(e, stamp)) && ReadBackAll(EventLines(e, stamp)) == ReadEventLines(e, stamp)
  {
    hide AllGood, AllClean, ReadBackAll, EscapeText, FormatUTC, StartLine, EndLine, Optional, ModifiedLine, StatusLine,
      ReadUrlLines;
    var first := ["BEGIN:VEVENT", "UID:" + EscapeText(e.uid), "DTSTAMP:" + FormatUTC(stamp), StartLine(e)];
    FirstLinesAreGood(e, stamp);
    CleanIsKept(first);
    TimesAreGood(e);
    CleanIsKept(EndLine(e));
    CleanIsKept(ModifiedLine(e));
    TextsAreGood(e);
    CleanIsKept(Optional("SUMMARY", EscapeText(e.summary)));
    CleanIsKept(Optional("DESCRIPTION", EscapeText(e.description)));
    CleanIsKept(Optional("LOCATION", EscapeText(e.location)));
    UrlIsGood(e.url);
    FixedLinesAreGood(e);
    CleanIsKept(StatusLine(e));
    CleanIsKept(["END:VEVENT"]);
    NineGood(first, EndLine(e),
      Optional("SUMMARY", EscapeText(e.summary)), Optional("DESCRIPTION", EscapeText(e.description)),
      Optional("LOCATION", EscapeText(e.location)), Optional("URL", e.url),
      ModifiedLine(e), StatusLine(e), ["END:VEVENT"]);
  }

  lemma FixedLinesAreGood(e: Event)
    ensures AllClean(StatusLine(e)) && AllClean(["END:VEVENT"]) && AllClean(["END:VCALENDAR"])
  {
    hide Clean;
    VisibleIsClean("STATUS:CANCELLED");
    VisibleIsClean("END:VEVENT");
    VisibleIsClean("END:VCALENDAR");
  }

  function AllReadEventLines(events: seq<Event>, stamp: Instant): seq<string> {
    if events == [] then []
    else AllReadEventLines(events[..|events| - 1], stamp) + ReadEventLines(events[|events| - 1], stamp)
  }

  lemma {:induction false} AllEventLinesAreRead(events: seq<Event>, stamp: Instant)
    requires forall i :: 0 <= i < |events| ==> '\n' !in events[i].url
    ensures AllGood(AllEventLines(events, stamp))
    ensures ReadBackAll(AllEventLines(events, stamp)) == AllReadEventLines(events, stamp)
  {
    hide EventLines, ReadEventLines, GoodLine, ReadBack;
    if events != [] {
      AllEventLinesAreRead(events[..|events| - 1], stamp);
      EventLinesAreRead(events[|events| - 1], stamp);
      TwoGood(AllEventLines(events[..|events| - 1], stamp), EventLines(events[|events| - 1], stamp));
    }
  }

  lemma HeaderLinesAreGood(calName: string)
    ensures AllClean(HeaderLines(calName))
  {
    hide EscapeText, Optional, AllClean;
    EscapeIsSingleLine(calName);
    OptionalIsGood("X-WR-CALNAME", EscapeText(calName));
    FixedHeaderIsGood();
    var first := ["BEGIN:VCALENDAR", "VERSION:2.0", "PRODID:" + PRODUCT,
                  "CALSCALE:GREGORIAN", "METHOD:PUBLISH"];
    AllCleanConcat(first, Optional("X-WR-CALNAME", EscapeText(calName)));
    AllCleanConcat(first + Optional("X-WR-CALNAME", EscapeText(calName)),
      ["REFRESH-INTERVAL;VALUE=DURATION:PT4H", "X-PUBLISHED-TTL:PT4H"]);
  }

  lemma ProductIsGood()
    ensures Clean("PRODID:" + PRODUCT)
  {
    hide Clean;
    VisibleIsClean(PRODUCT);
    ProductIsSingleLine();
    PrefixedIsGood("PRODID:", PRODUCT);
  }

  lemma ProductIsSingleLine()
    ensures Clean(PRODUCT) ==> SingleLine(PRODUCT)
  {
    hide SingleLine, GoodLine;
  }

  lemma FirstHeaderLinesAreGood()
    ensures Clean("BEGIN:VCALENDAR") && Clean("VERSION:2.0")
  {
    hide Clean;
    VisibleIsClean("BEGIN:VCALENDAR");
    VisibleIsClean("VERSION:2.0");
  }

  lemma NextHeaderLinesAreGood()
    ensures Clean("CALSCALE:GREGORIAN") && Clean("METHOD:PUBLISH")
  {
    hide Clean;
    VisibleIsClean("CALSCALE:GREGORIAN");
    VisibleIsClean("METHOD:PUBLISH");
  }

  lemma RefreshIsGood()
    ensures Clean("REFRESH-INTERVAL;VALUE=DURATION:PT4H")
  {
    hide Clean;
    VisibleIsClean("REFRESH-INTERVAL;VALUE=DURATION:PT4H");
  }

  lemma TimeToLiveIsGood()
    ensures Clean("X-PUBLISHED-TTL:PT4H")
  {
    hide Clean;
    VisibleIsClean("X-PUBLISHED-TTL:PT4H");
  }

  lemma FixedHeaderIsGood()
    ensures AllClean(["BEGIN:VCALENDAR", "VERSION:2.0", "PRODID:" + PRODUCT, "CALSCALE:GREGORIAN", "METHOD:PUBLISH"])
    ensures AllClean(["REFRESH-INTERVAL;VALUE=DURATION:PT4H", "X-PUBLISHED-TTL:PT4H"])
  {
    hide Clean;
    FirstHeaderLinesAreGood();
    ProductIsGood();
    NextHeaderLinesAreGood();
    RefreshIsGood();
    TimeToLiveIsGood();
  }

  /** The lines of the document as the reader finds them. */
  function ReadDocumentLines(calName: string, events: seq<Event>, stamp: Instant): seq<string> {
    HeaderLines(calName) + AllReadEventLines(events, stamp) + ["END:VCALENDAR"]
  }

  lemma SameLengthConcat(a: seq<string>, b: seq<string>, c: seq<string>, d: seq<string>)
    requires |a| == |c|
    ensures a + b == c + d <==> a == c && b == d
  {
    assert (a + b)[..|a|] == a && (c + d)[..|c|] == c;
    assert (a + b)[|a|..] == b && (c + d)[|c|..] == d;
  }

  lemma UrlLinesIff(url: string)
    requires '\n' !in url
    ensures |ReadUrlLines(url)| == |Optional("URL", url)|
    ensures ReadUrlLines(url) == Optional("URL", url) <==> UrlKept(url)
  {
    hide PiecesKept, ReadUrl, ReadBack;
    ReadUrlIff(url);
    if url == "" {
      SingleLineIsKept("URL" + ":" + url);
      ReadBackIff("URL" + ":" + url);
    } else {
      assert ("URL" + ":" + url)[4..] == url && ("URL" + ":" + ReadUrl(url))[4..] == ReadUrl(url);
    }
  }

  lemma EventLinesIff(e: Event, stamp: Instant)
    requires '\n' !in e.url
    ensures |ReadEventLines(e, stamp)| == |EventLines(e, stamp)|
    ensures ReadEventLines(e, stamp) == EventLines(e, stamp) <==> UrlKept(e.url)
  {
    hide EscapeText, FormatUTC, StartLine, EndLine, Optional, ModifiedLine, StatusLine, ReadUrlLines, UrlKept;
    UrlLinesIff(e.url);
    var front := ["BEGIN:VEVENT", "UID:" + EscapeText(e.uid), "DTSTAMP:" + FormatUTC(stamp), StartLine(e)] + EndLine(e)
      + Optional("SUMMARY", EscapeText(e.summary)) + Optional("DESCRIPTION", EscapeText(e.description))
      + Optional("LOCATION", EscapeText(e.location));
    var x, y := ReadUrlLines(e.url), Optional("URL", e.url);
    SameLengthConcat(front, x, front, y);
    SameLengthConcat(front + x, ModifiedLine(e), front + y, ModifiedLine(e));
    SameLengthConcat(front + x + ModifiedLine(e), StatusLine(e), front + y + ModifiedLine(e), StatusLine(e));
    SameLengthConcat(front + x + ModifiedLine(e) + StatusLine(e), ["END:VEVENT"],
                     front + y + ModifiedLine(e) + StatusLine(e), ["END:VEVENT"]);
  }

  lemma {:induction false} AllEventLinesIff(events: seq<Event>, stamp: Instant)
    requires forall i :: 0 <= i < |events| ==> '\n' !in events[i].url
    ensures |AllReadEventLines(events, stamp)| == |AllEventLines(events, stamp)|
    ensures AllReadEventLines(events, stamp) == AllEventLines(events, stamp)
       <==> forall i :: 0 <= i < |events| ==> UrlKept(events[i].url)
  {
    hide EventLines, ReadEventLines, UrlKept;
    if events != [] {
      var n := |events| - 1;
      var front, e := events[..n], events[n];
      AllEventLinesIff(front, stamp);
      EventLinesIff(e, stamp);
      SameLengthConcat(AllReadEventLines(front, stamp), ReadEventLines(e, stamp),
                       AllEventLines(front, stamp), EventLines(e, stamp));
      KeptSnoc(events);
    }
  }

  lemma KeptSnoc(events: seq<Event>)
    requires events != []
    ensures var n := |events| - 1;
            (forall i :: 0 <= i < |events| ==> UrlKept(events[i].url))
            <==> UrlKept(events[n].url) && forall i :: 0 <= i < n ==> UrlKept(events[..n][i].url)
  {
    hide UrlKept;
    var front := events[..|events| - 1];
    if forall i :: 0 <= i < |front| ==> UrlKept(front[i].url) {
      forall i | 0 <= i < |front|
        ensures UrlKept(events[i].url)
      {
        assert front[i] == events[i];
      }
    }
  }

  /**
   The document unfolds into one line per property, each as written, exactly when every URL survives: no other text
   creates a line or swallows one, and a CR in a URL is at worst lost.
   */
  lemma DocumentUnfolds(calName: string, events: seq<Event>, stamp: Instant)
    requires forall i :: 0 <= i < |events| ==> '\n' !in events[i].url
    requires |Rendered(calName, events, stamp)| <= MAX_FEED_BYTES
    ensures Unfolded(Rendered(calName, events, stamp)) == Ok(ReadDocumentLines(calName, events, stamp))
    ensures Unfolded(Rendered(calName, events, stamp)) == Ok(DocumentLines(calName, events, stamp))
       <==> forall i :: 0 <= i < |events| ==> UrlKept(events[i].url)
  {
    hide HeaderLines, AllEventLines, AllReadEventLines, AllGood, AllClean, ReadBackAll, FoldedAll, Unfolded, UrlKept, PiecesKept;
    var header, body, last := HeaderLines(calName), AllEventLines(events, stamp), ["END:VCALENDAR"];
    HeaderLinesAreGood(calName);
    CleanIsKept(header);
    AllEventLinesAreRead(events, stamp);
    TwoGood(header, body);
    FixedLinesAreGood(NO_EVENT);
    CleanIsKept(last);
    TwoGood(header + body, last);
    UnfoldFolded(DocumentLines(calName, events, stamp));
    AllEventLinesIff(events, stamp);
    SameLengthConcat(header, AllReadEventLines(events, stamp), header, body);
    SameLengthConcat(header + AllReadEventLines(events, stamp), last, header + body, last);
  }

  // ----- the reader, line by line -----

  lemma {:induction false} ScanConcat(st: Scan, xs: seq<string>, ys: seq<string>, from: Instant, until: Instant)
    ensures ScanLines(st, xs + ys, from, until) == ScanLines(ScanLines(st, xs, from, until), ys, from, until)
    decreases |ys|
  {
    hide ScanLine;
    if ys == [] {
      assert xs + ys == xs;
    } else {
      var front := ys[..|ys| - 1];
      ScanConcat(st, xs, front, from, until);
      assert (xs + ys)[..|xs + ys| - 1] == xs + front;
    }
  }

  lemma ScanOne(st: Scan, line: string, from: Instant, until: Instant)
    ensures ScanLines(st, [line], from, until) == ScanLine(st, line, from, until)
  {
    hide ScanLine;
    assert [line][..0] == [];
  }

  /** A name the writer uses: upper-case letters and dashes, and neither BEGIN nor END. */
  predicate PropertyName(name: string) {
    && (forall i :: 0 <= i < |name| ==> 'A' <= name[i] <= 'Z' || name[i] == '-')
    && name != "BEGIN" && name != "END"
  }

  lemma NameIsPlain(name: string)
    requires PropertyName(name)
    ensures '"' !in name && ':' !in name && ';' !in name && ToUpper(name) == name
  {
    UpperIsFixed(name);
  }

  lemma ScanProperty(evs: seq<Event>, d: Draft, name: string, value: string, from: Instant, until: Instant)
    requires PropertyName(name)
    ensures ScanLine(Scan(evs, Some(d)), name + ":" + value, from, until) == Scan(evs, Some(Applied(d, name, value)))
  {
    hide Applied, SplitLine, ToUpper;
    NameIsPlain(name);
    SplitPlain(name, value);
  }

  lemma ScanWithParam(evs: seq<Event>, d: Draft, name: string, param: string, value: string, from: Instant, until: Instant)
    requires PropertyName(name)
    requires '"' !in param && ':' !in param && param != "" && param[0] == ';'
    ensures ScanLine(Scan(evs, Some(d)), name + param + ":" + value, from, until)
         == Scan(evs, Some(Applied(d, name, value)))
  {
    hide Applied, SplitLine, ToUpper;
    NameIsPlain(name);
    SplitWithParam(name, param, value);
  }

  /** A text property that may be missing. */
  lemma ScanOptional(evs: seq<Event>, d: Draft, name: string, text: string, from: Instant, until: Instant)
    requires PropertyName(name)
    ensures ScanLines(Scan(evs, Some(d)), Optional(name, text), from, until)
         == Scan(evs, Some(if text == "" then d else Applied(d, name, text)))
  {
    hide ScanLine, Applied, PropertyName;
    if text != "" {
      ScanOne(Scan(evs, Some(d)), name + ":" + text, from, until);
      ScanProperty(evs, d, name, text, from, until);
    }
  }

  // ----- what each block of an event's lines does to the draft -----

  function StartedDraft(e: Event): Draft {
    var n := Normalized(e);
    EMPTY_DRAFT.(ev := NO_EVENT.(uid := n.uid, start := n.start, allDay := n.allDay), hasStart := true)
  }

  function TimedDraft(e: Event): Draft {
    var d := StartedDraft(e);
    d.(ev := d.ev.(end := Normalized(e).end))
  }

  function TextDraft(e: Event): Draft {
    var d, n := TimedDraft(e), AsRead(e);
    d.(ev := d.ev.(summary := n.summary, description := n.description, location := n.location, url := n.url))
  }

  function FinishedDraft(e: Event): Draft {
    Draft(AsRead(e), "", {}, true)
  }

  lemma UidIsRead(d: Draft, e: Event)
    ensures Applied(d, "UID", EscapeText(e.uid)) == d.(ev := d.ev.(uid := Normalized(e).uid))
  {
    hide EscapeText, Unescaped, NormalizeNewlines;
    UnescapeEscape(e.uid);
  }

  lemma StartIsRead(evs: seq<Event>, d: Draft, e: Event, from: Instant, until: Instant)
    requires FourDigitYear(DayOf(e.start))
    ensures ScanLine(Scan(evs, Some(d)), StartLine(e), from, until)
         == Scan(evs, Some(d.(ev := d.ev.(start := Normalized(e).start, allDay := e.allDay), hasStart := true)))
  {
    hide FormatUTC, FormatDate, ParseTime, FourDigitYear, ScanLine, NormalizeNewlines;
    if e.allDay {
      ParseFormatDate(DayOf(e.start));
      StartWithDate(FormatDate(DayOf(e.start)));
      ScanWithParam(evs, d, "DTSTART", ";VALUE=DATE", FormatDate(DayOf(e.start)), from, until);
    } else {
      ParseFormatUTC(e.start);
      StartPlain(FormatUTC(e.start));
      ScanProperty(evs, d, "DTSTART", FormatUTC(e.start), from, until);
    }
  }

  lemma StartWithDate(v: string)
    ensures "DTSTART;VALUE=DATE:" + v == "DTSTART" + ";VALUE=DATE" + ":" + v
    ensures "DTEND;VALUE=DATE:" + v == "DTEND" + ";VALUE=DATE" + ":" + v
  {
  }

  lemma StartPlain(v: string)
    ensures "DTSTART:" + v == "DTSTART" + ":" + v
    ensures "DTEND:" + v == "DTEND" + ":" + v
    ensures "UID:" + v == "UID" + ":" + v
  {
  }

  lemma NextDay(end: Instant)
    ensures DayOf(AddDate(end, 0, 0, 1)) == DayOf(end) + 1
    ensures AddDate(Midnight(DayOf(end) + 1), 0, 0, -1) == Midnight(DayOf(end))
  {
    hide CivilTime.AddDate;
    AddDays(end, 1);
    AddDays(Midnight(DayOf(end) + 1), -1);
    SplitInstant(end);
    JoinInstant(DayOf(end) + 1, SecondOfDay(end));
  }

  /** The exclusive DTEND of an all-day event reads back as its inclusive last day. */
  lemma EndIsRead(evs: seq<Event>, e: Event, from: Instant, until: Instant)
    requires e.end != 0 ==> FourDigitYear(PrintedEndDay(e))
    ensures ScanLines(Scan(evs, Some(StartedDraft(e))), EndLine(e), from, until) == Scan(evs, Some(TimedDraft(e)))
  {
    hide FormatUTC, FormatDate, ParseTime, FourDigitYear, ScanLine, CivilTime.AddDate, NormalizeNewlines;
    var d := StartedDraft(e);
    if e.end != 0 {
      ScanOne(Scan(evs, Some(d)), EndLine(e)[0], from, until);
      if e.allDay {
        NextDay(e.end);
        ParseFormatDate(DayOf(e.end) + 1);
        StartWithDate(FormatDate(DayOf(e.end) + 1));
        ScanWithParam(evs, d, "DTEND", ";VALUE=DATE", FormatDate(DayOf(e.end) + 1), from, until);
      } else {
        ParseFormatUTC(e.end);
        StartPlain(FormatUTC(e.end));
        ScanProperty(evs, d, "DTEND", FormatUTC(e.end), from, until);
      }
    }
  }

  lemma TextIsRead(text: string)
    ensures Unescaped(EscapeText(text)) == NormalizeNewlines(text)
    ensures EscapeText(text) == "" ==> NormalizeNewlines(text) == ""
  {
    UnescapeEscape(text);
    EscapeKeepsEmptiness(text);
    NormalizeKeepsEmptiness(text);
  }

  lemma TextsAreRead(evs: seq<Event>, e: Event, from: Instant, until: Instant)
    ensures var st0 := Scan(evs, Some(TimedDraft(e)));
            var st1 := ScanLines(st0, Optional("SUMMARY", EscapeText(e.summary)), from, until);
            var st2 := ScanLines(st1, Optional("DESCRIPTION", EscapeText(e.description)), from, until);
            var st3 := ScanLines(st2, Optional("LOCATION", EscapeText(e.location)), from, until);
            ScanLines(st3, ReadUrlLines(e.url), from, until) == Scan(evs, Some(TextDraft(e)))
  {
    hide EscapeText, Unescaped, NormalizeNewlines, ScanLines, Optional, ReadUrl, ReadUrlLines;
    TextIsRead(e.summary);
    TextIsRead(e.description);
    TextIsRead(e.location);
    var d0, n := TimedDraft(e), Normalized(e);
    var d1 := d0.(ev := d0.ev.(summary := n.summary));
    var d2 := d1.(ev := d1.ev.(description := n.description));
    var d3 := d2.(ev := d2.ev.(location := n.location));
    ScanOptional(evs, d0, "SUMMARY", EscapeText(e.summary), from, until);
    ScanOptional(evs, d1, "DESCRIPTION", EscapeText(e.description), from, until);
    ScanOptional(evs, d2, "LOCATION", EscapeText(e.location), from, until);
    UrlIsRead(evs, d3, e.url, from, until);
  }

  /** A URL of nothing but CRs leaves an empty line behind, which reads like none. */
  lemma UrlIsRead(evs: seq<Event>, d: Draft, url: string, from: Instant, until: Instant)
    requires d.ev.url == ""
    ensures ScanLines(Scan(evs, Some(d)), ReadUrlLines(url), from, until) == Scan(evs, Some(d.(ev := d.ev.(url := ReadUrl(url)))))
  {
    hide ScanLine, ReadUrl, ReadBack;
    if url == "" {
      EmptyUrlIsRead();
    } else {
      ScanOne(Scan(evs, Some(d)), "URL" + ":" + ReadUrl(url), from, until);
      ScanProperty(evs, d, "URL", ReadUrl(url), from, until);
    }
  }

  lemma EmptyUrlIsRead()
    ensures ReadUrl("") == ""
  {
    hide ReadBack;
    SingleLineIsKept("URL" + ":" + "");
  }

  lemma FlagsAreRead(evs: seq<Event>, e: Event, from: Instant, until: Instant)
    requires e.lastModified != 0 ==> FourDigitYear(DayOf(e.lastModified))
    ensures var st := ScanLines(Scan(evs, Some(TextDraft(e))), ModifiedLine(e), from, until);
            ScanLines(st, StatusLine(e), from, until) == Scan(evs, Some(FinishedDraft(e)))
  {
    hide FormatUTC, ParseTime, FourDigitYear, ScanLine, NormalizeNewlines;
    var d := TextDraft(e);
    if e.lastModified != 0 {
      var v := FormatUTC(e.lastModified);
      assert "LAST-MODIFIED:" + v == "LAST-MODIFIED" + ":" + v;
      ParseFormatUTC(e.lastModified);
      ScanOne(Scan(evs, Some(d)), "LAST-MODIFIED:" + v, from, until);
      ScanProperty(evs, d, "LAST-MODIFIED", v, from, until);
    }
    d := d.(ev := d.ev.(lastModified := e.lastModified));
    if e.cancelled {
      assert "STATUS:CANCELLED" == "STATUS" + ":" + "CANCELLED";
      ScanOne(Scan(evs, Some(d)), "STATUS:CANCELLED", from, until);
      ScanProperty(evs, d, "STATUS", "CANCELLED", from, until);
    }
  }

  // ----- one event, then all of them -----

  lemma BeginIsRead(st: Scan, from: Instant, until: Instant)
    ensures ScanLine(st, "BEGIN:VEVENT", from, until) == st.(current := Some(EMPTY_DRAFT))
  {
    hide Expanded, Applied, SplitLine;
    assert "BEGIN:VEVENT" == "BEGIN" + ":" + "VEVENT";
    SplitPlain("BEGIN", "VEVENT");
    UpperIsFixed("BEGIN");
  }

  lemma EndEventIsRead(st: Scan, from: Instant, until: Instant)
    requires st.current.Some?
    ensures ScanLine(st, "END:VEVENT", from, until) == Scan(st.events + Expanded(st.current.value, from, until), None)
  {
    hide Expanded, Applied, SplitLine;
    assert "END:VEVENT" == "END" + ":" + "VEVENT";
    SplitPlain("END", "VEVENT");
    UpperIsFixed("END");
  }

  lemma ScanPair(st: Scan, a: string, b: string, from: Instant, until: Instant)
    ensures ScanLines(st, [a, b], from, until) == ScanLine(ScanLine(st, a, from, until), b, from, until)
  {
    hide ScanLine;
    assert [a, b][..1] == [a];
    ScanOne(st, a, from, until);
  }

  lemma ScanFour(st: Scan, a: string, b: string, c: string, d: string, from: Instant, until: Instant)
    ensures ScanLines(st, [a, b, c, d], from, until)
         == ScanLine(ScanLine(ScanLine(ScanLine(st, a, from, until), b, from, until), c, from, until), d, from, until)
  {
    hide ScanLine, ScanLines;
    assert [a, b, c, d] == [a, b] + [c, d];
    ScanConcat(st, [a, b], [c, d], from, until);
    ScanPair(st, a, b, from, until);
    ScanPair(ScanLines(st, [a, b], from, until), c, d, from, until);
  }

  lemma StampIsSkipped(evs: seq<Event>, d: Draft, v: string, from: Instant, until: Instant)
    ensures ScanLine(Scan(evs, Some(d)), "DTSTAMP:" + v, from, until) == Scan(evs, Some(d))
  {
    hide ScanLine;
    assert "DTSTAMP:" + v == "DTSTAMP" + ":" + v;
    ScanProperty(evs, d, "DTSTAMP", v, from, until);
  }

  lemma FirstLinesAreRead(evs: seq<Event>, e: Event, stamp: Instant, from: Instant, until: Instant)
    requires FourDigitYear(DayOf(e.start))
    ensures ScanLines(Scan(evs, None),
              ["BEGIN:VEVENT", "UID:" + EscapeText(e.uid), "DTSTAMP:" + FormatUTC(stamp), StartLine(e)], from, until)
         == Scan(evs, Some(StartedDraft(e)))
  {
    hide EscapeText, FormatUTC, StartLine, ScanLine, FourDigitYear, NormalizeNewlines, Applied, ScanLines;
    ScanFour(Scan(evs, None), "BEGIN:VEVENT", "UID:" + EscapeText(e.uid), "DTSTAMP:" + FormatUTC(stamp), StartLine(e),
      from, until);
    BeginIsRead(Scan(evs, None), from, until);
    UidIsRead(EMPTY_DRAFT, e);
    StartPlain(EscapeText(e.uid));
    ScanProperty(evs, EMPTY_DRAFT, "UID", EscapeText(e.uid), from, until);
    var d := EMPTY_DRAFT.(ev := NO_EVENT.(uid := Normalized(e).uid));
    StampIsSkipped(evs, d, FormatUTC(stamp), from, until);
    StartIsRead(evs, d, e, from, until);
  }

  lemma ScanNine(st: Scan, a: seq<string>, b: seq<string>, c: seq<string>, d: seq<string>, e: seq<string>,
                 f: seq<string>, g: seq<string>, h: seq<string>, i: seq<string>, from: Instant, until: Instant)
    ensures ScanLines(st, a + b + c + d + e + f + g + h + i, from, until)
         == (var st1 := ScanLines(st, a, from, until);
             var st2 := ScanLines(st1, b, from, until);
             var st3 := ScanLines(st2, c, from, until);
             var st4 := ScanLines(st3, d, from, until);
             var st5 := ScanLines(st4, e, from, until);
             var st6 := ScanLines(st5, f, from, until);
             var st7 := ScanLines(st6, g, from, until);
             var st8 := ScanLines(st7, h, from, until);
             ScanLines(st8, i, from, until))
  {
    hide ScanLines;
    ScanConcat(st, a + b + c + d + e + f + g + h, i, from, until);
    ScanConcat(st, a + b + c + d + e + f + g, h, from, until);
    ScanConcat(st, a + b + c + d + e + f, g, from, until);
    ScanConcat(st, a + b + c + d + e, f, from, until);
    ScanConcat(st, a + b + c + d, e, from, until);
    ScanConcat(st, a + b + c, d, from, until);
    ScanConcat(st, a + b, c, from, until);
    ScanConcat(st, a, b, from, until);
  }

  lemma FinishedIsExpanded(e: Event, from: Instant, until: Instant)
    ensures Expanded(FinishedDraft(e), from, until)
         == if Importable(AsRead(e), from, until) then [AsRead(e)] else []
  {
    hide AsRead;
  }

  /** The lines of one event add that event, if it has a UID and starts inside the window. */
  lemma EventIsRead(evs: seq<Event>, e: Event, stamp: Instant, from: Instant, until: Instant)
    requires Printable(e)
    ensures ScanLines(Scan(evs, None), ReadEventLines(e, stamp), from, until)
         == Scan(evs + if Importable(AsRead(e), from, until) then [AsRead(e)] else [], None)
  {
    hide EscapeText, FormatUTC, StartLine, EndLine, Optional, ModifiedLine, StatusLine, ScanLine, ScanLines,
      FourDigitYear, AsRead, FinishedDraft, Expanded, StartedDraft, TimedDraft, TextDraft, ReadUrlLines;
    ScanNine(Scan(evs, None),
      ["BEGIN:VEVENT", "UID:" + EscapeText(e.uid), "DTSTAMP:" + FormatUTC(stamp), StartLine(e)], EndLine(e),
      Optional("SUMMARY", EscapeText(e.summary)), Optional("DESCRIPTION", EscapeText(e.description)),
      Optional("LOCATION", EscapeText(e.location)), ReadUrlLines(e.url),
      ModifiedLine(e), StatusLine(e), ["END:VEVENT"], from, until);
    FirstLinesAreRead(evs, e, stamp, from, until);
    EndIsRead(evs, e, from, until);
    TextsAreRead(evs, e, from, until);
    FlagsAreRead(evs, e, from, until);
    var last := Scan(evs, Some(FinishedDraft(e)));
    ScanOne(last, "END:VEVENT", from, until);
    EndEventIsRead(last, from, until);
    FinishedIsExpanded(e, from, until);
  }

  lemma {:induction false} AllEventsAreRead(events: seq<Event>, stamp: Instant, from: Instant, until: Instant)
    requires forall i :: 0 <= i < |events| ==> Printable(events[i])
    ensures ScanLines(Scan([], None), AllReadEventLines(events, stamp), from, until)
         == Scan(ReadEvents(events, from, until), None)
  {
    hide ReadEventLines, ScanLine, Printable, Importable, AsRead;
    if events == [] {
    } else {
      var front, e := events[..|events| - 1], events[|events| - 1];
      AllEventsAreRead(front, stamp, from, until);
      ScanConcat(Scan([], None), AllReadEventLines(front, stamp), ReadEventLines(e, stamp), from, until);
      EventIsRead(ReadEvents(front, from, until), e, stamp, from, until);
    }
  }

  // ----- the lines around the events -----

  lemma OutsideIsSkipped(name: string, rest: string, from: Instant, until: Instant)
    requires PropertyName(name)
    requires rest != "" && (rest[0] == ':' || (rest[0] == ';' && ParamThenValue(rest)))
    ensures ScanLine(Scan([], None), name + rest, from, until) == Scan([], None)
  {
    hide SplitLine, ToUpper;
    NameIsPlain(name);
    if rest[0] == ':' {
      SplitPlain(name, rest[1..]);
      assert name + rest == name + ":" + rest[1..];
    } else {
      var k := IndexFrom(rest, ':', 0);
      SplitWithParam(name, rest[..k], rest[k + 1..]);
      assert name + rest == name + rest[..k] + ":" + rest[k + 1..];
    }
  }

  predicate ParamThenValue(rest: string) {
    '"' !in rest && IndexFrom(rest, ':', 0) < |rest|
  }

  lemma CalendarStartIsSkipped(st: Scan, from: Instant, until: Instant)
    ensures ScanLine(st, "BEGIN:VCALENDAR", from, until) == st
  {
    hide Expanded, Applied, SplitLine;
    assert "BEGIN:VCALENDAR" == "BEGIN" + ":" + "VCALENDAR";
    SplitPlain("BEGIN", "VCALENDAR");
    UpperIsFixed("BEGIN");
    assert |ToUpper("VCALENDAR")| != |ToUpper("VEVENT")|;
  }

  lemma CalendarEndIsSkipped(st: Scan, from: Instant, until: Instant)
    ensures ScanLine(st, "END:VCALENDAR", from, until) == st
  {
    hide Expanded, Applied, SplitLine;
    assert "END:VCALENDAR" == "END" + ":" + "VCALENDAR";
    SplitPlain("END", "VCALENDAR");
    UpperIsFixed("END");
    assert |ToUpper("VCALENDAR")| != |ToUpper("VEVENT")|;
  }

  lemma FixedLinesAreSkipped(from: Instant, until: Instant)
    ensures ScanLine(Scan([], None), "VERSION:2.0", from, until) == Scan([], None)
    ensures ScanLine(Scan([], None), "PRODID:" + PRODUCT, from, until) == Scan([], None)
    ensures ScanLine(Scan([], None), "CALSCALE:GREGORIAN", from, until) == Scan([], None)
    ensures ScanLine(Scan([], None), "METHOD:PUBLISH", from, until) == Scan([], None)
  {
    hide ScanLine;
    assert "VERSION:2.0" == "VERSION" + ":2.0";
    OutsideIsSkipped("VERSION", ":2.0", from, until);
    assert "PRODID:" + PRODUCT == "PRODID" + (":" + PRODUCT);
    OutsideIsSkipped("PRODID", ":" + PRODUCT, from, until);
    assert "CALSCALE:GREGORIAN" == "CALSCALE" + ":GREGORIAN";
    OutsideIsSkipped("CALSCALE", ":GREGORIAN", from, until);
    assert "METHOD:PUBLISH" == "METHOD" + ":PUBLISH";
    OutsideIsSkipped("METHOD", ":PUBLISH", from, until);
  }

  lemma RefreshIsSkipped(from: Instant, until: Instant)
    ensures ScanLine(Scan([], None), "REFRESH-INTERVAL;VALUE=DURATION:PT4H", from, until) == Scan([], None)
  {
    hide ScanLine;
    RefreshText();
    OutsideIsSkipped("REFRESH-INTERVAL", ";VALUE=DURATION:PT4H", from, until);
  }

  lemma RefreshText()
    ensures "REFRESH-INTERVAL;VALUE=DURATION:PT4H" == "REFRESH-INTERVAL" + ";VALUE=DURATION:PT4H"
    ensures ParamThenValue(";VALUE=DURATION:PT4H") && PropertyName("REFRESH-INTERVAL")
  {
    assert ";VALUE=DURATION:PT4H"[15] == ':';
  }

  lemma TimeToLiveIsSkipped(from: Instant, until: Instant)
    ensures ScanLine(Scan([], None), "X-PUBLISHED-TTL:PT4H", from, until) == Scan([], None)
  {
    hide ScanLine;
    assert "X-PUBLISHED-TTL:PT4H" == "X-PUBLISHED-TTL" + ":PT4H";
    OutsideIsSkipped("X-PUBLISHED-TTL", ":PT4H", from, until);
  }

  lemma NameLineIsSkipped(text: string, from: Instant, until: Instant)
    ensures ScanLines(Scan([], None), Optional("X-WR-CALNAME", text), from, until) == Scan([], None)
  {
    hide ScanLine;
    if text != "" {
      var line := "X-WR-CALNAME" + ":" + text;
      assert line == "X-WR-CALNAME" + (":" + text);
      ScanOne(Scan([], None), line, from, until);
      OutsideIsSkipped("X-WR-CALNAME", ":" + text, from, until);
    }
  }

  lemma HeaderIsSkipped(calName: string, from: Instant, until: Instant)
    ensures ScanLines(Scan([], None), HeaderLines(calName), from, until) == Scan([], None)
  {
    hide ScanLine, ScanLines, EscapeText, Optional;
    var st := Scan([], None);
    var name := Optional("X-WR-CALNAME", EscapeText(calName));
    var four := ["VERSION:2.0", "PRODID:" + PRODUCT, "CALSCALE:GREGORIAN", "METHOD:PUBLISH"];
    var hints := ["REFRESH-INTERVAL;VALUE=DURATION:PT4H", "X-PUBLISHED-TTL:PT4H"];
    assert HeaderLines(calName) == ["BEGIN:VCALENDAR"] + four + name + hints;
    ScanConcat(st, ["BEGIN:VCALENDAR"] + four + name, hints, from, until);
    ScanConcat(st, ["BEGIN:VCALENDAR"] + four, name, from, until);
    ScanConcat(st, ["BEGIN:VCALENDAR"], four, from, until);
    ScanOne(st, "BEGIN:VCALENDAR", from, until);
    CalendarStartIsSkipped(st, from, until);
    ScanFour(st, "VERSION:2.0", "PRODID:" + PRODUCT, "CALSCALE:GREGORIAN", "METHOD:PUBLISH", from, until);
    FixedLinesAreSkipped(from, until);
    NameLineIsSkipped(EscapeText(calName), from, until);
    ScanPair(st, "REFRESH-INTERVAL;VALUE=DURATION:PT4H", "X-PUBLISHED-TTL:PT4H", from, until);
    RefreshIsSkipped(from, until);
    TimeToLiveIsSkipped(from, until);
  }

  lemma DocumentIsACalendar(calName: string, events: seq<Event>, stamp: Instant)
    ensures ContainsStart(ReadDocumentLines(calName, events, stamp))
  {
    hide AllReadEventLines, Optional, EscapeText;
    var lines := ReadDocumentLines(calName, events, stamp);
    assert lines[0] == "BEGIN:VCALENDAR";
    TrimSpaceOfTight("BEGIN:VCALENDAR");
    assert IsCalendarStart(lines[0]);
  }

  /** Parsing a rendered feed returns its events that start in the window, in order, each URL less the CRs it lost. */
  lemma ParseReadsBack(calName: string, events: seq<Event>, stamp: Instant, from: Instant, until: Instant)
    requires forall i :: 0 <= i < |events| ==> Printable(events[i]) && '\n' !in events[i].url
    requires |Rendered(calName, events, stamp)| <= MAX_FEED_BYTES
    ensures Parsed(Rendered(calName, events, stamp), from, until) == Ok(ReadEvents(events, from, until))
  {
    hide Rendered, Unfolded, HeaderLines, AllReadEventLines, ContainsStart, ScanLine, ScanLines, ReadEvents, Printable, UrlKept,
      DocumentLines;
    DocumentUnfolds(calName, events, stamp);
    DocumentIsACalendar(calName, events, stamp);
    var st := Scan([], None);
    var header, body := HeaderLines(calName), AllReadEventLines(events, stamp);
    ScanConcat(st, header + body, ["END:VCALENDAR"], from, until);
    ScanConcat(st, header, body, from, until);
    HeaderIsSkipped(calName, from, until);
    AllEventsAreRead(events, stamp, from, until);
    var last := Scan(ReadEvents(events, from, until), None);
    ScanOne(last, "END:VCALENDAR", from, until);
    CalendarEndIsSkipped(last, from, until);
  }

  /** What is read is what was written exactly when the URL of every event in the window survives. */
  lemma {:induction false} ReadEventsIff(events: seq<Event>, from: Instant, until: Instant)
    requires forall i :: 0 <= i < |events| ==> '\n' !in events[i].url
    ensures |ReadEvents(events, from, until)| == |Imported(events, from, until)|
    ensures ReadEvents(events, from, until) == Imported(events, from, until)
       <==> forall i :: 0 <= i < |events| && Importable(Normalized(events[i]), from, until) ==> UrlKept(events[i].url)
  {
    hide Normalized, AsRead, UrlKept;
    if events != [] {
      var n := |events| - 1;
      ReadEventsIff(events[..n], from, until);
      ReadEventIff(events[n], from, until);
      SameEventsConcat(ReadEvents(events[..n], from, until), ReadEvent(events[n], from, until),
                       Imported(events[..n], from, until), ImportedEvent(events[n], from, until));
    }
  }

  function ReadEvent(e: Event, from: Instant, until: Instant): seq<Event> {
    if Importable(AsRead(e), from, until) then [AsRead(e)] else []
  }

  function ImportedEvent(e: Event, from: Instant, until: Instant): seq<Event> {
    if Importable(Normalized(e), from, until) then [Normalized(e)] else []
  }

  lemma ReadEventIff(e: Event, from: Instant, until: Instant)
    requires '\n' !in e.url
    ensures |ReadEvent(e, from, until)| == |ImportedEvent(e, from, until)|
    ensures ReadEvent(e, from, until) == ImportedEvent(e, from, until)
       <==> (Importable(Normalized(e), from, until) ==> UrlKept(e.url))
  {
    hide Normalized, ReadUrl, PiecesKept;
    ReadUrlIff(e.url);
    NormalizedUrl(e);
  }

  lemma NormalizedUrl(e: Event)
    ensures Normalized(e).url == e.url
  {
    hide NormalizeNewlines;
  }

  lemma SameEventsConcat(a: seq<Event>, b: seq<Event>, c: seq<Event>, d: seq<Event>)
    requires |a| == |c|
    ensures a + b == c + d <==> a == c && b == d
  {
    assert (a + b)[..|a|] == a && (c + d)[..|c|] == c;
    assert (a + b)[|a|..] == b && (c + d)[|c|..] == d;
  }

  /** Parsing a rendered feed returns exactly the feed's events that start in the window, in order. */
  lemma ParseUndoesRender(calName: string, events: seq<Event>, stamp: Instant, from: Instant, until: Instant)
    requires forall i :: 0 <= i < |events| ==> Printable(events[i]) && UrlKept(events[i].url)
    requires |Rendered(calName, events, stamp)| <= MAX_FEED_BYTES
    ensures Parsed(Rendered(calName, events, stamp), from, until) == Ok(Imported(events, from, until))
  {
    hide Rendered, Parsed, ReadEvents, Imported, Printable, PiecesKept, Normalized;
    ParseReadsBack(calName, events, stamp, from, until);
    ReadEventsIff(events, from, until);
  }

  /** Events that need no normalising and lie in the window come back unchanged. */
  lemma {:induction false} PlainEventsSurvive(events: seq<Event>, from: Instant, until: Instant)
    requires forall i :: 0 <= i < |events| ==> Normalized(events[i]) == events[i] && Importable(events[i], from, until)
    ensures Imported(events, from, until) == events
  {
    hide Normalized, Importable;
    if events != [] {
      PlainEventsSurvive(events[..|events| - 1], from, until);
    }
  }

  /** Text without CR, and whole days if all-day, is all it takes for an event to be its own normal form. */
  lemma PlainIsNormal(e: Event)
    requires '\r' !in e.uid && '\r' !in e.summary && '\r' !in e.description && '\r' !in e.location
    requires e.allDay ==> SecondOfDay(e.start) == 0 && SecondOfDay(e.end) == 0
    ensures Normalized(e) == e
  {
    NormalizeWithoutCR(e.uid);
    NormalizeWithoutCR(e.summary);
    NormalizeWithoutCR(e.description);
    NormalizeWithoutCR(e.location);
    SplitInstant(e.start);
    SplitInstant(e.end);
  }
}
