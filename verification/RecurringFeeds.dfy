/**
 A recurring event in somebody else's feed, from its lines to the events it yields: the rule as it is written, and every
 date its EXDATE lines take out.
 */
module RecurringFeeds {
  import opened Prelude
  import opened Text
  import opened CivilTime
  import opened TimeFormat
  import opened Escaping
  import opened Folding
  import opened Properties
  import opened Recurrence
  import opened RuleText
  import opened ICalendar
  import opened FeedReader
  import opened FeedRoundTrip

  // ----- EXDATE -----

  function Stamps(times: seq<Instant>): (texts: seq<string>)
    ensures |texts| == |times|
  {
    seq(|times|, i requires 0 <= i < |times| => FormatUTC(times[i]))
  }

  function Members(times: seq<Instant>): set<Instant> {
    set t | t in times
  }

  lemma StampIsTight(t: Instant)
    requires FourDigitYear(DayOf(t))
    ensures TrimSpace(FormatUTC(t)) == FormatUTC(t)
  {
    hide FormatDate, FormatClock, TrimSpace, FourDigitYear;
    DatePieces(DayOf(t));
    ClockPieces(SecondOfDay(t));
    StampText(FormatDate(DayOf(t)), FormatClock(SecondOfDay(t)));
  }

  lemma {:induction false} StampsAreExcepted(known: set<Instant>, times: seq<Instant>)
    requires forall i :: 0 <= i < |times| ==> FourDigitYear(DayOf(times[i]))
    ensures WithExceptions(known, Stamps(times)) == known + Members(times)
    decreases |times|
  {
    hide FormatUTC, ParseTime, TrimSpace, FourDigitYear;
    if times == [] {
      assert Members(times) == {};
    } else {
      var n := |times| - 1;
      StampsAreExcepted(known, times[..n]);
      assert Stamps(times)[..n] == Stamps(times[..n]);
      StampIsTight(times[n]);
      ParseFormatUTC(times[n]);
      assert times == times[..n] + [times[n]];
      assert Members(times) == Members(times[..n]) + {times[n]};
    }
  }

  lemma NoException(known: set<Instant>)
    ensures WithExceptions(known, [""]) == known
  {
    assert [""][..0] == [];
  }

  /** One EXDATE line adds exactly the dates it lists. */
  lemma ExdateAdds(d: Draft, times: seq<Instant>)
    requires forall i :: 0 <= i < |times| ==> FourDigitYear(DayOf(times[i]))
    ensures Applied(d, "EXDATE", Join(Stamps(times), ',')) == d.(exdates := d.exdates + Members(times))
  {
    hide FormatUTC, ParseTime, TrimSpace, FourDigitYear, SplitOn, Join, WithExceptions;
    if times == [] {
      NoneJoined(',');
      assert Stamps(times) == [];
      NoException(d.exdates);
      assert Members(times) == {};
    } else {
      forall i | 0 <= i < |times|
        ensures ',' !in Stamps(times)[i]
      {
        StampIsPlain(times[i], ',');
      }
      SplitJoin(Stamps(times), ',');
      StampsAreExcepted(d.exdates, times);
    }
  }

  // ----- what is left of a series -----

  function Without(occs: seq<Instant>, gone: set<Instant>): seq<Instant> {
    if occs == [] then []
    else (if occs[0] in gone then [] else [occs[0]]) + Without(occs[1..], gone)
  }

  /** How far into the series the reader gets: past its cap it stops behind the first occurrence that is not excepted. */
  function CapAt(occs: seq<Instant>, gone: set<Instant>, i: nat): (n: nat)
    requires i <= |occs|
    ensures i <= n <= |occs|
    ensures n < |occs| ==> n > MAX_EXPANSION
    ensures n < |occs| ==> forall j :: i <= j < n - 1 && MAX_EXPANSION <= j ==> occs[j] in gone
    decreases |occs| - i
  {
    if i == |occs| then i
    else if occs[i] !in gone && i >= MAX_EXPANSION then i + 1
    else CapAt(occs, gone, i + 1)
  }

  function OccurrencesOf(ev: Event, occs: seq<Instant>): (events: seq<Event>)
    ensures |events| == |occs|
  {
    seq(|occs|, i requires 0 <= i < |occs| => OccurrenceOf(ev, occs[i]))
  }

  lemma {:induction false} ExpandedFromIs(d: Draft, occs: seq<Instant>, i: nat)
    requires i <= |occs|
    ensures ExpandedFrom(d, occs, i) == OccurrencesOf(d.ev, Without(occs[i..CapAt(occs, d.exdates, i)], d.exdates))
    decreases |occs| - i
  {
    hide OccurrenceOf;
    var n := CapAt(occs, d.exdates, i);
    if i == |occs| {
      assert occs[i..n] == [];
    } else {
      assert occs[i..n] != [] && occs[i..n][0] == occs[i] && occs[i..n][1..] == occs[i + 1..n];
      var rest := Without(occs[i + 1..n], d.exdates);
      if occs[i] in d.exdates {
        ExpandedFromIs(d, occs, i + 1);
        assert Without(occs[i..n], d.exdates) == rest;
      } else if i >= MAX_EXPANSION {
        assert occs[i + 1..n] == [];
        assert Without(occs[i..n], d.exdates) == [occs[i]];
      } else {
        ExpandedFromIs(d, occs, i + 1);
        assert Without(occs[i..n], d.exdates) == [occs[i]] + rest;
        OccurrencesCons(d.ev, occs[i], rest);
      }
    }
  }

  lemma OccurrencesCons(ev: Event, occ: Instant, rest: seq<Instant>)
    ensures OccurrencesOf(ev, [occ] + rest) == [OccurrenceOf(ev, occ)] + OccurrencesOf(ev, rest)
  {
    hide OccurrenceOf;
  }

  lemma {:induction false} WithoutMembers(occs: seq<Instant>, gone: set<Instant>, t: Instant)
    ensures t in Without(occs, gone) <==> t in occs && t !in gone
  {
    if occs != [] {
      WithoutMembers(occs[1..], gone, t);
      assert occs == [occs[0]] + occs[1..];
    }
  }

  /**
   A recurring event expands, in order, into its occurrences in the window up to the cap except the excepted ones, each
   as long as the first and with the same texts.
   */
  lemma ExpandedAreTheRest(d: Draft, from: Instant, until: Instant)
    requires d.hasStart && d.ev.uid != "" && d.rrule != "" && RuleOf(d.rrule).freq != Unknown
    ensures var occs := Occurring(RuleOf(d.rrule), d.ev.start, from, until);
            var out, n := Expanded(d, from, until), CapAt(occs, d.exdates, 0);
            && out == OccurrencesOf(d.ev, Without(occs[..n], d.exdates))
            && forall i :: 0 <= i < |out| ==>
                 && out[i].start in occs && out[i].start !in d.exdates
                 && out[i].summary == d.ev.summary && out[i].description == d.ev.description
                 && out[i].location == d.ev.location && out[i].url == d.ev.url && out[i].allDay == d.ev.allDay
                 && (if d.ev.end == 0 then out[i].end == 0 else out[i].end - out[i].start == d.ev.end - d.ev.start)
  {
    hide Occurring, RuleOf, FormatUTC;
    var occs := Occurring(RuleOf(d.rrule), d.ev.start, from, until);
    var n := CapAt(occs, d.exdates, 0);
    ExpandedFromIs(d, occs, 0);
    assert occs[0..n] == occs[..n];
    var kept := Without(occs[..n], d.exdates);
    forall i | 0 <= i < |kept|
      ensures kept[i] in occs && kept[i] !in d.exdates
    {
      WithoutMembers(occs[..n], d.exdates, kept[i]);
    }
  }

  // ----- a recurring event in a feed -----

  /** The EXDATE lines of an event, one for each list of dates. */
  function ExdateLines(lists: seq<seq<Instant>>): (lines: seq<string>)
    ensures |lines| == |lists|
  {
    seq(|lists|, i requires 0 <= i < |lists| => "EXDATE" + ":" + Join(Stamps(lists[i]), ','))
  }

  function AllMembers(lists: seq<seq<Instant>>): set<Instant> {
    if lists == [] then {} else AllMembers(lists[..|lists| - 1]) + Members(lists[|lists| - 1])
  }

  function RecurringLines(uid: string, start: Instant, rule: string, lists: seq<seq<Instant>>): seq<string> {
    ["BEGIN:VEVENT", "UID" + ":" + EscapeText(uid), "DTSTART" + ":" + FormatUTC(start), "RRULE" + ":" + rule]
    + ExdateLines(lists) + ["END:VEVENT"]
  }

  /** Every date of every list has a year of four digits. */
  predicate AllPrintable(lists: seq<seq<Instant>>) {
    forall i, j :: 0 <= i < |lists| && 0 <= j < |lists[i]| ==> FourDigitYear(DayOf(lists[i][j]))
  }

  lemma {:induction false} ExdateLinesAreRead(evs: seq<Event>, d: Draft, lists: seq<seq<Instant>>, from: Instant, until: Instant)
    requires AllPrintable(lists)
    ensures ScanLines(Scan(evs, Some(d)), ExdateLines(lists), from, until)
         == Scan(evs, Some(d.(exdates := d.exdates + AllMembers(lists))))
    decreases |lists|
  {
    hide ScanLine, Join, Stamps, FourDigitYear, Members, Applied;
    if lists == [] {
      assert d.exdates + AllMembers(lists) == d.exdates;
    } else {
      var n := |lists| - 1;
      var front, last := lists[..n], lists[n];
      ExdateLinesAreRead(evs, d, front, from, until);
      assert ExdateLines(lists)[..n] == ExdateLines(front);
      var before := d.(exdates := d.exdates + AllMembers(front));
      ScanProperty(evs, before, "EXDATE", Join(Stamps(last), ','), from, until);
      ExdateAdds(before, last);
      assert (d.exdates + AllMembers(front)) + Members(last) == d.exdates + AllMembers(lists);
    }
  }

  function RecurringDraft(uid: string, start: Instant, rule: string): Draft {
    EMPTY_DRAFT.(ev := NO_EVENT.(uid := NormalizeNewlines(uid), start := start), rrule := rule, hasStart := true)
  }

  lemma RecurringHeadIsRead(evs: seq<Event>, uid: string, start: Instant, rule: string, from: Instant, until: Instant)
    requires FourDigitYear(DayOf(start))
    ensures ScanLines(Scan(evs, None),
              ["BEGIN:VEVENT", "UID" + ":" + EscapeText(uid), "DTSTART" + ":" + FormatUTC(start), "RRULE" + ":" + rule], from, until)
         == Scan(evs, Some(RecurringDraft(uid, start, rule)))
  {
    hide EscapeText, FormatUTC, ScanLine, ScanLines, FourDigitYear, NormalizeNewlines, ParseTime, Unescaped;
    ScanFour(Scan(evs, None), "BEGIN:VEVENT", "UID" + ":" + EscapeText(uid), "DTSTART" + ":" + FormatUTC(start),
      "RRULE" + ":" + rule, from, until);
    BeginIsRead(Scan(evs, None), from, until);
    UnescapeEscape(uid);
    ScanProperty(evs, EMPTY_DRAFT, "UID", EscapeText(uid), from, until);
    var named := EMPTY_DRAFT.(ev := NO_EVENT.(uid := NormalizeNewlines(uid)));
    ParseFormatUTC(start);
    ScanProperty(evs, named, "DTSTART", FormatUTC(start), from, until);
    var started := named.(ev := named.ev.(start := start), hasStart := true);
    ScanProperty(evs, started, "RRULE", rule, from, until);
  }

  /** The lines of a recurring event add what its draft expands to. */
  lemma RecurringLinesAreRead(evs: seq<Event>, uid: string, start: Instant, rule: string, lists: seq<seq<Instant>>,
                              from: Instant, until: Instant)
    requires FourDigitYear(DayOf(start)) && AllPrintable(lists)
    ensures ScanLines(Scan(evs, None), RecurringLines(uid, start, rule, lists), from, until)
         == Scan(evs + Expanded(RecurringDraft(uid, start, rule).(exdates := AllMembers(lists)), from, until), None)
  {
    hide EscapeText, FormatUTC, ScanLine, ScanLines, FourDigitYear, NormalizeNewlines, Expanded, ExdateLines, AllPrintable,
      AllMembers;
    var head := ["BEGIN:VEVENT", "UID" + ":" + EscapeText(uid), "DTSTART" + ":" + FormatUTC(start), "RRULE" + ":" + rule];
    var d := RecurringDraft(uid, start, rule);
    RecurringHeadIsRead(evs, uid, start, rule, from, until);
    ScanConcat(Scan(evs, None), head + ExdateLines(lists), ["END:VEVENT"], from, until);
    ScanConcat(Scan(evs, None), head, ExdateLines(lists), from, until);
    ExdateLinesAreRead(evs, d, lists, from, until);
    assert {} + AllMembers(lists) == AllMembers(lists);
    var last := Scan(evs, Some(d.(exdates := AllMembers(lists))));
    ScanOne(last, "END:VEVENT", from, until);
    EndEventIsRead(last, from, until);
  }

  /**
   A recurring event is read as its rule and its exceptions say, in whatever order the parts of the rule come: the
   occurrences of that rule in the window up to the cap, less every date that any EXDATE line names.
   */
  lemma RecurringEventIsRead(evs: seq<Event>, uid: string, start: Instant, r: Rule, parts: seq<Part>,
                             lists: seq<seq<Instant>>, from: Instant, until: Instant)
    requires uid != "" && FourDigitYear(DayOf(start)) && AllPrintable(lists)
    requires Writable(r) && Distinct(parts) && forall p: Part :: p in parts
    ensures var occs := Occurring(r, start, from, until);
            var st := ScanLines(Scan(evs, None), RecurringLines(uid, start, RuleTextOf(r, parts), lists), from, until);
            st == Scan(evs + OccurrencesOf(NO_EVENT.(uid := NormalizeNewlines(uid), start := start),
                                         Without(occs[..CapAt(occs, AllMembers(lists), 0)], AllMembers(lists))), None)
  {
    hide ScanLines, RecurringLines, FourDigitYear, NormalizeNewlines, Expanded, AllPrintable, AllMembers, Occurring, RuleOf,
      RuleTextOf, Chosen, OccurrencesOf, Without, CapAt;
    var text := RuleTextOf(r, parts);
    RuleIsRead(r, parts);
    assert text != "" by {
      if text == "" {
        EmptyTextIsNoRule();
      }
    }
    RecurringLinesAreRead(evs, uid, start, text, lists, from, until);
    NormalizeKeepsEmptiness(uid);
    ExpandedAreTheRest(RecurringDraft(uid, start, text).(exdates := AllMembers(lists)), from, until);
  }

  lemma EmptyTextIsNoRule()
    ensures RuleOf("").freq == Unknown
  {
    NoneJoined(';');
    NoPart();
  }

  // ----- what is dropped -----

  function LineName(line: string): string {
    ToUpper(SplitLine(line).name)
  }

  /** Property lines, none of them with the given name. */
  predicate Lacks(lines: seq<string>, name: string) {
    forall i :: 0 <= i < |lines| ==> LineName(lines[i]) !in {"BEGIN", "END", name}
  }

  lemma OtherProperties(d: Draft, name: string, value: string)
    ensures name != "DTSTART" ==> Applied(d, name, value).hasStart == d.hasStart
    ensures name != "UID" ==> Applied(d, name, value).ev.uid == d.ev.uid
  {
    hide Unescaped, ParseTime, WithExceptions, EqualFold, EndOf;
  }

  lemma {:induction false} LackingLinesAreRead(evs: seq<Event>, lines: seq<string>, from: Instant, until: Instant)
    requires Lacks(lines, "DTSTART") || Lacks(lines, "UID")
    ensures var st := ScanLines(Scan(evs, Some(EMPTY_DRAFT)), lines, from, until);
            && st.events == evs && st.current.Some?
            && (Lacks(lines, "DTSTART") ==> !st.current.value.hasStart)
            && (Lacks(lines, "UID") ==> st.current.value.ev.uid == "")
    decreases |lines|
  {
    hide Applied, SplitLine, Expanded, ToUpper;
    if lines != [] {
      var n := |lines| - 1;
      var front, last := lines[..n], lines[n];
      assert Lacks(lines, "DTSTART") ==> Lacks(front, "DTSTART");
      assert Lacks(lines, "UID") ==> Lacks(front, "UID");
      LackingLinesAreRead(evs, front, from, until);
      var st := ScanLines(Scan(evs, Some(EMPTY_DRAFT)), front, from, until);
      assert LineName(last) == LineName(lines[n]);
      OtherProperties(st.current.value, LineName(last), SplitLine(last).value);
    }
  }

  /** An event without a start or without a UID adds nothing, whatever else it says. */
  lemma IncompleteEventIsDropped(evs: seq<Event>, lines: seq<string>, from: Instant, until: Instant)
    requires Lacks(lines, "DTSTART") || Lacks(lines, "UID")
    ensures ScanLines(Scan(evs, None), ["BEGIN:VEVENT"] + lines + ["END:VEVENT"], from, until) == Scan(evs, None)
  {
    hide ScanLine, ScanLines, Lacks;
    ScanConcat(Scan(evs, None), ["BEGIN:VEVENT"] + lines, ["END:VEVENT"], from, until);
    ScanConcat(Scan(evs, None), ["BEGIN:VEVENT"], lines, from, until);
    ScanOne(Scan(evs, None), "BEGIN:VEVENT", from, until);
    BeginIsRead(Scan(evs, None), from, until);
    LackingLinesAreRead(evs, lines, from, until);
    var st := ScanLines(Scan(evs, Some(EMPTY_DRAFT)), lines, from, until);
    ScanOne(st, "END:VEVENT", from, until);
    EndEventIsRead(st, from, until);
    NothingExpanded(st.current.value, from, until);
    assert evs + [] == evs;
  }

  lemma NothingExpanded(d: Draft, from: Instant, until: Instant)
    requires !d.hasStart || d.ev.uid == ""
    ensures Expanded(d, from, until) == []
  {
  }

  /** A document is read at all exactly when one of its lines, blanks and case aside, begins a calendar. */
  lemma ReadIffCalendar(doc: string, from: Instant, until: Instant)
    requires Unfolded(doc).Ok?
    ensures Parsed(doc, from, until).Ok? <==>
            exists i :: 0 <= i < |Unfolded(doc).value| && ToUpper(TrimSpace(Unfolded(doc).value[i])) == "BEGIN:VCALENDAR"
  {
    hide Unfolded, TrimSpace, ScanLines;
    UpperIsFixed("BEGIN:VCALENDAR");
    var lines := Unfolded(doc).value;
    assert forall i :: 0 <= i < |lines| ==> (IsCalendarStart(lines[i]) <==> ToUpper(TrimSpace(lines[i])) == "BEGIN:VCALENDAR");
  }
}
