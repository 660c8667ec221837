/**
 Reading somebody else's iCalendar document: each VEVENT is gathered property by property and then
 expanded into the occurrences that fall inside a window.
 */
module FeedReader {
  import opened Prelude
  import opened Text
  import opened CivilTime
  import opened TimeFormat
  import opened Escaping
  import opened Folding
  import opened Properties
  import opened Recurrence
  import opened ICalendar

  // ----- one VEVENT -----

  /** What has been read of one VEVENT. */
  datatype Draft = Draft(ev: Event, rrule: string, exdates: set<Instant>, hasStart: bool)

  const EMPTY_DRAFT: Draft := Draft(NO_EVENT, "", {}, false)

  /** The exception dates one EXDATE line names, added to those already known. */
  function WithExceptions(known: set<Instant>, parts: seq<string>): set<Instant> {
    if parts == [] then known
    else
      var front := WithExceptions(known, parts[..|parts| - 1]);
      match ParseTime(TrimSpace(parts[|parts| - 1]))
      case Some(t) => front + {t.at}
      case None => front
  }

  /** The last day of an all-day event is the day before its DTEND. */
  function EndOf(t: ParsedTime): Instant {
    if t.allDay then AddDate(t.at, 0, 0, -1) else t.at
  }

  /** The draft after one more property, given by its upper-case name and its value. */
  function Applied(d: Draft, name: string, value: string): Draft {
    if name == "UID" then d.(ev := d.ev.(uid := Unescaped(value)))
    else if name == "SUMMARY" then d.(ev := d.ev.(summary := Unescaped(value)))
    else if name == "DESCRIPTION" then d.(ev := d.ev.(description := Unescaped(value)))
    else if name == "LOCATION" then d.(ev := d.ev.(location := Unescaped(value)))
    else if name == "URL" then d.(ev := d.ev.(url := value))
    else if name == "STATUS" then d.(ev := d.ev.(cancelled := EqualFold(value, "CANCELLED")))
    else if name == "RRULE" then d.(rrule := value)
    else if name == "DTSTART" then
      match ParseTime(value)
      case Some(t) => d.(ev := d.ev.(start := t.at, allDay := t.allDay), hasStart := true)
      case None => d
    else if name == "DTEND" then
      match ParseTime(value) case Some(t) => d.(ev := d.ev.(end := EndOf(t))) case None => d
    else if name == "LAST-MODIFIED" then
      match ParseTime(value) case Some(t) => d.(ev := d.ev.(lastModified := t.at)) case None => d
    else if name == "EXDATE" then d.(exdates := WithExceptions(d.exdates, SplitOn(value, ',')))
    else d
  }

  /** One occurrence of a recurring event, with an identity of its own. */
  function OccurrenceOf(ev: Event, occ: Instant): Event {
    ev.(start := occ,
        end := if ev.end != 0 then occ + (ev.end - ev.start) else ev.end,
        uid := ev.uid + ("-" + FormatUTC(occ)))
  }

  /** The occurrences from position i on that are not excepted, until the cap is passed. */
  function ExpandedFrom(d: Draft, occs: seq<Instant>, i: nat): seq<Event>
    requires i <= |occs|
    decreases |occs| - i
  {
    if i == |occs| then []
    else if occs[i] in d.exdates then ExpandedFrom(d, occs, i + 1)
    else [OccurrenceOf(d.ev, occs[i])] + (if i >= MAX_EXPANSION then [] else ExpandedFrom(d, occs, i + 1))
  }

  function Expanded(d: Draft, from: Instant, until: Instant): seq<Event> {
    if !d.hasStart || d.ev.uid == "" then []
    else if d.rrule == "" then
      if d.ev.start < from || d.ev.start > until then [] else [d.ev]
    else
      var rule := RuleOf(d.rrule);
      if rule.freq == Unknown then [d.ev]
      else ExpandedFrom(d, Occurring(rule, d.ev.start, from, until), 0)
  }

  class ParsedEvent {
    var ev: Event
    var rrule: string
    var exdates: set<Instant>
    var hasStart: bool

    function State(): Draft
      reads this
    {
      Draft(ev, rrule, exdates, hasStart)
    }

    constructor ()
      ensures State() == EMPTY_DRAFT
    {
      ev, rrule, exdates, hasStart := NO_EVENT, "", {}, false;
    }

    method Set(name: string, value: string)
      modifies this
      ensures State() == Applied(old(State()), name, value)
    {
      hide ParseTime, Unescaped, CivilTime.AddDate, WithExceptions;
      if name == "UID" {
        var t := UnescapeText(value);
        ev := ev.(uid := t);
      } else if name == "SUMMARY" {
        var t := UnescapeText(value);
        ev := ev.(summary := t);
      } else if name == "DESCRIPTION" {
        var t := UnescapeText(value);
        ev := ev.(description := t);
      } else if name == "LOCATION" {
        var t := UnescapeText(value);
        ev := ev.(location := t);
      } else if name == "URL" {
        ev := ev.(url := value);
      } else if name == "STATUS" {
        ev := ev.(cancelled := EqualFold(value, "CANCELLED"));
      } else if name == "RRULE" {
        rrule := value;
      } else if name == "DTSTART" {
        var parsed := ParseTime(value);
        if parsed.Some? {
          ev := ev.(start := parsed.value.at, allDay := parsed.value.allDay);
          hasStart := true;
        }
      } else if name == "DTEND" {
        var parsed := ParseTime(value);
        if parsed.Some? {
          var t := parsed.value.at;
          if parsed.value.allDay {
            t := AddDate(t, 0, 0, -1);
          }
          ev := ev.(end := t);
        }
      } else if name == "LAST-MODIFIED" {
        var parsed := ParseTime(value);
        if parsed.Some? {
          ev := ev.(lastModified := parsed.value.at);
        }
      } else if name == "EXDATE" {
        AddExceptions(SplitOn(value, ','));
      }
    }

    method AddExceptions(parts: seq<string>)
      modifies this`exdates
      ensures exdates == WithExceptions(old(exdates), parts)
    {
      hide ParseTime;
      for i := 0 to |parts|
        invariant exdates == WithExceptions(old(exdates), parts[..i])
      {
        assert parts[..i + 1][..i] == parts[..i];
        var parsed := ParseTime(TrimSpace(parts[i]));
        if parsed.Some? {
          exdates := exdates + {parsed.value.at};
        }
      }
      assert parts[..|parts|] == parts;
    }

    method Expand(from: Instant, until: Instant) returns (out: seq<Event>)
      ensures out == Expanded(State(), from, until)
    {
      hide FormatUTC, RuleOf, Occurring;
      if !hasStart || ev.uid == "" {
        return [];
      }
      if rrule == "" {
        if ev.start < from || ev.start > until {
          return [];
        }
        return [ev];
      }
      var rule := ParseRRule(rrule);
      if rule.freq == Unknown {
        return [ev];
      }
      var duration := 0;
      if ev.end != 0 {
        duration := ev.end - ev.start;
      }
      var occs := Occurrences(rule, ev.start, from, until);
      out := [];
      var i := 0;
      while i < |occs|
        invariant 0 <= i <= |occs|
        invariant out + ExpandedFrom(State(), occs, i) == ExpandedFrom(State(), occs, 0)
      {
        var occ := occs[i];
        i := i + 1;
        if occ in exdates {
          continue;
        }
        var e := ev.(start := occ);
        if ev.end != 0 {
          e := e.(end := occ + duration);
        }
        e := e.(uid := ev.uid + ("-" + FormatUTC(occ)));
        Grouped(out, [e], if i - 1 >= MAX_EXPANSION then [] else ExpandedFrom(State(), occs, i));
        out := out + [e];
        if i - 1 >= MAX_EXPANSION {
          break;
        }
      }
    }
  }

  // ----- the whole document -----

  /** The events read so far, and the VEVENT being gathered. */
  datatype Scan = Scan(events: seq<Event>, current: Option<Draft>)

  function ScanLine(st: Scan, raw: string, from: Instant, until: Instant): Scan {
    var p := SplitLine(raw);
    var name := ToUpper(p.name);
    if name == "BEGIN" then
      if EqualFold(p.value, "VEVENT") then st.(current := Some(EMPTY_DRAFT)) else st
    else if name == "END" then
      if EqualFold(p.value, "VEVENT") && st.current.Some?
      then Scan(st.events + Expanded(st.current.value, from, until), None) else st
    else
      match st.current
      case None => st
      case Some(d) => st.(current := Some(Applied(d, name, p.value)))
  }

  function ScanLines(st: Scan, lines: seq<string>, from: Instant, until: Instant): Scan {
    if lines == [] then st
    else ScanLine(ScanLines(st, lines[..|lines| - 1], from, until), lines[|lines| - 1], from, until)
  }

  predicate IsCalendarStart(line: string) {
    EqualFold(TrimSpace(line), "BEGIN:VCALENDAR")
  }

  predicate ContainsStart(lines: seq<string>) {
    exists i :: 0 <= i < |lines| && IsCalendarStart(lines[i])
  }

  function Parsed(doc: string, from: Instant, until: Instant): Result<seq<Event>, FeedError> {
    match Unfolded(doc)
    case Err(e) => Err(e)
    case Ok(lines) =>
      if !ContainsStart(lines) then Err(NotCalendar)
      else Ok(ScanLines(Scan([], None), lines, from, until).events)
  }

  method ContainsCalendarStart(lines: seq<string>) returns (found: bool)
    ensures found == ContainsStart(lines)
  {
    hide IsCalendarStart;
    for i := 0 to |lines|
      invariant forall j :: 0 <= j < i ==> !IsCalendarStart(lines[j])
    {
      if IsCalendarStart(lines[i]) {
        return true;
      }
    }
    return false;
  }

  function DraftOf(current: ParsedEvent?): Option<Draft>
    reads current
  {
    if current == null then None else Some(current.State())
  }

  method Parse(doc: string, from: Instant, until: Instant) returns (r: Result<seq<Event>, FeedError>)
    ensures r == Parsed(doc, from, until)
  {
    hide Unfolded, ContainsStart, SplitLine, ToUpper, EqualFold, Applied, Expanded;
    var unfolded := Unfold(doc);
    if unfolded.Err? {
      return Err(unfolded.error);
    }
    var lines := unfolded.value;
    var isCalendar := ContainsCalendarStart(lines);
    if !isCalendar {
      return Err(NotCalendar);
    }
    var events: seq<Event> := [];
    var current: ParsedEvent? := null;
    for i := 0 to |lines|
      invariant current == null || fresh(current)
      invariant Scan(events, DraftOf(current)) == ScanLines(Scan([], None), lines[..i], from, until)
    {
      assert lines[..i + 1][..i] == lines[..i];
      var p := SplitProperty(lines[i]);
      var name := ToUpper(p.name);
      if name == "BEGIN" {
        if EqualFold(p.value, "VEVENT") {
          current := new ParsedEvent();
        }
      } else if name == "END" {
        if EqualFold(p.value, "VEVENT") && current != null {
          var more := current.Expand(from, until);
          events := events + more;
          current := null;
        }
      } else if current != null {
        current.Set(name, p.value);
      }
    }
    assert lines[..|lines|] == lines;
    r := Ok(events);
  }

  // ----- what expansion promises -----

  /** However long the series, one VEVENT adds at most 501 events. */
  lemma {:induction false} ExpansionIsCapped(d: Draft, occs: seq<Instant>, i: nat)
    requires i <= |occs|
    ensures |ExpandedFrom(d, occs, i)| <= if i <= MAX_EXPANSION then MAX_EXPANSION + 1 - i else 1
    decreases |occs| - i
  {
    hide OccurrenceOf;
    if i < |occs| {
      ExpansionIsCapped(d, occs, i + 1);
    }
  }

  lemma ExpandIsCapped(d: Draft, from: Instant, until: Instant)
    ensures |Expanded(d, from, until)| <= MAX_EXPANSION + 1
  {
    hide Occurring, RuleOf;
    if d.hasStart && d.rrule != "" {
      ExpansionIsCapped(d, Occurring(RuleOf(d.rrule), d.ev.start, from, until), 0);
    }
  }

  /** Every expanded event is one of the occurrences, not excepted, and carries its instant in its UID. */
  lemma {:induction false} ExpandedAre(d: Draft, occs: seq<Instant>, i: nat)
    requires i <= |occs|
    ensures forall k :: 0 <= k < |ExpandedFrom(d, occs, i)| ==>
              var e := ExpandedFrom(d, occs, i)[k];
              e == OccurrenceOf(d.ev, e.start) && e.start in occs[i..] && e.start !in d.exdates
    decreases |occs| - i
  {
    hide OccurrenceOf;
    if i < |occs| {
      ExpandedAre(d, occs, i + 1);
      assert occs[i..] == [occs[i]] + occs[i + 1..];
      assert OccurrenceOf(d.ev, occs[i]).start == occs[i] by { OccurrenceStarts(d.ev, occs[i]); }
    }
  }

  lemma OccurrenceStarts(ev: Event, occ: Instant)
    ensures OccurrenceOf(ev, occ).start == occ
  {
  }

  lemma SameUidSameInstant(ev: Event, x: Instant, y: Instant)
    requires OccurrenceOf(ev, x).uid == OccurrenceOf(ev, y).uid
    ensures x == y
  {
    hide FormatUTC;
    var a, b := FormatUTC(x), FormatUTC(y);
    assert (ev.uid + ("-" + a))[|ev.uid| + 1..] == a;
    assert (ev.uid + ("-" + b))[|ev.uid| + 1..] == b;
    FormatUTCIsInjective(x, y);
  }

  lemma {:induction false} ExpandedUidsDiffer(d: Draft, occs: seq<Instant>, i: nat)
    requires i <= |occs| && NoRepeats(occs)
    ensures forall j, k :: 0 <= j < k < |ExpandedFrom(d, occs, i)| ==>
              ExpandedFrom(d, occs, i)[j].uid != ExpandedFrom(d, occs, i)[k].uid
    decreases |occs| - i
  {
    hide OccurrenceOf;
    if i < |occs| {
      ExpandedUidsDiffer(d, occs, i + 1);
      ExpandedAre(d, occs, i + 1);
      var rest := ExpandedFrom(d, occs, i + 1);
      forall k | 0 <= k < |rest|
        ensures OccurrenceOf(d.ev, occs[i]).uid != rest[k].uid
      {
        assert rest[k].start in occs[i + 1..];
        if OccurrenceOf(d.ev, occs[i]).uid == rest[k].uid {
          SameUidSameInstant(d.ev, occs[i], rest[k].start);
        }
      }
    }
  }

  /**
   A recurring event, unless its rule is weekly and names a day twice, expands into events with different UIDs, so
   an importer that matches on the UID never collapses two dates into one.
   */
  lemma ExpansionHasDistinctUids(d: Draft, from: Instant, until: Instant)
    requires NamesDays(RuleOf(d.rrule)) ==> NoRepeats(RuleOf(d.rrule).byDay)
    ensures var out := Expanded(d, from, until);
            forall j, k :: 0 <= j < k < |out| ==> out[j].uid != out[k].uid
  {
    hide Occurring, RuleOf;
    if d.hasStart && d.rrule != "" {
      var rule := RuleOf(d.rrule);
      OccurrencesAreDistinct(rule, d.ev.start, from, until);
      ExpandedUidsDiffer(d, Occurring(rule, d.ev.start, from, until), 0);
    }
  }

  lemma {:induction false} NothingExcepted(d: Draft, occs: seq<Instant>, i: nat)
    requires d.exdates == {} && i <= |occs| == MAX_EXPANSION + 1
    ensures |ExpandedFrom(d, occs, i)| == MAX_EXPANSION + 1 - i
    decreases |occs| - i
  {
    hide OccurrenceOf;
    if i < |occs| {
      NothingExcepted(d, occs, i + 1);
    }
  }

  /** The cap is 501, not 500: an unlimited evenly spaced rule over a long window reaches it. */
  lemma CapIsReached(d: Draft, from: Instant, until: Instant)
    requires d.hasStart && d.ev.uid != "" && d.rrule != "" && d.exdates == {}
    requires var rule := RuleOf(d.rrule);
             EvenlySpaced(rule) && rule.freq != Unknown && rule.count == 0 && rule.until == 0
             && from <= d.ev.start && d.ev.start + MAX_EXPANSION * Period(rule) <= until
    ensures |Expanded(d, from, until)| == MAX_EXPANSION + 1
  {
    hide RuleOf, ExpandedFrom;
    var rule := RuleOf(d.rrule);
    EvenSeries(rule, d.ev.start, from, until);
    NothingExcepted(d, Occurring(rule, d.ev.start, from, until), 0);
  }
}
