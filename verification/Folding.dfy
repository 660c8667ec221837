/**
 Content lines, section 3.1 of RFC 5545: the writer's folding, the reader's unfolding, and the proof that
 unfolding gives back exactly the lines that were written.
 */
module Folding {
  import opened Prelude
  import opened Text

  const FOLD_AT: nat := 75

  /** How much of a feed is read at all. */
  const MAX_FEED_BYTES: nat := 5 * 1024 * 1024

  datatype FeedError = NotCalendar | LineTooLong

  // ----- folding -----

  /** The octets 10xxxxxx, which never start a character in UTF-8. */
  predicate IsContinuation(c: char) {
    0x80 <= c as int < 0xC0
  }

  function CutBack(s: string, cut: nat): (k: nat)
    requires 1 <= cut < |s|
    ensures 1 <= k <= cut
    ensures k == 1 || !IsContinuation(s[k])
    ensures forall j :: k < j <= cut ==> IsContinuation(s[j])
  {
    if cut > 1 && IsContinuation(s[cut]) then CutBack(s, cut - 1) else cut
  }

  function FoldPieces(s: string): (ps: seq<string>)
    ensures |ps| >= 1
    decreases |s|
  {
    if |s| <= FOLD_AT then [s]
    else
      var cut := CutBack(s, FOLD_AT);
      [s[..cut]] + FoldPieces(s[cut..])
  }

  /** Pieces as physical lines: each later one behind a single space. */
  function Wrapped(ps: seq<string>): string
    requires |ps| >= 1
  {
    if |ps| == 1 then ps[0] + CRLF else ps[0] + CRLF + " " + Wrapped(ps[1..])
  }

  function Folded(s: string): string {
    Wrapped(FoldPieces(s))
  }

  function FoldedAll(lines: seq<string>): string {
    if lines == [] then "" else FoldedAll(lines[..|lines| - 1]) + Folded(lines[|lines| - 1])
  }

  lemma {:induction false} FoldedAllConcat(xs: seq<string>, ys: seq<string>)
    ensures FoldedAll(xs + ys) == FoldedAll(xs) + FoldedAll(ys)
    decreases |ys|
  {
    hide Folded;
    if ys == [] {
      assert xs + ys == xs;
    } else {
      var front := ys[..|ys| - 1];
      assert (xs + ys)[..|xs + ys| - 1] == xs + front;
      FoldedAllConcat(xs, front);
    }
  }

  lemma FoldedAllSnoc(lines: seq<string>, line: string)
    ensures FoldedAll(lines + [line]) == FoldedAll(lines) + Folded(line)
  {
    assert (lines + [line])[..|lines|] == lines;
  }

  /** The shared output the writer appends to, and the content lines it stands for. */
  class Builder {
    var content: string
    ghost var lines: seq<string>

    ghost predicate Valid()
      reads this
    {
      content == FoldedAll(lines)
    }

    constructor ()
      ensures Valid() && lines == []
    {
      content := "";
      lines := [];
    }

    /** Writes one content line, folded. */
    method Line(line: string)
      requires Valid()
      modifies this
      ensures Valid() && lines == old(lines) + [line]
      ensures content == old(content) + Folded(line)
    {
      var s := line;
      while |s| > FOLD_AT
        invariant lines == old(lines)
        invariant content + Folded(s) == old(content) + Folded(line)
        decreases |s|
      {
        var cut := FOLD_AT;
        while cut > 1 && IsContinuation(s[cut])
          invariant 1 <= cut <= FOLD_AT
          invariant CutBack(s, cut) == CutBack(s, FOLD_AT)
        {
          cut := cut - 1;
        }
        FoldedStep(s);
        Reassociate(content, s[..cut], CRLF, " ", Folded(s[cut..]));
        content := content + s[..cut];
        content := content + CRLF;
        content := content + " ";
        s := s[cut..];
      }
      Reassociate(content, s, CRLF, "", "");
      content := content + s;
      content := content + CRLF;
      FoldedAllSnoc(lines, line);
      lines := lines + [line];
    }
  }

  lemma Reassociate(a: string, b: string, c: string, d: string, e: string)
    ensures a + (b + c + d + e) == a + b + c + d + e
  {
  }

  lemma FoldedStep(s: string)
    requires |s| > FOLD_AT
    ensures var cut := CutBack(s, FOLD_AT);
            Folded(s) == s[..cut] + CRLF + " " + Folded(s[cut..])
  {
    var cut := CutBack(s, FOLD_AT);
    assert FoldPieces(s)[1..] == FoldPieces(s[cut..]);
  }

  function Concat(ps: seq<string>): string {
    if ps == [] then "" else ps[0] + Concat(ps[1..])
  }

  /**
   What folding promises about the physical lines: they hold the value, each at most 75 octets of it
   (76 on a continuation line, with its leading space), and folding always makes progress.
   */
  lemma {:induction false} FoldPiecesLaws(s: string)
    ensures Concat(FoldPieces(s)) == s
    ensures forall i :: 0 <= i < |FoldPieces(s)| ==> |FoldPieces(s)[i]| <= FOLD_AT
    ensures s != "" ==> forall i :: 0 <= i < |FoldPieces(s)| ==> FoldPieces(s)[i] != ""
    decreases |s|
  {
    if |s| <= FOLD_AT {
      assert [s][1..] == [];
    } else {
      var cut := CutBack(s, FOLD_AT);
      FoldPiecesLaws(s[cut..]);
      assert FoldPieces(s)[1..] == FoldPieces(s[cut..]);
      assert s == s[..cut] + s[cut..];
    }
  }

  // ----- UTF-8 -----

  predicate InRange(s: string, i: nat, lo: int, hi: int) {
    i < |s| && lo <= s[i] as int <= hi
  }

  /** The length of the well-formed UTF-8 character s starts with, or 0 when it starts with none. */
  function RuneLength(s: string): (n: nat)
    ensures n <= |s| && n <= 4
    ensures forall j :: 1 <= j < n ==> IsContinuation(s[j])
    ensures n > 0 ==> !IsContinuation(s[0])
  {
    if InRange(s, 0, 0, 0x7F) then 1
    else if InRange(s, 0, 0xC2, 0xDF) && InRange(s, 1, 0x80, 0xBF) then 2
    else if ThreeOctets(s) then 3
    else if FourOctets(s) then 4
    else 0
  }

  predicate ThreeOctets(s: string) {
    && InRange(s, 2, 0x80, 0xBF)
    && (|| (InRange(s, 0, 0xE0, 0xE0) && InRange(s, 1, 0xA0, 0xBF))
        || (InRange(s, 0, 0xED, 0xED) && InRange(s, 1, 0x80, 0x9F))
        || (InRange(s, 0, 0xE1, 0xEF) && !InRange(s, 0, 0xED, 0xED) && InRange(s, 1, 0x80, 0xBF)))
  }

  predicate FourOctets(s: string) {
    && InRange(s, 2, 0x80, 0xBF) && InRange(s, 3, 0x80, 0xBF)
    && (|| (InRange(s, 0, 0xF0, 0xF0) && InRange(s, 1, 0x90, 0xBF))
        || (InRange(s, 0, 0xF1, 0xF3) && InRange(s, 1, 0x80, 0xBF))
        || (InRange(s, 0, 0xF4, 0xF4) && InRange(s, 1, 0x80, 0x8F)))
  }

  predicate ValidUtf8(s: string)
    decreases |s|
  {
    s == "" || (RuneLength(s) > 0 && ValidUtf8(s[RuneLength(s)..]))
  }

  lemma RuneLengthOfPrefix(s: string, i: nat)
    requires RuneLength(s) <= i <= |s|
    ensures RuneLength(s) > 0 ==> RuneLength(s[..i]) == RuneLength(s)
  {
  }

  /** Between two characters, both halves are well formed. */
  lemma {:induction false} SplitAtBoundary(s: string, i: nat)
    requires ValidUtf8(s) && i < |s| && !IsContinuation(s[i])
    ensures ValidUtf8(s[..i]) && ValidUtf8(s[i..])
    decreases |s|
  {
    if i > 0 {
      var k := RuneLength(s);
      assert i >= k;
      SplitAtBoundary(s[k..], i - k);
      RuneLengthOfPrefix(s, i);
      assert s[..i][k..] == s[k..][..i - k];
      assert s[k..][i - k..] == s[i..];
    }
  }

  lemma {:induction false} RunsAreShort(s: string, i: nat)
    requires ValidUtf8(s) && i + 3 < |s|
    ensures exists j :: i <= j <= i + 3 && !IsContinuation(s[j])
    decreases |s|
  {
    var k := RuneLength(s);
    if i == 0 {
      assert !IsContinuation(s[0]);
    } else if k > i {
      assert k <= 4 && k <= i + 3;
      assert s[k] == s[k..][0] && RuneLength(s[k..]) > 0;
      assert !IsContinuation(s[k]);
    } else {
      RunsAreShort(s[k..], i - k);
      var j :| i - k <= j <= i - k + 3 && !IsContinuation(s[k..][j]);
      assert s[k..][j] == s[k + j];
    }
  }

  /** The cut never lands inside a character of well-formed text. */
  lemma CutIsBoundary(s: string)
    requires ValidUtf8(s) && |s| > FOLD_AT
    ensures !IsContinuation(s[CutBack(s, FOLD_AT)])
  {
    RunsAreShort(s, FOLD_AT - 3);
    var j :| FOLD_AT - 3 <= j <= FOLD_AT && !IsContinuation(s[j]);
  }

  /** Every physical line of a folded well-formed value is itself well formed. */
  lemma {:induction false} FoldKeepsCharactersWhole(s: string)
    requires ValidUtf8(s)
    ensures forall i :: 0 <= i < |FoldPieces(s)| ==> ValidUtf8(FoldPieces(s)[i])
    decreases |s|
  {
    if |s| > FOLD_AT {
      var cut := CutBack(s, FOLD_AT);
      CutIsBoundary(s);
      SplitAtBoundary(s, cut);
      FoldKeepsCharactersWhole(s[cut..]);
    }
  }

  // ----- unfolding -----

  function TrimRightCR(s: string): string {
    if s != "" && s[|s| - 1] == '\r' then TrimRightCR(s[..|s| - 1]) else s
  }

  /** The physical lines of a document; the last one may lack its LF. */
  function PhysicalLines(doc: string): seq<string>
    decreases |doc|
  {
    if doc == "" then []
    else
      var k := IndexFrom(doc, '\n', 0);
      [TrimRightCR(doc[..k])] + (if k == |doc| then [] else PhysicalLines(doc[k + 1..]))
  }

  predicate StartsWithBlank(line: string) {
    line != "" && (line[0] == ' ' || line[0] == '\t')
  }

  /** The content lines after one more physical line. */
  function RejoinOne(lines: seq<string>, line: string): seq<string> {
    if line == "" then lines
    else if StartsWithBlank(line) && |lines| > 0 then
      lines[|lines| - 1 := lines[|lines| - 1] + line[1..]]
    else lines + [line]
  }

  function Rejoin(lines: seq<string>, physical: seq<string>): seq<string>
    decreases |physical|
  {
    if physical == [] then lines else Rejoin(RejoinOne(lines, physical[0]), physical[1..])
  }

  function Body(doc: string): string {
    if |doc| > MAX_FEED_BYTES then doc[..MAX_FEED_BYTES] else doc
  }

  function UnfoldedLines(doc: string): seq<string> {
    Rejoin([], PhysicalLines(Body(doc)))
  }

  /** The scanner gives up on a line that fills its whole buffer. */
  predicate Overlong(doc: string) {
    |doc| >= MAX_FEED_BYTES && IndexFrom(Body(doc), '\n', 0) == MAX_FEED_BYTES
  }

  function Unfolded(doc: string): Result<seq<string>, FeedError> {
    if Overlong(doc) then Err(LineTooLong) else Ok(UnfoldedLines(doc))
  }

  lemma IndexOfSuffix(doc: string, pos: nat)
    requires pos <= |doc|
    ensures IndexFrom(doc[pos..], '\n', 0) == IndexFrom(doc, '\n', pos) - pos
  {
    FirstIndex(doc[pos..], '\n', 0, IndexFrom(doc, '\n', pos) - pos);
  }

  function NextLine(doc: string, k: nat): nat {
    if k >= |doc| then |doc| else k + 1
  }

  lemma SuffixSlices(doc: string, pos: nat, k: nat)
    requires pos <= k <= |doc|
    ensures doc[pos..][..k - pos] == doc[pos..k]
    ensures k < |doc| ==> doc[pos..][k - pos + 1..] == doc[k + 1..]
  {
  }

  lemma PhysicalLinesOpen(doc: string)
    requires doc != ""
    ensures var k := IndexFrom(doc, '\n', 0);
            PhysicalLines(doc) == [TrimRightCR(doc[..k])] + PhysicalLines(if k == |doc| then "" else doc[k + 1..])
  {
    hide TrimRightCR, IndexFrom;
  }

  lemma PhysicalLinesStep(doc: string, pos: nat)
    requires pos < |doc|
    ensures var k := IndexFrom(doc, '\n', pos);
            PhysicalLines(doc[pos..]) == [TrimRightCR(doc[pos..k])] + PhysicalLines(doc[NextLine(doc, k)..])
  {
    hide PhysicalLines, TrimRightCR, IndexFrom;
    PhysicalLinesOpen(doc[pos..]);
    IndexOfSuffix(doc, pos);
    SuffixSlices(doc, pos, IndexFrom(doc, '\n', pos));
    assert doc[|doc|..] == "";
  }

  lemma UnfoldStep(lines: seq<string>, doc: string, pos: nat)
    requires pos < |doc|
    ensures var k := IndexFrom(doc, '\n', pos);
            Rejoin(lines, PhysicalLines(doc[pos..]))
            == Rejoin(RejoinOne(lines, TrimRightCR(doc[pos..k])), PhysicalLines(doc[NextLine(doc, k)..]))
  {
    var k := IndexFrom(doc, '\n', pos);
    PhysicalLinesStep(doc, pos);
    var first, rest := TrimRightCR(doc[pos..k]), PhysicalLines(doc[NextLine(doc, k)..]);
    assert ([first] + rest)[1..] == rest;
  }

  /** The reader's loop: one content line per unfolded line, continuations appended in place. */
  method Unfold(doc: string) returns (r: Result<seq<string>, FeedError>)
    ensures r == Unfolded(doc)
  {
    if Overlong(doc) {
      return Err(LineTooLong);
    }
    var body := Body(doc);
    var lines: seq<string> := [];
    var pos := 0;
    assert body[0..] == body;
    while pos < |body|
      invariant 0 <= pos <= |body|
      invariant Rejoin(lines, PhysicalLines(body[pos..])) == UnfoldedLines(doc)
    {
      UnfoldStep(lines, body, pos);
      var k := IndexFrom(body, '\n', pos);
      var line := TrimRightCR(body[pos..k]);
      pos := NextLine(body, k);
      if line == "" {
        continue;
      }
      if (line[0] == ' ' || line[0] == '\t') && |lines| > 0 {
        lines := lines[|lines| - 1 := lines[|lines| - 1] + line[1..]];
        continue;
      }
      lines := lines + [line];
    }
    r := Ok(lines);
  }

  // ----- unfolding undoes folding -----

  predicate EndsInCR(s: string) {
    s != "" && s[|s| - 1] == '\r'
  }

  /** No physical line of the folded value ends in a CR of the value's own. */
  predicate PiecesKept(s: string) {
    forall i :: 0 <= i < |FoldPieces(s)| ==> !EndsInCR(FoldPieces(s)[i])
  }

  /** What the reader makes of a folded value: every physical line has lost the CRs at its end. */
  function ReadBack(s: string): string
    decreases |s|
  {
    if |s| <= FOLD_AT then TrimRightCR(s)
    else
      var cut := CutBack(s, FOLD_AT);
      TrimRightCR(s[..cut]) + ReadBack(s[cut..])
  }

  function ReadBackAll(lines: seq<string>): (r: seq<string>)
    ensures |r| == |lines|
  {
    seq(|lines|, i requires 0 <= i < |lines| => ReadBack(lines[i]))
  }

  lemma {:induction false} TrimShortens(s: string)
    ensures TrimRightCR(s) <= s
    ensures |TrimRightCR(s)| == |s| <==> !EndsInCR(s)
  {
    if EndsInCR(s) {
      TrimShortens(s[..|s| - 1]);
    }
  }

  /** A folded value is read back unchanged exactly when no physical line ends in a CR of its own. */
  lemma {:induction false} ReadBackIff(s: string)
    ensures |ReadBack(s)| <= |s|
    ensures ReadBack(s) == s <==> PiecesKept(s)
    decreases |s|
  {
    hide TrimRightCR;
    if |s| <= FOLD_AT {
      TrimShortens(s);
      assert FoldPieces(s)[0] == s;
    } else {
      var cut := CutBack(s, FOLD_AT);
      TrimShortens(s[..cut]);
      ReadBackIff(s[cut..]);
      KeptStep(s);
      assert s == s[..cut] + s[cut..];
    }
  }

  lemma KeptStep(s: string)
    requires |s| > FOLD_AT
    ensures var cut := CutBack(s, FOLD_AT);
            PiecesKept(s) <==> !EndsInCR(s[..cut]) && PiecesKept(s[cut..])
  {
    hide FoldPieces;
    var cut := CutBack(s, FOLD_AT);
    var ps, rest := FoldPieces(s), FoldPieces(s[cut..]);
    assert ps == [s[..cut]] + rest by { PiecesStep(s); }
    assert ps[0] == s[..cut];
    forall i | 0 <= i < |rest|
      ensures ps[i + 1] == rest[i]
    {
    }
    if !EndsInCR(s[..cut]) && PiecesKept(s[cut..]) {
      forall i | 0 <= i < |ps|
        ensures !EndsInCR(ps[i])
      {
        if i > 0 {
          assert ps[i] == rest[i - 1];
        }
      }
    }
    if PiecesKept(s) {
      forall i | 0 <= i < |rest|
        ensures !EndsInCR(rest[i])
      {
        assert rest[i] == ps[i + 1];
      }
    }
  }

  lemma PiecesStep(s: string)
    requires |s| > FOLD_AT
    ensures FoldPieces(s) == [s[..CutBack(s, FOLD_AT)]] + FoldPieces(s[CutBack(s, FOLD_AT)..])
  {
  }

  lemma {:induction false} SingleLineIsKept(s: string)
    requires '\r' !in s
    ensures ReadBack(s) == s
    decreases |s|
  {
    hide CutBack, TrimRightCR;
    if |s| <= FOLD_AT {
      TrimShortens(s);
    } else {
      var cut := CutBack(s, FOLD_AT);
      TrimShortens(s[..cut]);
      SingleLineIsKept(s[cut..]);
      assert s == s[..cut] + s[cut..];
    }
  }

  /** A content line a writer may fold: it holds no LF, and does not begin like a continuation or a blank line. */
  predicate GoodLine(s: string) {
    s != "" && '\n' !in s && s[0] != '\r' && !StartsWithBlank(s)
  }

  predicate AllGood(lines: seq<string>) {
    forall i :: 0 <= i < |lines| ==> GoodLine(lines[i])
  }

  lemma TrimCR(s: string)
    ensures TrimRightCR(s + "\r") == TrimRightCR(s)
  {
    assert (s + "\r")[..|s|] == s;
  }

  lemma OnePhysicalLine(line: string, rest: string)
    requires '\n' !in line
    ensures PhysicalLines(line + CRLF + rest) == [TrimRightCR(line)] + PhysicalLines(rest)
  {
    hide PhysicalLines, TrimRightCR, IndexFrom;
    var doc := line + CRLF + rest;
    LineEnd(line, rest);
    PhysicalLinesOpen(doc);
    TrimCR(line);
    assert doc[|line| + 2..] == rest;
    if rest == "" {
      assert doc[|line| + 2..] == "";
    }
  }

  lemma LineEnd(line: string, rest: string)
    requires '\n' !in line
    ensures var doc := line + CRLF + rest;
            IndexFrom(doc, '\n', 0) == |line| + 1 && doc[..|line| + 1] == line + "\r"
  {
    hide IndexFrom;
    var doc := line + CRLF + rest;
    forall j | 0 <= j < |line|
      ensures doc[j] != '\n'
    {
      assert doc[j] == line[j] && line[j] in line;
    }
    FirstIndex(doc, '\n', 0, |line| + 1);
  }

  function Last(lines: seq<string>): string
    requires |lines| > 0
  {
    lines[|lines| - 1]
  }

  /** The first physical line of a long value, and what follows it. */
  lemma FoldedSplit(lead: string, s: string, rest: string)
    requires |s| > FOLD_AT && '\n' !in s && '\n' !in lead
    ensures var cut := CutBack(s, FOLD_AT);
            PhysicalLines(lead + Folded(s) + rest)
            == [TrimRightCR(lead + s[..cut])] + PhysicalLines(" " + Folded(s[cut..]) + rest)
  {
    var cut := CutBack(s, FOLD_AT);
    FoldedStep(s);
    var tail := Folded(s[cut..]);
    FoldedSplitText(lead, s[..cut], tail, rest);
    OnePhysicalLine(lead + s[..cut], " " + tail + rest);
  }

  lemma FoldedSplitText(lead: string, piece: string, tail: string, rest: string)
    ensures lead + (piece + CRLF + " " + tail) + rest == (lead + piece) + CRLF + (" " + tail + rest)
  {
  }

  lemma ExtendTwice(lines: seq<string>, s: string, t: string)
    requires |lines| > 0
    ensures var lines' := lines[|lines| - 1 := Last(lines) + s];
            lines'[|lines'| - 1 := Last(lines') + t] == lines[|lines| - 1 := Last(lines) + (s + t)]
  {
    assert Last(lines) + s + t == Last(lines) + (s + t);
  }

  /** A folded tail is read back onto the end of the last content line. */
  lemma {:induction false} UnfoldTail(s: string, lines: seq<string>, rest: string)
    requires s != "" && '\n' !in s && |lines| > 0
    ensures Rejoin(lines, PhysicalLines(" " + Folded(s) + rest))
         == Rejoin(lines[|lines| - 1 := Last(lines) + ReadBack(s)], PhysicalLines(rest))
    decreases |s|
  {
    hide IndexFrom, TrimRightCR, PhysicalLines, Folded, Rejoin;
    if |s| <= FOLD_AT {
      ShortTail(s, rest);
      RejoinTail(lines, s, PhysicalLines(rest));
    } else {
      var cut := CutBack(s, FOLD_AT);
      var trimmed := TrimRightCR(s[..cut]);
      FoldedSplit(" ", s, rest);
      RejoinTail(lines, s[..cut], PhysicalLines(" " + Folded(s[cut..]) + rest));
      UnfoldTail(s[cut..], lines[|lines| - 1 := Last(lines) + trimmed], rest);
      ExtendTwice(lines, trimmed, ReadBack(s[cut..]));
    }
  }

  lemma ShortTail(s: string, rest: string)
    requires |s| <= FOLD_AT && '\n' !in s
    ensures PhysicalLines(" " + Folded(s) + rest) == [TrimRightCR(" " + s)] + PhysicalLines(rest)
  {
    assert " " + (s + CRLF) + rest == (" " + s) + CRLF + rest;
    OnePhysicalLine(" " + s, rest);
  }

  /** Only the end is trimmed: the first character stays, unless the value is nothing but CRs. */
  lemma {:induction false} TrimKeepsHead(c: char, s: string)
    requires c != '\r'
    ensures TrimRightCR([c] + s) == [c] + TrimRightCR(s)
  {
    if EndsInCR(s) {
      assert ([c] + s)[..|s|] == [c] + s[..|s| - 1];
      TrimKeepsHead(c, s[..|s| - 1]);
    }
  }

  lemma RejoinTail(lines: seq<string>, piece: string, physical: seq<string>)
    requires |lines| > 0
    ensures Rejoin(lines, [TrimRightCR(" " + piece)] + physical)
         == Rejoin(lines[|lines| - 1 := Last(lines) + TrimRightCR(piece)], physical)
  {
    hide TrimRightCR;
    TrimKeepsHead(' ', piece);
    var line := TrimRightCR(" " + piece);
    assert line == " " + TrimRightCR(piece);
    assert ([line] + physical)[1..] == physical;
    assert line[1..] == TrimRightCR(piece);
  }

  lemma RejoinHead(lines: seq<string>, line: string, physical: seq<string>)
    requires line != "" && line[0] != '\r' && !StartsWithBlank(line)
    ensures Rejoin(lines, [TrimRightCR(line)] + physical) == Rejoin(lines + [TrimRightCR(line)], physical)
  {
    hide TrimRightCR;
    TrimKeepsHead(line[0], line[1..]);
    assert line == [line[0]] + line[1..];
    assert ([TrimRightCR(line)] + physical)[1..] == physical;
  }

  lemma ExtendLast(lines: seq<string>, s: string, t: string)
    ensures var lines' := lines + [s];
            lines'[|lines'| - 1 := Last(lines') + t] == lines + [s + t]
  {
  }

  lemma UnfoldLine(s: string, lines: seq<string>, rest: string)
    requires GoodLine(s)
    ensures Rejoin(lines, PhysicalLines(Folded(s) + rest)) == Rejoin(lines + [ReadBack(s)], PhysicalLines(rest))
  {
    hide PhysicalLines, Rejoin, TrimRightCR;
    if |s| <= FOLD_AT {
      OnePhysicalLine(s, rest);
      RejoinHead(lines, s, PhysicalLines(rest));
    } else {
      var cut := CutBack(s, FOLD_AT);
      var trimmed := TrimRightCR(s[..cut]);
      FoldedSplit("", s, rest);
      assert "" + Folded(s) == Folded(s) && "" + s[..cut] == s[..cut];
      RejoinHead(lines, s[..cut], PhysicalLines(" " + Folded(s[cut..]) + rest));
      UnfoldTail(s[cut..], lines + [trimmed], rest);
      ExtendLast(lines, trimmed, ReadBack(s[cut..]));
    }
  }

  lemma {:induction false} UnfoldLines(lines: seq<string>, done: seq<string>, rest: string)
    requires AllGood(lines)
    ensures Rejoin(done, PhysicalLines(FoldedAll(lines) + rest)) == Rejoin(done + ReadBackAll(lines), PhysicalLines(rest))
    decreases |lines|
  {
    if lines == [] {
      assert FoldedAll(lines) + rest == rest;
      assert done + ReadBackAll(lines) == done;
    } else {
      var front, last := lines[..|lines| - 1], lines[|lines| - 1];
      assert AllGood(front) && GoodLine(last);
      assert (done + ReadBackAll(front)) + [ReadBack(last)] == done + ReadBackAll(lines);
      calc {
        Rejoin(done, PhysicalLines(FoldedAll(lines) + rest));
        { Associate(FoldedAll(front), Folded(last), rest); }
        Rejoin(done, PhysicalLines(FoldedAll(front) + (Folded(last) + rest)));
        { UnfoldLines(front, done, Folded(last) + rest); }
        Rejoin(done + ReadBackAll(front), PhysicalLines(Folded(last) + rest));
        { UnfoldLine(last, done + ReadBackAll(front), rest); }
        Rejoin((done + ReadBackAll(front)) + [ReadBack(last)], PhysicalLines(rest));
      }
    }
  }

  lemma Associate(a: string, b: string, c: string)
    ensures (a + b) + c == a + (b + c)
  {
  }

  lemma {:induction false} FoldedNotOverlong(lines: seq<string>)
    requires AllGood(lines)
    requires |FoldedAll(lines)| <= MAX_FEED_BYTES
    ensures !Overlong(FoldedAll(lines))
  {
    if lines != [] {
      var doc := FoldedAll(lines);
      EndsWithLF(FoldPieces(lines[|lines| - 1]));
      assert doc[|doc| - 1] == '\n';
      assert Body(doc) == doc;
    }
  }

  lemma {:induction false} EndsWithLF(ps: seq<string>)
    requires |ps| >= 1
    ensures |Wrapped(ps)| > 0 && Wrapped(ps)[|Wrapped(ps)| - 1] == '\n'
    decreases |ps|
  {
    if |ps| > 1 {
      EndsWithLF(ps[1..]);
    }
  }

  /**
   Unfolding a folded document gives as many lines as were written, each as it is read back; so it gives back the
   lines themselves exactly when no physical line ends in a CR of its own.
   */
  lemma UnfoldFolded(lines: seq<string>)
    requires AllGood(lines)
    requires |FoldedAll(lines)| <= MAX_FEED_BYTES
    ensures Unfolded(FoldedAll(lines)) == Ok(ReadBackAll(lines))
    ensures Unfolded(FoldedAll(lines)) == Ok(lines) <==> forall i :: 0 <= i < |lines| ==> PiecesKept(lines[i])
  {
    hide PhysicalLines, PiecesKept, ReadBack, FoldedAll, GoodLine;
    FoldedNotOverlong(lines);
    UnfoldLines(lines, [], "");
    assert FoldedAll(lines) + "" == FoldedAll(lines);
    assert [] + ReadBackAll(lines) == ReadBackAll(lines);
    assert Rejoin(ReadBackAll(lines), PhysicalLines("")) == ReadBackAll(lines) by { NothingLeft(ReadBackAll(lines)); }
    forall i | 0 <= i < |lines|
      ensures ReadBackAll(lines)[i] == lines[i] <==> PiecesKept(lines[i])
    {
      ReadBackIff(lines[i]);
    }
    if forall i :: 0 <= i < |lines| ==> PiecesKept(lines[i]) {
      assert ReadBackAll(lines) == lines;
    }
  }

  lemma NothingLeft(lines: seq<string>)
    ensures Rejoin(lines, PhysicalLines("")) == lines
  {
  }
}
