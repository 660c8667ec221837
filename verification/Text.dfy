/**
 The byte-string helpers the feed reader leans on. A Go string is a sequence of octets; here it is a
 `string` whose characters stand for octets, so every length below is a length in octets.
 Letter case and white space are those of ASCII.
 */
module Text {
  import opened Prelude

  const CRLF: string := "\r\n"

  predicate SingleLine(s: string) {
    '\r' !in s && '\n' !in s
  }

  function UpperChar(c: char): char {
    if 'a' <= c <= 'z' then (c as int - 'a' as int + 'A' as int) as char else c
  }

  function ToUpper(s: string): (r: string)
    ensures |r| == |s|
  {
    seq(|s|, i requires 0 <= i < |s| => UpperChar(s[i]))
  }

  predicate EqualFold(s: string, t: string) {
    ToUpper(s) == ToUpper(t)
  }

  lemma UpperIsFixed(s: string)
    requires forall i :: 0 <= i < |s| ==> UpperChar(s[i]) == s[i]
    ensures ToUpper(s) == s
  {
  }

  const SMALL_LETTERS: string := "abcdefghijklmnopqrstuvwxyz"
  const CAPITALS: string := "ABCDEFGHIJKLMNOPQRSTUVWXYZ"

  lemma LettersInOrder(k: nat)
    requires k < 26
    ensures SMALL_LETTERS[k] as int == 'a' as int + k
    ensures CAPITALS[k] as int == 'A' as int + k
  {
  }

  /** Each small letter becomes its capital, and everything else stays. */
  lemma UpperCapitalizes(s: string, i: nat)
    requires i < |s|
    ensures forall k :: 0 <= k < 26 && s[i] == SMALL_LETTERS[k] ==> ToUpper(s)[i] == CAPITALS[k]
    ensures s[i] !in SMALL_LETTERS ==> ToUpper(s)[i] == s[i]
  {
    forall k: nat | k < 26
      ensures SMALL_LETTERS[k] as int == 'a' as int + k && CAPITALS[k] as int == 'A' as int + k
    {
      LettersInOrder(k);
    }
    var n := s[i] as int - 'a' as int;
    if 0 <= n < 26 {
      assert s[i] == SMALL_LETTERS[n];
    }
  }

  predicate IsSpace(c: char) {
    c == ' ' || '\t' <= c <= '\r'
  }

  function TrimLeftSpace(s: string): string {
    if s != "" && IsSpace(s[0]) then TrimLeftSpace(s[1..]) else s
  }

  function TrimRightSpace(s: string): string {
    if s != "" && IsSpace(s[|s| - 1]) then TrimRightSpace(s[..|s| - 1]) else s
  }

  function TrimSpace(s: string): string {
    TrimRightSpace(TrimLeftSpace(s))
  }

  lemma TrimSpaceOfTight(s: string)
    requires s != "" ==> !IsSpace(s[0]) && !IsSpace(s[|s| - 1])
    ensures TrimSpace(s) == s
  {
  }

  const BLANKS: string := " \t\n\U{000B}\U{000C}\r"

  lemma SpacesAreBlanks(c: char)
    ensures IsSpace(c) <==> c in BLANKS
  {
    if IsSpace(c) && c != ' ' {
      assert c == BLANKS[1 + (c as int - '\t' as int)];
    }
  }

  lemma {:induction false} TrimLeftPadded(left: string, s: string)
    requires forall i :: 0 <= i < |left| ==> left[i] in BLANKS
    requires s != "" ==> s[0] !in BLANKS
    ensures TrimLeftSpace(left + s) == s
  {
    if left == "" {
      assert left + s == s;
      if s != "" {
        SpacesAreBlanks(s[0]);
      }
    } else {
      assert (left + s)[1..] == left[1..] + s;
      SpacesAreBlanks(left[0]);
      TrimLeftPadded(left[1..], s);
    }
  }

  lemma {:induction false} TrimRightPadded(s: string, right: string)
    requires forall i :: 0 <= i < |right| ==> right[i] in BLANKS
    requires s != "" ==> s[|s| - 1] !in BLANKS
    ensures TrimRightSpace(s + right) == s
    decreases |right|
  {
    if right == "" {
      assert s + right == s;
      if s != "" {
        SpacesAreBlanks(s[|s| - 1]);
      }
    } else {
      var n := |right| - 1;
      assert (s + right)[..|s| + n] == s + right[..n];
      SpacesAreBlanks(right[n]);
      TrimRightPadded(s, right[..n]);
    }
  }

  /** A text without blanks at its ends is what is left of it, whatever blanks surround it. */
  lemma TrimPadded(left: string, s: string, right: string)
    requires forall i :: 0 <= i < |left| ==> left[i] in BLANKS
    requires forall i :: 0 <= i < |right| ==> right[i] in BLANKS
    requires s != "" && s[0] !in BLANKS && s[|s| - 1] !in BLANKS
    ensures TrimSpace(left + s + right) == s
  {
    assert left + s + right == left + (s + right);
    TrimLeftPadded(left, s + right);
    TrimRightPadded(s, right);
  }

  function TrimLeftOf(s: string, cut: string): string {
    if s != "" && s[0] in cut then TrimLeftOf(s[1..], cut) else s
  }

  function TrimRightOf(s: string, cut: string): string {
    if s != "" && s[|s| - 1] in cut then TrimRightOf(s[..|s| - 1], cut) else s
  }

  /** The position of the first c at or after i, or the length of s when there is none. */
  function IndexFrom(s: string, c: char, i: nat): (k: nat)
    requires i <= |s|
    ensures i <= k <= |s|
    ensures k < |s| ==> s[k] == c
    ensures forall j :: i <= j < k ==> s[j] != c
    decreases |s| - i
  {
    if i == |s| || s[i] == c then i else IndexFrom(s, c, i + 1)
  }

  lemma FirstIndex(s: string, c: char, i: nat, k: nat)
    requires i <= k <= |s|
    requires k < |s| ==> s[k] == c
    requires forall j :: i <= j < k ==> s[j] != c
    ensures IndexFrom(s, c, i) == k
  {
  }

  /** The pieces of s between the occurrences of sep; always at least one. */
  function SplitOn(s: string, sep: char): (r: seq<string>)
    ensures |r| >= 1
    decreases |s|
  {
    var k := IndexFrom(s, sep, 0);
    if k == |s| then [s] else [s[..k]] + SplitOn(s[k + 1..], sep)
  }

  /** Puts sep back between the pieces. */
  function Join(parts: seq<string>, sep: char): string {
    if parts == [] then ""
    else if |parts| == 1 then parts[0]
    else parts[0] + [sep] + Join(parts[1..], sep)
  }

  /** Replaces every occurrence of old, scanning from the left without overlaps. */
  function ReplaceAll(s: string, old_: string, new_: string): string
    requires old_ != ""
    decreases |s|
  {
    if |s| < |old_| then s
    else if s[..|old_|] == old_ then new_ + ReplaceAll(s[|old_|..], old_, new_)
    else [s[0]] + ReplaceAll(s[1..], old_, new_)
  }

  lemma ReplaceChar(c: char, s: string, old_: char, new_: string)
    ensures ReplaceAll([c] + s, [old_], new_)
         == (if c == old_ then new_ else [c]) + ReplaceAll(s, [old_], new_)
  {
    assert ([c] + s)[1..] == s;
    assert ([c] + s)[..1] == [c];
  }

  // ----- decimal numbers -----

  predicate IsDigit(c: char) {
    '0' <= c <= '9'
  }

  predicate AllDigits(s: string) {
    forall i :: 0 <= i < |s| ==> IsDigit(s[i])
  }

  function DigitChar(d: int): (c: char)
    requires 0 <= d <= 9
    ensures IsDigit(c)
  {
    ('0' as int + d) as char
  }

  function DigitValue(c: char): (d: int)
    requires IsDigit(c)
    ensures 0 <= d <= 9
  {
    c as int - '0' as int
  }

  function NumberOf(s: string): (n: nat)
    requires AllDigits(s)
  {
    if s == "" then 0 else 10 * NumberOf(s[..|s| - 1]) + DigitValue(s[|s| - 1])
  }

  /** The digits of n without leading zeros; "0" for zero. */
  function Decimal(n: nat): (s: string)
    ensures s != "" && AllDigits(s) && NumberOf(s) == n
  {
    if n < 10 then [DigitChar(n)]
    else
      var front := Decimal(n / 10);
      var s := front + [DigitChar(n % 10)];
      assert s[..|s| - 1] == front;
      s
  }

  /** The digits of n, filled up with leading zeros to the given width. */
  function Pad(n: nat, width: nat): (s: string)
    ensures AllDigits(s) && NumberOf(s) == n && |s| >= width && s != ""
  {
    LeadingZeros(Decimal(n), width);
    PadLeft(Decimal(n), width)
  }

  function PadLeft(s: string, width: nat): (r: string)
    ensures |r| == if |s| < width then width else |s|
    decreases width - |s|
  {
    if |s| >= width then s else PadLeft("0" + s, width)
  }

  lemma {:induction false} LeadingZeros(s: string, width: nat)
    requires AllDigits(s)
    ensures AllDigits(PadLeft(s, width)) && NumberOf(PadLeft(s, width)) == NumberOf(s)
    decreases width - |s|
  {
    if |s| < width {
      ZeroInFront(s);
      LeadingZeros("0" + s, width);
    }
  }

  lemma {:induction false} ZeroInFront(s: string)
    requires AllDigits(s)
    ensures AllDigits("0" + s) && NumberOf("0" + s) == NumberOf(s)
  {
    if s != "" {
      ZeroInFront(s[..|s| - 1]);
      assert ("0" + s)[..|s|] == "0" + s[..|s| - 1];
    }
  }

  function Pow10(k: nat): (p: nat)
    ensures p > 0
  {
    if k == 0 then 1 else 10 * Pow10(k - 1)
  }

  lemma {:induction false} DecimalLength(n: nat, k: nat)
    requires k > 0 && n < Pow10(k)
    ensures |Decimal(n)| <= k
  {
    if n >= 10 {
      DecimalLength(n / 10, k - 1);
    }
  }

  /** A number that fits the width is printed in exactly that width. */
  lemma PadExact(n: nat, width: nat)
    requires width > 0 && n < Pow10(width)
    ensures |Pad(n, width)| == width
  {
    DecimalLength(n, width);
  }
}
