/**
 TEXT values, section 3.3.11 of RFC 5545: the writer's escaping, the reader's unescaping, and the proof
 that a value comes back as it was, with every line break turned into a single LF.
 */
module Escaping {
  import opened Prelude
  import opened Text

  /** The writer's escaping: six replacements, one after the other. */
  function EscapeText(s: string): string {
    var s1 := ReplaceAll(s, "\\", "\\\\");
    var s2 := ReplaceAll(s1, ";", "\\;");
    var s3 := ReplaceAll(s2, ",", "\\,");
    var s4 := ReplaceAll(s3, "\r\n", "\\n");
    var s5 := ReplaceAll(s4, "\n", "\\n");
    ReplaceAll(s5, "\r", "\\n")
  }

  /** What the reader makes of an escaped value. */
  function Unescaped(s: string): string
    decreases |s|
  {
    if s == "" then ""
    else if s[0] != '\\' || |s| == 1 then [s[0]] + Unescaped(s[1..])
    else UnescapedPair(s[1]) + Unescaped(s[2..])
  }

  function UnescapedPair(c: char): string {
    if c == 'n' || c == 'N' then "\n"
    else if c == '\\' || c == ';' || c == ',' then [c]
    else ['\\', c]
  }

  lemma UnescapedStep(s: string, i: nat)
    requires i < |s|
    ensures s[i] != '\\' || i + 1 == |s| ==> Unescaped(s[i..]) == [s[i]] + Unescaped(s[i + 1..])
    ensures s[i] == '\\' && i + 1 < |s| ==> Unescaped(s[i..]) == UnescapedPair(s[i + 1]) + Unescaped(s[i + 2..])
  {
    assert s[i..][1..] == s[i + 1..];
    if i + 1 < |s| {
      assert s[i..][2..] == s[i + 2..];
    }
  }

  lemma Regroup(done: string, piece: string, rest: string)
    ensures done + (piece + rest) == (done + piece) + rest
  {
  }

  /** The reader's loop. */
  method UnescapeText(s: string) returns (r: string)
    ensures r == Unescaped(s)
  {
    r := "";
    var i := 0;
    while i < |s|
      invariant 0 <= i <= |s|
      invariant r + Unescaped(s[i..]) == Unescaped(s)
    {
      UnescapedStep(s, i);
      var piece: string;
      if s[i] != '\\' || i + 1 >= |s| {
        piece := [s[i]];
        i := i + 1;
      } else {
        i := i + 1;
        if s[i] == 'n' || s[i] == 'N' {
          piece := "\n";
        } else if s[i] == '\\' || s[i] == ';' || s[i] == ',' {
          piece := [s[i]];
        } else {
          piece := ['\\', s[i]];
        }
        i := i + 1;
      }
      Regroup(r, piece, Unescaped(s[i..]));
      r := r + piece;
    }
  }

  /** Every line break, however written, as a single LF. */
  function NormalizeNewlines(s: string): string
    decreases |s|
  {
    if s == "" then ""
    else if s[0] == '\r' && |s| > 1 && s[1] == '\n' then "\n" + NormalizeNewlines(s[2..])
    else [if s[0] == '\r' then '\n' else s[0]] + NormalizeNewlines(s[1..])
  }

  // ----- the six replacements done in a single pass -----

  function EscapedChar(c: char): string {
    if c == '\\' || c == ';' || c == ',' then ['\\', c]
    else if c == '\n' || c == '\r' then "\\n"
    else [c]
  }

  function EscapedInOnePass(s: string): string
    decreases |s|
  {
    if s == "" then ""
    else if s[0] == '\r' && |s| > 1 && s[1] == '\n' then "\\n" + EscapedInOnePass(s[2..])
    else EscapedChar(s[0]) + EscapedInOnePass(s[1..])
  }

  /** The first three replacements, which only put backslashes in front. */
  function Guarded(s: string): string {
    ReplaceAll(ReplaceAll(ReplaceAll(s, "\\", "\\\\"), ";", "\\;"), ",", "\\,")
  }

  /** The last three, which only take line breaks out. */
  function Flattened(s: string): string {
    ReplaceAll(ReplaceAll(ReplaceAll(s, "\r\n", "\\n"), "\n", "\\n"), "\r", "\\n")
  }

  lemma GuardedBackslash(s: string)
    ensures Guarded(['\\'] + s) == ['\\', '\\'] + Guarded(s)
  {
    var s1 := ReplaceAll(s, "\\", "\\\\");
    ReplaceChar('\\', s, '\\', "\\\\");
    BackslashTwice(s1, ';', "\\;");
    BackslashTwice(ReplaceAll(s1, ";", "\\;"), ',', "\\,");
  }

  lemma BackslashTwice(s: string, old_: char, new_: string)
    requires old_ != '\\'
    ensures ReplaceAll("\\\\" + s, [old_], new_) == "\\\\" + ReplaceAll(s, [old_], new_)
  {
    assert "\\\\" + s == ['\\'] + (['\\'] + s);
    ReplaceChar('\\', ['\\'] + s, old_, new_);
    ReplaceChar('\\', s, old_, new_);
    Regroup(['\\'], ['\\'], ReplaceAll(s, [old_], new_));
  }

  lemma GuardedSemicolon(s: string)
    ensures Guarded([';'] + s) == ['\\', ';'] + Guarded(s)
  {
    var s1 := ReplaceAll(s, "\\", "\\\\");
    var s2 := ReplaceAll(s1, ";", "\\;");
    ReplaceChar(';', s, '\\', "\\\\");
    ReplaceChar(';', s1, ';', "\\;");
    assert "\\;" + s2 == ['\\'] + ([';'] + s2);
    ReplaceChar('\\', [';'] + s2, ',', "\\,");
    ReplaceChar(';', s2, ',', "\\,");
    Regroup(['\\'], [';'], Guarded(s));
  }

  lemma GuardedCons(c: char, s: string)
    ensures Guarded([c] + s) == (if c == '\\' || c == ';' || c == ',' then ['\\', c] else [c]) + Guarded(s)
  {
    if c == '\\' {
      GuardedBackslash(s);
    } else if c == ';' {
      GuardedSemicolon(s);
    } else {
      var s1 := ReplaceAll(s, "\\", "\\\\");
      ReplaceChar(c, s, '\\', "\\\\");
      ReplaceChar(c, s1, ';', "\\;");
      ReplaceChar(c, ReplaceAll(s1, ";", "\\;"), ',', "\\,");
    }
  }

  /** A character that starts no CR LF pair is flattened on its own. */
  lemma FlattenedCons(c: char, s: string)
    requires c != '\r' || s == "" || s[0] != '\n'
    ensures Flattened([c] + s) == (if c == '\n' || c == '\r' then "\\n" else [c]) + Flattened(s)
  {
    var s4 := ReplaceAll(s, "\r\n", "\\n");
    var s5 := ReplaceAll(s4, "\n", "\\n");
    assert ([c] + s)[1..] == s;
    if |s| >= 1 {
      assert ([c] + s)[..2] == [c, s[0]];
    }
    assert ReplaceAll([c] + s, "\r\n", "\\n") == [c] + s4;
    ReplaceChar(c, s4, '\n', "\\n");
    if c == '\n' {
      FlattenedMark(s5);
    } else {
      ReplaceChar(c, s5, '\r', "\\n");
    }
  }

  lemma FlattenedMark(s: string)
    ensures ReplaceAll("\\n" + s, "\r", "\\n") == "\\n" + ReplaceAll(s, "\r", "\\n")
    ensures ReplaceAll("\\n" + s, "\n", "\\n") == "\\n" + ReplaceAll(s, "\n", "\\n")
  {
    assert "\\n" + s == ['\\'] + (['n'] + s);
    ReplaceChar('n', s, '\r', "\\n");
    ReplaceChar('\\', ['n'] + s, '\r', "\\n");
    ReplaceChar('n', s, '\n', "\\n");
    ReplaceChar('\\', ['n'] + s, '\n', "\\n");
    assert ['\\'] + (['n'] + ReplaceAll(s, "\r", "\\n")) == "\\n" + ReplaceAll(s, "\r", "\\n");
    assert ['\\'] + (['n'] + ReplaceAll(s, "\n", "\\n")) == "\\n" + ReplaceAll(s, "\n", "\\n");
  }

  lemma FlattenedPair(s: string)
    ensures Flattened("\r\n" + s) == "\\n" + Flattened(s)
  {
    assert ("\r\n" + s)[..2] == "\r\n";
    assert ("\r\n" + s)[2..] == s;
    var s4 := ReplaceAll(s, "\r\n", "\\n");
    FlattenedMark(s4);
    FlattenedMark(ReplaceAll(s4, "\n", "\\n"));
  }

  /** Guarding never puts a line break in front. */
  lemma GuardedHead(s: string)
    ensures Guarded("") == ""
    ensures s != "" && s[0] != '\n' ==> Guarded(s) != "" && Guarded(s)[0] != '\n'
  {
    if s != "" {
      assert s == [s[0]] + s[1..];
      GuardedCons(s[0], s[1..]);
    }
  }

  /** The six replacements amount to one pass over the value. */
  lemma {:induction false} EscapeTextIsOnePass(s: string)
    ensures EscapeText(s) == EscapedInOnePass(s)
    decreases |s|
  {
    assert EscapeText(s) == Flattened(Guarded(s));
    if s == "" {
    } else if s[0] == '\r' && |s| > 1 && s[1] == '\n' {
      var t := s[2..];
      assert s == ['\r'] + (['\n'] + t);
      GuardedCons('\r', ['\n'] + t);
      GuardedCons('\n', t);
      assert ['\r'] + (['\n'] + Guarded(t)) == "\r\n" + Guarded(t);
      FlattenedPair(Guarded(t));
      EscapeTextIsOnePass(t);
    } else {
      EscapeFirst(s);
      EscapeTextIsOnePass(s[1..]);
    }
  }

  lemma EscapeFirst(s: string)
    requires s != "" && !(s[0] == '\r' && |s| > 1 && s[1] == '\n')
    ensures Flattened(Guarded(s)) == EscapedChar(s[0]) + Flattened(Guarded(s[1..]))
  {
    var c, t := s[0], s[1..];
    assert s == [c] + t;
    GuardedCons(c, t);
    GuardedHead(t);
    if c == '\\' || c == ';' || c == ',' {
      FlattenedGuard(c, Guarded(t));
    } else {
      FlattenedCons(c, Guarded(t));
    }
  }

  lemma FlattenedGuard(c: char, g: string)
    requires c == '\\' || c == ';' || c == ','
    ensures Flattened(['\\', c] + g) == ['\\', c] + Flattened(g)
  {
    assert ['\\'] + [c] == ['\\', c];
    Regroup(['\\'], [c], g);
    FlattenedCons(c, g);
    FlattenedCons('\\', [c] + g);
    Regroup(['\\'], [c], Flattened(g));
  }

  // ----- the laws -----

  lemma UnescapedCons(c: char, s: string)
    requires c != '\\'
    ensures Unescaped([c] + s) == [c] + Unescaped(s)
  {
    assert ([c] + s)[1..] == s;
  }

  lemma UnescapedEscape(c: char, s: string)
    ensures Unescaped(['\\', c] + s) == UnescapedPair(c) + Unescaped(s)
  {
    assert (['\\', c] + s)[2..] == s;
  }

  lemma {:induction false} UnescapeOnePass(s: string)
    ensures Unescaped(EscapedInOnePass(s)) == NormalizeNewlines(s)
    decreases |s|
  {
    if s == "" {
    } else if s[0] == '\r' && |s| > 1 && s[1] == '\n' {
      UnescapedEscape('n', EscapedInOnePass(s[2..]));
      UnescapeOnePass(s[2..]);
    } else {
      var rest := EscapedInOnePass(s[1..]);
      if EscapedChar(s[0]) == [s[0]] {
        UnescapedCons(s[0], rest);
      } else if s[0] == '\n' || s[0] == '\r' {
        UnescapedEscape('n', rest);
      } else {
        UnescapedEscape(s[0], rest);
      }
      UnescapeOnePass(s[1..]);
    }
  }

  /** Reading a written value gives the value back, with its line breaks normalised. */
  lemma UnescapeEscape(s: string)
    ensures Unescaped(EscapeText(s)) == NormalizeNewlines(s)
  {
    EscapeTextIsOnePass(s);
    UnescapeOnePass(s);
  }

  /** A value without CR comes back exactly, so the writer never merges two such values. */
  lemma {:induction false} NormalizeWithoutCR(s: string)
    requires '\r' !in s
    ensures NormalizeNewlines(s) == s
  {
    if s != "" {
      assert s[0] in s;
      NormalizeWithoutCR(s[1..]);
    }
  }

  lemma EscapeIsInjective(s: string, t: string)
    requires '\r' !in s && '\r' !in t && EscapeText(s) == EscapeText(t)
    ensures s == t
  {
    UnescapeEscape(s);
    UnescapeEscape(t);
    NormalizeWithoutCR(s);
    NormalizeWithoutCR(t);
  }

  lemma {:induction false} EscapedIsSingleLine(s: string)
    ensures SingleLine(EscapedInOnePass(s))
    decreases |s|
  {
    if s == "" {
    } else if s[0] == '\r' && |s| > 1 && s[1] == '\n' {
      EscapedIsSingleLine(s[2..]);
    } else {
      EscapedIsSingleLine(s[1..]);
    }
  }

  /** An escaped value fits on one content line, whatever line breaks the text holds. */
  lemma EscapeIsSingleLine(s: string)
    ensures SingleLine(EscapeText(s))
  {
    EscapeTextIsOnePass(s);
    EscapedIsSingleLine(s);
  }

  lemma NormalizeKeepsEmptiness(s: string)
    ensures NormalizeNewlines(s) == "" <==> s == ""
  {
  }
}
