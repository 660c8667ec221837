/**
 One content line taken apart into its name, its parameters and its value, with quoted parameter values
 kept whole (sections 3.1 and 3.2 of RFC 5545).
 */
module Properties {
  import opened Prelude
  import opened Text

  datatype Property = Property(name: string, params: map<string, string>, value: string)

  /** Whether position i lies inside a quoted string: an odd number of quotes comes before it. */
  predicate InQuotes(s: string, i: nat)
    requires i <= |s|
  {
    i > 0 && InQuotes(s, i - 1) != (s[i - 1] == '"')
  }

  /** The first c outside quotes at or after i, or the length of s when there is none. */
  function FirstUnquoted(s: string, c: char, i: nat): (k: nat)
    requires i <= |s|
    ensures i <= k <= |s|
    ensures k < |s| ==> s[k] == c && !InQuotes(s, k)
    ensures forall j :: i <= j < k && s[j] == c ==> InQuotes(s, j)
    decreases |s| - i
  {
    if i == |s| || (s[i] == c && !InQuotes(s, i)) then i else FirstUnquoted(s, c, i + 1)
  }

  /** The pieces of s[start..] between separators outside quotes. */
  function UnquotedPieces(s: string, sep: char, start: nat): (r: seq<string>)
    requires start <= |s|
    ensures |r| >= 1
    decreases |s| - start
  {
    var k := FirstUnquoted(s, sep, start);
    if k == |s| then [s[start..]] else [s[start..k]] + UnquotedPieces(s, sep, k + 1)
  }

  method SplitUnquoted(s: string, sep: char) returns (out: seq<string>)
    requires sep != '"'
    ensures out == UnquotedPieces(s, sep, 0)
  {
    out := [];
    var inQuotes := false;
    var start := 0;
    var i := 0;
    while i < |s|
      invariant 0 <= start <= i <= |s|
      invariant inQuotes == InQuotes(s, i)
      invariant FirstUnquoted(s, sep, start) == FirstUnquoted(s, sep, i)
      invariant out + UnquotedPieces(s, sep, start) == UnquotedPieces(s, sep, 0)
    {
      if s[i] == '"' {
        inQuotes := !inQuotes;
      }
      if s[i] == sep && !inQuotes {
        PieceDone(out, s, sep, start, i);
        out := out + [s[start..i]];
        start := i + 1;
      }
      i := i + 1;
    }
    out := out + [s[start..]];
  }

  lemma PieceDone(done: seq<string>, s: string, sep: char, start: nat, i: nat)
    requires start <= i < |s| && s[i] == sep && !InQuotes(s, i)
    requires FirstUnquoted(s, sep, start) == FirstUnquoted(s, sep, i)
    ensures done + UnquotedPieces(s, sep, start) == done + [s[start..i]] + UnquotedPieces(s, sep, i + 1)
  {
  }

  /** Splitting loses nothing: with the separators put back, the text is as before. */
  lemma {:induction false} JoinUnquotedPieces(s: string, sep: char, start: nat)
    requires start <= |s|
    ensures Join(UnquotedPieces(s, sep, start), sep) == s[start..]
    decreases |s| - start
  {
    hide InQuotes;
    var k := FirstUnquoted(s, sep, start);
    if k < |s| {
      JoinUnquotedPieces(s, sep, k + 1);
      JoinCons(s[start..k], UnquotedPieces(s, sep, k + 1), sep);
      Reunite(s, start, k);
    }
  }

  lemma JoinCons(first: string, rest: seq<string>, sep: char)
    requires |rest| >= 1
    ensures Join([first] + rest, sep) == first + [sep] + Join(rest, sep)
  {
    assert ([first] + rest)[1..] == rest;
  }

  lemma Reunite(s: string, start: nat, k: nat)
    requires start <= k < |s|
    ensures s[start..k] + [s[k]] + s[k + 1..] == s[start..]
  {
  }

  /** One parameter: "name=value", white space and quotes taken off; anything else is skipped. */
  function AddParam(params: map<string, string>, part: string): map<string, string> {
    var eq := IndexFrom(part, '=', 0);
    if eq == |part| then params
    else params[ToUpper(TrimSpace(part[..eq])) := TrimQuotes(TrimSpace(part[eq + 1..]))]
  }

  function TrimQuotes(s: string): string {
    TrimRightOf(TrimLeftOf(s, "\""), "\"")
  }

  function ParamsOf(parts: seq<string>): map<string, string> {
    if parts == [] then map[] else AddParam(ParamsOf(parts[..|parts| - 1]), parts[|parts| - 1])
  }

  function SplitLine(line: string): Property {
    var colon := FirstUnquoted(line, ':', 0);
    if colon == |line| then Property(line, map[], "")
    else
      var parts := UnquotedPieces(line[..colon], ';', 0);
      Property(parts[0], ParamsOf(parts[1..]), line[colon + 1..])
  }

  method SplitProperty(line: string) returns (p: Property)
    ensures p == SplitLine(line)
  {
    var inQuotes := false;
    var colon := -1;
    var i := 0;
    while i < |line|
      invariant 0 <= i <= |line|
      invariant inQuotes == InQuotes(line, i)
      invariant colon == -1
      invariant FirstUnquoted(line, ':', 0) == FirstUnquoted(line, ':', i)
    {
      if line[i] == '"' {
        inQuotes := !inQuotes;
      } else if line[i] == ':' && !inQuotes {
        colon := i;
        break;
      }
      i := i + 1;
    }
    if colon < 0 {
      return Property(line, map[], "");
    }
    var head, value := line[..colon], line[colon + 1..];
    var parts := SplitUnquoted(head, ';');
    var params: map<string, string> := map[];
    for k := 1 to |parts|
      invariant params == ParamsOf(parts[1..k])
    {
      assert parts[1..k + 1][..|parts[1..k + 1]| - 1] == parts[1..k];
      params := AddParam(params, parts[k]);
    }
    assert parts[1..|parts|] == parts[1..];
    p := Property(parts[0], params, value);
  }

  /** A line of a name and a value: whatever the value holds, it stays the value. */
  lemma SplitPlain(name: string, value: string)
    requires '"' !in name && ':' !in name && ';' !in name
    ensures SplitLine(name + ":" + value) == Property(name, map[], value)
  {
    var line := name + ":" + value;
    NoQuotesBefore(line, |name|);
    FirstAt(line, ':', |name|);
    assert line[..|name|] == name && line[|name| + 1..] == value;
    NoUnquoted(name, ';');
    assert UnquotedPieces(name, ';', 0) == [name];
  }

  /** The same with parameters behind the name, when those hold no quote. */
  lemma SplitWithParam(name: string, params: string, value: string)
    requires '"' !in name && ':' !in name && ';' !in name
    requires '"' !in params && ':' !in params
    requires params != "" ==> params[0] == ';'
    ensures SplitLine(name + params + ":" + value).name == name
    ensures SplitLine(name + params + ":" + value).value == value
  {
    var head := name + params;
    var line := head + ":" + value;
    assert '"' !in head && ':' !in head;
    NoQuotesBefore(line, |head|);
    FirstAt(line, ':', |head|);
    assert line[..|head|] == head && line[|head| + 1..] == value;
    NoQuotesBefore(head, |head|);
    FirstAt(head, ';', |name|);
    assert head[..|name|] == name;
  }

  lemma {:induction false} NoQuotesBefore(s: string, i: nat)
    requires i <= |s| && forall j :: 0 <= j < i ==> s[j] != '"'
    ensures forall j :: 0 <= j <= i ==> !InQuotes(s, j)
  {
    if i > 0 {
      NoQuotesBefore(s, i - 1);
    }
  }

  lemma FirstAt(s: string, c: char, k: nat)
    requires k <= |s|
    requires forall j :: 0 <= j <= k ==> !InQuotes(s, j)
    requires forall j :: 0 <= j < k ==> s[j] != c
    requires k < |s| ==> s[k] == c
    ensures FirstUnquoted(s, c, 0) == k
  {
  }

  lemma NoUnquoted(s: string, c: char)
    requires c !in s
    ensures FirstUnquoted(s, c, 0) == |s|
  {
  }
}
