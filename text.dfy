/**
  The pieces of the .NET string library that the controller relies on, stated as functions:
  case-insensitive name comparison (StringComparison.OrdinalIgnoreCase, restricted to ASCII
  letters), Char.IsWhiteSpace, String.IsNullOrWhiteSpace and the line joining done by
  StringBuilder.AppendLine, each with an independent definition it is proved against.
*/
module Text {
  import opened Wrappers

  /** Environment.NewLine on the Windows .NET Framework, appended by StringBuilder.AppendLine. */
  const NewLine: string := "\r\n"

  // ---------------------------------------------------------------- case folding

  /** Upper-case mapping of one character; only ASCII letters change. */
  function UpperChar(c: char): (u: char)
    ensures !('a' <= u <= 'z')
    ensures !('a' <= c <= 'z') ==> u == c
  {
    if 'a' <= c <= 'z' then (c as int - 32) as char else c
  }

  /** Lower-case mapping of one character; only ASCII letters change. */
  function LowerChar(c: char): (l: char)
    ensures !('A' <= l <= 'Z')
    ensures !('A' <= c <= 'Z') ==> l == c
  {
    if 'A' <= c <= 'Z' then (c as int + 32) as char else c
  }

  /** Upper-cases every ASCII letter; no lower-case ASCII letter remains. */
  function ToUpper(s: string): (r: string)
    ensures |r| == |s| && forall i :: 0 <= i < |r| ==> !('a' <= r[i] <= 'z')
  {
    seq(|s|, i requires 0 <= i < |s| => UpperChar(s[i]))
  }

  /** Lower-cases every ASCII letter; no upper-case ASCII letter remains. */
  function ToLower(s: string): (r: string)
    ensures |r| == |s| && forall i :: 0 <= i < |r| ==> !('A' <= r[i] <= 'Z')
  {
    seq(|s|, i requires 0 <= i < |s| => LowerChar(s[i]))
  }

  /** Two strings are equal ignoring case when they agree character by character after upper-casing. */
  predicate EqualsIgnoreCase(a: string, b: string)
  {
    |a| == |b| && forall i :: 0 <= i < |a| ==> UpperChar(a[i]) == UpperChar(b[i])
  }

  /** Ignoring case is the same as comparing the upper-cased strings. */
  lemma EqualsIgnoreCaseIsUpperEquality(a: string, b: string)
    ensures EqualsIgnoreCase(a, b) <==> ToUpper(a) == ToUpper(b)
  {
    if ToUpper(a) == ToUpper(b) {
      forall i | 0 <= i < |a| ensures UpperChar(a[i]) == UpperChar(b[i]) {
        assert ToUpper(a)[i] == ToUpper(b)[i];
      }
    }
  }

  /** Comparison ignoring case is an equivalence relation. */
  lemma EqualsIgnoreCaseIsEquivalence(a: string, b: string, c: string)
    ensures EqualsIgnoreCase(a, a)
    ensures EqualsIgnoreCase(a, b) ==> EqualsIgnoreCase(b, a)
    ensures EqualsIgnoreCase(a, b) && EqualsIgnoreCase(b, c) ==> EqualsIgnoreCase(a, c)
  {
  }

  /** Every spelling obtained by changing the case of ASCII letters still matches. */
  lemma CaseChangesMatch(s: string)
    ensures EqualsIgnoreCase(ToUpper(s), s)
    ensures EqualsIgnoreCase(ToLower(s), s)
  {
  }

  // ---------------------------------------------------------------- white space

  /** Char.IsWhiteSpace: the space, line and paragraph separators of Unicode plus U+0009..U+000D and U+0085. */
  predicate IsWhiteSpace(c: char)
  {
    var n := c as int;
    || 0x09 <= n <= 0x0D || n == 0x20 || n == 0x85 || n == 0xA0 || n == 0x1680
    || 0x2000 <= n <= 0x200A || n == 0x2028 || n == 0x2029 || n == 0x202F || n == 0x205F || n == 0x3000
  }

  /** String.IsNullOrWhiteSpace: null, empty, or white space only. */
  predicate IsNullOrWhiteSpace(s: Option<string>)
  {
    s.None? || forall i :: 0 <= i < |s.value| ==> IsWhiteSpace(s.value[i])
  }

  /** Removes leading white space (String.TrimStart with no arguments). */
  function TrimStart(s: string): (r: string)
    ensures |r| <= |s| && r == s[|s| - |r|..]
    ensures r != [] ==> !IsWhiteSpace(r[0])
    decreases |s|
  {
    if s != [] && IsWhiteSpace(s[0]) then TrimStart(s[1..]) else s
  }

  /** Removes trailing white space (String.TrimEnd with no arguments). */
  function TrimEnd(s: string): (r: string)
    ensures |r| <= |s| && r == s[..|r|]
    ensures r != [] ==> !IsWhiteSpace(r[|r| - 1])
    decreases |s|
  {
    if s != [] && IsWhiteSpace(s[|s| - 1]) then TrimEnd(s[..|s| - 1]) else s
  }

  /** String.Trim with no arguments. */
  function Trim(s: string): string
  {
    TrimEnd(TrimStart(s))
  }

  lemma {:induction false} TrimStartEmpty(s: string)
    ensures TrimStart(s) == [] <==> forall i :: 0 <= i < |s| ==> IsWhiteSpace(s[i])
    decreases |s|
  {
    if s != [] && IsWhiteSpace(s[0]) {
      TrimStartEmpty(s[1..]);
      assert forall i :: 1 <= i < |s| ==> s[i] == s[1..][i - 1];
    }
  }

  lemma {:induction false} TrimEndEmpty(s: string)
    ensures TrimEnd(s) == [] <==> forall i :: 0 <= i < |s| ==> IsWhiteSpace(s[i])
    decreases |s|
  {
    if s != [] && IsWhiteSpace(s[|s| - 1]) {
      TrimEndEmpty(s[..|s| - 1]);
      assert forall i :: 0 <= i < |s| - 1 ==> s[i] == s[..|s| - 1][i];
    }
  }

  /** A non-null string is white space only exactly when trimming leaves nothing. */
  lemma NullOrWhiteSpaceIsEmptyAfterTrim(s: string)
    ensures IsNullOrWhiteSpace(Some(s)) <==> Trim(s) == []
  {
    TrimStartEmpty(s);
    TrimEndEmpty(TrimStart(s));
  }

  // ---------------------------------------------------------------- lines

  /** The text a StringBuilder holds after AppendLine has been called once per line, in order. */
  function Joined(lines: seq<string>): (r: string)
    ensures lines != [] ==> |r| >= 2 && r[|r| - 2..] == NewLine
  {
    if lines == [] then [] else lines[0] + NewLine + Joined(lines[1..])
  }

  /** A line that AppendLine adds must not hold a carriage return, or splitting cannot recover it. */
  predicate IsLine(s: string)
  {
    '\r' !in s
  }

  /** Every element of `lines` can be appended as a line. */
  predicate AllLines(lines: seq<string>)
  {
    forall i :: 0 <= i < |lines| ==> IsLine(lines[i])
  }

  /** The first line of s (up to the first NewLine) and the text after that NewLine. */
  function TakeLine(s: string): (r: (string, string))
    requires s != []
    ensures |r.1| < |s|
    decreases |s|
  {
    if |s| >= 2 && s[0] == '\r' && s[1] == '\n' then ("", s[2..])
    else if |s| == 1 then (s, "")
    else var (line, rest) := TakeLine(s[1..]); ([s[0]] + line, rest)
  }

  /** Splits a text into the lines NewLine ends; a last fragment without NewLine is a line too. */
  function SplitLines(s: string): seq<string>
    decreases |s|
  {
    if s == [] then [] else var (line, rest) := TakeLine(s); [line] + SplitLines(rest)
  }

  lemma {:induction false} TakeLineOf(line: string, rest: string)
    requires IsLine(line)
    ensures TakeLine(line + NewLine + rest) == (line, rest)
    decreases |line|
  {
    var s := line + NewLine + rest;
    if line != [] {
      assert s[1..] == line[1..] + NewLine + rest;
      assert IsLine(line[1..]) by { assert forall c :: c in line[1..] ==> c in line; }
      TakeLineOf(line[1..], rest);
      assert [line[0]] + line[1..] == line;
    } else {
      assert s[2..] == rest;
    }
  }

  /** Splitting the text that AppendLine built gives back the appended lines. */
  lemma {:induction false} SplitJoined(lines: seq<string>)
    requires AllLines(lines)
    ensures SplitLines(Joined(lines)) == lines
  {
    if lines != [] {
      TakeLineOf(lines[0], Joined(lines[1..]));
      SplitJoined(lines[1..]);
    }
  }

  /** Line k of the built text sits between the first k lines and the rest. */
  lemma {:induction false} JoinedAt(lines: seq<string>, k: nat)
    requires k < |lines|
    ensures Joined(lines) == Joined(lines[..k]) + lines[k] + NewLine + Joined(lines[k + 1..])
  {
    if k > 0 {
      JoinedAt(lines[1..], k - 1);
      assert lines[1..][..k - 1] == lines[1..k];
      assert lines[1..][k..] == lines[k + 1..];
      assert lines[..k][1..] == lines[1..k];
    } else {
      assert lines[..0] == [];
    }
  }
}
