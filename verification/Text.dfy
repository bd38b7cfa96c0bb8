/** Character classes and line structure as Python's `re`, `str.strip` and `str.splitlines` see them. */
module Text {

  /** `[A-Za-z_]` */
  predicate IsIdentStart(c: char) {
    'A' <= c <= 'Z' || 'a' <= c <= 'z' || c == '_'
  }

  /** `[A-Za-z_0-9]` */
  predicate IsIdentChar(c: char) {
    IsIdentStart(c) || '0' <= c <= '9'
  }

  /** A whole match of `[A-Za-z_][A-Za-z_0-9]*`. */
  predicate IsIdent(s: string) {
    s != [] && IsIdentStart(s[0]) && forall c | c in s :: IsIdentChar(c)
  }

  /** The characters at which `str.splitlines` breaks a line. */
  predicate IsLineBreak(c: char) {
    '\U{a}' <= c <= '\U{d}' || '\U{1c}' <= c <= '\U{1e}' || c == '\U{85}' || c == '\U{2028}' || c == '\U{2029}'
  }

  /** The characters that `str.strip` removes. */
  predicate IsSpace(c: char) {
    || IsLineBreak(c) || c == '\t' || c == '\U{1f}' || c == ' ' || c == '\U{a0}' || c == '\U{1680}'
    || '\U{2000}' <= c <= '\U{200a}' || c == '\U{202f}' || c == '\U{205f}' || c == '\U{3000}'
  }

  const UPPER := "ABCDEFGHIJKLMNOPQRSTUVWXYZ"

  const LOWER := "abcdefghijklmnopqrstuvwxyz"

  const DIGITS := "0123456789"

  const BREAKS := "\n\U{b}\U{c}\r\U{1c}\U{1d}\U{1e}\U{85}\U{2028}\U{2029}"

  const BLANKS := "\t\U{1f} \U{a0}\U{1680}\U{2000}\U{2001}\U{2002}\U{2003}\U{2004}\U{2005}\U{2006}\U{2007}\U{2008}\U{2009}\U{200a}\U{202f}\U{205f}\U{3000}"

  /** The classes, character by character. */
  lemma ClassesAre(c: char)
    ensures IsIdentStart(c) <==> c in UPPER || c in LOWER || c == '_'
    ensures IsIdentChar(c) <==> IsIdentStart(c) || c in DIGITS
    ensures IsLineBreak(c) <==> c in BREAKS
    ensures IsSpace(c) <==> IsLineBreak(c) || c in BLANKS
  {
    IsInRow(UPPER, 'A', c);
    IsInRow(LOWER, 'a', c);
    IsInRow(DIGITS, '0', c);
    BlanksAre(c);
  }

  lemma IsInRow(row: string, first: char, c: char)
    requires forall i :: 0 <= i < |row| ==> row[i] as int == first as int + i
    ensures c in row <==> first as int <= c as int < first as int + |row|
  {
    if first as int <= c as int < first as int + |row| {
      assert row[c as int - first as int] == c;
    }
  }

  lemma BlanksAre(c: char)
    ensures IsLineBreak(c) <==> c in BREAKS
    ensures IsSpace(c) <==> IsLineBreak(c) || c in BLANKS
  {
  }

  function LStrip(s: string): string {
    if s != [] && IsSpace(s[0]) then LStrip(s[1..]) else s
  }

  function RStrip(s: string): string {
    if s != [] && IsSpace(s[|s| - 1]) then RStrip(s[..|s| - 1]) else s
  }

  function Strip(s: string): string {
    RStrip(LStrip(s))
  }

  predicate NoLineBreak(s: string) {
    forall i | 0 <= i < |s| :: !IsLineBreak(s[i])
  }

  predicate OneLineEach(lines: seq<string>) {
    forall i | 0 <= i < |lines| :: NoLineBreak(lines[i])
  }

  /** The length of the first line. */
  function LineLength(s: string): (n: nat)
    ensures n <= |s| && forall i | 0 <= i < n :: !IsLineBreak(s[i])
    ensures n < |s| ==> IsLineBreak(s[n])
  {
    if s == [] || IsLineBreak(s[0]) then 0 else 1 + LineLength(s[1..])
  }

  /** A nonempty text as its first line and what follows the line break. */
  function FirstLine(s: string): (r: (string, string))
    requires s != []
    ensures NoLineBreak(r.0) && |r.1| < |s|
  {
    var n := LineLength(s);
    if n == |s| then (s, "")
    else if s[n] == '\r' && n + 1 < |s| && s[n + 1] == '\n' then (s[..n], s[n + 2..])
    else (s[..n], s[n + 1..])
  }

  function SplitLines(s: string): seq<string>
    decreases |s|
  {
    if s == [] then [] else [FirstLine(s).0] + SplitLines(FirstLine(s).1)
  }

  /** `separator.join(parts)` */
  function Join(parts: seq<string>, separator: string): string {
    if parts == [] then []
    else if |parts| == 1 then parts[0]
    else parts[0] + separator + Join(parts[1..], separator)
  }

  /** Every line followed by a newline. */
  function Unlines(lines: seq<string>): string {
    if lines == [] then [] else lines[0] + "\n" + Unlines(lines[1..])
  }

  lemma LineLengthOfLine(line: string, rest: string)
    requires NoLineBreak(line)
    ensures LineLength(line + "\n" + rest) == |line|
  {
    var s := line + "\n" + rest;
    assert s[|line|] == '\n' && forall i | 0 <= i < |line| :: s[i] == line[i];
  }

  lemma SplitLinesOfLine(line: string, rest: string)
    requires NoLineBreak(line)
    ensures SplitLines(line + "\n" + rest) == [line] + SplitLines(rest)
  {
    LineLengthOfLine(line, rest);
    var s := line + "\n" + rest;
    assert s[..|line|] == line && s[|line| + 1..] == rest;
  }

  /** Any of the breaks ends a line, and a carriage return with a newline behind it is one break. */
  lemma SplitLinesAtBreak(line: string, c: char, rest: string)
    requires NoLineBreak(line) && IsLineBreak(c)
    ensures SplitLines(line + [c] + rest)
         == [line] + SplitLines(if c == '\r' && rest != "" && rest[0] == '\n' then rest[1..] else rest)
  {
    var s := line + [c] + rest;
    assert s[|line|] == c && forall i | 0 <= i < |line| :: s[i] == line[i];
    assert LineLength(s) == |line|;
    assert s[..|line|] == line && s[|line| + 1..] == rest;
    if c == '\r' && rest != "" && rest[0] == '\n' {
      assert s[|line| + 1] == '\n' && s[|line| + 2..] == rest[1..];
    }
  }

  lemma SplitLinesOfLast(line: string)
    requires NoLineBreak(line) && line != ""
    ensures SplitLines(line) == [line]
  {
    assert LineLength(line) == |line|;
    assert SplitLines("") == [];
  }

  /** Lines written with a newline each are read back unchanged. */
  lemma {:induction false} SplitLinesUnlines(lines: seq<string>)
    requires OneLineEach(lines)
    ensures SplitLines(Unlines(lines)) == lines
  {
    if lines != [] {
      SplitLinesOfLine(lines[0], Unlines(lines[1..]));
      SplitLinesUnlines(lines[1..]);
    }
  }

  lemma {:induction false} UnlinesAppend(a: seq<string>, b: seq<string>)
    ensures Unlines(a + b) == Unlines(a) + Unlines(b)
  {
    if a == [] {
      assert a + b == b;
    } else {
      UnlinesAppend(a[1..], b);
      assert (a + b)[1..] == a[1..] + b;
    }
  }

  lemma {:induction false} JoinIsUnlines(lines: seq<string>)
    requires lines != []
    ensures Join(lines, "\n") + "\n" == Unlines(lines)
  {
    if |lines| > 1 {
      JoinIsUnlines(lines[1..]);
    } else {
      assert Unlines(lines[1..]) == [];
    }
  }

  lemma {:induction false} SplitLinesHaveNoBreak(s: string)
    ensures OneLineEach(SplitLines(s))
    decreases |s|
  {
    if s != [] {
      SplitLinesHaveNoBreak(FirstLine(s).1);
    }
  }

  // ---------------------------------------------------------------- what is stripped

  lemma {:induction false} LStripPad(pad: string, s: string)
    requires forall i :: 0 <= i < |pad| ==> IsSpace(pad[i])
    ensures LStrip(pad + s) == LStrip(s)
  {
    if pad == "" {
      assert pad + s == s;
    } else {
      assert (pad + s)[1..] == pad[1..] + s;
      LStripPad(pad[1..], s);
    }
  }

  lemma {:induction false} RStripPad(s: string, pad: string)
    requires forall i :: 0 <= i < |pad| ==> IsSpace(pad[i])
    ensures RStrip(s + pad) == RStrip(s)
    decreases pad
  {
    if pad == "" {
      assert s + pad == s;
    } else {
      var last := |pad| - 1;
      assert (s + pad)[..|s + pad| - 1] == s + pad[..last];
      RStripPad(s, pad[..last]);
    }
  }

  lemma {:induction false} LStripAt(s: string, n: nat)
    requires n <= |s| && (forall i :: 0 <= i < n ==> IsSpace(s[i])) && (n < |s| ==> !IsSpace(s[n]))
    ensures LStrip(s) == s[n..]
  {
    if n > 0 {
      assert s[1..][n - 1..] == s[n..];
      LStripAt(s[1..], n - 1);
    }
  }

  lemma {:induction false} RStripKeepsStart(s: string, n: nat)
    requires n <= |s| && forall i :: 0 <= i < n ==> !IsSpace(s[i])
    ensures n <= |RStrip(s)| && RStrip(s) <= s
    decreases |s|
  {
    if s != [] && IsSpace(s[|s| - 1]) {
      RStripKeepsStart(s[..|s| - 1], n);
    }
  }

  /** Begins and ends with something that is not stripped. */
  predicate IsTight(s: string) {
    s != "" && !IsSpace(s[0]) && !IsSpace(s[|s| - 1])
  }

  lemma StripTight(pad: string, s: string, tail: string)
    requires IsTight(s)
    requires forall i :: 0 <= i < |pad| ==> IsSpace(pad[i])
    requires forall i :: 0 <= i < |tail| ==> IsSpace(tail[i])
    ensures Strip(pad + s + tail) == s && LStrip(pad + s + tail) == s + tail
  {
    assert pad + s + tail == pad + (s + tail);
    LStripPad(pad, s + tail);
    RStripPad(s, tail);
  }
}
