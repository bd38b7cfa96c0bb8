/** Unpadded base64url text (RFC 4648, sections 3.2 and 5) and the lenient decoder that reads it back. */
module Base64Url {
  import opened Options
  import Text

  type Byte = x: int | 0 <= x < 256

  function Digit(v: int): (c: char)
    requires 0 <= v < 64
    ensures c != '=' && c != '.' && Value(c) == Some(v) && c as int < 128
  {
    if v < 26 then ('A' as int + v) as char
    else if v < 52 then ('a' as int + (v - 26)) as char
    else if v < 62 then ('0' as int + (v - 52)) as char
    else if v == 62 then '-'
    else '_'
  }

  /** The value of a character; `+` and `/` are taken for `-` and `_`, other characters have none. */
  function Value(c: char): (v: Option<int>)
    ensures v.Some? ==> 0 <= v.value < 64
  {
    if 'A' <= c <= 'Z' then Some(c as int - 'A' as int)
    else if 'a' <= c <= 'z' then Some(c as int - 'a' as int + 26)
    else if '0' <= c <= '9' then Some(c as int - '0' as int + 52)
    else if c == '-' || c == '+' then Some(62)
    else if c == '_' || c == '/' then Some(63)
    else None
  }

  // ---------------------------------------------------------------- encoding

  /** Groups of three bytes, the last one filled up with `=`. */
  function Padded(bytes: seq<Byte>): string {
    if bytes == [] then ""
    else if |bytes| == 1 then [Digit(bytes[0] / 4), Digit(bytes[0] % 4 * 16), '=', '=']
    else if |bytes| == 2 then
      [Digit(bytes[0] / 4), Digit(bytes[0] % 4 * 16 + bytes[1] / 16), Digit(bytes[1] % 16 * 4), '=']
    else Group(bytes[0], bytes[1], bytes[2]) + Padded(bytes[3..])
  }

  function Group(a: Byte, b: Byte, c: Byte): (g: string)
    ensures |g| == 4
  {
    [Digit(a / 4), Digit(a % 4 * 16 + b / 16), Digit(b % 16 * 4 + c / 64), Digit(c % 64)]
  }

  function StripPadding(text: string): string {
    if text != "" && text[|text| - 1] == '=' then StripPadding(text[..|text| - 1]) else text
  }

  function Encode(bytes: seq<Byte>): string {
    StripPadding(Padded(bytes))
  }

  // ---------------------------------------------------------------- decoding

  /** Characters read of the current group, the bits left over, the padding seen, and the output. */
  datatype State = State(quad: int, left: int, pads: int, out: seq<int>, done: bool)

  const FRESH := State(0, 0, 0, [], false)

  function Read(st: State, c: char): State {
    if st.done then st
    else if c == '=' then
      if st.quad < 2 then st
      else if st.quad + st.pads + 1 >= 4 then st.(done := true)
      else st.(pads := st.pads + 1)
    else match Value(c)
      case None => st
      case Some(v) =>
        if st.quad == 0 then State(1, v, 0, st.out, false)
        else if st.quad == 1 then State(2, v % 16, 0, st.out + [st.left * 4 + v / 16], false)
        else if st.quad == 2 then State(3, v % 4, 0, st.out + [st.left * 16 + v / 4], false)
        else State(0, 0, 0, st.out + [st.left * 64 + v], false)
  }

  function ReadAll(st: State, text: string): State
    decreases text
  {
    if text == "" then st else ReadAll(Read(st, text[0]), text[1..])
  }

  /** Fails on text that is not ASCII and on a last group that is neither full nor padded. */
  function Lenient(text: string): Option<seq<int>> {
    if exists i :: 0 <= i < |text| && text[i] as int >= 128 then None
    else
      var end := ReadAll(FRESH, text);
      if end.done || end.quad == 0 then Some(end.out) else None
  }

  /** `"=" * (-len(text) % 4)` */
  function Refill(text: string): string {
    seq((-|text|) % 4, _ => '=')
  }

  function Decode(text: string): Option<seq<int>> {
    Lenient(text + Refill(text))
  }

  // ---------------------------------------------------------------- the round trip

  /** The encoded text without its padding. */
  function Plain(bytes: seq<Byte>): string {
    if bytes == [] then ""
    else if |bytes| == 1 then [Digit(bytes[0] / 4), Digit(bytes[0] % 4 * 16)]
    else if |bytes| == 2 then
      [Digit(bytes[0] / 4), Digit(bytes[0] % 4 * 16 + bytes[1] / 16), Digit(bytes[1] % 16 * 4)]
    else Group(bytes[0], bytes[1], bytes[2]) + Plain(bytes[3..])
  }

  predicate IsPlainText(text: string) {
    forall i :: 0 <= i < |text| ==> text[i] != '=' && text[i] != '.' && (text[i] as int) < 128
  }

  lemma {:induction false} PlainIsPlainText(bytes: seq<Byte>)
    ensures IsPlainText(Plain(bytes))
  {
    if |bytes| > 2 {
      PlainIsPlainText(bytes[3..]);
    }
  }

  /** How many bytes the last group lacks. */
  function Missing(n: nat): nat {
    if n % 3 == 1 then 2 else if n % 3 == 2 then 1 else 0
  }

  lemma OneGroupMore(n: nat, m: int)
    ensures (-(m + 4)) % 4 == (-m) % 4 && Missing(n + 3) == Missing(n)
  {
  }

  lemma {:induction false} LengthOfPlain(bytes: seq<Byte>)
    ensures (-|Plain(bytes)|) % 4 == Missing(|bytes|)
  {
    if |bytes| > 2 {
      LengthOfPlain(bytes[3..]);
      OneGroupMore(|bytes[3..]|, |Plain(bytes[3..])|);
    }
  }

  lemma {:induction false} PaddedIsPlain(bytes: seq<Byte>)
    ensures Padded(bytes) == Plain(bytes) + seq(Missing(|bytes|), _ => '=')
  {
    if |bytes| > 2 {
      var rest, g := bytes[3..], Group(bytes[0], bytes[1], bytes[2]);
      PaddedIsPlain(rest);
      OneGroupMore(|rest|, 0);
      Reassociate(g, Plain(rest), seq(Missing(|rest|), _ => '='));
      assert Padded(bytes) == g + Padded(rest) && Plain(bytes) == g + Plain(rest);
    }
  }

  lemma Reassociate(a: string, b: string, c: string)
    ensures a + (b + c) == (a + b) + c
  {
  }

  /** Refilling the padding gives back the padded text. */
  lemma RefillPadsAgain(bytes: seq<Byte>)
    ensures Padded(bytes) == Plain(bytes) + Refill(Plain(bytes))
  {
    PaddedIsPlain(bytes);
    LengthOfPlain(bytes);
  }

  lemma {:induction false} StripRefill(text: string, n: nat)
    requires IsPlainText(text)
    ensures StripPadding(text + seq(n, _ => '=')) == text
    decreases n
  {
    var padded := text + seq(n, _ => '=');
    if n == 0 {
      assert padded == text;
    } else {
      assert padded[..|padded| - 1] == text + seq(n - 1, _ => '=');
      StripRefill(text, n - 1);
    }
  }

  /** The text has no padding and no dot in it. */
  lemma EncodeIsPlain(bytes: seq<Byte>)
    ensures Encode(bytes) == Plain(bytes) && IsPlainText(Encode(bytes))
  {
    PlainIsPlainText(bytes);
    RefillPadsAgain(bytes);
    StripRefill(Plain(bytes), (-|Plain(bytes)|) % 4);
  }

  /** The bits of two neighbouring digits make the byte they were cut from. */
  lemma Bits(a: Byte, b: Byte, c: Byte)
    ensures a / 4 * 4 + (a % 4 * 16 + b / 16) / 16 == a
    ensures (a % 4 * 16 + b / 16) % 16 * 16 + (b % 16 * 4 + c / 64) / 4 == b
    ensures (b % 16 * 4 + c / 64) % 4 * 64 + c % 64 == c
  {
  }

  lemma ReadFour(st: State, c: char, d: char, e: char, f: char, rest: string)
    ensures ReadAll(st, [c, d, e, f] + rest) == ReadAll(Read(Read(Read(Read(st, c), d), e), f), rest)
  {
    var t0, t1, t2, t3 := [c, d, e, f] + rest, [d, e, f] + rest, [e, f] + rest, [f] + rest;
    assert t0[1..] == t1 && t1[1..] == t2 && t2[1..] == t3 && t3[1..] == rest;
    var s1 := Read(st, c);
    var s2 := Read(s1, d);
    var s3 := Read(s2, e);
    assert ReadAll(st, t0) == ReadAll(s1, t1);
    assert ReadAll(s1, t1) == ReadAll(s2, t2);
    assert ReadAll(s2, t2) == ReadAll(s3, t3);
  }

  lemma ReadGroup(st: State, a: Byte, b: Byte, c: Byte, rest: string)
    requires st.quad == 0 && !st.done
    ensures ReadAll(st, Group(a, b, c) + rest) == ReadAll(State(0, 0, 0, st.out + [a, b, c], false), rest)
  {
    var v1, v2, v3, v4 := a / 4, a % 4 * 16 + b / 16, b % 16 * 4 + c / 64, c % 64;
    ReadFour(st, Digit(v1), Digit(v2), Digit(v3), Digit(v4), rest);
    Bits(a, b, c);
    var s2 := Read(Read(st, Digit(v1)), Digit(v2));
    assert s2 == State(2, v2 % 16, 0, st.out + [a], false);
    var s3 := Read(s2, Digit(v3));
    assert s3 == State(3, v3 % 4, 0, st.out + [a] + [b], false);
    assert st.out + [a] + [b] + [c] == st.out + [a, b, c];
  }

  lemma ReadOneByte(st: State, a: Byte)
    requires st.quad == 0 && !st.done
    ensures var end := ReadAll(st, Padded([a])); end.out == st.out + [a] && end.done
  {
    Bits(a, 0, 0);
    ReadFour(st, Digit(a / 4), Digit(a % 4 * 16), '=', '=', "");
    assert Padded([a]) == [Digit(a / 4), Digit(a % 4 * 16), '=', '='] + "";
    var s2 := Read(Read(st, Digit(a / 4)), Digit(a % 4 * 16));
    assert s2 == State(2, 0, 0, st.out + [a], false);
  }

  lemma ReadTwoBytes(st: State, a: Byte, b: Byte)
    requires st.quad == 0 && !st.done
    ensures var end := ReadAll(st, Padded([a, b])); end.out == st.out + [a, b] && end.done
  {
    var v1, v2, v3 := a / 4, a % 4 * 16 + b / 16, b % 16 * 4;
    Bits(a, b, 0);
    ReadFour(st, Digit(v1), Digit(v2), Digit(v3), '=', "");
    assert Padded([a, b]) == [Digit(v1), Digit(v2), Digit(v3), '='] + "";
    var s2 := Read(Read(st, Digit(v1)), Digit(v2));
    assert s2 == State(2, v2 % 16, 0, st.out + [a], false);
    var s3 := Read(s2, Digit(v3));
    assert s3 == State(3, 0, 0, st.out + [a] + [b], false);
    assert st.out + [a] + [b] == st.out + [a, b];
  }

  lemma ReadEnd(st: State, bytes: seq<Byte>)
    requires st.quad == 0 && !st.done && 1 <= |bytes| <= 2
    ensures var end := ReadAll(st, Padded(bytes)); end.out == st.out + bytes && end.done
  {
    if |bytes| == 1 {
      ReadOneByte(st, bytes[0]);
      assert bytes == [bytes[0]];
    } else {
      ReadTwoBytes(st, bytes[0], bytes[1]);
      assert bytes == [bytes[0], bytes[1]];
    }
  }

  lemma {:induction false} ReadPadded(st: State, bytes: seq<Byte>)
    requires st.quad == 0 && !st.done
    ensures var end := ReadAll(st, Padded(bytes)); end.out == st.out + bytes && (end.done || end.quad == 0)
    decreases bytes
  {
    if bytes == [] {
    } else if |bytes| < 3 {
      ReadEnd(st, bytes);
    } else {
      var next := State(0, 0, 0, st.out + [bytes[0], bytes[1], bytes[2]], false);
      ReadGroup(st, bytes[0], bytes[1], bytes[2], Padded(bytes[3..]));
      ReadPadded(next, bytes[3..]);
      assert next.out + bytes[3..] == st.out + bytes;
    }
  }

  /** Every byte string is read back from its text. */
  lemma RoundTrip(bytes: seq<Byte>)
    ensures Decode(Encode(bytes)) == Some(bytes)
  {
    EncodeIsPlain(bytes);
    RefillPadsAgain(bytes);
    ReadPadded(FRESH, bytes);
    assert FRESH.out + bytes == bytes;
  }

  /** Different byte strings have different texts. */
  lemma EncodeIsInjective(a: seq<Byte>, b: seq<Byte>)
    requires Encode(a) == Encode(b)
    ensures a == b
  {
    RoundTrip(a);
    RoundTrip(b);
  }

  // ---------------------------------------------------------------- other texts

  const ALPHABET := Text.UPPER + Text.LOWER + Text.DIGITS + "-_"

  /** A digit is the character at its place in a row of consecutive characters. */
  lemma RowAt(row: string, first: char, i: nat, c: char)
    requires i < |row| && forall k :: 0 <= k < |row| ==> row[k] as int == first as int + k
    requires c as int == first as int + i
    ensures row[i] == c
  {
    assert row[i] as int == c as int;
  }

  lemma UpperDigit(v: nat)
    requires v < 26
    ensures Text.UPPER[v] == Digit(v)
  {
    RowAt(Text.UPPER, 'A', v, Digit(v));
  }

  lemma LowerDigit(v: nat)
    requires 26 <= v < 52
    ensures Text.LOWER[v - 26] == Digit(v)
  {
    RowAt(Text.LOWER, 'a', v - 26, Digit(v));
  }

  lemma NumberDigit(v: nat)
    requires 52 <= v < 62
    ensures Text.DIGITS[v - 52] == Digit(v)
  {
    RowAt(Text.DIGITS, '0', v - 52, Digit(v));
  }

  lemma AlphabetAt(v: nat)
    requires v < 64
    ensures |ALPHABET| == 64
    ensures v < 26 ==> ALPHABET[v] == Text.UPPER[v]
    ensures 26 <= v < 52 ==> ALPHABET[v] == Text.LOWER[v - 26]
    ensures 52 <= v < 62 ==> ALPHABET[v] == Text.DIGITS[v - 52]
    ensures v >= 62 ==> ALPHABET[v] == "-_"[v - 62]
  {
  }

  /** The digits are the alphabet of RFC 4648, section 5. */
  lemma DigitIs(v: nat)
    requires v < 64
    ensures |ALPHABET| == 64 && Digit(v) == ALPHABET[v] && Value(ALPHABET[v]) == Some(v)
  {
    AlphabetAt(v);
    if v < 26 {
      UpperDigit(v);
    } else if v < 52 {
      LowerDigit(v);
    } else if v < 62 {
      NumberDigit(v);
    }
  }

  lemma OnlyTheseHaveValues(c: char)
    requires Value(c).Some?
    ensures c in ALPHABET || c == '+' || c == '/'
  {
    if c != '+' && c != '/' {
      DigitOfValue(c);
      DigitIs(Value(c).value);
      assert ALPHABET[Value(c).value] in ALPHABET;
    }
  }

  lemma DigitOfValue(c: char)
    requires Value(c).Some? && c != '+' && c != '/'
    ensures Digit(Value(c).value) == c
  {
  }

  lemma TheseHaveValues(c: char)
    requires c in ALPHABET || c == '+' || c == '/'
    ensures Value(c).Some?
  {
    if c in ALPHABET {
      var v: nat :| v < |ALPHABET| && ALPHABET[v] == c;
      DigitIs(v);
    }
  }

  /** These have a value, and the two characters that they replace; no other character has one. */
  lemma AlphabetIs(c: char)
    ensures Value('+') == Some(62) && Value('/') == Some(63)
    ensures Value(c).Some? <==> c in ALPHABET || c == '+' || c == '/'
  {
    if Value(c).Some? {
      OnlyTheseHaveValues(c);
    }
    if c in ALPHABET || c == '+' || c == '/' {
      TheseHaveValues(c);
    }
  }

  /** Text with a character that is not ASCII is refused. */
  lemma NonAsciiIsRefused(text: string, i: nat)
    requires i < |text| && text[i] as int >= 128
    ensures Decode(text) == None
  {
    assert (text + Refill(text))[i] == text[i];
  }

  lemma {:induction false} ReadAllAppend(st: State, a: string, b: string)
    ensures ReadAll(st, a + b) == ReadAll(ReadAll(st, a), b)
    decreases a
  {
    if a == "" {
      assert a + b == b;
    } else {
      assert (a + b)[1..] == a[1..] + b;
      ReadAllAppend(Read(st, a[0]), a[1..], b);
    }
  }

  /** The decoder steps over ASCII characters that are not in the alphabet. */
  lemma ForeignIsSkipped(a: string, c: char, b: string)
    requires c != '=' && c !in ALPHABET && c != '+' && c != '/' && c as int < 128
    ensures Lenient(a + [c] + b) == Lenient(a + b)
  {
    AlphabetIs(c);
    var with, without := a + [c] + b, a + b;
    ReadAllAppend(FRESH, a, [c] + b);
    ReadAllAppend(FRESH, a, b);
    assert with == a + ([c] + b) && ([c] + b)[1..] == b;
    if i :| 0 <= i < |without| && without[i] as int >= 128 {
      assert with[if i < |a| then i else i + 1] == without[i];
    }
    if i :| 0 <= i < |with| && with[i] as int >= 128 {
      assert without[if i < |a| then i else i - 1] == with[i];
    }
  }

  /** A last group of two characters needs two pads and one of three needs one; one character alone is
      refused, however it is padded. */
  lemma PaddingIs(a: char, b: char, c: char)
    requires a in ALPHABET && b in ALPHABET && c in ALPHABET
    ensures Lenient([a, b, '=', '=']).Some? && Lenient([a, b, '=']) == None && Lenient([a, b]) == None
    ensures Lenient([a, b, c, '=']).Some? && Lenient([a, b, c]) == None
    ensures Lenient([a, '=', '=', '=']) == None && Lenient([a, '=', '=']) == None && Lenient([a]) == None
  {
    HasValue(a);
    HasValue(b);
    HasValue(c);
    EndsAfter(a, b, c);
    EndIs([a, b, '=', '=']);
    EndIs([a, b, '=']);
    EndIs([a, b]);
    EndIs([a, b, c, '=']);
    EndIs([a, b, c]);
    EndIs([a, '=', '=', '=']);
    EndIs([a, '=', '=']);
    EndIs([a]);
  }

  lemma HasValue(c: char)
    requires c in ALPHABET
    ensures Value(c).Some? && c as int < 128
  {
    AlphabetIs(c);
  }

  lemma EndIs(text: string)
    requires forall i :: 0 <= i < |text| ==> text[i] as int < 128
    ensures Lenient(text).Some? <==> ReadAll(FRESH, text).done || ReadAll(FRESH, text).quad == 0
  {
  }

  lemma EndsAfter(a: char, b: char, c: char)
    requires Value(a).Some? && Value(b).Some? && Value(c).Some?
    ensures ReadAll(FRESH, [a]).quad == 1 && !ReadAll(FRESH, [a]).done
    ensures ReadAll(FRESH, [a, '=', '=', '=']) == ReadAll(FRESH, [a, '=', '=']) == ReadAll(FRESH, [a])
    ensures ReadAll(FRESH, [a, b]).quad == 2 && !ReadAll(FRESH, [a, b]).done
    ensures ReadAll(FRESH, [a, b, '=']).quad == 2 && !ReadAll(FRESH, [a, b, '=']).done
    ensures ReadAll(FRESH, [a, b, '=', '=']).done
    ensures ReadAll(FRESH, [a, b, c]).quad == 3 && !ReadAll(FRESH, [a, b, c]).done
    ensures ReadAll(FRESH, [a, b, c, '=']).done
  {
    var one := Read(FRESH, a);
    var two := Read(one, b);
    var three := Read(two, c);
    ReadSome(FRESH, a, []);
    ReadSome(FRESH, a, ['=', '=']);
    ReadSome(FRESH, a, ['=', '=', '=']);
    ReadSome(one, '=', ['=']);
    ReadSome(one, '=', ['=', '=']);
    ReadSome(one, '=', []);
    ReadSome(FRESH, a, [b]);
    ReadSome(one, b, []);
    ReadSome(FRESH, a, [b, '=']);
    ReadSome(one, b, ['=']);
    ReadSome(two, '=', []);
    ReadSome(FRESH, a, [b, '=', '=']);
    ReadSome(one, b, ['=', '=']);
    ReadSome(two, '=', ['=']);
    ReadSome(Read(two, '='), '=', []);
    ReadSome(FRESH, a, [b, c]);
    ReadSome(one, b, [c]);
    ReadSome(two, c, []);
    ReadSome(FRESH, a, [b, c, '=']);
    ReadSome(one, b, [c, '=']);
    ReadSome(two, c, ['=']);
    ReadSome(three, '=', []);
  }

  lemma ReadSome(st: State, c: char, rest: string)
    ensures ReadAll(st, [c] + rest) == ReadAll(Read(st, c), rest)
    ensures ReadAll(st, [c]) == Read(st, c)
  {
    assert ([c] + rest)[1..] == rest;
  }
}
