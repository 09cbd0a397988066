/** The C string literals written for string constants
    (`encode_as_c_string` in mypyc/emitmodule.py): the UTF-8 encoding of a
    string, the escapes Python's `repr` of the bytes produces, and the
    bytes a C compiler stores for the characters between the quotes of a
    literal. */
module CString {
  import opened Wrappers
  import opened Strings

  newtype byte = x: int | 0 <= x < 256

  // ------------------------------------------------------------------ UTF-8

  /** `c.encode('utf-8')` for one Unicode scalar value: the lead byte
      holds the high bits, each continuation byte six more. */
  function Utf8Char(c: char): (r: seq<byte>)
    ensures |r| == Utf8Width(c)
  {
    var v := c as int;
    if v < 0x80 then [v as byte]
    else if v < 0x800 then [(0xC0 + v / 64) as byte, (0x80 + v % 64) as byte]
    else if v < 0x10000 then
      [(0xE0 + v / 64 / 64) as byte, (0x80 + v / 64 % 64) as byte, (0x80 + v % 64) as byte]
    else
      [(0xF0 + v / 64 / 64 / 64) as byte, (0x80 + v / 64 / 64 % 64) as byte, (0x80 + v / 64 % 64) as byte,
       (0x80 + v % 64) as byte]
  }

  /** The code point a well-formed UTF-8 sequence of one to four bytes
      stands for: the lead byte's payload followed by six bits from each
      continuation byte. */
  function Utf8Value(bs: seq<byte>): int
    requires 1 <= |bs| <= 4
  {
    var lead := bs[0] as int;
    if |bs| == 1 then lead
    else if |bs| == 2 then (lead - 0xC0) * 64 + (bs[1] as int - 0x80)
    else if |bs| == 3 then ((lead - 0xE0) * 64 + (bs[1] as int - 0x80)) * 64 + (bs[2] as int - 0x80)
    else (((lead - 0xF0) * 64 + (bs[1] as int - 0x80)) * 64 + (bs[2] as int - 0x80)) * 64 + (bs[3] as int - 0x80)
  }

  /** The encoding of a character decodes back to it; every byte after the
      first is a continuation byte, and only a one-byte encoding is ASCII. */
  lemma Utf8CharDecodes(c: char)
    ensures Utf8Value(Utf8Char(c)) == c as int
    ensures forall i :: 1 <= i < |Utf8Char(c)| ==> 0x80 <= Utf8Char(c)[i] < 0xC0
    ensures (Utf8Char(c)[0] < 0x80) <==> |Utf8Char(c)| == 1
  {
    var v := c as int;
    var a := v / 64;
    var b := a / 64;
    assert v == a * 64 + v % 64;
    assert a == b * 64 + a % 64;
    assert b == b / 64 * 64 + b % 64;
  }

  /** `s.encode('utf-8')`. */
  function Utf8Bytes(s: string): (r: seq<byte>)
    ensures |r| == Utf8Length(s)
  {
    if s == [] then [] else Utf8Char(s[0]) + Utf8Bytes(s[1..])
  }

  // --------------------------------------------------- reading a C literal

  predicate IsHexChar(c: char) {
    '0' <= c <= '9' || 'a' <= c <= 'f' || 'A' <= c <= 'F'
  }

  function HexValue(c: char): nat
    requires IsHexChar(c)
  {
    if '0' <= c <= '9' then c as int - '0' as int
    else if 'a' <= c <= 'f' then c as int - 'a' as int + 10
    else c as int - 'A' as int + 10
  }

  predicate IsOctChar(c: char) {
    '0' <= c <= '7'
  }

  /** The number of leading hexadecimal digits. */
  function HexRun(s: string): (n: nat)
    ensures n <= |s| && forall i :: 0 <= i < n ==> IsHexChar(s[i])
    ensures n < |s| ==> !IsHexChar(s[n])
  {
    if s != [] && IsHexChar(s[0]) then 1 + HexRun(s[1..]) else 0
  }

  /** The number of leading octal digits, at most three. */
  function OctRun(s: string): (n: nat)
    ensures n <= 3 && n <= |s| && forall i :: 0 <= i < n ==> IsOctChar(s[i])
  {
    if |s| == 0 || !IsOctChar(s[0]) then 0
    else if |s| == 1 || !IsOctChar(s[1]) then 1
    else if |s| == 2 || !IsOctChar(s[2]) then 2
    else 3
  }

  /** The number written by a run of digits in the given base. */
  function DigitsValue(s: string, base: nat): nat
    requires base == 8 || base == 16
    requires forall i :: 0 <= i < |s| ==> IsHexChar(s[i])
  {
    if s == [] then 0 else DigitsValue(s[..|s| - 1], base) * base + HexValue(s[|s| - 1])
  }

  /** The value of three digits. */
  lemma DigitsValueThree(t: string, base: nat)
    requires base == 8 || base == 16
    requires |t| == 3 && forall i :: 0 <= i < 3 ==> IsHexChar(t[i])
    ensures DigitsValue(t, base) == (HexValue(t[0]) * base + HexValue(t[1])) * base + HexValue(t[2])
  {
    var one := t[..2][..1];
    assert one == [t[0]] && one[..0] == [];
    assert DigitsValue(one, base) == HexValue(t[0]);
    assert DigitsValue(t[..2], base) == HexValue(t[0]) * base + HexValue(t[1]);
  }

  /** The character escapes of C other than the numeric ones. */
  function SimpleEscape(c: char): Option<byte> {
    match c
    case 'n' => Some(10)
    case 't' => Some(9)
    case 'r' => Some(13)
    case 'a' => Some(7)
    case 'b' => Some(8)
    case 'f' => Some(12)
    case 'v' => Some(11)
    case '\\' => Some(92)
    case '\'' => Some(39)
    case '"' => Some(34)
    case '?' => Some(63)
    case _ => None
  }

  function Prepend(b: byte, r: Option<seq<byte>>): Option<seq<byte>> {
    match r
    case None => None
    case Some(rest) => Some([b] + rest)
  }

  /** The bytes a C compiler stores for the text between the quotes of a
      string literal written in ASCII, or `None` when the text is not a
      valid literal body (an unescaped quote or newline, an unknown escape,
      a numeric escape beyond a byte). A hexadecimal escape takes every hex
      digit that follows the `x`; an octal escape takes at most three
      digits. Trigraphs are not read. */
  function CLiteralBytes(s: string): (r: Option<seq<byte>>)
    decreases |s|
  {
    if s == [] then Some([])
    else if s[0] == '"' || s[0] == '\n' || s[0] as int >= 128 then None
    else if s[0] != '\\' then Prepend(s[0] as int as byte, CLiteralBytes(s[1..]))
    else if |s| == 1 then None
    else if s[1] == 'x' then
      var n := HexRun(s[2..]);
      var v := DigitsValue(s[2..2 + n], 16);
      if n == 0 || v >= 256 then None else Prepend(v as byte, CLiteralBytes(s[2 + n..]))
    else if IsOctChar(s[1]) then
      var n := OctRun(s[1..]);
      var v := DigitsValue(s[1..1 + n], 8);
      if v >= 256 then None else Prepend(v as byte, CLiteralBytes(s[1 + n..]))
    else
      match SimpleEscape(s[1])
      case None => None
      case Some(e) => Prepend(e, CLiteralBytes(s[2..]))
  }

  // ------------------------------------------- the encoding as written

  function HexDigit(n: nat): (c: char)
    requires n < 16
    ensures IsHexChar(c) && HexValue(c) == n
  {
    if n < 10 then ('0' as int + n) as char else ('a' as int + n - 10) as char
  }

  /** The quote `repr` puts around bytes: a single quote, unless the bytes
      hold a single quote and no double quote. */
  function ReprQuote(b: seq<byte>): byte {
    if 39 in b && 34 !in b then 34 else 39
  }

  /** How `repr` writes one byte: the quote and the backslash escaped, tab,
      newline and carriage return by letter, other bytes outside printable
      ASCII as `\x` and two lower-case hex digits. */
  function ByteRepr(c: byte, quote: byte): string {
    if c == quote || c == 92 then ['\\', c as int as char]
    else if c == 9 then "\\t"
    else if c == 10 then "\\n"
    else if c == 13 then "\\r"
    else if c < 32 || c >= 127 then ['\\', 'x', HexDigit(c as int / 16), HexDigit(c as int % 16)]
    else [c as int as char]
  }

  function ReprBody(b: seq<byte>, quote: byte): string {
    if b == [] then "" else ByteRepr(b[0], quote) + ReprBody(b[1..], quote)
  }

  /** `str(b)` for a bytes object `b`. */
  function BytesRepr(b: seq<byte>): (r: string)
    ensures |r| >= 3 && r[2..|r| - 1] == ReprBody(b, ReprQuote(b))
  {
    var q := ReprQuote(b) as int as char;
    var r := "b" + [q] + ReprBody(b, ReprQuote(b)) + [q];
    assert r[2..|r| - 1] == ReprBody(b, ReprQuote(b));
    r
  }

  /** `encode_as_c_string` as written: the quoted text of `repr` with its
      double quotes escaped, and the number of bytes. */
  function EncodeAsCStringAsWritten(s: string): (string, nat) {
    var b := Utf8Bytes(s);
    var r := BytesRepr(b);
    ("\"" + ReplaceChar(r[2..|r| - 1], '"', "\\\"") + "\"", |b|)
  }

  /** The UTF-8 bytes of "éa". */
  lemma Utf8Example()
    ensures Utf8Bytes("\U{E9}a") == [0xC3, 0xA9, 0x61]
  {
    assert Utf8Bytes("a") == [0x61];
    assert Utf8Char('\U{E9}') == [0xC3, 0xA9];
  }

  /** `repr` writes those bytes as `\xc3\xa9a`. */
  lemma ReprExample()
    ensures ReprQuote([0xC3, 0xA9, 0x61]) == 39
    ensures ReprBody([0xC3, 0xA9, 0x61], 39) == "\\xc3\\xa9a"
  {
    var b: seq<byte> := [0xC3, 0xA9, 0x61];
    assert b[1..] == [0xA9, 0x61] && b[1..][1..] == [0x61];
    assert ReprBody([0x61], 39) == "a";
    assert ByteRepr(0xA9, 39) == "\\xa9";
    assert ByteRepr(0xC3, 39) == "\\xc3";
  }

  /** C reads `\xa9a` as one escape worth 0xa9a, beyond a byte. */
  lemma TailExample()
    ensures CLiteralBytes("\\xa9a") == None
  {
    var tail := "\\xa9a";
    assert tail[2..] == "a9a";
    assert HexRun("a9a") == 3;
    DigitsValueThree("a9a", 16);
    assert tail[2..5] == "a9a";
  }

  /** So C rejects the whole body `\xc3\xa9a`. */
  lemma ReadExample()
    ensures CLiteralBytes("\\xc3\\xa9a") == None
  {
    TailExample();
    var s := "\\xc3\\xa9a";
    assert s[2..] == "c3\\xa9a";
    assert HexRun("c3\\xa9a") == 2;
    assert s[2..4] == "c3";
    assert s[4..] == "\\xa9a";
  }

  /** The literal written for "éa" is `"\xc3\xa9a"`. */
  lemma LiteralExample()
    ensures var lit := EncodeAsCStringAsWritten("\U{E9}a").0;
      |lit| >= 2 && lit[1..|lit| - 1] == "\\xc3\\xa9a"
  {
    Utf8Example();
    ReprExample();
    var b: seq<byte> := [0xC3, 0xA9, 0x61];
    var r := BytesRepr(b);
    var body := r[2..|r| - 1];
    assert body == "\\xc3\\xa9a";
    ReplaceCharAbsent(body, '"', "\\\"");
    var lit := "\"" + ReplaceChar(body, '"', "\\\"") + "\"";
    assert lit[1..|lit| - 1] == body;
  }

  /** For "éa" the literal written is `"\xc3\xa9a"`; C reads `\xa9a` as a
      single escape whose value exceeds a byte, so the literal does not
      stand for the string's bytes. */
  lemma EncodeAsWrittenMisreads()
    ensures Utf8Bytes("\U{E9}a") == [0xC3, 0xA9, 0x61]
    ensures var lit := EncodeAsCStringAsWritten("\U{E9}a").0;
      CLiteralBytes(lit[1..|lit| - 1]) == None
  {
    Utf8Example();
    LiteralExample();
    ReadExample();
  }

  /** The bytes `repr` writes in a form C reads the same way: printable
      ASCII and the three whitespace escapes, never a `\x` escape. */
  predicate PlainByte(c: byte) {
    32 <= c < 127 || c == 9 || c == 10 || c == 13
  }

  predicate PlainChar(c: char) {
    32 <= c as int < 127 || c == '\t' || c == '\n' || c == '\r'
  }

  /** A letter escape reads as its byte, whatever follows. */
  lemma LetterEscapeReads(e: char, v: byte, rest: string)
    requires SimpleEscape(e) == Some(v) && e != 'x' && !IsOctChar(e)
    ensures CLiteralBytes(['\\', e] + rest) == Prepend(v, CLiteralBytes(rest))
  {
    var s := ['\\', e] + rest;
    assert s[0] == '\\' && s[1] == e && s[2..] == rest;
  }

  /** A character other than a quote, a backslash or a newline reads as
      itself, whatever follows. */
  lemma RawCharReads(c: byte, rest: string)
    requires c < 128 && c != 34 && c != 92 && c != 10
    ensures CLiteralBytes([c as int as char] + rest) == Prepend(c, CLiteralBytes(rest))
  {
    var s := [c as int as char] + rest;
    assert s[0] == c as int as char && s[1..] == rest;
  }

  /** A plain byte as `repr` writes it, with double quotes escaped, reads
      back as that byte whatever follows. */
  lemma ByteReprReads(c: byte, quote: byte, rest: string)
    requires PlainByte(c) && (quote == 39 || (quote == 34 && c != 34))
    ensures CLiteralBytes(ReplaceChar(ByteRepr(c, quote), '"', "\\\"") + rest) == Prepend(c, CLiteralBytes(rest))
  {
    var text := ByteRepr(c, quote);
    if c == 34 {
      assert text == "\"";
      assert ReplaceChar(text, '"', "\\\"") == ['\\', '"'];
      LetterEscapeReads('"', 34, rest);
    } else {
      assert '"' !in text;
      ReplaceCharAbsent(text, '"', "\\\"");
      if c == quote || c == 92 {
        LetterEscapeReads(c as int as char, c, rest);
      } else if c == 9 {
        LetterEscapeReads('t', 9, rest);
      } else if c == 10 {
        LetterEscapeReads('n', 10, rest);
      } else if c == 13 {
        LetterEscapeReads('r', 13, rest);
      } else {
        RawCharReads(c, rest);
      }
    }
  }

  /** Plain bytes written by `repr` with double quotes escaped read back as
      exactly those bytes. */
  lemma {:induction false} PlainReprReads(b: seq<byte>, quote: byte)
    requires forall k :: 0 <= k < |b| ==> PlainByte(b[k])
    requires quote == 39 || (quote == 34 && 34 !in b)
    ensures CLiteralBytes(ReplaceChar(ReprBody(b, quote), '"', "\\\"")) == Some(b)
  {
    if b != [] {
      var head := ByteRepr(b[0], quote);
      var tail := ReprBody(b[1..], quote);
      ReplaceCharAppend(head, tail, '"', "\\\"");
      assert forall k :: 0 <= k < |b[1..]| ==> b[1..][k] == b[k + 1];
      PlainReprReads(b[1..], quote);
      ByteReprReads(b[0], quote, ReplaceChar(tail, '"', "\\\""));
      assert [b[0]] + b[1..] == b;
    }
  }

  /** The UTF-8 bytes of plain characters are the characters themselves. */
  lemma {:induction false} PlainUtf8(s: string)
    requires forall i :: 0 <= i < |s| ==> PlainChar(s[i])
    ensures forall k :: 0 <= k < |Utf8Bytes(s)| ==> PlainByte(Utf8Bytes(s)[k])
  {
    if s != [] {
      assert forall i :: 0 <= i < |s[1..]| ==> s[1..][i] == s[i + 1];
      PlainUtf8(s[1..]);
      assert Utf8Char(s[0]) == [s[0] as int as byte];
    }
  }

  /** Where no character needs a `\x` escape, the literal as written is
      quoted, reads back as the UTF-8 bytes, and stands for the same bytes
      as the corrected literal. */
  lemma EncodeAsWrittenReadsPlain(s: string)
    requires forall i :: 0 <= i < |s| ==> PlainChar(s[i])
    ensures var (lit, n) := EncodeAsCStringAsWritten(s);
      && |lit| >= 2 && lit[0] == '"' && lit[|lit| - 1] == '"'
      && CLiteralBytes(lit[1..|lit| - 1]) == Some(Utf8Bytes(s))
      && n == |Utf8Bytes(s)|
      && var fixed := EncodeAsCString(s).0;
        CLiteralBytes(lit[1..|lit| - 1]) == CLiteralBytes(fixed[1..|fixed| - 1])
  {
    var b := Utf8Bytes(s);
    PlainUtf8(s);
    PlainReprReads(b, ReprQuote(b));
    var r := BytesRepr(b);
    var body := ReplaceChar(r[2..|r| - 1], '"', "\\\"");
    var lit := "\"" + body + "\"";
    assert lit[1..|lit| - 1] == body;
    EncodeAsCStringReadsBack(s);
  }

  // -------------------------------------------------- the corrected encoding

  function OctDigit(n: nat): (c: char)
    requires n < 8
    ensures IsOctChar(c) && IsHexChar(c) && HexValue(c) == n
  {
    ('0' as int + n) as char
  }

  /** One byte of the literal: printable ASCII other than the double
      quote, the backslash and the question mark (so no trigraph forms)
      stands for itself; every other byte is a three-digit octal escape,
      which no following character can extend. */
  function ByteEscape(c: byte): (r: string)
    ensures forall i :: 0 <= i < |r| ==> r[i] as int < 128 && r[i] != '"' && r[i] != '\n'
  {
    if 32 <= c < 127 && c != 34 && c != 92 && c != 63 then [c as int as char]
    else ['\\'] + OctalDigits(c)
  }

  function EscapeBytes(b: seq<byte>): (r: string)
    ensures forall i :: 0 <= i < |r| ==> r[i] as int < 128 && r[i] != '"' && r[i] != '\n'
  {
    if b == [] then "" else ByteEscape(b[0]) + EscapeBytes(b[1..])
  }

  /** `encode_as_c_string`, corrected: the quoted escaped bytes of the
      UTF-8 encoding, and their number. */
  function EncodeAsCString(s: string): (r: (string, nat))
    ensures r.1 == Utf8Length(s)
  {
    ("\"" + EscapeBytes(Utf8Bytes(s)) + "\"", |Utf8Bytes(s)|)
  }

  /** C reads one escaped byte followed by anything as that byte followed
      by what it reads from the rest. */
  lemma ByteEscapeReads(c: byte, rest: string)
    ensures CLiteralBytes(ByteEscape(c) + rest) == Prepend(c, CLiteralBytes(rest))
  {
    var s := ByteEscape(c) + rest;
    if 32 <= c < 127 && c != 34 && c != 92 && c != 63 {
      assert s[1..] == rest;
    } else {
      var t := OctalDigits(c);
      assert ByteEscape(c) == ['\\'] + t;
      assert s[1..][..3] == t;
      assert OctRun(s[1..]) == 3;
      assert s[1..4] == t;
      OctalDigitsValue(c);
      assert s[4..] == rest;
    }
  }

  /** The three octal digits of a byte, most significant first. */
  function OctalDigits(c: byte): (t: string)
    ensures |t| == 3 && forall i :: 0 <= i < 3 ==> IsOctChar(t[i]) && IsHexChar(t[i])
  {
    [OctDigit(c as int / 8 / 8), OctDigit(c as int / 8 % 8), OctDigit(c as int % 8)]
  }

  /** Read in base 8, the three digits are the byte again. */
  lemma OctalDigitsValue(c: byte)
    ensures DigitsValue(OctalDigits(c), 8) == c as int
  {
    var t := OctalDigits(c);
    DigitsValueThree(t, 8);
    var a := c as int / 8;
    assert c as int == a * 8 + c as int % 8;
    assert a == a / 8 * 8 + a % 8;
  }

  /** The escaped bytes read back as exactly those bytes. */
  lemma {:induction false} EscapeBytesRoundTrip(b: seq<byte>)
    ensures CLiteralBytes(EscapeBytes(b)) == Some(b)
  {
    if b != [] {
      EscapeBytesRoundTrip(b[1..]);
      ByteEscapeReads(b[0], EscapeBytes(b[1..]));
      assert [b[0]] + b[1..] == b;
    }
  }

  /** The literal is quoted, its body reads back as the string's UTF-8
      bytes, and the size is their number. */
  lemma EncodeAsCStringReadsBack(s: string)
    ensures var (lit, n) := EncodeAsCString(s);
      && |lit| >= 2 && lit[0] == '"' && lit[|lit| - 1] == '"'
      && CLiteralBytes(lit[1..|lit| - 1]) == Some(Utf8Bytes(s))
      && n == |Utf8Bytes(s)|
  {
    var lit := EncodeAsCString(s).0;
    assert lit[1..|lit| - 1] == EscapeBytes(Utf8Bytes(s));
    EscapeBytesRoundTrip(Utf8Bytes(s));
  }
}
