/**
 How a row's key travels: as hexadecimal text that has to decode to bytes, and the bytes to UTF-8 text, before a
 taint can heal the row or quote its key.
 */
module Keys {
  import opened Wrappers

  // ---- the code's decoding -----------------------------------------------------------------------------------

  predicate HexDigit(c: char) { '0' <= c <= '9' || 'a' <= c <= 'f' || 'A' <= c <= 'F' }

  function Nibble(c: char): nat
    requires HexDigit(c)
  {
    if '0' <= c <= '9' then (c as int) - ('0' as int)
    else if 'a' <= c <= 'f' then 10 + (c as int) - ('a' as int)
    else 10 + (c as int) - ('A' as int)
  }

  /** A byte's two characters; the parser takes a plus sign for the high one. */
  function HexByte(high: char, low: char): Option<nat> {
    if !HexDigit(low) then None
    else if HexDigit(high) then Some(16 * Nibble(high) + Nibble(low))
    else if high == '+' then Some(Nibble(low))
    else None
  }

  function HexDecode(hex: string): Option<seq<nat>> {
    if hex == "" then Some([])
    else if |hex| == 1 then None
    else
      var byte, rest := HexByte(hex[0], hex[1]), HexDecode(hex[2..]);
      if byte.None? || rest.None? then None else Some([byte.value] + rest.value)
  }

  predicate Trailing(bytes: seq<nat>, i: nat, lo: nat, hi: nat) { i < |bytes| && lo <= bytes[i] <= hi }

  /** The length of the well-formed UTF-8 sequence at the front, or 0. */
  function Utf8Length(bytes: seq<nat>): (n: nat)
    ensures n <= |bytes|
  {
    if bytes == [] then 0
    else if bytes[0] < 0x80 then 1
    else if 0xC2 <= bytes[0] <= 0xDF then (if Trailing(bytes, 1, 0x80, 0xBF) then 2 else 0)
    else if 0xE0 <= bytes[0] <= 0xEF then
      var lo := if bytes[0] == 0xE0 then 0xA0 else 0x80;
      var hi := if bytes[0] == 0xED then 0x9F else 0xBF;
      if Trailing(bytes, 1, lo, hi) && Trailing(bytes, 2, 0x80, 0xBF) then 3 else 0
    else if 0xF0 <= bytes[0] <= 0xF4 then
      var lo := if bytes[0] == 0xF0 then 0x90 else 0x80;
      var hi := if bytes[0] == 0xF4 then 0x8F else 0xBF;
      if Trailing(bytes, 1, lo, hi) && Trailing(bytes, 2, 0x80, 0xBF) && Trailing(bytes, 3, 0x80, 0xBF) then 4 else 0
    else 0
  }

  predicate Utf8(bytes: seq<nat>)
    decreases |bytes|
  {
    bytes == [] || (Utf8Length(bytes) > 0 && Utf8(bytes[Utf8Length(bytes)..]))
  }

  /** The key's hexadecimal text decodes to bytes, and the bytes to text. */
  predicate KeyDecodes(hex: string) { HexDecode(hex).Some? && Utf8(HexDecode(hex).value) }

  /** A byte that a quoted literal may hold: no quote and no ASCII control byte. */
  predicate PlainByte(byte: nat) { byte >= 0x20 && byte != 0x22 && byte != 0x27 && byte != 0x7f }

  /** The decoded key can sit in a quoted literal. */
  predicate KeyLiteralOk(hex: string) {
    KeyDecodes(hex) && hex != "" && forall i :: 0 <= i < |HexDecode(hex).value| ==> PlainByte(HexDecode(hex).value[i])
  }

  // ---- what it means: text in Unicode's own terms -----------------------------------------------------------------

  /** A Unicode scalar value. */
  ghost predicate Scalar(c: nat) { c <= 0x10FFFF && !(0xD800 <= c <= 0xDFFF) }

  /** Its UTF-8 form: the bits of the value, six to a byte. */
  ghost function Encode(c: nat): seq<nat> {
    if c < 0x80 then [c]
    else if c < 0x800 then [0xC0 + c / 64, 0x80 + c % 64]
    else if c < 0x10000 then [0xE0 + c / 4096, 0x80 + c / 64 % 64, 0x80 + c % 64]
    else [0xF0 + c / 262144, 0x80 + c / 4096 % 64, 0x80 + c / 64 % 64, 0x80 + c % 64]
  }

  ghost function EncodeAll(text: seq<nat>): seq<nat> {
    if text == [] then [] else Encode(text[0]) + EncodeAll(text[1..])
  }

  ghost predicate Scalars(text: seq<nat>) { forall i :: 0 <= i < |text| ==> Scalar(text[i]) }

  /** Character `c` is the hexadecimal digit of `n`, in either case. */
  ghost predicate Digit(c: char, n: int) {
    || (0 <= n < 10 && c as int == 48 + n)
    || (10 <= n < 16 && (c as int == 97 + n - 10 || c as int == 65 + n - 10))
  }

  /** Two characters spell a byte: two digits, or a plus sign and one. */
  ghost predicate Pair(high: char, low: char, byte: int) {
    || (high as int == 43 && Digit(low, byte))
    || exists h, l :: Digit(high, h) && Digit(low, l) && byte == 16 * h + l
  }

  ghost predicate Spells(hex: string, bytes: seq<nat>) {
    |hex| == 2 * |bytes| && forall i :: 0 <= i < |bytes| ==> Pair(hex[2 * i], hex[2 * i + 1], bytes[i])
  }

  /** The key is the hexadecimal spelling of the UTF-8 form of `text`. */
  ghost predicate KeyOf(hex: string, text: seq<nat>) { Scalars(text) && Spells(hex, EncodeAll(text)) }

  /** A character a quoted literal may hold: no quote, no control. */
  ghost predicate Plain(c: nat) { c >= 32 && c != 34 && c != 39 && c != 127 }

  /** The key is that of some text fit for a quoted literal. */
  ghost predicate QuotableKey(hex: string) {
    exists text :: KeyOf(hex, text) && text != [] && forall i :: 0 <= i < |text| ==> Plain(text[i])
  }

  lemma NibbleIsDigit(c: char, n: nat)
    ensures HexDigit(c) && Nibble(c) == n <==> Digit(c, n)
  {
  }

  lemma HexByteIsPair(high: char, low: char, byte: nat)
    ensures HexByte(high, low) == Some(byte) <==> Pair(high, low, byte)
  {
    if HexDigit(low) {
      NibbleIsDigit(low, Nibble(low));
      if HexDigit(high) { NibbleIsDigit(high, Nibble(high)); }
    }
  }

  lemma {:induction false} HexIsSpelling(hex: string, bytes: seq<nat>)
    ensures HexDecode(hex) == Some(bytes) <==> Spells(hex, bytes)
  {
    if |hex| > 1 && bytes != [] {
      HexByteIsPair(hex[0], hex[1], bytes[0]);
      HexIsSpelling(hex[2..], bytes[1..]);
      assert bytes == [bytes[0]] + bytes[1..];
      hide Pair, HexByte;
      if Spells(hex, bytes) {
        forall i | 0 <= i < |bytes[1..]| ensures Pair(hex[2..][2 * i], hex[2..][2 * i + 1], bytes[1..][i]) {
          assert Pair(hex[2 * (i + 1)], hex[2 * (i + 1) + 1], bytes[i + 1]);
        }
      }
      if Spells(hex[2..], bytes[1..]) && Pair(hex[0], hex[1], bytes[0]) {
        forall i | 0 <= i < |bytes| ensures Pair(hex[2 * i], hex[2 * i + 1], bytes[i]) {
          if i > 0 { assert Pair(hex[2..][2 * (i - 1)], hex[2..][2 * (i - 1) + 1], bytes[1..][i - 1]); }
        }
      }
    }
  }

  lemma EncodedFront(c: nat, rest: seq<nat>)
    requires Scalar(c)
    ensures Utf8Length(Encode(c) + rest) == |Encode(c)| > 0
  {
    var bytes := Encode(c) + rest;
    if c < 0x800 {
    } else if c < 0x10000 {
      assert bytes[..3] == Encode(c) && 0xE0 <= bytes[0] <= 0xEF;
    } else {
      assert bytes[..4] == Encode(c) && 0xF0 <= bytes[0] <= 0xF4;
    }
  }

  lemma EncodedPlain(c: nat)
    requires Scalar(c)
    ensures (forall i :: 0 <= i < |Encode(c)| ==> PlainByte(Encode(c)[i])) <==> Plain(c)
  {
    if c < 0x80 { assert Encode(c)[0] == c; }
  }

  lemma TwoBytes(x: nat, y: nat)
    requires 2 <= x < 32 && y < 64
    ensures Scalar(64 * x + y) && Encode(64 * x + y) == [0xC0 + x, 0x80 + y]
  {
  }

  lemma ThreeBytes(x: nat, y: nat, z: nat)
    requires x < 16 && y < 64 && z < 64 && (x == 0 ==> y >= 32) && (x == 13 ==> y < 32)
    ensures Scalar(4096 * x + 64 * y + z) && Encode(4096 * x + 64 * y + z) == [0xE0 + x, 0x80 + y, 0x80 + z]
  {
    var c := 4096 * x + 64 * y + z;
    assert c / 4096 == x && c / 64 == 64 * x + y;
  }

  lemma FourBytes(w: nat, x: nat, y: nat, z: nat)
    requires w < 5 && x < 64 && y < 64 && z < 64 && (w == 0 ==> x >= 16) && (w == 4 ==> x < 16)
    ensures var c := 262144 * w + 4096 * x + 64 * y + z; Scalar(c) && Encode(c) == [0xF0 + w, 0x80 + x, 0x80 + y, 0x80 + z]
  {
    var c := 262144 * w + 4096 * x + 64 * y + z;
    assert c / 262144 == w && c / 4096 == 64 * w + x && c / 64 == 4096 * w + 64 * x + y;
  }

  lemma FrontIsEncoded(bytes: seq<nat>) returns (c: nat)
    requires Utf8Length(bytes) > 0
    ensures Scalar(c) && Encode(c) == bytes[..Utf8Length(bytes)]
  {
    var n, b := Utf8Length(bytes), bytes;
    if n == 1 {
      c := b[0];
    } else if n == 2 {
      c := 64 * (b[0] - 0xC0) + (b[1] - 0x80);
      TwoBytes(b[0] - 0xC0, b[1] - 0x80);
    } else if n == 3 {
      c := 4096 * (b[0] - 0xE0) + 64 * (b[1] - 0x80) + (b[2] - 0x80);
      ThreeBytes(b[0] - 0xE0, b[1] - 0x80, b[2] - 0x80);
    } else {
      c := 262144 * (b[0] - 0xF0) + 4096 * (b[1] - 0x80) + 64 * (b[2] - 0x80) + (b[3] - 0x80);
      FourBytes(b[0] - 0xF0, b[1] - 0x80, b[2] - 0x80, b[3] - 0x80);
    }
    if n > 1 { hide Encode, Scalar; }
  }

  lemma {:induction false} EncodedIsUtf8(text: seq<nat>)
    requires Scalars(text)
    ensures Utf8(EncodeAll(text))
    ensures (forall i :: 0 <= i < |EncodeAll(text)| ==> PlainByte(EncodeAll(text)[i])) <==> forall i :: 0 <= i < |text| ==> Plain(text[i])
  {
    if text != [] {
      var front, rest := Encode(text[0]), EncodeAll(text[1..]);
      EncodedIsUtf8(text[1..]);
      EncodedFront(text[0], rest);
      EncodedPlain(text[0]);
      assert (front + rest)[|front|..] == rest;
      hide Encode, PlainByte, Plain, Utf8Length;
      assert forall i :: 0 < i < |text| ==> text[i] == text[1..][i - 1];
      assert forall i :: |front| <= i < |front + rest| ==> (front + rest)[i] == rest[i - |front|];
      assert forall i :: 0 <= i < |front| ==> (front + rest)[i] == front[i];
      if forall i :: 0 <= i < |front + rest| ==> PlainByte((front + rest)[i]) {
        forall i | 0 <= i < |rest| ensures PlainByte(rest[i]) { assert (front + rest)[|front| + i] == rest[i]; }
      }
      if forall i :: 0 <= i < |text| ==> Plain(text[i]) {
        forall i | 0 <= i < |text[1..]| ensures Plain(text[1..][i]) { assert text[i + 1] == text[1..][i]; }
      }
    }
  }

  lemma {:induction false} Utf8IsEncoded(bytes: seq<nat>) returns (text: seq<nat>)
    requires Utf8(bytes)
    ensures Scalars(text) && EncodeAll(text) == bytes
    decreases |bytes|
  {
    hide Encode, Utf8Length, Scalar;
    if bytes == [] { return []; }
    var n := Utf8Length(bytes);
    var c := FrontIsEncoded(bytes);
    var rest := Utf8IsEncoded(bytes[n..]);
    text := [c] + rest;
    hide Utf8;
    assert text[1..] == rest && bytes == bytes[..n] + bytes[n..];
  }

  /** The text a key stands for, by way of its bytes. */
  lemma KeyOfDecoded(hex: string, text: seq<nat>)
    ensures KeyOf(hex, text) <==> Scalars(text) && HexDecode(hex) == Some(EncodeAll(text))
    ensures KeyOf(hex, text) ==> KeyDecodes(hex) && (KeyLiteralOk(hex) <==> text != [] && forall i :: 0 <= i < |text| ==> Plain(text[i]))
  {
    HexIsSpelling(hex, EncodeAll(text));
    if KeyOf(hex, text) {
      EncodedIsUtf8(text);
      assert text != [] ==> |EncodeAll(text)| > 0;
    }
    hide HexDecode, Utf8, Spells, PlainByte, Plain, Scalar, Encode;
  }

  /**
   A key decodes if and only if it is the hexadecimal spelling, in either case and with a plus sign for a high digit
   taken too, of the UTF-8 form of some sequence of Unicode scalar values.
   */
  lemma KeyDecodesExactly(hex: string)
    ensures KeyDecodes(hex) <==> exists text :: KeyOf(hex, text)
  {
    if KeyDecodes(hex) { var text := TextOfKey(hex); }
    if text :| KeyOf(hex, text) { KeyOfDecoded(hex, text); }
  }

  lemma TextOfKey(hex: string) returns (text: seq<nat>)
    requires KeyDecodes(hex)
    ensures KeyOf(hex, text)
  {
    text := Utf8IsEncoded(HexDecode(hex).value);
    hide HexDecode, Utf8;
    KeyOfDecoded(hex, text);
  }

  /** It can be quoted if and only if that text is not empty and holds no quote and no control character. */
  lemma KeyQuotesExactly(hex: string)
    ensures KeyLiteralOk(hex) <==> QuotableKey(hex)
  {
    if KeyLiteralOk(hex) {
      var text := TextOfKey(hex);
      KeyOfDecoded(hex, text);
      hide KeyOf, Plain, KeyLiteralOk;
      assert QuotableKey(hex);
    }
    if QuotableKey(hex) {
      var text :| KeyOf(hex, text) && text != [] && forall i :: 0 <= i < |text| ==> Plain(text[i]);
      hide KeyOf, Plain, KeyLiteralOk;
      KeyOfDecoded(hex, text);
    }
  }

  lemma {:induction false} HexDecodeFrom(hex: string, i: nat)
    requires 2 * i < |hex| && HexDecode(hex).Some?
    ensures 2 * i + 1 < |hex| && i < |HexDecode(hex).value| && Some(HexDecode(hex).value[i]) == HexByte(hex[2 * i], hex[2 * i + 1])
  {
    if i > 0 { HexDecodeFrom(hex[2..], i - 1); }
  }

  /**
   An integer key is stored as its eight bytes, high byte first, and decoded as text: no key whose high
   byte is 0x80 to 0xC1 or from 0xF5 decodes, and so not the key -1.
   */
  lemma HighByteRefuses(hex: string)
    requires HexDecode(hex).Some? && |hex| >= 2
    requires var high := HexDecode(hex).value[..1]; high != [] && (0x80 <= high[0] < 0xC2 || high[0] > 0xF4)
    ensures !KeyDecodes(hex)
  {
  }

  lemma MinusOneRefuses()
    ensures !KeyDecodes("ffffffffffffffff")
  {
    var minus := "ffffffffffffffff";
    if HexDecode(minus).Some? {
      HexDecodeFrom(minus, 0);
      HighByteRefuses(minus);
    }
    hide HexDecode, KeyDecodes;
  }
}
