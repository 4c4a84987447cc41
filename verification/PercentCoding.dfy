/**
 * `encodeURIComponent` and `decodeURIComponent`: percent-encoding (section 2.1 of RFC 3986) of the UTF-8
 * bytes of a text (section 3 of RFC 3629). A Dafny `char` is a Unicode scalar value, so the texts here are
 * the strings without lone surrogates, the ones `encodeURIComponent` accepts.
 */
module PercentCoding {
  import opened Basics

  type Byte = b: int | 0 <= b < 256

  predicate IsUnreserved(c: char)
  {
    || 'A' <= c <= 'Z' || 'a' <= c <= 'z' || '0' <= c <= '9'
    || c in {'-', '_', '.', '!', '~', '*', '\'', '(', ')'}
  }

  function HexDigit(n: int): char
    requires 0 <= n < 16
  {
    if n < 10 then ('0' as int + n) as char else ('A' as int + (n - 10)) as char
  }

  function HexValue(c: char): Option<int>
  {
    if '0' <= c <= '9' then Some(c as int - '0' as int)
    else if 'A' <= c <= 'F' then Some(c as int - 'A' as int + 10)
    else if 'a' <= c <= 'f' then Some(c as int - 'a' as int + 10)
    else None
  }

  function Utf8(c: char): (bytes: seq<Byte>)
    ensures 1 <= |bytes| <= 4
  {
    var n := c as int;
    if n < 0x80 then [n]
    else if n < 0x800 then [0xC0 + n / 64, 0x80 + n % 64]
    else if n < 0x10000 then [0xE0 + n / 4096, 0x80 + n / 64 % 64, 0x80 + n % 64]
    else [0xF0 + n / 262144, 0x80 + n / 4096 % 64, 0x80 + n / 64 % 64, 0x80 + n % 64]
  }

  function PercentByte(b: Byte): string
  {
    ['%', HexDigit(b / 16), HexDigit(b % 16)]
  }

  function PercentBytes(bytes: seq<Byte>): string
  {
    if bytes == [] then "" else PercentByte(bytes[0]) + PercentBytes(bytes[1..])
  }

  function EncodeChar(c: char): string
  {
    if IsUnreserved(c) then [c] else PercentBytes(Utf8(c))
  }

  /** `encodeURIComponent`. */
  function Encode(s: string): string
  {
    if s == "" then "" else EncodeChar(s[0]) + Encode(s[1..])
  }

  function ReadByte(s: string): Option<Byte>
  {
    if |s| < 3 || s[0] != '%' then None
    else
      match (HexValue(s[1]), HexValue(s[2]))
      case (Some(h), Some(l)) => Some(16 * h + l)
      case _ => None
  }

  function ReadBytes(s: string, n: nat): (bytes: Option<seq<Byte>>)
    ensures bytes.Some? ==> |bytes.value| == n && 3 * n <= |s|
  {
    if n == 0 then Some([])
    else
      match ReadByte(s)
      case None => None
      case Some(b) =>
        match ReadBytes(s[3..], n - 1)
        case None => None
        case Some(rest) => Some([b] + rest)
  }

  /** How many bytes a UTF-8 sequence with this first byte has; none for a byte that cannot be first. */
  function Utf8Length(b: Byte): nat
  {
    if b < 0x80 then 1
    else if 0xC0 <= b < 0xE0 then 2
    else if 0xE0 <= b < 0xF0 then 3
    else if 0xF0 <= b < 0xF8 then 4
    else 0
  }

  predicate IsContinuation(b: Byte)
  {
    0x80 <= b < 0xC0
  }

  /** The scalar value of a well-formed UTF-8 sequence: shortest form, no surrogate, within Unicode. */
  function Utf8Value(bytes: seq<Byte>): Option<char>
    requires 1 <= |bytes| <= 4
  {
    if !(forall i :: 1 <= i < |bytes| ==> IsContinuation(bytes[i])) then None
    else if |bytes| == 1 then ScalarAtLeast(bytes[0], 0)
    else if |bytes| == 2 then ScalarAtLeast(Bits(bytes[0], 0xC0) * 64 + Bits(bytes[1], 0x80), 0x80)
    else if |bytes| == 3 then
      ScalarAtLeast(Bits(bytes[0], 0xE0) * 4096 + Bits(bytes[1], 0x80) * 64 + Bits(bytes[2], 0x80), 0x800)
    else
      ScalarAtLeast(Bits(bytes[0], 0xF0) * 262144 + Bits(bytes[1], 0x80) * 4096 + Bits(bytes[2], 0x80) * 64
                    + Bits(bytes[3], 0x80), 0x10000)
  }

  /** The payload of a byte whose marker bits are `marker`. */
  function Bits(b: Byte, marker: int): int
  {
    b as int - marker
  }

  function ScalarAtLeast(n: int, least: int): Option<char>
    requires 0 <= least
  {
    if least <= n < 0xD800 || (least <= n && 0xE000 <= n < 0x110000) then Some(n as char) else None
  }

  /** `decodeURIComponent`; `None` is the `URIError` it throws. */
  function Decode(s: string): Option<string>
    decreases |s|
  {
    if s == "" then Some("")
    else if s[0] != '%' then
      match Decode(s[1..])
      case None => None
      case Some(rest) => Some([s[0]] + rest)
    else
      match ReadByte(s)
      case None => None
      case Some(b) =>
        var n := Utf8Length(b);
        if n == 0 then None
        else
          match ReadBytes(s, n)
          case None => None
          case Some(bytes) =>
            match (Utf8Value(bytes), Decode(s[3 * n..]))
            case (Some(c), Some(rest)) => Some([c] + rest)
            case _ => None
  }

  // ------------------------------------------------------------------ decoding undoes encoding

  /** The lowest six bits of a number, and the rest. */
  lemma SixBits(n: nat)
    ensures n == n / 64 * 64 + n % 64 && n % 64 < 64
  {
  }

  lemma TwoBytes(n: nat)
    requires n < 0x800
    ensures n == n / 64 * 64 + n % 64 && n / 64 < 0x20
  {
    SixBits(n);
  }

  lemma ThreeBytes(n: nat)
    requires n < 0x10000
    ensures n == n / 4096 * 4096 + n / 64 % 64 * 64 + n % 64 && n / 4096 < 0x10
  {
    SixBits(n);
    SixBits(n / 64);
    assert n / 64 / 64 == n / 4096;
  }

  lemma FourBytes(n: nat)
    requires n < 0x110000
    ensures n == n / 262144 * 262144 + n / 4096 % 64 * 4096 + n / 64 % 64 * 64 + n % 64 && n / 262144 < 8
  {
    SixBits(n);
    SixBits(n / 64);
    SixBits(n / 64 / 64);
    DivideAgain(n);
  }

  lemma DivideAgain(n: nat)
    ensures n / 64 / 64 == n / 4096 && n / 64 / 64 / 64 == n / 262144
  {
  }

  lemma Utf8RoundTrip(c: char)
    ensures Utf8Length(Utf8(c)[0]) == |Utf8(c)|
    ensures Utf8Value(Utf8(c)) == Some(c)
  {
    var n := c as int;
    if n >= 0x10000 {
      FourBytes(n);
    } else if n >= 0x800 {
      ThreeBytes(n);
    } else if n >= 0x80 {
      TwoBytes(n);
    }
  }

  lemma ByteReadsBack(b: Byte, rest: string)
    ensures ReadByte(PercentByte(b) + rest) == Some(b)
  {
  }

  lemma {:induction false} BytesReadBack(bytes: seq<Byte>, rest: string)
    ensures |PercentBytes(bytes)| == 3 * |bytes|
    ensures ReadBytes(PercentBytes(bytes) + rest, |bytes|) == Some(bytes)
    ensures bytes != [] ==> ReadByte(PercentBytes(bytes) + rest) == Some(bytes[0])
  {
    if bytes != [] {
      var tail := PercentBytes(bytes[1..]) + rest;
      assert PercentBytes(bytes) + rest == PercentByte(bytes[0]) + tail;
      ByteReadsBack(bytes[0], tail);
      BytesReadBack(bytes[1..], rest);
      assert (PercentByte(bytes[0]) + tail)[3..] == tail;
      assert [bytes[0]] + bytes[1..] == bytes;
    }
  }

  lemma CharReadsBack(c: char, rest: string)
    ensures Decode(EncodeChar(c) + rest)
         == match Decode(rest) case None => None case Some(tail) => Some([c] + tail)
  {
    var s := EncodeChar(c) + rest;
    if IsUnreserved(c) {
      assert s[1..] == rest;
    } else {
      var bytes := Utf8(c);
      Utf8RoundTrip(c);
      BytesReadBack(bytes, rest);
      assert s[0] == '%' && s[3 * |bytes|..] == rest;
    }
  }

  lemma {:induction false} DecodeEncode(s: string)
    ensures Decode(Encode(s)) == Some(s)
  {
    if s != "" {
      CharReadsBack(s[0], Encode(s[1..]));
      DecodeEncode(s[1..]);
      assert [s[0]] + s[1..] == s;
    }
  }

  // ------------------------------------------------------------------ what decodes, exactly

  predicate SpellsByte(u: string, b: Byte)
  {
    |u| == 3 && u[0] == '%' && HexValue(u[1]) == Some(b / 16) && HexValue(u[2]) == Some(b % 16)
  }

  predicate SpellsBytes(u: string, bytes: seq<Byte>)
  {
    if bytes == [] then u == "" else |u| >= 3 && SpellsByte(u[..3], bytes[0]) && SpellsBytes(u[3..], bytes[1..])
  }

  /** A character by itself, or its UTF-8 bytes, each as a percent sign and two hexadecimal digits in either case. */
  predicate SpellsChar(u: string, c: char)
  {
    (u == [c] && c != '%') || SpellsBytes(u, Utf8(c))
  }

  /** The text is, piece by piece, a spelling of `t`. */
  ghost predicate Spells(s: string, t: string)
    decreases |t|
  {
    if t == "" then s == ""
    else exists n :: 1 <= n <= |s| && SpellsChar(s[..n], t[0]) && Spells(s[n..], t[1..])
  }

  lemma ReadByteExactly(s: string, b: Byte)
    ensures ReadByte(s) == Some(b) <==> |s| >= 3 && SpellsByte(s[..3], b)
  {
    if |s| >= 3 && HexValue(s[1]).Some? && HexValue(s[2]).Some? {
      var h, l := HexValue(s[1]).value, HexValue(s[2]).value;
      assert (16 * h + l) / 16 == h && (16 * h + l) % 16 == l;
    }
  }

  lemma {:induction false} ReadBytesExactly(s: string, bytes: seq<Byte>)
    ensures ReadBytes(s, |bytes|) == Some(bytes) <==> 3 * |bytes| <= |s| && SpellsBytes(s[..3 * |bytes|], bytes)
  {
    if bytes != [] {
      ReadByteExactly(s, bytes[0]);
      assert bytes == [bytes[0]] + bytes[1..];
      if |s| >= 3 {
        ReadBytesExactly(s[3..], bytes[1..]);
        if 3 * |bytes| <= |s| {
          assert s[..3 * |bytes|][3..] == s[3..][..3 * |bytes[1..]|] && s[..3 * |bytes|][..3] == s[..3];
        }
      }
    }
  }

  lemma SixBitsOf(q: int, r: int)
    requires 0 <= q && 0 <= r < 64
    ensures (q * 64 + r) / 64 == q && (q * 64 + r) % 64 == r
  {
  }

  lemma ThreeByteValue(a: int, b: int, c: int, n: int)
    requires 0 <= a && 0 <= b < 64 && 0 <= c < 64 && n == a * 4096 + b * 64 + c
    ensures n / 4096 == a && n / 64 % 64 == b && n % 64 == c
  {
    assert n == (a * 64 + b) * 64 + c;
    SixBitsOf(a * 64 + b, c);
    SixBitsOf(a, b);
    DivideAgain(n);
  }

  lemma FourByteValue(a: int, b: int, c: int, d: int, n: int)
    requires 0 <= a && 0 <= b < 64 && 0 <= c < 64 && 0 <= d < 64 && n == a * 262144 + b * 4096 + c * 64 + d
    ensures n / 262144 == a && n / 4096 % 64 == b && n / 64 % 64 == c && n % 64 == d
  {
    assert n == ((a * 64 + b) * 64 + c) * 64 + d;
    SixBitsOf((a * 64 + b) * 64 + c, d);
    SixBitsOf(a * 64 + b, c);
    SixBitsOf(a, b);
    DivideAgain(n);
  }

  /** The bytes a character is read from are the bytes it is written with. */
  lemma Utf8IsCanonical(bytes: seq<Byte>, c: char)
    requires 1 <= |bytes| <= 4 && Utf8Length(bytes[0]) == |bytes| && Utf8Value(bytes) == Some(c)
    ensures bytes == Utf8(c)
  {
    var b0 := bytes[0] as int;
    if |bytes| == 2 {
      SixBitsOf(b0 - 0xC0, bytes[1] - 0x80);
    } else if |bytes| == 3 {
      ThreeByteValue(b0 - 0xE0, bytes[1] - 0x80, bytes[2] - 0x80, c as int);
    } else if |bytes| == 4 {
      FourByteValue(b0 - 0xF0, bytes[1] - 0x80, bytes[2] - 0x80, bytes[3] - 0x80, c as int);
    }
  }

  /** A text decodes to `t` exactly when it is a spelling of `t`; anything else is malformed. */
  lemma {:induction false} DecodeExactly(s: string, t: string)
    ensures Decode(s) == Some(t) <==> Spells(s, t)
    decreases |s|
  {
    if Decode(s) == Some(t) {
      DecodedIsSpelled(s, t);
    }
    if Spells(s, t) && t != "" {
      var n :| 1 <= n <= |s| && SpellsChar(s[..n], t[0]) && Spells(s[n..], t[1..]);
      DecodeExactly(s[n..], t[1..]);
      SpelledCharDecodes(s, n, t[0]);
      assert [t[0]] + t[1..] == t;
    }
  }

  lemma {:induction false} DecodedIsSpelled(s: string, t: string)
    requires Decode(s) == Some(t)
    ensures Spells(s, t)
    decreases |s|
  {
    if s != "" {
      var n := FirstCharDecoded(s, t);
      DecodedIsSpelled(s[n..], t[1..]);
    }
  }

  /** What decodes starts with a spelling of the first character, and the rest decodes to the rest. */
  lemma FirstCharDecoded(s: string, t: string) returns (n: nat)
    requires s != "" && Decode(s) == Some(t)
    ensures 1 <= n <= |s| && t != "" && SpellsChar(s[..n], t[0]) && Decode(s[n..]) == Some(t[1..])
  {
    hide Utf8Value, Utf8;
    if s[0] != '%' {
      n := 1;
      assert s[..1] == [s[0]];
    } else {
      var b := ReadByte(s).value;
      var bytes := ReadBytes(s, Utf8Length(b)).value;
      n := 3 * |bytes|;
      FirstByteRead(s, |bytes|);
      Utf8IsCanonical(bytes, t[0]);
      ReadBytesExactly(s, bytes);
    }
  }

  lemma FirstByteRead(s: string, n: nat)
    requires n >= 1 && ReadBytes(s, n).Some?
    ensures ReadByte(s) == Some(ReadBytes(s, n).value[0])
  {
  }

  lemma SpelledCharDecodes(s: string, n: nat, c: char)
    requires 1 <= n <= |s| && SpellsChar(s[..n], c)
    ensures Decode(s) == match Decode(s[n..]) case None => None case Some(rest) => Some([c] + rest)
  {
    hide Utf8Value;
    if s[..n] == [c] && c != '%' {
      assert s[0] == c && n == 1;
    } else {
      var bytes := Utf8(c);
      SpelledLength(s[..n], bytes);
      assert s[..n] == s[..3 * |bytes|];
      ReadBytesExactly(s, bytes);
      FirstByteRead(s, |bytes|);
      Utf8RoundTrip(c);
      hide Utf8;
    }
  }

  lemma {:induction false} SpelledLength(u: string, bytes: seq<Byte>)
    requires SpellsBytes(u, bytes)
    ensures |u| == 3 * |bytes| && (bytes != [] ==> u[0] == '%')
  {
    if bytes != [] {
      SpelledLength(u[3..], bytes[1..]);
    }
  }

  // ------------------------------------------------------------------ what an encoded text consists of

  predicate IsEncodedChar(c: char)
  {
    IsUnreserved(c) || c == '%'
  }

  lemma {:induction false} PercentBytesAreEncodedChars(bytes: seq<Byte>)
    ensures forall i :: 0 <= i < |PercentBytes(bytes)| ==> IsEncodedChar(PercentBytes(bytes)[i])
  {
    if bytes != [] {
      PercentBytesAreEncodedChars(bytes[1..]);
    }
  }

  lemma {:induction false} EncodedChars(s: string)
    ensures forall i :: 0 <= i < |Encode(s)| ==> IsEncodedChar(Encode(s)[i])
    ensures |s| <= |Encode(s)|
  {
    if s != "" {
      EncodedChars(s[1..]);
      PercentBytesAreEncodedChars(Utf8(s[0]));
      BytesReadBack(Utf8(s[0]), "");
    }
  }
}
