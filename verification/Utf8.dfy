/** The UTF-8 encoding of text, and the strict decoding of bytes. */
module Utf8 {
  import opened Protocol

  type byte = n: int | 0 <= n < 256

  function EncodeChar(c: char): (r: seq<byte>)
    ensures 1 <= |r| <= 4
  {
    var n := c as int;
    if n < 0x80 then [n]
    else if n < 0x800 then [0xC0 + n / 64, 0x80 + n % 64]
    else if n < 0x1_0000 then [0xE0 + n / 64 / 64, 0x80 + n / 64 % 64, 0x80 + n % 64]
    else [0xF0 + n / 64 / 64 / 64, 0x80 + n / 64 / 64 % 64, 0x80 + n / 64 % 64, 0x80 + n % 64]
  }

  function Encode(s: string): seq<byte> {
    if s == "" then [] else EncodeChar(s[0]) + Encode(s[1..])
  }

  predicate Continues(bytes: seq<byte>, i: nat) {
    i < |bytes| && 0x80 <= bytes[i] <= 0xBF
  }

  /** The number of a scalar value, when it is one. */
  function Scalar(n: int): Option<char> {
    if 0 <= n < 0xD800 || 0xE000 <= n < 0x11_0000 then Some(n as char) else None
  }

  /** Six more bits at the low end. */
  function Push(high: int, b: byte): int {
    high * 64 + (b - 0x80)
  }

  /** The first character of the bytes and its length; nothing for a sequence that is cut short, longer
      than needed, or not a scalar value. */
  function DecodeChar(bytes: seq<byte>): (r: Option<(char, nat)>)
    requires bytes != []
    ensures r.Some? ==> 1 <= r.value.1 <= |bytes|
  {
    var b := bytes[0];
    if b < 0x80 then Sized(b, 1)
    else if 0xC2 <= b <= 0xDF && Continues(bytes, 1) then Sized(Push(b - 0xC0, bytes[1]), 2)
    else if 0xE0 <= b <= 0xEF && Continues(bytes, 1) && Continues(bytes, 2) && (b == 0xE0 ==> bytes[1] >= 0xA0) then
      Sized(Push(Push(b - 0xE0, bytes[1]), bytes[2]), 3)
    else if 0xF0 <= b <= 0xF4 && Continues(bytes, 1) && Continues(bytes, 2) && Continues(bytes, 3) && (b == 0xF0 ==> bytes[1] >= 0x90) then
      Sized(Push(Push(Push(b - 0xF0, bytes[1]), bytes[2]), bytes[3]), 4)
    else None
  }

  function Sized(n: int, size: nat): Option<(char, nat)> {
    match Scalar(n)
    case None => None
    case Some(c) => Some((c, size))
  }

  function Decode(bytes: seq<byte>): Option<string>
    decreases |bytes|
  {
    if bytes == [] then Some("")
    else
      match DecodeChar(bytes)
      case None => None
      case Some((c, size)) =>
        match Decode(bytes[size..])
        case None => None
        case Some(rest) => Some([c] + rest)
  }

  lemma PushDigit(n: nat)
    ensures Push(n / 64, 0x80 + n % 64) == n
  {
  }

  lemma DecodeEncodedChar(c: char, rest: seq<byte>)
    ensures DecodeChar(EncodeChar(c) + rest) == Some((c, |EncodeChar(c)|))
  {
    var n := c as int;
    var e := EncodeChar(c);
    var all := e + rest;
    assert Scalar(n) == Some(c) && all[0] == e[0];
    if |e| > 1 {
      PushDigit(n);
      assert all[1] == e[1];
    }
    if |e| > 2 {
      PushDigit(n / 64);
      assert all[2] == e[2];
    }
    if |e| > 3 {
      PushDigit(n / 64 / 64);
      assert all[3] == e[3];
    }
  }

  lemma PopDigit(high: nat, b: byte)
    requires 0x80 <= b <= 0xBF
    ensures Push(high, b) / 64 == high && 0x80 + Push(high, b) % 64 == b
  {
  }

  lemma EncodeDecodedChar(bytes: seq<byte>)
    requires bytes != [] && DecodeChar(bytes).Some?
    ensures var (c, size) := DecodeChar(bytes).value; bytes[..size] == EncodeChar(c)
  {
    var b := bytes[0];
    var (c, size) := DecodeChar(bytes).value;
    if size == 2 {
      PopDigit(b - 0xC0, bytes[1]);
    } else if size == 3 {
      PopDigit(b - 0xE0, bytes[1]);
      PopDigit(Push(b - 0xE0, bytes[1]), bytes[2]);
    } else if size == 4 {
      PopDigit(b - 0xF0, bytes[1]);
      PopDigit(Push(b - 0xF0, bytes[1]), bytes[2]);
      PopDigit(Push(Push(b - 0xF0, bytes[1]), bytes[2]), bytes[3]);
    }
  }

  lemma {:induction false} DecodeInvertsEncode(s: string)
    ensures Decode(Encode(s)) == Some(s)
  {
    if s != "" {
      DecodeEncodedChar(s[0], Encode(s[1..]));
      DecodeInvertsEncode(s[1..]);
      assert Encode(s) == EncodeChar(s[0]) + Encode(s[1..]);
      assert Encode(s)[|EncodeChar(s[0])|..] == Encode(s[1..]);
      assert s == [s[0]] + s[1..];
    }
  }

  lemma {:induction false} EncodeInvertsDecode(bytes: seq<byte>)
    requires Decode(bytes).Some?
    ensures Encode(Decode(bytes).value) == bytes
    decreases |bytes|
  {
    if bytes != [] {
      EncodeDecodedChar(bytes);
      var (c, size) := DecodeChar(bytes).value;
      EncodeInvertsDecode(bytes[size..]);
      var rest := Decode(bytes[size..]).value;
      assert ([c] + rest)[1..] == rest;
    }
  }

  lemma {:induction false} EncodeAppend(a: string, b: string)
    ensures Encode(a + b) == Encode(a) + Encode(b)
  {
    if a == "" {
      assert a + b == b;
    } else {
      assert (a + b)[1..] == a[1..] + b;
      EncodeAppend(a[1..], b);
    }
  }

  lemma {:induction false} EncodedSize(s: string)
    ensures |s| <= |Encode(s)| <= 4 * |s|
  {
    if s != "" { EncodedSize(s[1..]); }
  }

  /** Every byte of a multi-byte character is above the ASCII range, so an ASCII byte is an ASCII character. */
  lemma {:induction false} AsciiByteIsChar(s: string, b: byte)
    requires b < 0x80
    ensures b in Encode(s) <==> (b as char) in s
  {
    if s != "" {
      AsciiByteIsChar(s[1..], b);
      CharHasByte(s[0], b);
      assert s == [s[0]] + s[1..];
    }
  }

  lemma CharHasByte(c: char, b: byte)
    requires b < 0x80
    ensures b in EncodeChar(c) <==> b as char == c
  {
  }

  lemma {:induction false} AsciiSize(s: string)
    requires forall c <- s :: c as int < 0x80
    ensures |Encode(s)| == |s|
  {
    if s != "" {
      assert s[0] in s && forall c <- s[1..] :: c in s;
      AsciiSize(s[1..]);
    }
  }
}
