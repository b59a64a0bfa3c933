/**
 * Bytes, text, and the conversions between them: `decode`, the write
 * handle's `encode`, the UTF-8 codec they rely on, and the base64 heuristic
 * `decode_b64` of the read handle.
 */
module Codec {
  import opened Wrappers

  newtype byte = x: int | 0 <= x < 256

  /** A payload value: Python `str` or `bytes`. */
  datatype Data = Text(text: string) | Bytes(bytes: seq<byte>)

  // ---------------------------------------------------------------------
  // UTF-8

  function EncodeChar(c: char): (r: seq<byte>)
    ensures 1 <= |r| <= 4
  {
    var n := c as int;
    if n < 0x80 then [n as byte]
    else if n < 0x800 then [(0xC0 + n / 64) as byte, (0x80 + n % 64) as byte]
    else if n < 0x10000 then
      [(0xE0 + n / 4096) as byte, (0x80 + (n / 64) % 64) as byte, (0x80 + n % 64) as byte]
    else
      [(0xF0 + n / 262144) as byte, (0x80 + (n / 4096) % 64) as byte,
       (0x80 + (n / 64) % 64) as byte, (0x80 + n % 64) as byte]
  }

  /** `s.encode("utf-8")` */
  function Utf8Encode(s: string): seq<byte>
  {
    if s == [] then [] else EncodeChar(s[0]) + Utf8Encode(s[1..])
  }

  predicate IsContinuation(b: byte) {
    0x80 <= b < 0xC0
  }

  predicate IsScalar(n: int) {
    (0 <= n < 0xD800) || (0xE000 <= n < 0x110000)
  }

  /**
   * Decodes the character at the front of `b`, with its length in bytes;
   * None for an ill-formed sequence (overlong forms, surrogates and values
   * above U+10FFFF are refused, as the strict codec does).
   */
  function DecodeChar(b: seq<byte>): (r: Option<(char, nat)>)
    requires b != []
    ensures r.Some? ==> 1 <= r.value.1 <= |b|
  {
    var b0 := b[0] as int;
    if b0 < 0x80 then Some((b0 as char, 1))
    else if 0xC0 <= b0 < 0xE0 && |b| >= 2 && IsContinuation(b[1]) then
      var n := (b0 - 0xC0) * 64 + (b[1] as int - 0x80);
      if 0x80 <= n then Some((n as char, 2)) else None
    else if 0xE0 <= b0 < 0xF0 && |b| >= 3 && IsContinuation(b[1]) && IsContinuation(b[2]) then
      var n := (b0 - 0xE0) * 4096 + (b[1] as int - 0x80) * 64 + (b[2] as int - 0x80);
      if 0x800 <= n && IsScalar(n) then Some((n as char, 3)) else None
    else if 0xF0 <= b0 < 0xF8 && |b| >= 4 && IsContinuation(b[1]) && IsContinuation(b[2])
                                           && IsContinuation(b[3]) then
      var n := (b0 - 0xF0) * 262144 + (b[1] as int - 0x80) * 4096
               + (b[2] as int - 0x80) * 64 + (b[3] as int - 0x80);
      if 0x10000 <= n < 0x110000 then Some((n as char, 4)) else None
    else None
  }

  /** `b.decode("utf-8")`: None where the strict codec raises UnicodeDecodeError. */
  function Utf8Decode(b: seq<byte>): Option<string>
    decreases |b|
  {
    if b == [] then Some("")
    else match DecodeChar(b)
      case None => None
      case Some((c, n)) =>
        match Utf8Decode(b[n..])
        case None => None
        case Some(rest) => Some([c] + rest)
  }

  lemma EncodeChar2(n: int, rest: seq<byte>)
    requires 0x80 <= n < 0x800
    ensures DecodeChar([(0xC0 + n / 64) as byte, (0x80 + n % 64) as byte] + rest) == Some((n as char, 2))
  {
    var hi, lo := n / 64, n % 64;
    assert hi * 64 + lo == n;
    var b := [(0xC0 + hi) as byte, (0x80 + lo) as byte] + rest;
    assert b[0] as int == 0xC0 + hi && b[1] as int == 0x80 + lo;
  }

  lemma EncodeChar3(n: int, rest: seq<byte>)
    requires 0x800 <= n < 0x10000 && IsScalar(n)
    ensures DecodeChar([(0xE0 + n / 4096) as byte, (0x80 + (n / 64) % 64) as byte, (0x80 + n % 64) as byte] + rest)
         == Some((n as char, 3))
  {
    var a, m, lo := n / 4096, (n / 64) % 64, n % 64;
    assert a * 4096 + m * 64 + lo == n by {
      assert n / 64 == a * 64 + m;
      assert n == (n / 64) * 64 + lo;
    }
    var b := [(0xE0 + a) as byte, (0x80 + m) as byte, (0x80 + lo) as byte] + rest;
    assert b[0] as int == 0xE0 + a && b[1] as int == 0x80 + m && b[2] as int == 0x80 + lo;
  }

  lemma EncodeChar4(n: int, rest: seq<byte>)
    requires 0x10000 <= n < 0x110000
    ensures DecodeChar([(0xF0 + n / 262144) as byte, (0x80 + (n / 4096) % 64) as byte,
                        (0x80 + (n / 64) % 64) as byte, (0x80 + n % 64) as byte] + rest)
         == Some((n as char, 4))
  {
    var a, m1, m2, lo := n / 262144, (n / 4096) % 64, (n / 64) % 64, n % 64;
    assert a * 262144 + m1 * 4096 + m2 * 64 + lo == n by {
      assert n / 4096 == a * 64 + m1;
      assert n / 64 == (n / 4096) * 64 + m2;
      assert n == (n / 64) * 64 + lo;
    }
    var b := [(0xF0 + a) as byte, (0x80 + m1) as byte, (0x80 + m2) as byte, (0x80 + lo) as byte] + rest;
    assert b[0] as int == 0xF0 + a && b[1] as int == 0x80 + m1;
    assert b[2] as int == 0x80 + m2 && b[3] as int == 0x80 + lo;
  }

  lemma EncodeCharDecodes(c: char, rest: seq<byte>)
    ensures DecodeChar(EncodeChar(c) + rest) == Some((c, |EncodeChar(c)|))
  {
    var n := c as int;
    if n < 0x80 {
    } else if n < 0x800 {
      EncodeChar2(n, rest);
    } else if n < 0x10000 {
      EncodeChar3(n, rest);
    } else {
      EncodeChar4(n, rest);
    }
  }

  /** Text written out as UTF-8 reads back as the same text. */
  lemma {:induction false} Utf8RoundTrip(s: string)
    ensures Utf8Decode(Utf8Encode(s)) == Some(s)
  {
    if s != [] {
      var e := EncodeChar(s[0]);
      EncodeCharDecodes(s[0], Utf8Encode(s[1..]));
      assert (e + Utf8Encode(s[1..]))[|e|..] == Utf8Encode(s[1..]);
      Utf8RoundTrip(s[1..]);
      assert s == [s[0]] + s[1..];
    }
  }

  // ---------------------------------------------------------------------
  // decode() and the write handle's encode()

  /**
   * The module-level `decode(content, mode, encoding)` for str and bytes
   * content: the result is bytes exactly when the mode holds 'b'. Every
   * encoding name is read as UTF-8.
   */
  function Decode(content: Data, mode: string): (r: Result<Data>)
    ensures 'b' in mode ==> r.Ok? && r.value.Bytes?
    ensures 'b' !in mode && r.Ok? ==> r.value.Text?
    ensures r.Err? ==> r.error == DecodeFailure && content.Bytes? && 'b' !in mode
    ensures content.Text? && 'b' !in mode ==> r == Ok(content)
    ensures content.Bytes? && 'b' in mode ==> r == Ok(content)
  {
    match content
    case Bytes(b) =>
      if 'b' !in mode then
        match Utf8Decode(b)
        case None => Err(DecodeFailure)
        case Some(t) => Ok(Text(t))
      else Ok(content)
    case Text(t) =>
      if 'b' in mode then Ok(Bytes(Utf8Encode(t))) else Ok(content)
  }

  /** `decode(b"", mode)`: the empty value of the mode's type. */
  function Empty(mode: string): (r: Data)
    ensures Decode(Bytes([]), mode) == Ok(r)
  {
    if 'b' in mode then Bytes([]) else Text("")
  }

  /** Text decoded to bytes and back to text is unchanged. */
  lemma DecodeTextRoundTrip(s: string, binary: string, text: string)
    requires 'b' in binary && 'b' !in text
    ensures Decode(Decode(Text(s), binary).value, text) == Ok(Text(s))
  {
    Utf8RoundTrip(s);
  }

  /** A decoded value is already of its mode's type, so decoding it again changes nothing. */
  lemma DecodeIdempotent(content: Data, mode: string)
    requires Decode(content, mode).Ok?
    ensures Decode(Decode(content, mode).value, mode) == Decode(content, mode)
  {
  }

  /** The write mode of a write handle: the open mode with 'b' added when absent. */
  function WriteMode(mode: string): (r: string)
    ensures 'b' in r
    ensures 'b' in mode ==> r == mode
  {
    if 'b' in mode then mode else mode + "b"
  }

  /**
   * `SwiftKeyWritableFileObject.encode` under its write mode, which always
   * holds 'b': text is encoded, bytes pass through.
   */
  function Encode(d: Data): (r: seq<byte>)
    ensures d.Bytes? ==> r == d.bytes
    ensures d.Text? ==> Utf8Decode(r) == Some(d.text)
  {
    match d
    case Bytes(b) => b
    case Text(t) => Utf8RoundTrip(t); Utf8Encode(t)
  }

  // ---------------------------------------------------------------------
  // Base64 (RFC 4648, section 4) and the decode_b64 heuristic

  predicate IsB64Char(b: byte) {
    ('A' as byte <= b <= 'Z' as byte) || ('a' as byte <= b <= 'z' as byte)
    || ('0' as byte <= b <= '9' as byte) || b == '+' as byte || b == '/' as byte
  }

  const Pad: byte := '=' as byte

  predicate AllB64(b: seq<byte>) {
    forall i :: 0 <= i < |b| ==> IsB64Char(b[i])
  }

  /** A final quantum of the regex: `xxx=` or `xx==`. */
  predicate PaddedQuantum(q: seq<byte>) {
    |q| == 4 && IsB64Char(q[0]) && IsB64Char(q[1])
    && ((IsB64Char(q[2]) && q[3] == Pad) || (q[2] == Pad && q[3] == Pad))
  }

  /** `BASE64_RE.fullmatch(b)`: whole quanta of the alphabet, the last one possibly padded. */
  predicate B64Match(b: seq<byte>)
    decreases |b|
  {
    b == []
    || (|b| >= 4 && AllB64(b[..4]) && B64Match(b[4..]))
    || (|b| == 4 && PaddedQuantum(b))
  }

  function SextetOf(b: byte): (r: int)
    requires IsB64Char(b)
    ensures 0 <= r < 64
  {
    if 'A' as byte <= b <= 'Z' as byte then (b - 'A' as byte) as int
    else if 'a' as byte <= b <= 'z' as byte then (b - 'a' as byte) as int + 26
    else if '0' as byte <= b <= '9' as byte then (b - '0' as byte) as int + 52
    else if b == '+' as byte then 62
    else 63
  }

  function CharOf(v: int): (r: byte)
    requires 0 <= v < 64
    ensures IsB64Char(r) && SextetOf(r) == v
  {
    if v < 26 then ('A' as int + v) as byte
    else if v < 52 then ('a' as int + v - 26) as byte
    else if v < 62 then ('0' as int + v - 52) as byte
    else if v == 62 then '+' as byte
    else '/' as byte
  }

  /** The three bytes a full quantum of four characters stands for. */
  function DecodeQuantum(q: seq<byte>): (r: seq<byte>)
    requires |q| == 4 && AllB64(q)
    ensures |r| == 3
  {
    var s0, s1, s2, s3 := SextetOf(q[0]), SextetOf(q[1]), SextetOf(q[2]), SextetOf(q[3]);
    [(s0 * 4 + s1 / 16) as byte, ((s1 % 16) * 16 + s2 / 4) as byte, ((s2 % 4) * 64 + s3) as byte]
  }

  /** The one or two bytes of a padded final quantum. */
  function DecodePadded(q: seq<byte>): (r: seq<byte>)
    requires PaddedQuantum(q)
    ensures 1 <= |r| <= 2
  {
    var s0, s1 := SextetOf(q[0]), SextetOf(q[1]);
    if q[2] == Pad then [(s0 * 4 + s1 / 16) as byte]
    else
      var s2 := SextetOf(q[2]);
      [(s0 * 4 + s1 / 16) as byte, ((s1 % 16) * 16 + s2 / 4) as byte]
  }

  /** `base64.b64decode` of a string the regex accepts. */
  function B64Decode(b: seq<byte>): seq<byte>
    requires B64Match(b)
    decreases |b|
  {
    if b == [] then []
    else if AllB64(b[..4]) && B64Match(b[4..]) then DecodeQuantum(b[..4]) + B64Decode(b[4..])
    else DecodePadded(b)
  }

  /** Four characters for three bytes. */
  function EncodeQuantum(x0: byte, x1: byte, x2: byte): (r: seq<byte>)
    ensures |r| == 4 && AllB64(r)
  {
    var a, b, c := x0 as int, x1 as int, x2 as int;
    [CharOf(a / 4), CharOf((a % 4) * 16 + b / 16), CharOf((b % 16) * 4 + c / 64), CharOf(c % 64)]
  }

  /** `base64.b64encode`: the partner the heuristic undoes. */
  function B64Encode(x: seq<byte>): (r: seq<byte>)
    ensures |r| % 4 == 0
    decreases |x|
  {
    if x == [] then []
    else if |x| == 1 then
      var x0 := x[0] as int;
      [CharOf(x0 / 4), CharOf((x0 % 4) * 16), Pad, Pad]
    else if |x| == 2 then
      var x0, x1 := x[0] as int, x[1] as int;
      [CharOf(x0 / 4), CharOf((x0 % 4) * 16 + x1 / 16), CharOf((x1 % 16) * 4), Pad]
    else EncodeQuantum(x[0], x[1], x[2]) + B64Encode(x[3..])
  }

  /** `SwiftKeyReadableFileObject.decode_b64` */
  function DecodeB64(content: seq<byte>): (r: seq<byte>)
    ensures !(|content| % 4 == 0 && B64Match(content)) ==> r == content
  {
    if |content| % 4 == 0 && B64Match(content) then B64Decode(content) else content
  }

  lemma Sextets3(x0: int, x1: int, x2: int)
    requires 0 <= x0 < 256 && 0 <= x1 < 256 && 0 <= x2 < 256
    ensures var s1, s2 := (x0 % 4) * 16 + x1 / 16, (x1 % 16) * 4 + x2 / 64;
      (x0 / 4) * 4 + s1 / 16 == x0 && (s1 % 16) * 16 + s2 / 4 == x1 && (s2 % 4) * 64 + x2 % 64 == x2
  {
    var s1, s2 := (x0 % 4) * 16 + x1 / 16, (x1 % 16) * 4 + x2 / 64;
    assert s1 / 16 == x0 % 4 && s1 % 16 == x1 / 16;
    assert s2 / 4 == x1 % 16 && s2 % 4 == x2 / 64;
  }

  lemma QuantumRoundTrip(x0: byte, x1: byte, x2: byte)
    ensures DecodeQuantum(EncodeQuantum(x0, x1, x2)) == [x0, x1, x2]
  {
    Sextets3(x0 as int, x1 as int, x2 as int);
  }

  lemma {:induction false} B64EncodeMatches(x: seq<byte>)
    ensures B64Match(B64Encode(x))
    ensures B64Decode(B64Encode(x)) == x
    decreases |x|
  {
    var e := B64Encode(x);
    if x == [] {
    } else if |x| == 1 {
      assert !AllB64(e[..4]) by { assert !IsB64Char(e[..4][3]); }
      assert PaddedQuantum(e);
      var x0 := x[0] as int;
      assert (x0 / 4) * 4 + ((x0 % 4) * 16) / 16 == x0;
      assert DecodePadded(e) == x;
    } else if |x| == 2 {
      assert !AllB64(e[..4]) by { assert !IsB64Char(e[..4][3]); }
      assert PaddedQuantum(e);
      var x0, x1 := x[0] as int, x[1] as int;
      var s1 := (x0 % 4) * 16 + x1 / 16;
      assert (x0 / 4) * 4 + s1 / 16 == x0;
      assert (s1 % 16) * 16 + ((x1 % 16) * 4) / 4 == x1;
      assert DecodePadded(e) == x;
    } else {
      var q, tail := EncodeQuantum(x[0], x[1], x[2]), B64Encode(x[3..]);
      B64EncodeMatches(x[3..]);
      QuantumRoundTrip(x[0], x[1], x[2]);
      assert e[..4] == q && e[4..] == tail;
      assert B64Decode(e) == DecodeQuantum(q) + B64Decode(tail);
      assert x == [x[0], x[1], x[2]] + x[3..];
    }
  }

  /** Base64 text produced by an encoder is recognised and decoded back to the original bytes. */
  lemma DecodeB64OfEncoded(x: seq<byte>)
    ensures DecodeB64(B64Encode(x)) == x
  {
    B64EncodeMatches(x);
  }

  /**
   * The heuristic is not a guarantee: the plain four-letter content "test"
   * matches the alphabet and is decoded into other bytes.
   */
  lemma PlainTextCanBeMangled()
    ensures DecodeB64(['t' as byte, 'e' as byte, 's' as byte, 't' as byte])
      != ['t' as byte, 'e' as byte, 's' as byte, 't' as byte]
  {
    var t: seq<byte> := ['t' as byte, 'e' as byte, 's' as byte, 't' as byte];
    assert AllB64(t[..4]);
    assert t[4..] == [];
    assert B64Match(t);
    assert B64Decode(t) == DecodeQuantum(t) + B64Decode([]);
    assert DecodeQuantum(t)[0] == 181;
  }
}
