/**
 * Strict UTF-8 (RFC 3629) over Dafny strings, whose characters are Unicode
 * scalar values. Rust's `String::from_utf8`, `str::as_bytes`, and Python's
 * `str.encode('utf-8')` / `bytes.decode('utf-8')` all behave as this codec:
 * overlong forms, surrogates and values above U+10FFFF are rejected.
 */
module Utf8 {
  import opened Wrappers

  type Byte = b: int | 0 <= b < 256
  type Bytes = seq<Byte>

  predicate IsContinuation(b: Byte) { 0x80 <= b < 0xC0 }

  /** The one- to four-byte form of one scalar value (RFC 3629, section 3). */
  function EncodeScalar(c: char): (r: Bytes)
    ensures 1 <= |r| <= 4
    ensures c == '\0' ==> r == [0]
    ensures c != '\0' ==> forall i :: 0 <= i < |r| ==> r[i] != 0
  {
    var n := c as int;
    if n < 0x80 then [n]
    else if n < 0x800 then [0xC0 + n / 64, 0x80 + n % 64]
    else if n < 0x10000 then [0xE0 + n / 64 / 64, 0x80 + (n / 64) % 64, 0x80 + n % 64]
    else [0xF0 + n / 64 / 64 / 64, 0x80 + (n / 64 / 64) % 64, 0x80 + (n / 64) % 64, 0x80 + n % 64]
  }

  function Encode(s: string): (r: Bytes)
  {
    if s == [] then [] else EncodeScalar(s[0]) + Encode(s[1..])
  }

  /**
   * Decodes the scalar value at the front of `b`, if the bytes there form a
   * well-formed sequence: the scalar and how many bytes it took.
   */
  function DecodeScalar(b: Bytes): (r: Option<(char, nat)>)
    ensures r.Some? ==> 1 <= r.value.1 <= |b|
  {
    if |b| == 0 then None
    else if b[0] < 0x80 then Some((b[0] as char, 1))
    else if 0xC0 <= b[0] < 0xE0 then
      if |b| < 2 || !IsContinuation(b[1]) then None
      else
        var n := (b[0] as int - 0xC0) * 64 + (b[1] as int - 0x80);
        if n < 0x80 then None else Some((n as char, 2))
    else if 0xE0 <= b[0] < 0xF0 then
      if |b| < 3 || !IsContinuation(b[1]) || !IsContinuation(b[2]) then None
      else
        var n := ((b[0] as int - 0xE0) * 64 + (b[1] as int - 0x80)) * 64 + (b[2] as int - 0x80);
        if n < 0x800 || 0xD800 <= n < 0xE000 then None else Some((n as char, 3))
    else if 0xF0 <= b[0] < 0xF8 then
      if |b| < 4 || !IsContinuation(b[1]) || !IsContinuation(b[2]) || !IsContinuation(b[3]) then None
      else
        var n := (((b[0] as int - 0xF0) * 64 + (b[1] as int - 0x80)) * 64 + (b[2] as int - 0x80)) * 64 + (b[3] as int - 0x80);
        if n < 0x10000 || 0x10FFFF < n then None else Some((n as char, 4))
    else None
  }

  /** Strict decoding of a whole byte sequence; `None` is the decoder's error. */
  function Decode(b: Bytes): (r: Option<string>)
    decreases |b|
  {
    if b == [] then Some([])
    else
      match DecodeScalar(b)
      case None => None
      case Some((c, k)) =>
        match Decode(b[k..])
        case None => None
        case Some(s) => Some([c] + s)
  }

  predicate IsValid(b: Bytes) { Decode(b).Some? }

  /** Six-bit digits: the arithmetic behind continuation bytes. */
  lemma SixBits(q: int, r: int)
    requires 0 <= r < 64
    ensures (q * 64 + r) / 64 == q && (q * 64 + r) % 64 == r
  {
  }

  /** Decoding the encoding of one scalar, followed by anything, gives that scalar back. */
  lemma DecodeEncodeScalar(c: char, rest: Bytes)
    ensures DecodeScalar(EncodeScalar(c) + rest) == Some((c, |EncodeScalar(c)|))
  {
    var n := c as int;
    var b := EncodeScalar(c) + rest;
    if n < 0x80 {
    } else if n < 0x800 {
      SixBits(n / 64, n % 64);
      assert (b[0] as int - 0xC0) * 64 + (b[1] as int - 0x80) == n;
    } else if n < 0x10000 {
      var d0, d1, d2 := n / 64 / 64, (n / 64) % 64, n % 64;
      assert n / 64 == d0 * 64 + d1;
      assert n == (d0 * 64 + d1) * 64 + d2;
      assert ((b[0] as int - 0xE0) * 64 + (b[1] as int - 0x80)) * 64 + (b[2] as int - 0x80) == n;
    } else {
      var d0, d1, d2, d3 := n / 64 / 64 / 64, (n / 64 / 64) % 64, (n / 64) % 64, n % 64;
      assert n / 64 / 64 == d0 * 64 + d1;
      assert n / 64 == (d0 * 64 + d1) * 64 + d2;
      assert n == ((d0 * 64 + d1) * 64 + d2) * 64 + d3;
      assert (((b[0] as int - 0xF0) * 64 + (b[1] as int - 0x80)) * 64 + (b[2] as int - 0x80)) * 64 + (b[3] as int - 0x80) == n;
    }
  }

  /** A well-formed scalar sequence is the one and only encoding of the scalar it decodes to. */
  lemma EncodeDecodeScalar(b: Bytes)
    requires DecodeScalar(b).Some?
    ensures EncodeScalar(DecodeScalar(b).value.0) == b[..DecodeScalar(b).value.1]
  {
    var c := DecodeScalar(b).value.0;
    var n := c as int;
    if b[0] < 0x80 {
    } else if b[0] < 0xE0 {
      SixBits(b[0] as int - 0xC0, b[1] - 0x80);
    } else if b[0] < 0xF0 {
      var q := (b[0] as int - 0xE0) * 64 + (b[1] as int - 0x80);
      SixBits(q, b[2] - 0x80);
      SixBits(b[0] as int - 0xE0, b[1] - 0x80);
    } else {
      var q1 := (b[0] as int - 0xF0) * 64 + (b[1] as int - 0x80);
      var q2 := q1 * 64 + (b[2] as int - 0x80);
      SixBits(q2, b[3] - 0x80);
      SixBits(q1, b[2] - 0x80);
      SixBits(b[0] as int - 0xF0, b[1] - 0x80);
    }
  }

  lemma {:induction false} DecodeEncode(s: string)
    ensures Decode(Encode(s)) == Some(s)
  {
    if s != [] {
      var e := EncodeScalar(s[0]);
      DecodeEncodeScalar(s[0], Encode(s[1..]));
      assert (e + Encode(s[1..]))[|e|..] == Encode(s[1..]);
      DecodeEncode(s[1..]);
      assert Decode(Encode(s)) == Some([s[0]] + s[1..]);
      assert [s[0]] + s[1..] == s;
    }
  }

  lemma {:induction false} EncodeDecode(b: Bytes)
    requires Decode(b).Some?
    ensures Encode(Decode(b).value) == b
    decreases |b|
  {
    if b != [] {
      var c := DecodeScalar(b).value.0;
      var k := DecodeScalar(b).value.1;
      EncodeDecodeScalar(b);
      EncodeDecode(b[k..]);
      assert Decode(b).value == [c] + Decode(b[k..]).value;
      assert b == b[..k] + b[k..];
    }
  }

  /** Decoding and encoding are inverse: exactly the encodings of strings decode, each to its own string. */
  lemma DecodeIffEncode(b: Bytes, s: string)
    ensures Decode(b) == Some(s) <==> Encode(s) == b
  {
    if Decode(b) == Some(s) { EncodeDecode(b); }
    if Encode(s) == b { DecodeEncode(s); }
  }

  /** Exactly the encodings of strings are valid UTF-8. */
  lemma DecodableIff(b: Bytes)
    ensures Decode(b).Some? <==> exists s :: Encode(s) == b
  {
    if Decode(b).Some? { EncodeDecode(b); }
    if exists s :: Encode(s) == b {
      var s :| Encode(s) == b;
      DecodeEncode(s);
    }
  }

  lemma {:induction false} EncodeAppend(s: string, t: string)
    ensures Encode(s + t) == Encode(s) + Encode(t)
  {
    if s != [] {
      assert (s + t)[0] == s[0];
      assert (s + t)[1..] == s[1..] + t;
      EncodeAppend(s[1..], t);
      assert Encode(s + t) == EncodeScalar(s[0]) + (Encode(s[1..]) + Encode(t));
    } else {
      assert s + t == t;
    }
  }

  /** The encoding holds a zero byte exactly where the string holds U+0000. */
  lemma {:induction false} EncodeHasZeroIff(s: string)
    ensures 0 in Encode(s) <==> '\0' in s
  {
    if s != [] {
      EncodeHasZeroIff(s[1..]);
      assert s == [s[0]] + s[1..];
      var e := EncodeScalar(s[0]);
      assert 0 in e <==> s[0] == '\0';
    }
  }
}
