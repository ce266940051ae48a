/** UTF-8 (RFC 3629): `str.encode("utf-8")` on Unicode scalar values, and a validating
    decoder that inverts it. */
module Utf8 {
  import opened Common

  function CodePoint(c: char): nat {
    c as int
  }

  /** The one- to four-byte encoding of a single scalar value. */
  function EncodeChar(c: char): (r: bytes)
    ensures 1 <= |r| <= 4
    ensures |r| == 1 <==> CodePoint(c) < 0x80
    ensures r[0] < 0x80 || 0xC2 <= r[0] <= 0xF4
    ensures forall k :: 1 <= k < |r| ==> 0x80 <= r[k] < 0xC0
  {
    var n := CodePoint(c);
    if n < 0x80 then [n]
    else if n < 0x800 then [0xC0 + n / 64, 0x80 + n % 64]
    else if n < 0x10000 then [0xE0 + n / 4096, 0x80 + n / 64 % 64, 0x80 + n % 64]
    else [0xF0 + n / 262144, 0x80 + n / 4096 % 64, 0x80 + n / 64 % 64, 0x80 + n % 64]
  }

  function Encode(s: string): (r: bytes)
    ensures |r| >= |s|
    decreases |s|
  {
    if |s| == 0 then [] else EncodeChar(s[0]) + Encode(s[1..])
  }

  predicate IsCont(b: byte) {
    0x80 <= b < 0xC0
  }

  /** A code point that Dafny's `char` can hold: not a surrogate and below 0x110000. */
  predicate IsScalar(n: int) {
    0 <= n < 0xD800 || 0xE000 <= n < 0x11_0000
  }

  /** The first character of `b` and the number of bytes it takes, if `b` starts with a
      shortest-form encoding of a scalar value. */
  function DecodeChar(b: bytes): Option<(char, nat)>
    requires |b| > 0
  {
    var b0 := b[0] as int;
    if b0 < 0x80 then Some((b0 as char, 1))
    else if 0xC2 <= b0 < 0xE0 && |b| >= 2 && IsCont(b[1]) then
      Some((((b0 - 0xC0) * 64 + (b[1] as int - 0x80)) as char, 2))
    else if 0xE0 <= b0 < 0xF0 && |b| >= 3 && IsCont(b[1]) && IsCont(b[2]) then
      var n := (b0 - 0xE0) * 4096 + (b[1] as int - 0x80) * 64 + (b[2] as int - 0x80);
      if 0x800 <= n && IsScalar(n) then Some((n as char, 3)) else None
    else if 0xF0 <= b0 < 0xF5 && |b| >= 4 && IsCont(b[1]) && IsCont(b[2]) && IsCont(b[3]) then
      var n := (b0 - 0xF0) * 262144 + (b[1] as int - 0x80) * 4096 + (b[2] as int - 0x80) * 64 + (b[3] as int - 0x80);
      if 0x10000 <= n && IsScalar(n) then Some((n as char, 4)) else None
    else None
  }

  function Decode(b: bytes): Option<string>
    decreases |b|
  {
    if |b| == 0 then Some([])
    else
      var (c, n) :- DecodeChar(b);
      if n > |b| then None
      else
        var rest :- Decode(b[n..]);
        Some([c] + rest)
  }

  lemma Split2(n: nat)
    requires n < 0x800
    ensures n == n / 64 * 64 + n % 64
  {
  }

  lemma Split3(n: nat)
    requires n < 0x10000
    ensures n == n / 4096 * 4096 + n / 64 % 64 * 64 + n % 64
  {
    assert n / 64 == n / 4096 * 64 + n / 64 % 64;
  }

  lemma Split4(n: nat)
    requires n < 0x11_0000
    ensures n == n / 262144 * 262144 + n / 4096 % 64 * 4096 + n / 64 % 64 * 64 + n % 64
  {
    assert n / 4096 == n / 262144 * 64 + n / 4096 % 64;
    assert n / 64 == n / 4096 * 64 + n / 64 % 64;
  }

  /** Every character's encoding is read back as that character, whatever follows it. */
  lemma DecodeEncodeChar(c: char, rest: bytes)
    ensures DecodeChar(EncodeChar(c) + rest) == Some((c, |EncodeChar(c)|))
  {
    var n := CodePoint(c);
    var e := EncodeChar(c) + rest;
    if n < 0x80 {
    } else if n < 0x800 {
      Split2(n);
      assert e[0] == 0xC0 + n / 64 && e[1] == 0x80 + n % 64;
    } else if n < 0x10000 {
      Split3(n);
      assert e[0] == 0xE0 + n / 4096 && e[1] == 0x80 + n / 64 % 64 && e[2] == 0x80 + n % 64;
    } else {
      Split4(n);
      assert e[0] == 0xF0 + n / 262144 && e[1] == 0x80 + n / 4096 % 64;
      assert e[2] == 0x80 + n / 64 % 64 && e[3] == 0x80 + n % 64;
    }
  }

  lemma {:induction false} DecodeEncode(s: string)
    ensures Decode(Encode(s)) == Some(s)
    decreases |s|
  {
    if |s| > 0 {
      var e := EncodeChar(s[0]);
      var tail := Encode(s[1..]);
      DecodeEncodeChar(s[0], tail);
      assert (e + tail)[|e|..] == tail;
      DecodeEncode(s[1..]);
      assert [s[0]] + s[1..] == s;
    }
  }

  /** ASCII text encodes one byte per character, each byte its code point. */
  lemma {:induction false} EncodeAscii(s: string)
    requires forall k :: 0 <= k < |s| ==> CodePoint(s[k]) < 0x80
    ensures |Encode(s)| == |s|
    ensures forall k :: 0 <= k < |s| ==> Encode(s)[k] == CodePoint(s[k])
    decreases |s|
  {
    if |s| > 0 {
      EncodeAscii(s[1..]);
    }
  }
}
