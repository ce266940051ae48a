/** Base64 with the standard alphabet and `=` padding (section 4 of RFC 4648), as Python's
    `base64.b64encode` writes it and `base64.b64decode` (non-validating) reads it. */
module Base64 {
  import opened Common
  import opened Text

  /** The value of an alphabet character, or 64 for a character outside the alphabet. */
  function Value(c: char): (v: nat)
    ensures v <= 64
  {
    if 'A' <= c <= 'Z' then c as int - 'A' as int
    else if 'a' <= c <= 'z' then c as int - 'a' as int + 26
    else if '0' <= c <= '9' then c as int - '0' as int + 52
    else if c == '+' then 62
    else if c == '/' then 63
    else 64
  }

  function Symbol(v: nat): (c: char)
    requires v < 64
    ensures Value(c) == v
  {
    if v < 26 then ('A' as int + v) as char
    else if v < 52 then ('a' as int + v - 26) as char
    else if v < 62 then ('0' as int + v - 52) as char
    else if v == 62 then '+'
    else '/'
  }

  /** Three bytes, or the one or two of a final group, as four characters. */
  function EncodeGroup(b: bytes): (r: string)
    requires 1 <= |b| <= 3
    ensures |r| == 4
  {
    var b1 := if |b| > 1 then b[1] else 0;
    var b2 := if |b| > 2 then b[2] else 0;
    var c0 := Symbol(b[0] / 4);
    var c1 := Symbol(b[0] % 4 * 16 + b1 / 16);
    var c2 := if |b| > 1 then Symbol(b1 % 16 * 4 + b2 / 64) else '=';
    var c3 := if |b| > 2 then Symbol(b2 % 64) else '=';
    [c0, c1, c2, c3]
  }

  /** `base64.b64encode(b).decode()` */
  function Encode(b: bytes): (r: string)
    ensures |r| == (|b| + 2) / 3 * 4
    decreases |b|
  {
    if |b| == 0 then ""
    else if |b| <= 3 then EncodeGroup(b)
    else EncodeGroup(b[..3]) + Encode(b[3..])
  }

  /** Decoder state: characters taken in the current quad, the bits still owed to the next
      byte, padding characters seen, and the bytes produced so far. */
  datatype Decoder = Decoder(quad: nat, left: nat, pads: nat, out: bytes)

  /** Takes one alphabet value (`v < 64`): the case split on the quad position. */
  function Feed(d: Decoder, v: nat): Decoder
    requires v < 64 && d.quad < 4 && d.left < 64
  {
    if d.quad == 0 then Decoder(1, v, 0, d.out)
    else if d.quad == 1 then Decoder(2, v % 16, 0, d.out + [(d.left * 4 + v / 16) % 256])
    else if d.quad == 2 then Decoder(3, v % 4, 0, d.out + [(d.left * 16 + v / 4) % 256])
    else Decoder(0, 0, 0, d.out + [(d.left * 64 + v) % 256])
  }

  predicate WellFormed(d: Decoder) {
    d.quad < 4 && d.left < 64
  }

  /** What the decoder reports once the input runs out without a completed pad sequence. */
  function Finish(d: Decoder): Result<bytes, Exception> {
    if d.quad == 0 then Ok(d.out)
    else if d.quad == 1 then
      Err(Exception("Error", "Invalid base64-encoded string: number of data characters ("
        + NatToString(|d.out| / 3 * 4 + 1) + ") cannot be 1 more than a multiple of 4"))
    else Err(Exception("Error", "Incorrect padding"))
  }

  /** The non-strict decoding loop: characters outside the alphabet are skipped, a `=` only
      counts after two data characters of a quad, and a pad that completes the quad ends
      the input. */
  function Run(d: Decoder, s: string): Result<bytes, Exception>
    requires WellFormed(d)
    decreases |s|
  {
    if |s| == 0 then Finish(d)
    else if s[0] == '=' then
      if d.quad >= 2 && d.quad + d.pads + 1 >= 4 then Ok(d.out)
      else Run(d.(pads := if d.quad >= 2 then d.pads + 1 else d.pads), s[1..])
    else if Value(s[0]) == 64 then Run(d, s[1..])
    else Run(Feed(d, Value(s[0])), s[1..])
  }

  predicate IsAscii(s: string) {
    forall i :: 0 <= i < |s| ==> s[i] as int < 128
  }

  /** `base64.b64decode(s)` for a `str` argument. */
  function Decode(s: string): (r: Result<bytes, Exception>)
    ensures !IsAscii(s) ==> r == Err(ValueError("string argument should contain only ASCII characters"))
  {
    if !IsAscii(s) then Err(ValueError("string argument should contain only ASCII characters"))
    else Run(Decoder(0, 0, 0, []), s)
  }

  // ---------------------------------------------------------------------------
  // Round trip
  // ---------------------------------------------------------------------------

  lemma GroupBytes(b0: byte, b1: byte, b2: byte)
    ensures (b0 / 4 * 4 + (b0 % 4 * 16 + b1 / 16) / 16) % 256 == b0
    ensures ((b0 % 4 * 16 + b1 / 16) % 16 * 16 + (b1 % 16 * 4 + b2 / 64) / 4) % 256 == b1
    ensures ((b1 % 16 * 4 + b2 / 64) % 4 * 64 + b2 % 64) % 256 == b2
  {
  }

  /** A data character moves the decoder by one `Feed`. */
  lemma RunData(d: Decoder, s: string, v: nat)
    requires WellFormed(d) && |s| > 0 && v < 64 && Value(s[0]) == v
    ensures WellFormed(Feed(d, v))
    ensures Run(d, s) == Run(Feed(d, v), s[1..])
  {
  }

  /** One full group of four characters adds its three bytes and leaves the quad empty. */
  lemma RunFullGroup(out: bytes, b: bytes, rest: string)
    requires |b| == 3
    ensures Run(Decoder(0, 0, 0, out), EncodeGroup(b) + rest) == Run(Decoder(0, 0, 0, out + b), rest)
  {
    var s := EncodeGroup(b) + rest;
    GroupBytes(b[0], b[1], b[2]);
    var d0 := Decoder(0, 0, 0, out);
    var v0, v1, v2, v3 := b[0] / 4, b[0] % 4 * 16 + b[1] / 16, b[1] % 16 * 4 + b[2] / 64, b[2] % 64;
    var d1 := Feed(d0, v0);
    var d2 := Feed(d1, v1);
    var d3 := Feed(d2, v2);
    var d4 := Feed(d3, v3);
    assert d4 == Decoder(0, 0, 0, out + b) by {
      assert out + [b[0]] + [b[1]] + [b[2]] == out + b;
    }
    RunData(d0, s, v0);
    RunData(d1, s[1..], v1);
    RunData(d2, s[1..][1..], v2);
    RunData(d3, s[1..][1..][1..], v3);
    assert s[1..][1..][1..][1..] == rest;
  }

  /** A final group of one or two bytes ends the decoding at its padding. */
  lemma RunLastGroup(out: bytes, b: bytes)
    requires 1 <= |b| <= 2
    ensures Run(Decoder(0, 0, 0, out), EncodeGroup(b)) == Ok(out + b)
  {
    var s := EncodeGroup(b);
    var b1 := if |b| > 1 then b[1] else 0;
    GroupBytes(b[0], b1, 0);
    var d0 := Decoder(0, 0, 0, out);
    var v0, v1 := b[0] / 4, b[0] % 4 * 16 + b1 / 16;
    var d1 := Feed(d0, v0);
    var d2 := Feed(d1, v1);
    RunData(d0, s, v0);
    RunData(d1, s[1..], v1);
    assert d2.out == out + [b[0]];
    if |b| == 2 {
      var d3 := Feed(d2, b1 % 16 * 4);
      RunData(d2, s[1..][1..], b1 % 16 * 4);
      assert d3.out == out + b;
      assert s[1..][1..][1..][0] == '=';
    } else {
      assert b == [b[0]];
      var d2p := d2.(pads := d2.pads + 1);
      assert Run(d2, s[1..][1..]) == Run(d2p, s[1..][1..][1..]);
      assert Run(d2p, s[1..][1..][1..]) == Ok(d2.out);
    }
  }

  lemma {:induction false} RunEncode(out: bytes, b: bytes)
    ensures Run(Decoder(0, 0, 0, out), Encode(b)) == Ok(out + b)
    decreases |b|
  {
    if |b| == 0 {
      assert out + b == out;
    } else if |b| < 3 {
      RunLastGroup(out, b);
    } else if |b| == 3 {
      RunFullGroup(out, b, "");
      assert EncodeGroup(b) + "" == EncodeGroup(b);
      assert out + b + [] == out + b;
    } else {
      RunFullGroup(out, b[..3], Encode(b[3..]));
      RunEncode(out + b[..3], b[3..]);
      assert out + b[..3] + b[3..] == out + b;
    }
  }

  lemma EncodeIsAscii(b: bytes)
    ensures IsAscii(Encode(b))
    ensures forall i :: 0 <= i < |Encode(b)| ==> Value(Encode(b)[i]) < 64 || Encode(b)[i] == '='
  {
    var s := Encode(b);
    forall i | 0 <= i < |s|
      ensures s[i] as int < 128 && (Value(s[i]) < 64 || s[i] == '=')
    {
      EncodeChars(b, i);
    }
  }

  lemma {:induction false} EncodeChars(b: bytes, i: nat)
    requires i < |Encode(b)|
    ensures Encode(b)[i] as int < 128 && (Value(Encode(b)[i]) < 64 || Encode(b)[i] == '=')
    decreases |b|
  {
    if |b| > 3 && i >= 4 {
      EncodeChars(b[3..], i - 4);
    }
  }

  /** Decoding what the encoder wrote gives back the bytes. */
  lemma DecodeEncode(b: bytes)
    ensures Decode(Encode(b)) == Ok(b)
  {
    EncodeIsAscii(b);
    RunEncode([], b);
    assert [] + b == b;
  }

  /** The encoded form of "hello world". */
  lemma HelloWorldEncoding(b: bytes)
    requires b == [104, 101, 108, 108, 111, 32, 119, 111, 114, 108, 100]
    ensures Encode(b) == "aGVsbG8gd29ybGQ="
  {
    var g1, g2, g3, g4 := b[..3], b[3..6], b[6..9], b[9..];
    HelloWorldGroups(g1, g2, g3, g4);
    EncodeFourGroups(g1, g2, g3, g4);
    assert g1 + g2 + g3 + g4 == b;
  }

  lemma HelloWorld(s: string, b: bytes)
    requires s == "aGVsbG8gd29ybGQ="
    requires b == [104, 101, 108, 108, 111, 32, 119, 111, 114, 108, 100]
    ensures Decode(s) == Ok(b)
  {
    HelloWorldEncoding(b);
    DecodeEncode(b);
  }

  /** A two-byte group without its pad stops three characters into a quad. */
  lemma RunPairTruncated(out: bytes, b: bytes)
    requires |b| == 2
    ensures Run(Decoder(0, 0, 0, out), EncodeGroup(b)[..3]) == Err(Exception("Error", "Incorrect padding"))
  {
    var s := EncodeGroup(b)[..3];
    var d0 := Decoder(0, 0, 0, out);
    var v0, v1, v2 := b[0] / 4, b[0] % 4 * 16 + b[1] / 16, b[1] % 16 * 4;
    assert Value(s[0]) == v0 && Value(s[1]) == v1 && Value(s[2]) == v2;
    var d1 := Feed(d0, v0);
    var d2 := Feed(d1, v1);
    var d3 := Feed(d2, v2);
    RunData(d0, s, v0);
    RunData(d1, s[1..], v1);
    RunData(d2, s[1..][1..], v2);
    assert s[1..][1..][1..] == "";
    assert d3.quad == 3;
  }

  /** Dropping the pad after a two-byte final group leaves a quad one character short. */
  lemma {:induction false} RunTruncated(out: bytes, b: bytes)
    requires |b| % 3 == 2
    ensures |Encode(b)| > 0
    ensures Run(Decoder(0, 0, 0, out), Encode(b)[..|Encode(b)| - 1]) == Err(Exception("Error", "Incorrect padding"))
    decreases |b|
  {
    var e := Encode(b);
    if |b| == 2 {
      RunPairTruncated(out, b);
    } else {
      var tail := Encode(b[3..]);
      RunTruncated(out + b[..3], b[3..]);
      assert e[..|e| - 1] == EncodeGroup(b[..3]) + tail[..|tail| - 1];
      RunFullGroup(out, b[..3], tail[..|tail| - 1]);
    }
  }

  /** The padded example without its final `=` is rejected. */
  lemma HelloWorldUnpadded(s: string, b: bytes)
    requires s == "aGVsbG8gd29ybGQ"
    requires b == [104, 101, 108, 108, 111, 32, 119, 111, 114, 108, 100]
    ensures Decode(s) == Err(Exception("Error", "Incorrect padding"))
  {
    HelloWorldEncoding(b);
    var e := Encode(b);
    assert s == e[..15];
    EncodeIsAscii(b);
    assert IsAscii(s);
    RunTruncated([], b);
  }

  lemma EncodeFourGroups(g1: bytes, g2: bytes, g3: bytes, g4: bytes)
    requires |g1| == |g2| == |g3| == 3 && 1 <= |g4| <= 3
    ensures Encode(g1 + g2 + g3 + g4) == EncodeGroup(g1) + EncodeGroup(g2) + EncodeGroup(g3) + EncodeGroup(g4)
  {
    EncodePrepend(g3, g4);
    EncodePrepend(g2, g3 + g4);
    EncodePrepend(g1, g2 + g3 + g4);
    assert g1 + g2 + g3 + g4 == g1 + (g2 + (g3 + g4));
  }

  lemma HelloWorldGroups(g1: bytes, g2: bytes, g3: bytes, g4: bytes)
    requires g1 == [104, 101, 108] && g2 == [108, 111, 32] && g3 == [119, 111, 114] && g4 == [108, 100]
    ensures EncodeGroup(g1) == "aGVs" && EncodeGroup(g2) == "bG8g"
    ensures EncodeGroup(g3) == "d29y" && EncodeGroup(g4) == "bGQ="
  {
  }

  /** A full group in front of more bytes encodes separately. */
  lemma EncodePrepend(x: bytes, y: bytes)
    requires |x| == 3 && |y| > 0
    ensures Encode(x + y) == EncodeGroup(x) + Encode(y)
  {
    assert (x + y)[..3] == x && (x + y)[3..] == y;
  }
}
