/** The embedding codec: a vector of 64-bit doubles stored as consecutive big-endian 8-byte
    words, optionally base64-encoded (section 4 of RFC 4648). Each element is modelled as
    its 64-bit pattern, so the codec is exercised bit for bit without floating point. */
module Embedding {
  import opened Common
  import Base64

  /** The bit pattern of one double. */
  type word = w: nat | w < 0x1_0000_0000_0000_0000

  /** `struct.calcsize(">d")`. */
  const WordSize: nat := 8

  function Pow256(k: nat): (r: nat)
    ensures r >= 1
  {
    if k == 0 then 1 else 256 * Pow256(k - 1)
  }

  /** The low `k` bytes of `w`, most significant first. */
  function ToBytes(w: nat, k: nat): (r: bytes)
    ensures |r| == k
    decreases k
  {
    if k == 0 then [] else ToBytes(w / 256, k - 1) + [w % 256]
  }

  /** The number a big-endian byte string denotes. */
  function FromBytes(b: bytes): (r: nat)
    ensures r < Pow256(|b|)
    decreases |b|
  {
    if |b| == 0 then 0 else FromBytes(b[..|b| - 1]) * 256 + b[|b| - 1]
  }

  lemma {:induction false} FromToBytes(w: nat, k: nat)
    requires w < Pow256(k)
    ensures FromBytes(ToBytes(w, k)) == w
    decreases k
  {
    if k > 0 {
      var r := ToBytes(w, k);
      assert r[..k - 1] == ToBytes(w / 256, k - 1);
      FromToBytes(w / 256, k - 1);
    }
  }

  function Pack(v: seq<word>): (r: bytes)
    ensures |r| == WordSize * |v|
    decreases |v|
  {
    if |v| == 0 then [] else ToBytes(v[0], WordSize) + Pack(v[1..])
  }

  /** Element `i` occupies bytes `[8i, 8i + 8)`, most significant byte first. */
  lemma {:induction false} PackLayout(v: seq<word>, i: nat)
    requires i < |v|
    ensures Pack(v)[WordSize * i..WordSize * i + WordSize] == ToBytes(v[i], WordSize)
    decreases i
  {
    if i > 0 {
      var tail := Pack(v[1..]);
      PackLayout(v[1..], i - 1);
      var r := Pack(v);
      assert r == ToBytes(v[0], WordSize) + tail;
      var lo := WordSize * (i - 1);
      assert WordSize * i == WordSize + lo;
      assert r[WordSize + lo..WordSize + lo + WordSize] == tail[lo..lo + WordSize];
    }
  }

  /** The whole words of a buffer whose length is a multiple of the word size. */
  function Words(b: bytes): (r: seq<word>)
    requires |b| % WordSize == 0
    ensures |r| == |b| / WordSize
    decreases |b|
  {
    if |b| == 0 then []
    else
      assert Pow256(WordSize) == 0x1_0000_0000_0000_0000;
      [FromBytes(b[..WordSize]) as word] + Words(b[WordSize..])
  }

  /** `struct.iter_unpack(">1d", b)`, which refuses a buffer that is not whole words. */
  function Unpack(b: bytes): (r: Result<seq<word>, Exception>)
    ensures r.Ok? <==> |b| % WordSize == 0
    ensures r.Ok? ==> |r.value| == |b| / WordSize
  {
    if |b| % WordSize != 0 then Err(Exception("error", "iterative unpacking requires a buffer of a multiple of 8 bytes"))
    else Ok(Words(b))
  }

  lemma {:induction false} UnpackPack(v: seq<word>)
    ensures Unpack(Pack(v)) == Ok(v)
    decreases |v|
  {
    if |v| > 0 {
      var r := Pack(v);
      assert r[..WordSize] == ToBytes(v[0], WordSize) && r[WordSize..] == Pack(v[1..]);
      assert Pow256(WordSize) == 0x1_0000_0000_0000_0000;
      FromToBytes(v[0], WordSize);
      UnpackPack(v[1..]);
      assert [v[0]] + v[1..] == v;
    }
  }

  /** An embedding holds its vector. */
  datatype Embedding = Embedding(vector: seq<word>)

  /** `calc_binary_size(n)`: the packed size of any vector of `n` elements. */
  function CalcBinarySize(n: nat): (r: nat)
    ensures forall v: seq<word> :: |v| == n ==> |Pack(v)| == r
  {
    WordSize * n
  }

  function Dimensions(e: Embedding): (n: nat)
    ensures n == |Pack(e.vector)| / WordSize
  {
    |e.vector|
  }

  function ToBinary(e: Embedding): (r: bytes)
    ensures |r| == CalcBinarySize(Dimensions(e))
  {
    Pack(e.vector)
  }

  function ToBase64(e: Embedding): string {
    Base64.Encode(ToBinary(e))
  }

  function ToList(e: Embedding): seq<word> {
    e.vector
  }

  /** `from_binary`'s argument: raw bytes, or a string taken to be base64. */
  datatype Binary = RawBytes(b: bytes) | Base64Text(s: string)

  function FromBinary(value: Binary): (r: Result<Embedding, Exception>)
    ensures value.RawBytes? ==> (r.Ok? <==> |value.b| % WordSize == 0)
    ensures value.Base64Text? && Base64.Decode(value.s).Err? ==> r == Err(Base64.Decode(value.s).error)
  {
    var b :- if value.RawBytes? then Ok(value.b) else Base64.Decode(value.s);
    var v :- Unpack(b);
    Ok(Embedding(v))
  }

  /** Writing an embedding as bytes or as base64 text and reading it back gives the same
      vector, element for element. */
  lemma FromBinaryRoundTrip(e: Embedding)
    ensures FromBinary(RawBytes(ToBinary(e))) == Ok(e)
    ensures FromBinary(Base64Text(ToBase64(e))) == Ok(e)
    ensures ToList(e) == e.vector && Dimensions(e) == |ToList(e)|
  {
    UnpackPack(e.vector);
    Base64.DecodeEncode(ToBinary(e));
  }
}
