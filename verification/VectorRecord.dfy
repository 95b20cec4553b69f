/** The envelope of cached vector records: a magic word, a flag, the length, and the
    record, compressed when that is shorter. */
module VectorRecord {
  import opened Wrappers
  import opened LittleEndian

  const RECORD_LIMIT := 16 * 1024 * 1024
  const MAGIC: seq<Byte> := [80, 86, 82, 49]

  /** LZ4 seen from outside: compression may fail, decompression gets the expected
      length and may fail. */
  datatype Codec = Codec(compress: seq<Byte> -> Option<seq<Byte>>, decompress: (seq<Byte>, nat) -> Option<seq<Byte>>)

  ghost predicate Lossless(c: Codec) {
    forall raw :: c.compress(raw).Some? ==> c.decompress(c.compress(raw).value, |raw|) == Some(raw)
  }

  predicate Compresses(c: Codec, raw: seq<Byte>) {
    var compressed := c.compress(raw);
    compressed.Some? && 0 < |compressed.value| < |raw|
  }

  method Pack(c: Codec, raw: seq<Byte>) returns (packed: Option<seq<Byte>>)
    ensures packed.Some? <==> 1 <= |raw| <= 0x100_0000
    ensures packed.Some? ==> |packed.value| == 9 + if Compresses(c, raw) then |c.compress(raw).value| else |raw|
    ensures packed.Some? ==> 9 < |packed.value| <= |raw| + 9
    ensures Lossless(c) && packed.Some? ==> Unpacked(c, packed.value) == Some(raw)
  {
    if |raw| == 0 || |raw| > RECORD_LIMIT {
      return None;
    }
    var compressed, use := c.compress(raw), Compresses(c, raw);
    var out := MAGIC;
    out := out + [if use then 1 else 0];
    var shifted := |raw|;
    ghost var length := EncodeU32(|raw|);
    for i := 0 to 4
      invariant shifted == [|raw|, |raw| / 256, |raw| / 65536, |raw| / 16777216, |raw| / 4294967296][i]
      invariant out == MAGIC + [if use then 1 else 0] + length[..i]
    {
      out := out + [(shifted % 256) as Byte];
      shifted := shifted / 256;
    }
    var body := if use then compressed.value else raw;
    out := out + body;
    ReadsBack(|raw|);
    assert out[..4] == MAGIC && out[4] == (if use then 1 else 0);
    assert out[5..9] == length && out[9..] == body;
    return Some(out);
  }

  /** What the reader makes of a byte string. */
  function Unpacked(c: Codec, packed: seq<Byte>): Option<seq<Byte>> {
    if |packed| < 9 || packed[..4] != MAGIC then None
    else
      var length := ReadU32(packed[5..9]);
      if length == 0 || length > RECORD_LIMIT || |packed| - 9 > RECORD_LIMIT then None
      else if packed[4] == 1 then
        var out := c.decompress(packed[9..], length);
        if out.Some? && |out.value| == length then out else None
      else if packed[4] == 0 && length == |packed| - 9 then Some(packed[9..])
      else None
  }

  method Unpack(c: Codec, packed: seq<Byte>) returns (raw: Option<seq<Byte>>)
    ensures raw == Unpacked(c, packed)
    ensures raw.Some? ==> |packed| >= 9 && packed[..4] == [0x50, 0x56, 0x52, 0x31] && packed[4] in [0, 1]
                          && |raw.value| == ReadU32(packed[5..9]) && 1 <= |raw.value| <= 0x100_0000
    ensures raw.Some? && packed[4] == 0 ==> packed == [0x50, 0x56, 0x52, 0x31] + [0] + EncodeU32(|raw.value|) + raw.value
  {
    if |packed| < 9 || packed[..4] != MAGIC {
      return None;
    }
    var length: nat, scale := 0, 1;
    for i := 0 to 4
      invariant length == Partial(packed[5..9], i) && scale == [1, 256, 65536, 16777216, 4294967296][i]
    {
      length := length + scale * (packed[5 + i] as nat);
      scale := scale * 256;
    }
    assert length == ReadU32(packed[5..9]);
    if length == 0 || length > RECORD_LIMIT || |packed| - 9 > RECORD_LIMIT {
      return None;
    }
    if packed[4] == 1 {
      var out := c.decompress(packed[9..], length);
      return if out.Some? && |out.value| == length then out else None;
    } else if packed[4] == 0 && length == |packed| - 9 {
      EncodesBack(packed[5..9]);
      assert packed == packed[..4] + [packed[4]] + packed[5..9] + packed[9..];
      return Some(packed[9..]);
    }
    return None;
  }

  /** The length assembled from the first `i` bytes. */
  function Partial(b: seq<Byte>, i: nat): nat
    requires |b| == 4 && i <= 4
  {
    (if i > 0 then b[0] as nat else 0) + (if i > 1 then 256 * (b[1] as nat) else 0) +
    (if i > 2 then 65536 * (b[2] as nat) else 0) + (if i > 3 then 16777216 * (b[3] as nat) else 0)
  }

  lemma LowByte(low: nat, high: nat)
    requires low < 256
    ensures (low + 256 * high) / 256 == high && (low + 256 * high) % 256 == low
  {
  }

  lemma EncodesBack(b: seq<Byte>)
    requires |b| == 4
    ensures EncodeU32(ReadU32(b)) == b
  {
    var top := b[2] as nat + 256 * (b[3] as nat);
    var upper := b[1] as nat + 256 * top;
    var n := b[0] as nat + 256 * upper;
    assert ReadU32(b) == n;
    LowByte(b[0] as nat, upper);
    LowByte(b[1] as nat, top);
    LowByte(b[2] as nat, b[3] as nat);
    Shifts(n);
  }
}
