/** Four-byte little-endian lengths, as the write-ahead log and the record envelope
    use them. */
module LittleEndian {

  newtype Byte = n: int | 0 <= n < 256

  const LIMIT := 0x1_0000_0000

  function EncodeU32(n: nat): (b: seq<Byte>)
    requires n < LIMIT
    ensures |b| == 4
  {
    [(n % 256) as Byte, (n / 256 % 256) as Byte, (n / 65536 % 256) as Byte, (n / 16777216 % 256) as Byte]
  }

  /** The shifted bytes do not overlap, so their disjunction is their sum. */
  function ReadU32(b: seq<Byte>): (n: nat)
    requires |b| == 4
    ensures n < LIMIT
  {
    b[0] as nat + 256 * (b[1] as nat) + 65536 * (b[2] as nat) + 16777216 * (b[3] as nat)
  }

  lemma Shifts(n: nat)
    ensures n == 256 * (n / 256) + n % 256
    ensures n / 65536 == n / 256 / 256 && n / 16777216 == n / 65536 / 256
  {
  }

  lemma Top(n: nat)
    requires n < LIMIT
    ensures n / 16777216 % 256 == n / 16777216
  {
  }

  lemma ReadsBack(n: nat)
    requires n < LIMIT
    ensures ReadU32(EncodeU32(n)) == n
  {
    Shifts(n);
    Shifts(n / 256);
    Shifts(n / 65536);
    Top(n);
  }

  function Power256(i: nat): nat {
    if i == 0 then 1 else 256 * Power256(i - 1)
  }

  /** Byte `i` weighs `256^i`. */
  function Weighed(b: seq<Byte>, i: nat): nat
    requires i <= |b|
  {
    if i == 0 then 0 else Weighed(b, i - 1) + (b[i - 1] as nat) * Power256(i - 1)
  }

  lemma ReadWeighs(b: seq<Byte>)
    requires |b| == 4
    ensures ReadU32(b) == Weighed(b, 4)
  {
    assert Power256(0) == 1 && Power256(1) == 256 && Power256(2) == 65536 && Power256(3) == 16777216;
    assert Weighed(b, 1) == b[0] as nat && Weighed(b, 2) == Weighed(b, 1) + (b[1] as nat) * 256;
    assert Weighed(b, 3) == Weighed(b, 2) + (b[2] as nat) * 65536;
  }

  /** Byte `i` of an encoded number is its digit of weight `256^i`. */
  lemma EncodeWeighs(n: nat)
    requires n < LIMIT
    ensures Weighed(EncodeU32(n), 4) == n
  {
    ReadWeighs(EncodeU32(n));
    ReadsBack(n);
  }
}
