/** The Bloom filter: bits packed in bytes, judged against the keys added. */
module BloomFilter {
  import opened FiniteSets

  type Bytes = seq<bv8>

  /** FNV-1a over 64-bit words, seeded per hash function. */
  function HashFrom(h: bv64, key: Bytes): bv64
    decreases |key|
  {
    if |key| == 0 then h
    else HashFrom((h ^ (key[0] as bv64)) * 1099511628211, key[1..])
  }

  function Hash(key: Bytes, seed: nat): bv64
    requires seed < 16
  {
    HashFrom(14695981039346656037 ^ (seed as bv64), key)
  }

  /** The published values of the 64-bit FNV-1a hash for the empty text and for "a". */
  lemma HashVectors()
    ensures Hash([], 0) == 0xCBF2_9CE4_8422_2325 && Hash([0x61], 0) == 0xAF63_DC4C_8601_EC8C
  {
    var a: Bytes := [0x61];
    assert a[1..] == [];
    var start: bv64 := 0xCBF2_9CE4_8422_2325;
    assert (start ^ 0x61) * 1099511628211 == 0xAF63_DC4C_8601_EC8C;
    assert HashFrom(start, a) == HashFrom((start ^ (a[0] as bv64)) * 1099511628211, a[1..]);
  }

  /** The bit that hash function `i` picks for a key. */
  function Probe(key: Bytes, i: nat, numBits: nat): (p: nat)
    requires i < 16 && numBits > 0
    ensures p < numBits
  {
    (Hash(key, i) as nat) % numBits
  }

  // ------------------------------------------------------------ bits in bytes

  function Mask(k: nat): bv8
    requires k < 8
  {
    if k == 0 then 1 else if k == 1 then 2 else if k == 2 then 4 else if k == 3 then 8
    else if k == 4 then 16 else if k == 5 then 32 else if k == 6 then 64 else 128
  }

  predicate BitOf(b: bv8, k: nat)
    requires k < 8
  {
    b & Mask(k) != 0
  }

  lemma MasksApart(j: nat, k: nat)
    requires j < 8 && k < 8
    ensures j != k ==> Mask(j) & Mask(k) == 0
    ensures Mask(k) & Mask(k) == Mask(k) && Mask(k) != 0
  {
  }

  lemma OrMask(b: bv8, m: bv8, n: bv8)
    ensures m & n == 0 ==> (b | m) & n == b & n
    ensures m == n && m != 0 ==> (b | m) & n != 0
  {
  }

  /** Setting one bit of a byte sets that bit alone. */
  lemma SetBit(b: bv8, k: nat, j: nat)
    requires j < 8 && k < 8
    ensures BitOf(b | Mask(k), j) <==> j == k || BitOf(b, j)
  {
    MasksApart(k, j);
    OrMask(b, Mask(k), Mask(j));
    if j == k {
      MasksApart(k, k);
    }
  }

  predicate Bit(bits: Bytes, p: nat)
    requires p < 8 * |bits|
  {
    BitOf(bits[p / 8], p % 8)
  }

  // ----------------------------------------------------------------- filters

  /** The bits that the first `n` hash functions pick for a key. */
  function ProbesOf(key: Bytes, n: nat, numBits: nat): (s: set<nat>)
    requires n <= 16 && numBits > 0
    ensures forall p :: p in s ==> p < numBits
    ensures |s| <= n
  {
    if n == 0 then {} else ProbesOf(key, n - 1, numBits) + {Probe(key, n - 1, numBits)}
  }

  /** The bits picked for any of the keys. */
  function Probes(keys: seq<Bytes>, numHashes: nat, numBits: nat): (s: set<nat>)
    requires numHashes <= 16 && numBits > 0
    ensures forall p :: p in s ==> p < numBits
  {
    if |keys| == 0 then {}
    else Probes(keys[..|keys| - 1], numHashes, numBits) + ProbesOf(keys[|keys| - 1], numHashes, numBits)
  }

  lemma OneMore(a: nat, n: nat)
    ensures a * (n + 1) == a * n + a
  {
  }

  lemma {:induction false} ProbesSize(keys: seq<Bytes>, numHashes: nat, numBits: nat)
    requires numHashes <= 16 && numBits > 0
    ensures |Probes(keys, numHashes, numBits)| <= numHashes * |keys|
  {
    hide ProbesOf;
    if |keys| > 0 {
      var n := |keys| - 1;
      ProbesSize(keys[..n], numHashes, numBits);
      UnionSize(Probes(keys[..n], numHashes, numBits), ProbesOf(keys[n], numHashes, numBits));
      OneMore(numHashes, n);
    }
  }

  /** The positions below `q` whose bit is set. */
  ghost function SetBelow(bits: Bytes, q: nat): set<nat>
    requires q <= 8 * |bits|
  {
    set p: nat | p < q && Bit(bits, p)
  }

  lemma SetBelowStep(bits: Bytes, q: nat)
    requires q < 8 * |bits|
    ensures |SetBelow(bits, q + 1)| == |SetBelow(bits, q)| + (if Bit(bits, q) then 1 else 0)
  {
    hide Bit;
    if Bit(bits, q) {
      assert SetBelow(bits, q + 1) == SetBelow(bits, q) + {q};
    } else {
      assert SetBelow(bits, q + 1) == SetBelow(bits, q);
    }
  }

  lemma UnionSize(a: set<nat>, b: set<nat>)
    ensures |a + b| <= |a| + |b|
  {
    assert a + b == a + (b - a);
  }

  lemma {:induction false} ProbeInside(key: Bytes, n: nat, i: nat, numBits: nat)
    requires i < n <= 16 && numBits > 0
    ensures Probe(key, i, numBits) in ProbesOf(key, n, numBits)
  {
    if i < n - 1 {
      ProbeInside(key, n - 1, i, numBits);
    }
  }

  lemma {:induction false} KeyInside(keys: seq<Bytes>, key: Bytes, numHashes: nat, numBits: nat)
    requires key in keys && numHashes <= 16 && numBits > 0
    ensures ProbesOf(key, numHashes, numBits) <= Probes(keys, numHashes, numBits)
  {
    var n := |keys| - 1;
    if keys[n] != key {
      assert key in keys[..n];
      KeyInside(keys[..n], key, numHashes, numBits);
    }
  }

  class Filter {
    const numBits: nat
    const numHashes: nat
    const bits: array<bv8>
    var itemCount: nat
    ghost var added: seq<Bytes>

    /** The packed bits are exactly the probes of the keys added since the last clear. */
    ghost predicate Valid()
      reads this, bits
    {
      && numBits >= 64 && 1 <= numHashes <= 16 && bits.Length == (numBits + 7) / 8
      && itemCount == |added|
      && (forall p {:trigger Bit(bits[..], p)} :: 0 <= p < 8 * bits.Length ==>
            (Bit(bits[..], p) <==> p in Probes(added, numHashes, numBits)))
    }

    constructor (numBits: nat, numHashes: nat)
      requires numBits >= 64 && 1 <= numHashes <= 16
      ensures Valid() && added == [] && fresh(bits)
    {
      this.numBits, this.numHashes := numBits, numHashes;
      bits := new bv8[(numBits + 7) / 8](_ => 0);
      itemCount, added := 0, [];
    }

    /** ORs one bit into its byte. */
    method Mark(p: nat)
      requires p < 8 * bits.Length
      modifies bits
      ensures forall q {:trigger Bit(bits[..], q)} :: 0 <= q < 8 * bits.Length ==> (Bit(bits[..], q) <==> q == p || Bit(old(bits[..]), q))
    {
      ghost var before := bits[..];
      bits[p / 8] := bits[p / 8] | Mask(p % 8);
      forall q | 0 <= q < 8 * bits.Length ensures Bit(bits[..], q) <==> q == p || Bit(before, q) {
        if q / 8 == p / 8 {
          SetBit(before[p / 8], p % 8, q % 8);
        }
      }
    }

    method Add(key: Bytes)
      requires Valid()
      modifies this`itemCount, this`added, bits
      ensures Valid() && added == old(added) + [key]
    {
      hide Probe, BitOf;
      ghost var base := Probes(added, numHashes, numBits);
      var i := 0;
      while i < numHashes
        invariant 0 <= i <= numHashes
        invariant forall p {:trigger Bit(bits[..], p)} :: 0 <= p < 8 * bits.Length ==>
                    (Bit(bits[..], p) <==> p in base || p in ProbesOf(key, i, numBits))
        modifies bits
      {
        var pos := Probe(key, i, numBits);
        Mark(pos);
        i := i + 1;
      }
      itemCount := itemCount + 1;
      added := added + [key];
      assert added[..|added| - 1] == old(added);
    }

    /** True exactly when every probe of the key meets a bit set by some added key. */
    method MightContain(key: Bytes) returns (r: bool)
      requires Valid()
      ensures r <==> ProbesOf(key, numHashes, numBits) <= Probes(added, numHashes, numBits)
      ensures key in added ==> r
    {
      hide Probe, BitOf;
      if key in added {
        KeyInside(added, key, numHashes, numBits);
      }
      var i := 0;
      while i < numHashes
        invariant 0 <= i <= numHashes
        invariant ProbesOf(key, i, numBits) <= Probes(added, numHashes, numBits)
      {
        var pos := Probe(key, i, numBits);
        ProbeInside(key, numHashes, i, numBits);
        assert Bit(bits[..], pos) <==> BitOf(bits[pos / 8], pos % 8);
        if !BitOf(bits[pos / 8], pos % 8) {
          return false;
        }
        i := i + 1;
      }
      return true;
    }

    /** The statistics' count of set bits: the distinct probes so far, hence at most
        one per bit and at most one per hash and added key. */
    method CountSetBits() returns (count: nat)
      requires Valid()
      ensures count == |Probes(added, numHashes, numBits)|
      ensures count <= numBits && count <= numHashes * itemCount
    {
      hide Probes, BitOf;
      count := 0;
      var i := 0;
      assert SetBelow(bits[..], 0) == {};
      while i < bits.Length
        invariant 0 <= i <= bits.Length && count == |SetBelow(bits[..], 8 * i)|
      {
        var b := 0;
        while b < 8
          invariant 0 <= b <= 8 && count == |SetBelow(bits[..], 8 * i + b)|
        {
          SetBelowStep(bits[..], 8 * i + b);
          assert (8 * i + b) / 8 == i && (8 * i + b) % 8 == b;
          if BitOf(bits[i], b) {
            count := count + 1;
          }
          b := b + 1;
        }
        i := i + 1;
      }
      ghost var probes := Probes(added, numHashes, numBits);
      assert SetBelow(bits[..], 8 * bits.Length) == probes by {
        forall p: nat ensures p in SetBelow(bits[..], 8 * bits.Length) <==> p in probes {
          if p < 8 * bits.Length {
            assert Bit(bits[..], p) <==> p in probes;
          }
        }
      }
      ProbesSize(added, numHashes, numBits);
      SizeBelow(probes, numBits);
    }

    method Clear()
      requires Valid()
      modifies this`itemCount, this`added, bits
      ensures Valid() && added == []
    {
      forall i | 0 <= i < bits.Length {
        bits[i] := 0;
      }
      itemCount, added := 0, [];
    }
  }
}
