/** The frame walk over a write-ahead log image. */
module WalFrames {
  import opened LittleEndian

  const MAX_ENTRIES := 128

  datatype Frame = Frame(op: Byte, payload: seq<Byte>)

  predicate FrameOk(f: Frame) {
    |f.payload| < LIMIT
  }

  function Encode(f: Frame): seq<Byte>
    requires FrameOk(f)
  {
    [f.op] + EncodeU32(|f.payload|) + f.payload
  }

  function EncodeAll(fs: seq<Frame>): seq<Byte>
    requires forall i :: 0 <= i < |fs| ==> FrameOk(fs[i])
  {
    if |fs| == 0 then [] else Encode(fs[0]) + EncodeAll(fs[1..])
  }

  /** The frames that a walk over `data` visits, at most `limit` of them. */
  function Walk(data: seq<Byte>, limit: nat): seq<Frame>
    decreases limit
  {
    if |data| < 5 || limit == 0 then []
    else
      var size := ReadU32(data[1..5]);
      if size > |data| - 5 then []
      else [Frame(data[0], data[5..5 + size])] + Walk(data[5 + size..], limit - 1)
  }

  lemma WalkStep(data: seq<Byte>, off: nat, limit: nat)
    requires off + 5 <= |data| && limit > 0
    ensures var size := ReadU32(data[off + 1..off + 5]);
            Walk(data[off..], limit)
            == if size > |data| - (off + 5) then []
               else [Frame(data[off], data[off + 5..off + 5 + size])] + Walk(data[off + 5 + size..], limit - 1)
  {
    hide ReadU32;
    var rest, size := data[off..], ReadU32(data[off + 1..off + 5]);
    assert rest[1..5] == data[off + 1..off + 5];
    if size <= |data| - (off + 5) {
      assert rest[5..5 + size] == data[off + 5..off + 5 + size] && rest[5 + size..] == data[off + 5 + size..];
    }
  }

  method WalkBinaryWal(data: seq<Byte>) returns (visited: seq<Frame>)
    ensures visited == Walk(data, 128)
  {
    hide Walk;
    hide ReadU32;
    visited := [];
    var off, entries := 0, 0;
    assert data[0..] == data;
    while off + 5 <= |data| && entries < MAX_ENTRIES
      invariant 0 <= off <= |data| && 0 <= entries <= MAX_ENTRIES
      invariant Walk(data, MAX_ENTRIES) == visited + Walk(data[off..], MAX_ENTRIES - entries)
      decreases MAX_ENTRIES - entries
    {
      WalkStep(data, off, MAX_ENTRIES - entries);
      var op := data[off];
      off := off + 1;
      var size := ReadU32(data[off..off + 4]);
      off := off + 4;
      if size > |data| - off {
        return;
      }
      var payload := data[off..off + size];
      off := off + size;
      entries := entries + 1;
      visited := visited + [Frame(op, payload)];
    }
    WalkEnds(data[off..], MAX_ENTRIES - entries);
  }

  lemma WalkEnds(data: seq<Byte>, limit: nat)
    requires |data| < 5 || limit == 0
    ensures Walk(data, limit) == []
  {}

  /** How many of the frames lie wholly in the first `k` bytes. */
  function Whole(fs: seq<Frame>, k: nat): (w: nat)
    requires forall i :: 0 <= i < |fs| ==> FrameOk(fs[i])
    ensures w <= |fs|
  {
    if |fs| == 0 || |Encode(fs[0])| > k then 0 else 1 + Whole(fs[1..], k - |Encode(fs[0])|)
  }

  lemma {:induction false} WholeIsMost(fs: seq<Frame>, k: nat)
    requires forall i :: 0 <= i < |fs| ==> FrameOk(fs[i])
    ensures var w := Whole(fs, k);
            |EncodeAll(fs[..w])| <= k && (w < |fs| ==> |EncodeAll(fs[..w + 1])| > k)
  {
    if |fs| > 0 {
      if |Encode(fs[0])| > k {
        assert fs[..1][1..] == [];
      } else {
        var w := Whole(fs[1..], k - |Encode(fs[0])|);
        WholeIsMost(fs[1..], k - |Encode(fs[0])|);
        assert fs[..w + 1][1..] == fs[1..][..w];
        if w + 1 < |fs| {
          assert fs[..w + 2][1..] == fs[1..][..w + 1];
        }
      }
    }
  }

  lemma FrameHead(f: Frame, rest: seq<Byte>)
    requires FrameOk(f)
    ensures var data := Encode(f) + rest;
            && |Encode(f)| == 5 + |f.payload| && data[0] == f.op
            && ReadU32(data[1..5]) == |f.payload|
            && data[5..5 + |f.payload|] == f.payload && data[5 + |f.payload|..] == rest
  {
    var data := Encode(f) + rest;
    assert data[1..5] == EncodeU32(|f.payload|);
    ReadsBack(|f.payload|);
  }

  lemma WalkFrame(f: Frame, rest: seq<Byte>, limit: nat)
    requires FrameOk(f) && limit > 0
    ensures Walk(Encode(f) + rest, limit) == [f] + Walk(rest, limit - 1)
  {
    hide ReadU32;
    hide Encode;
    FrameHead(f, rest);
  }

  lemma WalkCut(f: Frame, k: nat, limit: nat)
    requires FrameOk(f) && k < |Encode(f)|
    ensures Walk(Encode(f)[..k], limit) == []
  {
    hide ReadU32;
    hide Encode;
    FrameHead(f, []);
    assert Encode(f) + [] == Encode(f);
    if k >= 5 {
      assert Encode(f)[..k][1..5] == Encode(f)[1..5];
    }
  }

  /** Cutting a log image anywhere drops frames from its end and changes none: the
      walk visits exactly the frames wholly inside the prefix, up to its limit. */
  lemma {:induction false} TornTail(fs: seq<Frame>, k: nat, limit: nat)
    requires (forall i :: 0 <= i < |fs| ==> FrameOk(fs[i])) && k <= |EncodeAll(fs)|
    ensures Walk(EncodeAll(fs)[..k], limit) == fs[..if limit < Whole(fs, k) then limit else Whole(fs, k)]
    decreases limit
  {
    hide Walk;
    hide Encode;
    if |fs| == 0 || limit == 0 {
      WalkEnds(EncodeAll(fs)[..k], limit);
    } else {
      var first, rest := Encode(fs[0]), EncodeAll(fs[1..]);
      var data := EncodeAll(fs)[..k];
      if |first| > k {
        assert data == first[..k];
        WalkCut(fs[0], k, limit);
      } else {
        var tail := rest[..k - |first|];
        assert data == first + tail;
        WalkFrame(fs[0], tail, limit);
        TornTail(fs[1..], k - |first|, limit - 1);
        var w := if limit < Whole(fs, k) then limit else Whole(fs, k);
        assert fs[..w] == [fs[0]] + fs[1..][..w - 1];
      }
    }
  }
}
