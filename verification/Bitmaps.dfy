// Bitmaps packed into 64-bit blocks and back: the format in which peers exchange what they have and in
// which the history file keeps it (client/src/job.cc, client/src/client.cc).
module Bitmaps {
  import opened Arithmetic

  const WIDTH := 64

  function Pow2(n: nat): (p: nat)
    ensures p >= 1
  {
    if n == 0 then 1 else 2 * Pow2(n - 1)
  }

  type Block = b: nat | b < 0x1_0000_0000_0000_0000

  /** Bit 0 is the lowest. */
  function Value(bits: seq<bool>): nat {
    if bits == [] then 0 else (if bits[0] then 1 else 0) + 2 * Value(bits[1..])
  }

  function Bits(v: nat, n: nat): (bits: seq<bool>)
    ensures |bits| == n
  {
    if n == 0 then [] else [v % 2 == 1] + Bits(v / 2, n - 1)
  }

  function Zeros(n: nat): seq<bool> {
    seq(n, _ => false)
  }

  lemma {:induction false} ValueBound(bits: seq<bool>)
    ensures Value(bits) < Pow2(|bits|)
  {
    if bits != [] {
      ValueBound(bits[1..]);
    }
  }

  lemma Pow2Of8()
    ensures Pow2(8) == 256
  {
    assert Pow2(4) == 16;
  }

  lemma Pow2Of64()
    ensures Pow2(64) == 0x1_0000_0000_0000_0000
  {
    hide Pow2;
    Pow2Of8();
    Pow2Adds(8, 8);
    Pow2Adds(16, 16);
    Pow2Adds(32, 32);
  }

  lemma {:induction false} Pow2Adds(a: nat, b: nat)
    ensures Pow2(a + b) == Pow2(a) * Pow2(b)
  {
    if a > 0 {
      Pow2Adds(a - 1, b);
      Doubled(Pow2(a - 1), Pow2(b));
    }
  }

  lemma Doubled(x: nat, y: nat)
    ensures 2 * (x * y) == (2 * x) * y
  {
  }

  /** to_block_range: full blocks from the front, a last one padded with zeros. */
  function Pack(bits: seq<bool>): (blocks: seq<Block>)
    decreases |bits|
  {
    if bits == [] then []
    else if |bits| <= WIDTH then ValueIsBlock(bits); [Value(bits)]
    else ValueIsBlock(bits[..WIDTH]); [Value(bits[..WIDTH])] + Pack(bits[WIDTH..])
  }

  lemma ValueIsBlock(bits: seq<bool>)
    requires |bits| <= WIDTH
    ensures Value(bits) < 0x1_0000_0000_0000_0000
  {
    ValueBound(bits);
    Pow2Of64();
    Pow2Grows(|bits|, WIDTH);
  }

  lemma {:induction false} Pow2Grows(a: nat, b: nat)
    requires a <= b
    ensures Pow2(a) <= Pow2(b)
  {
    if a < b {
      Pow2Grows(a, b - 1);
    }
  }

  /** The bitset built from a range of blocks: all their bits. */
  function Unpack(blocks: seq<Block>): (bits: seq<bool>)
    ensures |bits| == WIDTH * |blocks|
  {
    if blocks == [] then [] else Bits(blocks[0], WIDTH) + Unpack(blocks[1..])
  }

  function Resize(bits: seq<bool>, n: nat): (r: seq<bool>)
    ensures |r| == n
  {
    if n <= |bits| then bits[..n] else bits + Zeros(n - |bits|)
  }

  /** A received bitmap: the blocks, cut or extended to the count sent with them. */
  function Decode(blocks: seq<Block>, n: nat): (bits: seq<bool>)
    ensures |bits| == n
  {
    Resize(Unpack(blocks), n)
  }

  // ----- one block -----

  lemma {:induction false} BitsOfZero(n: nat)
    ensures Bits(0, n) == Zeros(n)
  {
    if n > 0 {
      BitsOfZero(n - 1);
      assert Zeros(n) == [false] + Zeros(n - 1);
    }
  }

  lemma {:induction false} BitsOfValue(bits: seq<bool>, n: nat)
    requires |bits| <= n
    ensures Bits(Value(bits), n) == bits + Zeros(n - |bits|)
  {
    if bits == [] {
      BitsOfZero(n);
    } else {
      BitsOfValue(bits[1..], n - 1);
      assert Value(bits) / 2 == Value(bits[1..]);
      assert bits + Zeros(n - |bits|) == [bits[0]] + (bits[1..] + Zeros(n - |bits|));
    }
  }

  lemma {:induction false} ValueOfBits(v: nat, n: nat)
    requires v < Pow2(n)
    ensures Value(Bits(v, n)) == v
  {
    if n > 0 {
      ValueOfBits(v / 2, n - 1);
      assert Bits(v, n)[1..] == Bits(v / 2, n - 1);
    }
  }

  lemma {:induction false} ValuePadded(bits: seq<bool>, k: nat)
    ensures Value(bits + Zeros(k)) == Value(bits)
  {
    if bits == [] {
      assert bits + Zeros(k) == Zeros(k);
      ValueOfZeros(k);
    } else {
      ValuePadded(bits[1..], k);
      assert (bits + Zeros(k))[1..] == bits[1..] + Zeros(k);
    }
  }

  lemma {:induction false} ValueOfZeros(k: nat)
    ensures Value(Zeros(k)) == 0
  {
    if k > 0 {
      ValueOfZeros(k - 1);
      assert Zeros(k)[1..] == Zeros(k - 1);
    }
  }

  function Bit(v: nat, d: nat): bool
    requires d > 0
  {
    (v / d) % 2 == 1
  }

  /** Bit `i` of a number, by division. */
  lemma {:induction false} BitByDivision(v: nat, n: nat, i: nat)
    requires i < n
    ensures Bits(v, n)[i] == Bit(v, Pow2(i))
  {
    hide Bit;
    if i > 0 {
      BitByDivision(v / 2, n - 1, i - 1);
      BitOfHalf(v, Pow2(i - 1));
    } else {
      LowestBit(v);
    }
  }

  lemma BitOfHalf(v: nat, p: nat)
    requires p > 0
    ensures Bit(v / 2, p) == Bit(v, 2 * p)
  {
    DivideTwice(v, p);
  }

  lemma LowestBit(v: nat)
    ensures Bit(v, 1) == (v % 2 == 1)
  {
  }

  lemma DivideTwice(v: nat, p: nat)
    requires p > 0
    ensures (v / 2) / p == v / (2 * p)
  {
    var q := v / (2 * p);
    var r := v % (2 * p);
    assert v == (2 * p) * q + r;
    assert v / 2 == p * q + r / 2;
    QuotientRemainder(p, q, r / 2);
  }

  // ----- the codec -----

  lemma PackStep(bits: seq<bool>)
    requires |bits| > WIDTH
    ensures Pack(bits) == [Value(bits[..WIDTH])] + Pack(bits[WIDTH..])
    ensures bits == bits[..WIDTH] + bits[WIDTH..]
  {
  }

  /** Unpacking gives the bitmap back, padded with zeros to whole blocks. */
  lemma {:induction false} UnpackOfPack(bits: seq<bool>)
    ensures |bits| <= WIDTH * |Pack(bits)|
    ensures Unpack(Pack(bits)) == bits + Zeros(WIDTH * |Pack(bits)| - |bits|)
    decreases |bits|
  {
    if bits == [] {
    } else if |bits| <= WIDTH {
      BitsOfValue(bits, WIDTH);
      assert Pack(bits)[1..] == [];
    } else {
      PackStep(bits);
      var rest := bits[WIDTH..];
      UnpackOfPack(rest);
      BitsOfValue(bits[..WIDTH], WIDTH);
      assert bits[..WIDTH] + Zeros(0) == bits[..WIDTH];
      assert Pack(bits)[1..] == Pack(rest);
      var pad := WIDTH * |Pack(rest)| - |rest|;
      assert Unpack(Pack(bits)) == bits[..WIDTH] + (rest + Zeros(pad));
    }
  }

  /** A bitmap of any length survives packing, sending with its length, and rebuilding. */
  lemma {:induction false} RoundTrip(bits: seq<bool>)
    ensures Decode(Pack(bits), |bits|) == bits
  {
    UnpackOfPack(bits);
  }

  /** Bit `i` of the bitmap is bit `i % 64` of block `i / 64`. */
  lemma BitAt(bits: seq<bool>, i: nat)
    requires i < |bits|
    ensures i / 64 < |Pack(bits)|
    ensures bits[i] <==> (Pack(bits)[i / 64] / Pow2(i % 64)) % 2 == 1
  {
    UnpackOfPack(bits);
    UnpackAt(Pack(bits), i);
    assert bits[i] == Unpack(Pack(bits))[i];
  }

  lemma {:induction false} UnpackAt(blocks: seq<Block>, i: nat)
    requires i < WIDTH * |blocks|
    ensures i / WIDTH < |blocks|
    ensures Unpack(blocks)[i] <==> Bit(blocks[i / WIDTH], Pow2(i % WIDTH))
  {
    hide Bit, Bits, Pow2;
    if i < WIDTH {
      BitByDivision(blocks[0], WIDTH, i);
    } else {
      UnpackAt(blocks[1..], i - WIDTH);
      OneBlockOn(i);
      assert blocks[1..][(i - WIDTH) / WIDTH] == blocks[i / WIDTH];
      assert Unpack(blocks)[i] == Unpack(blocks[1..])[i - WIDTH];
    }
  }

  /** A received bitmap: bit `i` is that of its block, and clear where there is no block. */
  lemma DecodeAt(blocks: seq<Block>, n: nat, i: nat)
    requires i < n
    ensures |Decode(blocks, n)| == n
    ensures Decode(blocks, n)[i] <==> i / 64 < |blocks| && (blocks[i / 64] / Pow2(i % 64)) % 2 == 1
  {
    hide Unpack, Pow2;
    if i < 64 * |blocks| {
      UnpackAt(blocks, i);
    }
  }

  lemma OneBlockOn(i: nat)
    requires i >= WIDTH
    ensures (i - WIDTH) / WIDTH == i / WIDTH - 1 && (i - WIDTH) % WIDTH == i % WIDTH
  {
  }

  /** The number of blocks for `n` bits. */
  function BlockCount(n: nat): nat {
    (n + 63) / 64
  }

  /** Just enough blocks for `n` bits, with zeros above them. */
  ghost predicate Canonical(blocks: seq<Block>, n: nat) {
    && |blocks| == BlockCount(n)
    && (blocks != [] ==> n > WIDTH * (|blocks| - 1)
                         && blocks[|blocks| - 1] < Pow2(n - WIDTH * (|blocks| - 1)))
  }

  lemma {:induction false} PackIsCanonical(bits: seq<bool>)
    ensures Canonical(Pack(bits), |bits|)
    decreases |bits|
  {
    if bits == [] {
    } else if |bits| <= WIDTH {
      ValueBound(bits);
    } else {
      PackStep(bits);
      PackIsCanonical(bits[WIDTH..]);
    }
  }

  lemma {:induction false} PackOfDecode(blocks: seq<Block>, n: nat)
    requires Canonical(blocks, n)
    ensures Pack(Decode(blocks, n)) == blocks
  {
    hide Pow2, Bits, Value;
    if blocks == [] {
    } else if |blocks| == 1 {
      PackOfOne(blocks[0], n);
      assert blocks == [blocks[0]];
    } else {
      var bits := Decode(blocks, n);
      PackOfDecode(blocks[1..], n - WIDTH);
      DecodeSplits(blocks, n);
      Pow2Of64();
      ValueOfBits(blocks[0], WIDTH);
      PackStep(bits);
    }
  }

  lemma PackOfOne(v: Block, n: nat)
    requires Canonical([v], n)
    ensures Pack(Decode([v], n)) == [v]
  {
    assert Unpack([v]) == Bits(v, WIDTH) by {
      assert [v][1..] == [];
    }
    TakeBits(v, n);
    ValueOfBits(v, n);
  }

  lemma DecodeSplits(blocks: seq<Block>, n: nat)
    requires |blocks| > 1 && WIDTH < n <= WIDTH * |blocks|
    ensures Decode(blocks, n)[..WIDTH] == Bits(blocks[0], WIDTH)
    ensures Decode(blocks, n)[WIDTH..] == Decode(blocks[1..], n - WIDTH)
  {
    var first, rest := Bits(blocks[0], WIDTH), Unpack(blocks[1..]);
    assert Unpack(blocks) == first + rest;
    assert Decode(blocks, n) == (first + rest)[..n];
    assert (first + rest)[..n][..WIDTH] == first;
    assert (first + rest)[..n][WIDTH..] == rest[..n - WIDTH];
  }

  /** The low `n` bits of a number do not depend on how many are written out. */
  lemma {:induction false} LowBits(v: nat, n: nat, m: nat)
    requires n <= m
    ensures Bits(v, m)[..n] == Bits(v, n)
  {
    if n > 0 {
      LowBits(v / 2, n - 1, m - 1);
      assert Bits(v, m)[..n] == [v % 2 == 1] + Bits(v / 2, m - 1)[..n - 1];
    }
  }

  lemma TakeBits(v: nat, n: nat)
    requires n <= WIDTH
    ensures Bits(v, WIDTH)[..n] == Bits(v, n)
  {
    LowBits(v, n, WIDTH);
  }

  /** A received block list re-encodes to itself exactly when it is canonical for its bit count. */
  lemma ReencodesIff(blocks: seq<Block>, n: nat)
    ensures Pack(Decode(blocks, n)) == blocks <==> Canonical(blocks, n)
  {
    if Canonical(blocks, n) {
      PackOfDecode(blocks, n);
    }
    PackIsCanonical(Decode(blocks, n));
  }

  function Count(bits: seq<bool>): (n: nat)
    ensures n <= |bits|
  {
    if bits == [] then 0 else Count(bits[..|bits| - 1]) + if bits[|bits| - 1] then 1 else 0
  }

  lemma {:induction false} CountIsFull(bits: seq<bool>)
    ensures Count(bits) == |bits| <==> forall i :: 0 <= i < |bits| ==> bits[i]
  {
    if bits != [] {
      var n := |bits| - 1;
      CountIsFull(bits[..n]);
      assert (forall i :: 0 <= i < n ==> bits[..n][i]) <==> forall i :: 0 <= i < n ==> bits[i];
    }
  }

  ghost function SetPositions(bits: seq<bool>): set<int> {
    set i | 0 <= i < |bits| && bits[i]
  }

  /** The count is the number of positions whose bit is set. */
  lemma {:induction false} CountIs(bits: seq<bool>)
    ensures Count(bits) == |SetPositions(bits)|
  {
    if bits == [] {
      assert SetPositions(bits) == {};
    } else {
      var n := |bits| - 1;
      CountIs(bits[..n]);
      var before := SetPositions(bits[..n]);
      assert SetPositions(bits) == if bits[n] then before + {n} else before;
    }
  }

  // ----- the message -----

  /** The bitmap part of a handshake or history message. */
  class TransportInfo {
    var fileBit: seq<Block>
    var fileBitCount: nat

    constructor ()
      ensures fileBit == [] && fileBitCount == 0
    {
      fileBit := [];
      fileBitCount := 0;
    }
  }

  /** Appends the blocks to the message's repeated field. */
  method ConvertBitmapToTransportFormat(bitmap: seq<bool>, info: TransportInfo)
    modifies info
    ensures info.fileBitCount == |bitmap|
    ensures info.fileBit == old(info.fileBit) + Pack(bitmap)
    ensures old(info.fileBit) == [] ==> Decode(info.fileBit, info.fileBitCount) == bitmap
  {
    info.fileBitCount := |bitmap|;
    info.fileBit := info.fileBit + Pack(bitmap);
    RoundTrip(bitmap);
    assert [] + Pack(bitmap) == Pack(bitmap);
  }

  method ConvertTransportFormatBitmap(info: TransportInfo) returns (bitmap: seq<bool>)
    ensures bitmap == Decode(info.fileBit, info.fileBitCount) && |bitmap| == info.fileBitCount
  {
    bitmap := Unpack(info.fileBit);
    bitmap := Resize(bitmap, info.fileBitCount);
  }
}
