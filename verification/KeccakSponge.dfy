/** `keccak_256`: padding, absorbing and squeezing, proved to be KECCAK[512](M, 256). */
module KeccakSponge {
  import opened Basics
  import opened PythonInt
  import opened Fips202
  import opened Keccak

  const RATE_BYTES: nat := 136

  // ----- padding

  /** n is a multiple of the rate. */
  predicate WholeBlocks(n: nat) {
    n == 0 || (n >= RATE_BYTES && WholeBlocks(n - RATE_BYTES))
  }

  /** The number of zero bytes after the 0x01. */
  function Gap(n: nat): (g: nat)
    ensures g < RATE_BYTES
  {
    Modulo(-(n + 1), RATE_BYTES)
  }

  /** What follows the message: 0x81 alone, or 0x01, zeros and 0x80. */
  function Tail(g: nat): (t: seq<nat>)
    ensures |t| == 1 + g && IsBytes(t)
  {
    if g == 0 then [0x81] else [0x01] + ZeroBytes(g - 1) + [0x80]
  }

  function Padded(data: seq<nat>): (p: seq<nat>)
    ensures |p| == |data| + 1 + Gap(|data|)
  {
    data + Tail(Gap(|data|))
  }

  lemma {:induction false} ModuloIsRemainder(n: nat)
    ensures Modulo(0 - n, RATE_BYTES) == (RATE_BYTES - n % RATE_BYTES) % RATE_BYTES
  {
    if n > RATE_BYTES {
      RemainderStep(n);
      ModuloIsRemainder(n - RATE_BYTES);
    }
  }

  lemma RemainderStep(n: nat)
    requires n >= RATE_BYTES
    ensures n % RATE_BYTES == (n - RATE_BYTES) % RATE_BYTES
  {
  }

  lemma {:induction false} GapCompletes(n: nat, m: int)
    requires m == n + Modulo(0 - n, RATE_BYTES)
    ensures WholeBlocks(m)
  {
    if n > RATE_BYTES {
      GapCompletes(n - RATE_BYTES, m - RATE_BYTES);
    } else if n > 0 {
      assert Modulo(0 - n, RATE_BYTES) == RATE_BYTES - n;
      assert WholeBlocks(0);
    }
  }

  lemma OrHighBit()
    ensures BitOr(0, 0x80) == 0x80 && BitOr(1, 0x80) == 0x81
  {
    assert BitOr(0, 0) == 0 && BitOr(0, 1) == 1;
    assert BitOr(0, 2) == 2;
    assert BitOr(0, 4) == 4;
    assert BitOr(0, 8) == 8;
    assert BitOr(0, 16) == 16;
    assert BitOr(0, 32) == 32;
    assert BitOr(0, 64) == 64;
  }

  /** Padding is injective: two messages never share a padded form. */
  lemma PaddedInjective(a: seq<nat>, b: seq<nat>)
    requires Padded(a) == Padded(b)
    ensures a == b
  {
    var p := Padded(a);
    assert p[|a|] == (if |a| + 1 == |p| then 0x81 else 0x01);
    assert p[|b|] == (if |b| + 1 == |p| then 0x81 else 0x01);
    assert forall i :: |a| < i < |p| ==> p[i] == if i + 1 == |p| then 0x80 else 0;
    assert forall i :: |b| < i < |p| ==> p[i] == if i + 1 == |p| then 0x80 else 0;
    assert |a| == |b|;
    assert a == p[..|a|] == b;
  }

  lemma ByteBitsOf(b: nat)
    requires b == 0 || b == 1 || b == 0x80 || b == 0x81
    ensures ByteBits(b) == [b % 2 == 1, false, false, false, false, false, false, b >= 0x80]
  {
    var h := b / 2;
    assert h == 0 || h == 64;
    ZeroBit(0);
    assert Bit(b, 0) == (b % 2 == 1);
    forall j | 1 <= j < 8 ensures Bit(b, j) == (h == 64 && j == 7) {
      if h == 0 {
        ZeroBit(j - 1);
      } else {
        SixtyFour(j - 1);
      }
    }
  }

  lemma SixtyFour(z: nat)
    requires z < 7
    ensures Bit(64, z) == (z == 6)
  {
    ZeroBit(z);
    assert Bit(1, 0);
    assert z >= 1 ==> Bit(64, z) == Bit(32, z - 1);
    assert z >= 2 ==> Bit(32, z - 1) == Bit(16, z - 2);
    assert z >= 3 ==> Bit(16, z - 2) == Bit(8, z - 3);
    assert z >= 4 ==> Bit(8, z - 3) == Bit(4, z - 4);
    assert z >= 5 ==> Bit(4, z - 4) == Bit(2, z - 5);
    assert z >= 6 ==> Bit(2, z - 5) == Bit(1, z - 6);
  }

  lemma {:induction false} ZeroBytesBits(n: nat)
    ensures BytesBits(ZeroBytes(n)) == Zeros(8 * n)
  {
    if n > 0 {
      ZeroBytesBits(n - 1);
      assert ZeroBytes(n)[1..] == ZeroBytes(n - 1);
      ByteBitsOf(0);
    }
  }

  lemma {:induction false} PadLength(n: nat)
    ensures Modulo(-(8 * n) - 2, RATE) == 8 * Gap(n) + 6
  {
    if n >= RATE_BYTES {
      PadLength(n - RATE_BYTES);
    } else {
      assert Modulo(-(n + 1) + RATE_BYTES, RATE_BYTES) == RATE_BYTES - (n + 1);
      assert Modulo(-(8 * n) - 2 + RATE, RATE) == -(8 * n) - 2 + RATE;
    }
  }

  lemma TailIsPad10Star1(n: nat, m: int)
    requires m == 8 * n
    ensures Pad10Star1(RATE, m) == BytesBits(Tail(Gap(n)))
  {
    PadLength(n);
    TailBits(Gap(n));
  }

  /** The byte padding is pad10*1 on the bit string. */
  lemma PaddingIsPad10Star1(data: seq<nat>)
    ensures BytesBits(Padded(data)) == BytesBits(data) + Pad10Star1(RATE, |BytesBits(data)|)
  {
    TailIsPad10Star1(|data|, |BytesBits(data)|);
    BytesBitsAppend(data, Tail(Gap(|data|)));
  }

  lemma EndBytes()
    ensures BytesBits([0x01]) == [true] + Zeros(7) && BytesBits([0x80]) == Zeros(7) + [true]
    ensures BytesBits([0x81]) == [true] + Zeros(6) + [true]
  {
    ByteBitsOf(0x01);
    ByteBitsOf(0x80);
    ByteBitsOf(0x81);
    hide ByteBits;
    assert BytesBits([0x01]) == ByteBits(0x01) && BytesBits([0x80]) == ByteBits(0x80)
           && BytesBits([0x81]) == ByteBits(0x81);
  }

  lemma TailBits(g: nat)
    ensures BytesBits(Tail(g)) == [true] + Zeros(8 * g + 6) + [true]
  {
    hide BytesBits, ZeroBytes;
    EndBytes();
    if g > 0 {
      ZeroBytesBits(g - 1);
      BytesBitsAppend([0x01] + ZeroBytes(g - 1), [0x80]);
      BytesBitsAppend([0x01], ZeroBytes(g - 1));
      JoinZeros(8 * (g - 1));
    }
  }

  lemma JoinZeros(n: nat)
    ensures [true] + Zeros(7) + Zeros(n) + (Zeros(7) + [true]) == [true] + Zeros(n + 14) + [true]
  {
  }

  /** Or-ing 0x80 into the last byte of 0x01 and zeros gives the tail. */
  lemma MarkLast(data: seq<nat>, g: nat)
    ensures var body := data + [0x01] + ZeroBytes(g);
            body[|body| - 1 := BitOr(body[|body| - 1], 0x80)] == data + Tail(g)
  {
    OrHighBit();
  }

  lemma PaddedBlocks(data: seq<nat>)
    requires IsBytes(data)
    ensures IsBytes(Padded(data)) && WholeBlocks(|Padded(data)|) && Padded(data) != []
  {
    GapCompletes(|data| + 1, |data| + 1 + Gap(|data|));
  }

  method PadMessage(data: seq<nat>) returns (padded: seq<nat>)
    requires IsBytes(data)
    ensures padded == Padded(data) && IsBytes(padded) && WholeBlocks(|padded|) && padded != []
  {
    hide IsBytes, WholeBlocks, Tail, BitOr, Modulo;
    PaddedBlocks(data);
    padded := data + [0x01];
    var zeros := PadZeros(|padded|);
    assert zeros == Gap(|data|);
    padded := padded + ZeroBytes(zeros);
    MarkLast(data, zeros);
    padded := padded[|padded| - 1 := BitOr(padded[|padded| - 1], 0x80)];
  }

  /** `(rate - len(padded) % rate) % rate`. */
  method PadZeros(length: nat) returns (zeros: nat)
    ensures zeros == Modulo(0 - length, RATE_BYTES)
  {
    ModuloIsRemainder(length);
    zeros := (RATE_BYTES - length % RATE_BYTES) % RATE_BYTES;
  }

  // ----- absorbing

  /** Lane i after a block has been absorbed. */
  function AbsorbLane(s: seq<nat>, block: seq<nat>, i: nat): nat
    requires |s| == 25 && |block| == RATE_BYTES && i < 25
  {
    if i < 17 then BitXor(s[i], FromLittle(block[8 * i..8 * i + 8])) else s[i]
  }

  lemma MiddleAt<T>(a: seq<T>, b: seq<T>, c: seq<T>, z: nat, at: nat)
    requires z < |b| && at == |a| + z
    ensures (a + b + c)[at] == b[z]
  {
  }

  lemma BitsOfMiddle(pre: seq<nat>, word: seq<nat>, post: seq<nat>, z: nat, at: nat)
    requires z < 8 * |word| && at == 8 * |pre| + z
    ensures at < 8 * |pre + word + post| && BytesBits(pre + word + post)[at] == BytesBits(word)[z]
  {
    hide BytesBits;
    BytesBitsAppend(pre + word, post);
    BytesBitsAppend(pre, word);
    MiddleAt(BytesBits(pre), BytesBits(word), BytesBits(post), z, at);
  }

  lemma SplitThree<T>(s: seq<T>, i: nat, j: nat)
    requires i <= j <= |s|
    ensures s == s[..i] + s[i..j] + s[j..]
  {
  }

  /** Bit z of the word at byte `at` is bit 8at + z of the block. */
  lemma WordBitAt(block: seq<nat>, at: nat, z: nat, w: nat)
    requires at + 8 <= |block| && z < 64 && w == 8 * at + z
    ensures BytesBits(block[at..at + 8])[z] == BytesBits(block)[w]
  {
    hide BytesBits;
    SplitThree(block, at, at + 8);
    BitsOfMiddle(block[..at], block[at..at + 8], block[at + 8..], z, w);
  }

  lemma LoadHolds(word: seq<nat>)
    requires |word| == 8 && IsBytes(word)
    ensures Holds(FromLittle(word), BytesBits(word))
  {
    FromLittleBound(word);
    AgreesOnBits(FromLittle(word), BytesBits(word), 64);
    forall z | 0 <= z < 64 ensures Bit(FromLittle(word), z) == BytesBits(word)[z] {
      FromLittleBit(word, z);
    }
  }

  lemma StoreBits(v: nat, bits: LaneBits)
    requires Holds(v, bits)
    ensures BytesBits(ToLittle(v, 8)) == bits
  {
    var word := ToLittle(v, 8);
    FromToLittle(v, 8);
    AgreesOnBits(v, bits, 64);
    forall z | 0 <= z < 64 ensures BytesBits(word)[z] == bits[z] {
      FromLittleBit(word, z);
    }
  }

  lemma XorBlockBit(a: StateArray, bits: Bits, x: int, y: int, z: int)
    requires |bits| == RATE && Coordinates(x, y, z)
    ensures XorBlock(a, bits)[x][y][z] == AbsorbBit(a, bits, x, y, z)
  {
  }

  lemma AbsorbBitWord(block: seq<nat>, a: StateArray, x: int, y: int, z: int)
    requires |block| == RATE_BYTES && Coordinates(x, y, z)
    ensures Index(x, y) < 17 ==>
              AbsorbBit(a, BytesBits(block), x, y, z) ==
              Xor(a[x][y][z], BytesBits(block[8 * Index(x, y)..8 * Index(x, y) + 8])[z])
    ensures Index(x, y) >= 17 ==> AbsorbBit(a, BytesBits(block), x, y, z) == a[x][y][z]
  {
    if Index(x, y) < 17 {
      WordBitAt(block, 8 * Index(x, y), z, 64 * (5 * y + x) + z);
    }
  }

  lemma WordHolds(v: nat, vs: LaneBits, word: seq<nat>, r: LaneBits)
    requires Holds(v, vs) && |word| == 8 && IsBytes(word)
    requires forall z :: 0 <= z < 64 ==> r[z] == Xor(vs[z], BytesBits(word)[z])
    ensures Holds(BitXor(v, FromLittle(word)), r)
  {
    LoadHolds(word);
    XorHolds(v, FromLittle(word), vs, BytesBits(word), r);
  }

  lemma RateLaneHolds(s: seq<nat>, block: seq<nat>, a: StateArray, x: int, y: int)
    requires Represents(s, a) && |block| == RATE_BYTES && IsBytes(block) && 0 <= x < 5 && 0 <= y < 5
    requires Index(x, y) < 17
    ensures Holds(AbsorbLane(s, block, Index(x, y)), XorBlock(a, BytesBits(block))[x][y])
  {
    var i := Index(x, y);
    var word := block[8 * i..8 * i + 8];
    var r := XorBlock(a, BytesBits(block))[x][y];
    assert Holds(s[i], a[x][y]);
    forall z | 0 <= z < 64 ensures r[z] == Xor(a[x][y][z], BytesBits(word)[z]) {
      XorBlockBit(a, BytesBits(block), x, y, z);
      AbsorbBitWord(block, a, x, y, z);
    }
    WordHolds(s[i], a[x][y], word, r);
  }

  lemma CapacityLane(block: seq<nat>, a: StateArray, x: int, y: int)
    requires |block| == RATE_BYTES && 0 <= x < 5 && 0 <= y < 5 && Index(x, y) >= 17
    ensures XorBlock(a, BytesBits(block))[x][y] == a[x][y]
  {
    forall z | 0 <= z < 64 ensures XorBlock(a, BytesBits(block))[x][y][z] == a[x][y][z] {
      XorBlockBit(a, BytesBits(block), x, y, z);
      AbsorbBitWord(block, a, x, y, z);
    }
  }

  lemma AbsorbLaneHolds(s: seq<nat>, block: seq<nat>, a: StateArray, x: int, y: int)
    requires Represents(s, a) && |block| == RATE_BYTES && IsBytes(block) && 0 <= x < 5 && 0 <= y < 5
    ensures Holds(AbsorbLane(s, block, Index(x, y)), XorBlock(a, BytesBits(block))[x][y])
  {
    if Index(x, y) < 17 {
      RateLaneHolds(s, block, a, x, y);
    } else {
      CapacityLane(block, a, x, y);
      assert Holds(s[Index(x, y)], a[x][y]);
    }
  }

  method AbsorbBlock(state: array<nat>, block: seq<nat>, ghost a: StateArray)
    requires state.Length == 25 && |block| == RATE_BYTES && IsBytes(block) && Represents(state[..], a)
    modifies state
    ensures Represents(state[..], XorBlock(a, BytesBits(block)))
  {
    ghost var s := state[..];
    for index := 0 to 17
      invariant forall i :: 0 <= i < index ==> state[i] == AbsorbLane(s, block, i)
      invariant forall i :: index <= i < 25 ==> state[i] == s[i]
    {
      state[index] := BitXor(state[index], FromLittle(block[index * 8..index * 8 + 8]));
    }
    AbsorbRefines(s, state[..], block, a);
  }

  lemma AbsorbRefines(s: seq<nat>, t: seq<nat>, block: seq<nat>, a: StateArray)
    requires Represents(s, a) && |block| == RATE_BYTES && IsBytes(block) && |t| == 25
    requires forall i :: 0 <= i < 25 ==> t[i] == AbsorbLane(s, block, i)
    ensures Represents(t, XorBlock(a, BytesBits(block)))
  {
    forall x, y | 0 <= x < 5 && 0 <= y < 5
      ensures Holds(t[Index(x, y)], XorBlock(a, BytesBits(block))[x][y])
    {
      AbsorbLaneHolds(s, block, a, x, y);
    }
  }

  lemma AbsorbNext(a: StateArray, padded: seq<nat>, offset: nat)
    requires offset + RATE_BYTES <= |padded|
    ensures Absorb(a, BytesBits(padded[offset..]))
         == Absorb(RoundsFrom(XorBlock(a, BytesBits(padded[offset..offset + RATE_BYTES])), 0),
                   BytesBits(padded[offset + RATE_BYTES..]))
  {
    var block, rest := padded[offset..offset + RATE_BYTES], padded[offset + RATE_BYTES..];
    assert padded[offset..] == block + rest;
    BytesBitsAppend(block, rest);
    var bits := BytesBits(padded[offset..]);
    assert bits[..Fips202.RATE] == BytesBits(block) && bits[Fips202.RATE..] == BytesBits(rest);
  }

  lemma ZeroRepresents(s: seq<nat>)
    requires |s| == 25 && forall i :: 0 <= i < 25 ==> s[i] == 0
    ensures Represents(s, Zero())
  {
    forall x, y | 0 <= x < 5 && 0 <= y < 5 ensures Holds(s[Index(x, y)], Zero()[x][y]) {
      AgreesOnBits(0, Zero()[x][y], 64);
      forall z | 0 <= z < 64 ensures Bit(0, z) == Zero()[x][y][z] {
        ZeroBit(z);
      }
    }
  }

  // ----- squeezing

  lemma FirstLanes(a: StateArray)
    ensures var lanes: seq<Bits> := [a[0][0], a[1][0], a[2][0], a[3][0]];
            ToString(a)[..256] == lanes[0] + lanes[1] + (lanes[2] + lanes[3])
  {
  }

  lemma DigestBits(s: seq<nat>, a: StateArray)
    requires Represents(s, a)
    ensures BytesBits(ToLittle(s[0], 8) + ToLittle(s[1], 8) + (ToLittle(s[2], 8) + ToLittle(s[3], 8)))
         == Squeeze(a, [], 256)
  {
    hide ToLittle, BytesBits, ToString, Holds;
    var w0, w1, w2, w3 := ToLittle(s[0], 8), ToLittle(s[1], 8), ToLittle(s[2], 8), ToLittle(s[3], 8);
    assert Holds(s[Index(0, 0)], a[0][0]) && Holds(s[Index(1, 0)], a[1][0]);
    assert Holds(s[Index(2, 0)], a[2][0]) && Holds(s[Index(3, 0)], a[3][0]);
    StoreBits(s[0], a[0][0]);
    StoreBits(s[1], a[1][0]);
    StoreBits(s[2], a[2][0]);
    StoreBits(s[3], a[3][0]);
    BytesBitsAppend(w0 + w1, w2 + w3);
    BytesBitsAppend(w0, w1);
    BytesBitsAppend(w2, w3);
    FirstLanes(a);
    assert ToString(a)[..Fips202.RATE][..256] == ToString(a)[..256];
    assert [] + ToString(a)[..Fips202.RATE] == ToString(a)[..Fips202.RATE];
  }

  method AbsorbMessage(state: array<nat>, padded: seq<nat>) returns (ghost a: StateArray)
    requires state.Length == 25 && Represents(state[..], Zero())
    requires WholeBlocks(|padded|) && IsBytes(padded)
    modifies state
    ensures Represents(state[..], a) && a == Absorb(Zero(), BytesBits(padded))
  {
    a := Zero();
    assert padded[0..] == padded;
    var offset := 0;
    while offset < |padded|
      invariant offset <= |padded| && WholeBlocks(|padded| - offset)
      invariant Represents(state[..], a)
      invariant Absorb(a, BytesBits(padded[offset..])) == Absorb(Zero(), BytesBits(padded))
    {
      var block := padded[offset..offset + RATE_BYTES];
      AbsorbNext(a, padded, offset);
      AbsorbBlock(state, block, a);
      a := XorBlock(a, BytesBits(block));
      KeccakF1600(state, a);
      a := RoundsFrom(a, 0);
      offset := offset + RATE_BYTES;
    }
    assert padded[offset..] == [];
  }

  /** `keccak_256` is KECCAK[512](M, 256) for every message. */
  method Keccak256(data: seq<nat>) returns (digest: seq<nat>)
    requires IsBytes(data)
    ensures |digest| == 32 && IsBytes(digest)
    ensures BytesBits(digest) == Keccak512(BytesBits(data), 256)
  {
    var padded := PadMessage(data);
    var state := new nat[25](i => 0);
    ZeroRepresents(state[..]);
    PaddingIsPad10Star1(data);
    ghost var a := AbsorbMessage(state, padded);
    digest := SqueezeDigest(state, a);
  }

  /** One rate of output always covers the 32 bytes, so the permutation is not applied again. */
  method SqueezeDigest(state: array<nat>, ghost a: StateArray) returns (digest: seq<nat>)
    requires state.Length == 25 && Represents(state[..], a)
    ensures |digest| == 32 && IsBytes(digest)
    ensures BytesBits(digest) == Squeeze(a, [], 256)
  {
    var output := SqueezeRate(state);
    digest := output[..32];
    DigestBits(state[..], a);
  }

  method SqueezeRate(state: array<nat>) returns (output: seq<nat>)
    requires state.Length == 25
    ensures |output| == RATE_BYTES && IsBytes(output)
    ensures output[..32]
            == ToLittle(state[0], 8) + ToLittle(state[1], 8) + (ToLittle(state[2], 8) + ToLittle(state[3], 8))
  {
    hide ToLittle;
    output := [];
    ghost var a, b, c, d := ToLittle(state[0], 8), ToLittle(state[1], 8), ToLittle(state[2], 8), ToLittle(state[3], 8);
    for index := 0 to 17
      invariant |output| == 8 * index && IsBytes(output)
      invariant index == 1 ==> output == a
      invariant index == 2 ==> output == a + b
      invariant index == 3 ==> output == a + b + c
      invariant index >= 4 ==> output[..32] == a + b + c + d
    {
      output := output + ToLittle(state[index], 8);
    }
    Associate(a + b, c, d);
  }
}
