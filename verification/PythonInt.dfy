/** Bitwise operators on Python's unbounded integers, negative ones in two's complement. */
module PythonInt {

  function Value(b: bool): nat {
    if b then 1 else 0
  }

  /** Bit z of v, counted from the least significant. */
  predicate Bit(v: int, z: nat)
    decreases z
  {
    if z == 0 then v % 2 == 1 else Bit(v / 2, z - 1)
  }

  function Invert(v: int): int {
    -v - 1
  }

  function BitXor(a: nat, b: nat): nat
    decreases a + b
  {
    if a == 0 && b == 0 then 0
    else Value((a % 2 == 1) != (b % 2 == 1)) + 2 * BitXor(a / 2, b / 2)
  }

  function BitOr(a: nat, b: nat): nat
    decreases a + b
  {
    if a == 0 && b == 0 then 0
    else Value(a % 2 == 1 || b % 2 == 1) + 2 * BitOr(a / 2, b / 2)
  }

  /** `a & b` for a non-negative b; a may be negative. */
  function BitAnd(a: int, b: nat): (r: nat)
    ensures r <= b
    decreases b
  {
    if b == 0 then 0
    else Value(a % 2 == 1 && b % 2 == 1) + 2 * BitAnd(a / 2, b / 2)
  }

  function ShiftLeft(v: nat, n: nat): nat {
    if n == 0 then v else 2 * ShiftLeft(v, n - 1)
  }

  function ShiftRight(v: nat, n: nat): nat {
    if n == 0 then v else ShiftRight(v / 2, n - 1)
  }

  // ----- what each operator does to each bit

  lemma {:induction false} ZeroBit(z: nat)
    ensures !Bit(0, z)
  {
    if z > 0 {
      ZeroBit(z - 1);
    }
  }

  lemma {:induction false} XorBit(a: nat, b: nat, z: nat)
    ensures Bit(BitXor(a, b), z) == (Bit(a, z) != Bit(b, z))
  {
    if a == 0 && b == 0 {
      ZeroBit(z);
    } else if z > 0 {
      XorBit(a / 2, b / 2, z - 1);
    }
  }

  lemma {:induction false} OrBit(a: nat, b: nat, z: nat)
    ensures Bit(BitOr(a, b), z) == (Bit(a, z) || Bit(b, z))
  {
    if a == 0 && b == 0 {
      ZeroBit(z);
    } else if z > 0 {
      OrBit(a / 2, b / 2, z - 1);
    }
  }

  lemma {:induction false} AndBit(a: int, b: nat, z: nat)
    ensures Bit(BitAnd(a, b), z) == (Bit(a, z) && Bit(b, z))
    decreases z
  {
    if b == 0 {
      ZeroBit(z);
    } else if z > 0 {
      AndBit(a / 2, b / 2, z - 1);
    }
  }

  lemma {:induction false} InvertBit(v: int, z: nat)
    ensures Bit(Invert(v), z) == !Bit(v, z)
    decreases z
  {
    if z > 0 {
      assert Invert(v) / 2 == Invert(v / 2);
      InvertBit(v / 2, z - 1);
    }
  }

  lemma {:induction false} ShiftRightBit(v: nat, n: nat, z: nat)
    ensures Bit(ShiftRight(v, n), z) == Bit(v, z + n)
  {
    if n > 0 {
      ShiftRightBit(v / 2, n - 1, z);
    }
  }

  lemma {:induction false} ShiftLeftBit(v: nat, n: nat, z: nat)
    ensures Bit(ShiftLeft(v, n), z) == (z >= n && Bit(v, z - n))
  {
    if n > 0 && z > 0 {
      ShiftLeftBit(v, n - 1, z - 1);
    }
  }

  /** The bits of `low` followed by those of `high`. */
  lemma {:induction false} JoinBit(low: nat, high: nat, n: nat, z: nat)
    requires low < Power2(n)
    ensures Bit(low + ShiftLeft(high, n), z) == if z < n then Bit(low, z) else Bit(high, z - n)
  {
    if n > 0 {
      assert (low + ShiftLeft(high, n)) / 2 == low / 2 + ShiftLeft(high, n - 1);
      assert (low + ShiftLeft(high, n)) % 2 == low % 2;
      if z > 0 {
        JoinBit(low / 2, high, n - 1, z - 1);
      }
    }
  }

  // ----- 64-bit bounds

  function Power2(n: nat): (p: nat)
    ensures p >= 1
  {
    if n == 0 then 1 else 2 * Power2(n - 1)
  }

  lemma {:induction false} XorBelow(a: nat, b: nat, n: nat)
    requires a < Power2(n) && b < Power2(n)
    ensures BitXor(a, b) < Power2(n)
    decreases n
  {
    if n > 0 && !(a == 0 && b == 0) {
      XorBelow(a / 2, b / 2, n - 1);
    }
  }

  lemma {:induction false} HighBitsClear(v: nat, n: nat, z: nat)
    requires v < Power2(n) && n <= z
    ensures !Bit(v, z)
  {
    if n == 0 {
      ZeroBit(z);
    } else {
      HighBitsClear(v / 2, n - 1, z - 1);
    }
  }

  lemma {:induction false} OnesBit(n: nat, z: nat)
    ensures Bit(Power2(n) - 1, z) == (z < n)
  {
    if n == 0 {
      ZeroBit(z);
    } else {
      assert (Power2(n) - 1) / 2 == Power2(n - 1) - 1;
      assert (Power2(n) - 1) % 2 == 1;
      if z > 0 {
        OnesBit(n - 1, z - 1);
      }
    }
  }

  /** `_rotate_left` within w bits. */
  function RotateLeft(value: nat, amount: nat, w: nat): nat
    requires amount <= w
  {
    if amount == 0 then BitAnd(value, Power2(w) - 1)
    else BitAnd(BitOr(ShiftLeft(value, amount), ShiftRight(value, w - amount)), Power2(w) - 1)
  }

  lemma RotateBit(v: nat, n: nat, w: nat, z: nat)
    requires n < w && z < w && v < Power2(w)
    ensures Bit(RotateLeft(v, n, w), z) == Bit(v, if z >= n then z - n else z - n + w)
    ensures RotateLeft(v, n, w) < Power2(w)
  {
    OnesBit(w, z);
    if n == 0 {
      AndBit(v, Power2(w) - 1, z);
    } else {
      var left, right := ShiftLeft(v, n), ShiftRight(v, w - n);
      AndBit(BitOr(left, right), Power2(w) - 1, z);
      OrBit(left, right, z);
      ShiftLeftBit(v, n, z);
      ShiftRightBit(v, w - n, z);
      if z >= n {
        HighBitsClear(v, w, z + w - n);
      }
    }
  }

  // ----- bytes

  predicate IsBytes(s: seq<nat>) {
    forall i :: 0 <= i < |s| ==> s[i] < 256
  }

  function ZeroBytes(n: nat): (s: seq<nat>)
    ensures |s| == n && IsBytes(s)
  {
    seq(n, i => 0)
  }

  /** `int.from_bytes(s, "little")`. */
  function FromLittle(s: seq<nat>): nat {
    if s == [] then 0 else s[0] + 256 * FromLittle(s[1..])
  }

  /** `v.to_bytes(n, "little")`. */
  function ToLittle(v: nat, n: nat): (s: seq<nat>)
    ensures |s| == n && IsBytes(s)
  {
    if n == 0 then [] else [v % 256] + ToLittle(v / 256, n - 1)
  }

  function ByteBits(b: nat): (s: seq<bool>)
    ensures |s| == 8
  {
    seq(8, j requires 0 <= j < 8 => Bit(b, j))
  }

  /** A byte string as a bit string, each byte from its least significant bit. */
  function BytesBits(s: seq<nat>): (r: seq<bool>)
    ensures |r| == 8 * |s|
  {
    if s == [] then [] else ByteBits(s[0]) + BytesBits(s[1..])
  }

  lemma {:induction false} BytesBitsAppend(s: seq<nat>, t: seq<nat>)
    ensures BytesBits(s + t) == BytesBits(s) + BytesBits(t)
  {
    if s == [] {
      assert s + t == t;
    } else {
      BytesBitsAppend(s[1..], t);
      assert (s + t)[1..] == s[1..] + t;
    }
  }

  lemma ShiftLeft8(v: nat)
    ensures ShiftLeft(v, 8) == 256 * v
    ensures Power2(8) == 256
  {
    assert ShiftLeft(v, 1) == 2 * v && ShiftLeft(v, 2) == 4 * v && ShiftLeft(v, 3) == 8 * v;
    assert ShiftLeft(v, 4) == 16 * v && ShiftLeft(v, 5) == 32 * v && ShiftLeft(v, 6) == 64 * v;
    assert Power2(1) == 2 && Power2(2) == 4 && Power2(3) == 8 && Power2(4) == 16 && Power2(5) == 32 && Power2(6) == 64;
  }

  /** Reading a little-endian number keeps every bit in place. */
  lemma {:induction false} FromLittleBit(s: seq<nat>, z: nat)
    requires IsBytes(s) && z < 8 * |s|
    ensures Bit(FromLittle(s), z) == BytesBits(s)[z]
  {
    ShiftLeft8(FromLittle(s[1..]));
    JoinBit(s[0], FromLittle(s[1..]), 8, z);
    if z >= 8 {
      FromLittleBit(s[1..], z - 8);
    }
  }

  lemma {:induction false} FromLittleBound(s: seq<nat>)
    requires IsBytes(s)
    ensures FromLittle(s) < Power2(8 * |s|)
  {
    if s != [] {
      FromLittleBound(s[1..]);
      Power2Shift8(8 * |s[1..]|);
    }
  }

  lemma Power2Shift8(n: nat)
    ensures Power2(n + 8) == 256 * Power2(n)
  {
    assert Power2(n + 2) == 4 * Power2(n);
    assert Power2(n + 4) == 16 * Power2(n);
    assert Power2(n + 6) == 64 * Power2(n);
  }

  /** Writing is the inverse of reading. */
  lemma {:induction false} FromToLittle(v: nat, n: nat)
    requires v < Power2(8 * n)
    ensures FromLittle(ToLittle(v, n)) == v
  {
    if n > 0 {
      Power2Shift8(8 * (n - 1));
      FromToLittle(v / 256, n - 1);
      assert ToLittle(v, n)[1..] == ToLittle(v / 256, n - 1);
    }
  }
}
