/** KECCAK[512] as FIPS 202 defines it, bit by bit. Independent of any lane arithmetic: the
    rotation offsets and round constants are derived, not tabulated. */
module Fips202 {

  type Bits = seq<bool>

  type LaneBits = l: Bits | |l| == 64 witness seq(64, i => false)
  type SheetBits = s: seq<LaneBits> | |s| == 5 witness seq(5, i => seq(64, j => false))

  /** A state array of KECCAK-p[1600, 24]: A[x, y, z] is `a[x][y][z]`. */
  type StateArray = a: seq<SheetBits> | |a| == 5 witness seq(5, i => seq(5, j => seq(64, k => false)))

  predicate Coordinates(x: int, y: int, z: int) {
    0 <= x < 5 && 0 <= y < 5 && 0 <= z < 64
  }

  function Xor(a: bool, b: bool): bool {
    a != b
  }

  /** The representative of n modulo m in [0, m). */
  function Modulo(n: int, m: int): (r: int)
    requires m > 0
    ensures 0 <= r < m
    decreases if n < 0 then m - n else n
  {
    if n < 0 then Modulo(n + m, m) else if n >= m then Modulo(n - m, m) else n
  }

  // ----- section 3.2.1: theta

  /** A[x, 0, z] xor ... xor A[x, n, z]. */
  function Parity(a: StateArray, x: int, z: int, n: nat): bool
    requires 0 <= x < 5 && 0 <= z < 64 && n < 5
  {
    if n == 0 then a[x][0][z] else Xor(Parity(a, x, z, n - 1), a[x][n][z])
  }

  function ThetaD(a: StateArray, x: int, z: int): bool
    requires 0 <= x < 5 && 0 <= z < 64
  {
    Xor(Parity(a, Modulo(x - 1, 5), z, 4), Parity(a, Modulo(x + 1, 5), Modulo(z - 1, 64), 4))
  }

  function ThetaBit(a: StateArray, x: int, y: int, z: int): bool
    requires Coordinates(x, y, z)
  {
    Xor(a[x][y][z], ThetaD(a, x, z))
  }

  function Theta(a: StateArray): StateArray {
    seq(5, x requires 0 <= x < 5 =>
      seq(5, y requires 0 <= y < 5 =>
        seq(64, z requires 0 <= z < 64 => ThetaBit(a, x, y, z))))
  }

  // ----- section 3.2.2: rho

  /** Algorithm 2, from step t on with the walk at lane (cx, cy): the distance lane (x, y)
      moves when the walk reaches it. */
  function OffsetFrom(x: int, y: int, cx: int, cy: int, t: nat): nat
    decreases 24 - t, x, y
  {
    if t >= 24 then 0
    else if x == cx && y == cy then (t + 1) * (t + 2) / 2
    else OffsetFrom(x, y, cy, Modulo(2 * cx + 3 * cy, 5), t + 1)
  }

  /** The walk starts at lane (1, 0); it never reaches lane (0, 0), which stays. */
  function RhoOffset(x: int, y: int): nat {
    OffsetFrom(x, y, 1, 0, 0)
  }

  function RhoBit(a: StateArray, x: int, y: int, z: int): bool
    requires Coordinates(x, y, z)
  {
    a[x][y][Modulo(z - RhoOffset(x, y), 64)]
  }

  function Rho(a: StateArray): StateArray {
    seq(5, x requires 0 <= x < 5 =>
      seq(5, y requires 0 <= y < 5 =>
        seq(64, z requires 0 <= z < 64 => RhoBit(a, x, y, z))))
  }

  // ----- section 3.2.3: pi

  function PiBit(a: StateArray, x: int, y: int, z: int): bool
    requires Coordinates(x, y, z)
  {
    a[Modulo(x + 3 * y, 5)][x][z]
  }

  function Pi(a: StateArray): StateArray {
    seq(5, x requires 0 <= x < 5 =>
      seq(5, y requires 0 <= y < 5 =>
        seq(64, z requires 0 <= z < 64 => PiBit(a, x, y, z))))
  }

  // ----- section 3.2.4: chi

  function ChiBit(a: StateArray, x: int, y: int, z: int): bool
    requires Coordinates(x, y, z)
  {
    Xor(a[x][y][z], !a[Modulo(x + 1, 5)][y][z] && a[Modulo(x + 2, 5)][y][z])
  }

  function Chi(a: StateArray): StateArray {
    seq(5, x requires 0 <= x < 5 =>
      seq(5, y requires 0 <= y < 5 =>
        seq(64, z requires 0 <= z < 64 => ChiBit(a, x, y, z))))
  }

  // ----- section 3.2.5: iota

  datatype Register = Register(r0: bool, r1: bool, r2: bool, r3: bool, r4: bool, r5: bool, r6: bool, r7: bool)

  /** Algorithm 5, steps 3.a to 3.f: prepend a 0, feed bit 8 back into bits 0, 4, 5 and 6, and
      truncate to 8 bits. */
  function Shifted(r: Register): Register {
    Register(r.r7, r.r0, r.r1, r.r2, Xor(r.r3, r.r7), Xor(r.r4, r.r7), Xor(r.r5, r.r7), r.r6)
  }

  function RegisterAt(t: nat): Register {
    if t == 0 then Register(true, false, false, false, false, false, false, false)
    else Shifted(RegisterAt(t - 1))
  }

  function Rc(t: nat): bool {
    RegisterAt(Modulo(t, 255)).r0
  }

  /** Bit z of the round constant RC of round `round`. */
  function RoundConstantBit(round: nat, z: int): bool {
    if z == 0 then Rc(7 * round)
    else if z == 1 then Rc(1 + 7 * round)
    else if z == 3 then Rc(2 + 7 * round)
    else if z == 7 then Rc(3 + 7 * round)
    else if z == 15 then Rc(4 + 7 * round)
    else if z == 31 then Rc(5 + 7 * round)
    else if z == 63 then Rc(6 + 7 * round)
    else false
  }

  function IotaBit(a: StateArray, round: nat, x: int, y: int, z: int): bool
    requires Coordinates(x, y, z)
  {
    if x == 0 && y == 0 then Xor(a[x][y][z], RoundConstantBit(round, z)) else a[x][y][z]
  }

  function Iota(a: StateArray, round: nat): StateArray {
    seq(5, x requires 0 <= x < 5 =>
      seq(5, y requires 0 <= y < 5 =>
        seq(64, z requires 0 <= z < 64 => IotaBit(a, round, x, y, z))))
  }

  // ----- section 3.3: the rounds of KECCAK-p[1600, 24]

  function Rnd(a: StateArray, round: nat): StateArray {
    Iota(Chi(Pi(Rho(Theta(a)))), round)
  }

  function RoundsFrom(a: StateArray, round: nat): StateArray
    decreases 24 - round, |a|
  {
    if round >= 24 then a else RoundsFrom(Rnd(a, round), round + 1)
  }

  // ----- section 4: the sponge, with rate 1088; section 5.1: pad10*1

  const RATE: nat := 1088

  function Zeros(n: nat): (s: Bits)
    ensures |s| == n
  {
    seq(n, i => false)
  }

  function Pad10Star1(x: int, m: int): Bits
    requires x > 0
  {
    [true] + Zeros(Modulo(-m - 2, x)) + [true]
  }

  /** Bit 64(5y + x) + z of a string is A[x, y, z] (section 3.1.2); the block is extended with
      512 zeros. */
  function AbsorbBit(a: StateArray, block: Bits, x: int, y: int, z: int): bool
    requires Coordinates(x, y, z) && |block| == RATE
  {
    Xor(a[x][y][z], 64 * (5 * y + x) + z < RATE && block[64 * (5 * y + x) + z])
  }

  function XorBlock(a: StateArray, block: Bits): StateArray
    requires |block| == RATE
  {
    seq(5, x requires 0 <= x < 5 =>
      seq(5, y requires 0 <= y < 5 =>
        seq(64, z requires 0 <= z < 64 => AbsorbBit(a, block, x, y, z))))
  }

  function Absorb(a: StateArray, p: Bits): StateArray
    decreases |p|
  {
    if |p| < RATE then a else Absorb(RoundsFrom(XorBlock(a, p[..RATE]), 0), p[RATE..])
  }

  /** Plane(j) of section 3.1.3. */
  function PlaneBits(a: StateArray, y: int): Bits
    requires 0 <= y < 5
  {
    var lanes: seq<Bits> := [a[0][y], a[1][y], a[2][y], a[3][y], a[4][y]];
    lanes[0] + lanes[1] + (lanes[2] + lanes[3]) + lanes[4]
  }

  function ToString(a: StateArray): (s: Bits)
    ensures |s| == 1600
  {
    PlaneBits(a, 0) + PlaneBits(a, 1) + PlaneBits(a, 2) + PlaneBits(a, 3) + PlaneBits(a, 4)
  }

  function Squeeze(a: StateArray, z: Bits, d: nat): Bits
    decreases d - |z|, |a|
  {
    var longer := z + ToString(a)[..RATE];
    if d <= |longer| then longer[..d] else Squeeze(RoundsFrom(a, 0), longer, d)
  }

  function Zero(): StateArray {
    seq(5, x => seq(5, y => seq(64, z => false)))
  }

  /** Section 5.2: KECCAK[512](N, d), with the capacity 512. */
  function Keccak512(n: Bits, d: nat): Bits {
    Squeeze(Absorb(Zero(), n + Pad10Star1(RATE, |n|)), [], d)
  }
}
