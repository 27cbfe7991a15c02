/** `keccak_256`: the in-place permutation over 25 integers, proved against Fips202. */
module Keccak {
  import opened PythonInt
  import opened Fips202

  const ROTATION_OFFSETS: seq<seq<nat>> := [
    [0, 36, 3, 41, 18],
    [1, 44, 10, 45, 2],
    [62, 6, 43, 15, 61],
    [28, 55, 25, 21, 56],
    [27, 20, 39, 8, 14]]

  const ROUND_CONSTANTS: seq<nat> := [
    0x0000000000000001, 0x0000000000008082, 0x800000000000808A, 0x8000000080008000,
    0x000000000000808B, 0x0000000080000001, 0x8000000080008081, 0x8000000000008009,
    0x000000000000008A, 0x0000000000000088, 0x0000000080008009, 0x000000008000000A,
    0x000000008000808B, 0x800000000000008B, 0x8000000000008089, 0x8000000000008003,
    0x8000000000008002, 0x8000000000000080, 0x000000000000800A, 0x800000008000000A,
    0x8000000080008081, 0x8000000000008080, 0x0000000080000001, 0x8000000080008008]

  // ----- lanes against state arrays

  /** The list index of lane (x, y). */
  function Index(x: int, y: int): (i: nat)
    requires 0 <= x < 5 && 0 <= y < 5
    ensures i < 25
  {
    x + 5 * y
  }

  /** The n lowest bits of v are those of `bits`. */
  ghost predicate Agrees(v: nat, bits: LaneBits, n: nat)
    requires n <= 64
  {
    n == 0 || (Agrees(v, bits, n - 1) && Bit(v, n - 1) == bits[n - 1])
  }

  /** The integer v is exactly the 64 bits `bits`: nothing is left above them. */
  ghost predicate Holds(v: nat, bits: LaneBits) {
    v < Power2(64) && Agrees(v, bits, 64)
  }

  lemma {:induction false} AgreesOnBits(v: nat, bits: LaneBits, n: nat)
    requires n <= 64
    ensures Agrees(v, bits, n) <==> forall z :: 0 <= z < n ==> Bit(v, z) == bits[z]
  {
    if n > 0 {
      AgreesOnBits(v, bits, n - 1);
    }
  }

  ghost predicate Represents(s: seq<nat>, a: StateArray) {
    |s| == 25 && forall x, y :: 0 <= x < 5 && 0 <= y < 5 ==> Holds(s[Index(x, y)], a[x][y])
  }

  // ----- lane operators, bit by bit

  lemma XorHolds(v: nat, w: nat, vs: LaneBits, ws: LaneBits, r: LaneBits)
    requires Holds(v, vs) && Holds(w, ws)
    requires forall z :: 0 <= z < 64 ==> r[z] == Xor(vs[z], ws[z])
    ensures Holds(BitXor(v, w), r)
  {
    hide BitXor, Bit, Power2, Agrees;
    XorBelow(v, w, 64);
    AgreesOnBits(v, vs, 64);
    AgreesOnBits(w, ws, 64);
    AgreesOnBits(BitXor(v, w), r, 64);
    forall z | 0 <= z < 64 ensures Bit(BitXor(v, w), z) == r[z] {
      XorBit(v, w, z);
    }
  }

  function RotatedBits(bits: LaneBits, n: int): LaneBits {
    seq(64, z requires 0 <= z < 64 => bits[Modulo(z - n, 64)])
  }

  lemma TurnOnce(k: int)
    requires -64 < k < 64
    ensures Modulo(k, 64) == if k >= 0 then k else k + 64
  {
  }

  lemma RotateHolds(v: nat, n: nat, vs: LaneBits)
    requires Holds(v, vs) && n < 64
    ensures Holds(RotateLeft(v, n, 64), RotatedBits(vs, n))
  {
    hide RotateLeft, Bit, Power2, Agrees, Modulo;
    var r := RotatedBits(vs, n);
    RotateBit(v, n, 64, 0);
    AgreesOnBits(v, vs, 64);
    AgreesOnBits(RotateLeft(v, n, 64), r, 64);
    forall z | 0 <= z < 64 ensures Bit(RotateLeft(v, n, 64), z) == r[z] {
      RotateBit(v, n, 64, z);
      TurnOnce(z - n);
    }
  }

  /** No mask is needed after chi: the complement is negative, but the conjunction is not. */
  lemma ChiHolds(u: nat, v: nat, w: nat, us: LaneBits, vs: LaneBits, ws: LaneBits, r: LaneBits)
    requires Holds(u, us) && Holds(v, vs) && Holds(w, ws)
    requires forall z :: 0 <= z < 64 ==> r[z] == Xor(us[z], !vs[z] && ws[z])
    ensures Holds(BitXor(u, BitAnd(Invert(v), w)), r)
  {
    var masked: LaneBits := seq(64, z requires 0 <= z < 64 => !vs[z] && ws[z]);
    var m := BitAnd(Invert(v), w);
    AgreesOnBits(v, vs, 64);
    AgreesOnBits(w, ws, 64);
    AgreesOnBits(m, masked, 64);
    forall z | 0 <= z < 64 ensures Bit(m, z) == masked[z] {
      AndBit(Invert(v), w, z);
      InvertBit(v, z);
    }
    XorHolds(u, m, us, masked, r);
  }

  // ----- theta

  function ColumnBits(a: StateArray, x: int, n: nat): LaneBits
    requires 0 <= x < 5 && n < 5
  {
    seq(64, z requires 0 <= z < 64 => Parity(a, x, z, n))
  }

  function DeltaBits(a: StateArray, x: int): LaneBits
    requires 0 <= x < 5
  {
    seq(64, z requires 0 <= z < 64 => ThetaD(a, x, z))
  }

  lemma DeltaHolds(a: StateArray, x: int, before: nat, after: nat)
    requires 0 <= x < 5
    requires Holds(before, ColumnBits(a, Modulo(x - 1, 5), 4)) && Holds(after, ColumnBits(a, Modulo(x + 1, 5), 4))
    ensures Holds(BitXor(before, RotateLeft(after, 1, 64)), DeltaBits(a, x))
  {
    var bs, cs := ColumnBits(a, Modulo(x - 1, 5), 4), ColumnBits(a, Modulo(x + 1, 5), 4);
    var rs := RotatedBits(cs, 1);
    RotateHolds(after, 1, cs);
    XorHolds(before, RotateLeft(after, 1, 64), bs, rs, DeltaBits(a, x));
  }

  function ColumnOf(a: nat, b: nat, c: nat, d: nat, e: nat): nat {
    BitXor(BitXor(BitXor(BitXor(a, b), c), d), e)
  }

  function Column(s: seq<nat>, x: int): nat
    requires |s| == 25 && 0 <= x < 5
  {
    ColumnOf(s[Index(x, 0)], s[Index(x, 1)], s[Index(x, 2)], s[Index(x, 3)], s[Index(x, 4)])
  }

  function Delta(s: seq<nat>, x: int): nat
    requires |s| == 25 && 0 <= x < 5
  {
    BitXor(Column(s, Modulo(x - 1, 5)), RotateLeft(Column(s, Modulo(x + 1, 5)), 1, 64))
  }

  /** Lane (x, y) after the first loop nest. */
  function ThetaLane(s: seq<nat>, x: int, y: int): nat
    requires |s| == 25 && 0 <= x < 5 && 0 <= y < 5
  {
    BitXor(s[Index(x, y)], Delta(s, x))
  }

  lemma ColumnHolds(s: seq<nat>, a: StateArray, x: int)
    requires Represents(s, a) && 0 <= x < 5
    ensures Holds(Column(s, x), ColumnBits(a, x, 4))
  {
    var c1 := BitXor(s[Index(x, 0)], s[Index(x, 1)]);
    var c2 := BitXor(c1, s[Index(x, 2)]);
    var c3 := BitXor(c2, s[Index(x, 3)]);
    assert forall z :: 0 <= z < 64 ==> Parity(a, x, z, 0) == a[x][0][z];
    assert forall z :: 0 <= z < 64 ==> ColumnBits(a, x, 1)[z] == Parity(a, x, z, 1);
    XorHolds(s[Index(x, 0)], s[Index(x, 1)], a[x][0], a[x][1], ColumnBits(a, x, 1));
    XorHolds(c1, s[Index(x, 2)], ColumnBits(a, x, 1), a[x][2], ColumnBits(a, x, 2));
    XorHolds(c2, s[Index(x, 3)], ColumnBits(a, x, 2), a[x][3], ColumnBits(a, x, 3));
    XorHolds(c3, s[Index(x, 4)], ColumnBits(a, x, 3), a[x][4], ColumnBits(a, x, 4));
  }

  lemma ThetaHolds(s: seq<nat>, a: StateArray, x: int, y: int)
    requires Represents(s, a) && 0 <= x < 5 && 0 <= y < 5
    ensures Holds(ThetaLane(s, x, y), Theta(a)[x][y])
  {
    ColumnHolds(s, a, Modulo(x - 1, 5));
    ColumnHolds(s, a, Modulo(x + 1, 5));
    DeltaHolds(a, x, Column(s, Modulo(x - 1, 5)), Column(s, Modulo(x + 1, 5)));
    XorHolds(s[Index(x, y)], Delta(s, x), a[x][y], DeltaBits(a, x), Theta(a)[x][y]);
  }

  /** The inner loop over y: xor delta into the five lanes of column x. */
  method XorColumn(state: array<nat>, x: int, delta: nat)
    requires state.Length == 25 && 0 <= x < 5
    modifies state
    ensures forall u, v {:trigger Index(u, v)} :: 0 <= u < 5 && 0 <= v < 5 ==>
              state[Index(u, v)] == if u == x then BitXor(old(state[Index(u, v)]), delta) else old(state[Index(u, v)])
  {
    for y := 0 to 5
      invariant forall u, v {:trigger Index(u, v)} :: 0 <= u < 5 && 0 <= v < 5 ==>
                  state[Index(u, v)] ==
                  if u == x && v < y then BitXor(old(state[Index(u, v)]), delta) else old(state[Index(u, v)])
    {
      state[Index(x, y)] := BitXor(state[Index(x, y)], delta);
    }
  }

  method ColumnParities(state: array<nat>) returns (columns: array<nat>)
    requires state.Length == 25
    ensures fresh(columns) && columns.Length == 5 && forall i :: 0 <= i < 5 ==> columns[i] == Column(state[..], i)
  {
    columns := new nat[5];
    for x := 0 to 5
      invariant forall i :: 0 <= i < x ==> columns[i] == Column(state[..], i)
    {
      columns[x] := ColumnOf(state[Index(x, 0)], state[Index(x, 1)], state[Index(x, 2)], state[Index(x, 3)],
                             state[Index(x, 4)]);
    }
  }

  method ThetaStep(state: array<nat>)
    requires state.Length == 25
    modifies state
    ensures forall x, y {:trigger ThetaLane(old(state[..]), x, y)} :: 0 <= x < 5 && 0 <= y < 5 ==>
              state[Index(x, y)] == ThetaLane(old(state[..]), x, y)
  {
    hide Column;
    ghost var s := state[..];
    var columns := ColumnParities(state);
    for x := 0 to 5
      invariant forall i :: 0 <= i < 5 ==> columns[i] == Column(s, i)
      invariant forall u, v {:trigger ThetaLane(s, u, v)} :: 0 <= u < x && 0 <= v < 5 ==>
                  state[Index(u, v)] == ThetaLane(s, u, v)
      invariant forall u, v {:trigger Index(u, v)} :: x <= u < 5 && 0 <= v < 5 ==> state[Index(u, v)] == s[Index(u, v)]
    {
      var delta := BitXor(columns[Modulo(x - 1, 5)], RotateLeft(columns[Modulo(x + 1, 5)], 1, 64));
      XorColumn(state, x, delta);
    }
  }

  // ----- rho and pi: the code scatters, FIPS 202 gathers

  function Offset(x: int, y: int): (n: nat)
    requires 0 <= x < 5 && 0 <= y < 5
    ensures n < 64
  {
    ROTATION_OFFSETS[x][y]
  }

  /** n modulo 5, for the small sums that occur as coordinates. */
  function Residue(n: int): int
    requires 0 <= n < 25
  {
    if n < 5 then n else if n < 10 then n - 5 else if n < 15 then n - 10 else if n < 20 then n - 15 else n - 20
  }

  lemma SmallModulo(n: int)
    requires 0 <= n < 25
    ensures Modulo(n, 5) == Residue(n)
  {
    assert n >= 10 ==> Modulo(n, 5) == Modulo(n - 10, 5);
  }

  /** Lane (x, y) lands on (u, v) exactly when (u, v) reads from it. */
  lemma ScatterIsGather(x: int, y: int, u: int, v: int)
    requires 0 <= x < 5 && 0 <= y < 5 && 0 <= u < 5 && 0 <= v < 5
    ensures u == y && v == Modulo(2 * x + 3 * y, 5) <==> x == Modulo(u + 3 * v, 5) && y == u
  {
    hide Modulo;
    SmallModulo(2 * x + 3 * y);
    SmallModulo(u + 3 * v);
  }

  /** Lane (x, y) after the second loop nest. */
  function RhoPiLane(s: seq<nat>, x: int, y: int): nat
    requires |s| == 25 && 0 <= x < 5 && 0 <= y < 5
  {
    RotateLeft(s[Index(Modulo(x + 3 * y, 5), x)], Offset(Modulo(x + 3 * y, 5), x), 64)
  }

  method RhoPiStep(state: array<nat>) returns (rotated: array<nat>)
    requires state.Length == 25
    ensures fresh(rotated) && rotated.Length == 25
    ensures forall x, y {:trigger RhoPiLane(state[..], x, y)} :: 0 <= x < 5 && 0 <= y < 5 ==>
              rotated[Index(x, y)] == RhoPiLane(state[..], x, y)
  {
    ghost var s := state[..];
    rotated := new nat[25](i => 0);
    for x := 0 to 5
      invariant forall u, v {:trigger RhoPiLane(s, u, v)} :: 0 <= u < 5 && 0 <= v < 5 ==>
                  (Modulo(u + 3 * v, 5) < x ==> rotated[Index(u, v)] == RhoPiLane(s, u, v))
    {
      for y := 0 to 5
        invariant forall u, v {:trigger RhoPiLane(s, u, v)} :: 0 <= u < 5 && 0 <= v < 5 ==>
                    (Modulo(u + 3 * v, 5) < x ==> rotated[Index(u, v)] == RhoPiLane(s, u, v))
        invariant forall u, v {:trigger RhoPiLane(s, u, v)} :: 0 <= u < 5 && 0 <= v < 5 ==>
                    (Modulo(u + 3 * v, 5) == x && u < y ==> rotated[Index(u, v)] == RhoPiLane(s, u, v))
      {
        var targetX, targetY := y, Modulo(2 * x + 3 * y, 5);
        forall u, v {:trigger RhoPiLane(s, u, v)} | 0 <= u < 5 && 0 <= v < 5
          ensures Index(u, v) == Index(targetX, targetY) <==> Modulo(u + 3 * v, 5) == x && u == y
        {
          ScatterIsGather(x, y, u, v);
        }
        rotated[Index(targetX, targetY)] := RotateLeft(state[Index(x, y)], ROTATION_OFFSETS[x][y], 64);
      }
    }
  }

  // ----- the rotation table against Algorithm 2 of section 3.2.2

  function Row(y: int, a: nat, b: nat, c: nat, d: nat, e: nat): nat {
    if y == 0 then a else if y == 1 then b else if y == 2 then c else if y == 3 then d else e
  }

  /** The step that visits each lane; lane (0, 0) has none. */
  function Visit(x: int, y: int): nat {
    if x == 0 then Row(y, 24, 7, 1, 13, 19)
    else if x == 1 then Row(y, 0, 23, 3, 8, 10)
    else if x == 2 then Row(y, 18, 2, 17, 4, 21)
    else if x == 3 then Row(y, 6, 9, 16, 5, 14)
    else Row(y, 12, 22, 20, 15, 11)
  }

  /** How often each lane's distance exceeds the lane length. */
  function Turns(x: int, y: int): nat {
    if x == 0 then Row(y, 0, 0, 0, 1, 3)
    else if x == 1 then Row(y, 0, 4, 0, 0, 1)
    else if x == 2 then Row(y, 2, 0, 2, 0, 3)
    else if x == 3 then Row(y, 0, 0, 2, 0, 1)
    else Row(y, 1, 4, 3, 2, 1)
  }

  lemma VisitInjective(x: int, y: int, u: int, v: int)
    requires 0 <= x < 5 && 0 <= y < 5 && 0 <= u < 5 && 0 <= v < 5
    ensures Visit(x, y) == Visit(u, v) ==> x == u && y == v
  {
  }

  lemma VisitAdvances(x: int, y: int)
    requires 0 <= x < 5 && 0 <= y < 5
    ensures Visit(x, y) < 23 ==> Visit(y, Residue(2 * x + 3 * y)) == Visit(x, y) + 1
  {
  }

  lemma {:induction false} WalkFinds(x: int, y: int, cx: int, cy: int, t: nat)
    requires 0 <= x < 5 && 0 <= y < 5 && 0 <= cx < 5 && 0 <= cy < 5
    requires Visit(cx, cy) == t && t < 24 && t <= Visit(x, y)
    ensures OffsetFrom(x, y, cx, cy, t) == if Visit(x, y) == 24 then 0 else (Visit(x, y) + 1) * (Visit(x, y) + 2) / 2
    decreases 24 - t
  {
    VisitInjective(x, y, cx, cy);
    VisitAdvances(cx, cy);
    SmallModulo(2 * cx + 3 * cy);
    if t < 23 && !(x == cx && y == cy) {
      WalkFinds(x, y, cy, Residue(2 * cx + 3 * cy), t + 1);
    }
  }

  lemma TableDistances(x: int, y: int)
    requires 0 <= x < 5 && 0 <= y < 5
    ensures (if Visit(x, y) == 24 then 0 else (Visit(x, y) + 1) * (Visit(x, y) + 2) / 2)
            == Offset(x, y) + 64 * Turns(x, y)
  {
    if x == 0 {
    } else if x == 1 {
    } else if x == 2 {
    } else if x == 3 {
    } else {
    }
  }

  /** The rotation table is the distances of rho, reduced modulo the lane length. */
  lemma OffsetsAreRho(x: int, y: int)
    requires 0 <= x < 5 && 0 <= y < 5
    ensures RhoOffset(x, y) == Offset(x, y) + 64 * Turns(x, y)
  {
    WalkFinds(x, y, 1, 0, 0);
    TableDistances(x, y);
  }

  lemma {:induction false} ModuloTurns(n: int, k: nat)
    requires n < 64
    ensures Modulo(n - 64 * k, 64) == Modulo(n, 64)
  {
    if k > 0 {
      ModuloTurns(n, k - 1);
      assert n - 64 * k + 64 == n - 64 * (k - 1);
    }
  }

  lemma RhoLane(a: StateArray, x: int, y: int, z: int)
    requires Coordinates(x, y, z)
    ensures Rho(a)[x][y][z] == a[x][y][Modulo(z - Offset(x, y), 64)]
  {
    OffsetsAreRho(x, y);
    ModuloTurns(z - Offset(x, y), Turns(x, y));
    assert Rho(a)[x][y][z] == RhoBit(a, x, y, z);
  }

  lemma PiLane(a: StateArray, x: int, y: int)
    requires 0 <= x < 5 && 0 <= y < 5
    ensures Pi(a)[x][y] == a[Modulo(x + 3 * y, 5)][x]
  {
    assert forall z :: 0 <= z < 64 ==> Pi(a)[x][y][z] == PiBit(a, x, y, z);
  }

  lemma RhoLaneIsRotated(a: StateArray, x: int, y: int)
    requires 0 <= x < 5 && 0 <= y < 5
    ensures Rho(a)[x][y] == RotatedBits(a[x][y], Offset(x, y))
  {
    hide Rho, Offset;
    forall z | 0 <= z < 64 ensures Rho(a)[x][y][z] == a[x][y][Modulo(z - Offset(x, y), 64)] {
      RhoLane(a, x, y, z);
    }
  }

  lemma RhoHolds(v: nat, a: StateArray, x: int, y: int)
    requires 0 <= x < 5 && 0 <= y < 5 && Holds(v, a[x][y])
    ensures Holds(RotateLeft(v, Offset(x, y), 64), Rho(a)[x][y])
  {
    RhoLaneIsRotated(a, x, y);
    RotateHolds(v, Offset(x, y), a[x][y]);
  }

  lemma RhoPiHolds(s: seq<nat>, a: StateArray, x: int, y: int)
    requires Represents(s, a) && 0 <= x < 5 && 0 <= y < 5
    ensures Holds(RhoPiLane(s, x, y), Pi(Rho(a))[x][y])
  {
    var sx := Modulo(x + 3 * y, 5);
    RhoHolds(s[Index(sx, x)], a, sx, x);
    PiLane(Rho(a), x, y);
  }

  // ----- chi

  function ChiLane(r: seq<nat>, x: int, y: int): nat
    requires |r| == 25 && 0 <= x < 5 && 0 <= y < 5
  {
    BitXor(r[Index(x, y)], BitAnd(Invert(r[Index(Modulo(x + 1, 5), y)]), r[Index(Modulo(x + 2, 5), y)]))
  }

  lemma ChiLaneHolds(r: seq<nat>, a: StateArray, x: int, y: int)
    requires Represents(r, a) && 0 <= x < 5 && 0 <= y < 5
    ensures Holds(ChiLane(r, x, y), Chi(a)[x][y])
  {
    var u, v := Modulo(x + 1, 5), Modulo(x + 2, 5);
    assert forall z :: 0 <= z < 64 ==> Chi(a)[x][y][z] == ChiBit(a, x, y, z);
    ChiHolds(r[Index(x, y)], r[Index(u, y)], r[Index(v, y)], a[x][y], a[u][y], a[v][y], Chi(a)[x][y]);
  }

  method ChiStep(state: array<nat>, rotated: array<nat>)
    requires state.Length == 25 && rotated.Length == 25 && state != rotated
    modifies state
    ensures forall x, y {:trigger ChiLane(rotated[..], x, y)} :: 0 <= x < 5 && 0 <= y < 5 ==>
              state[Index(x, y)] == ChiLane(rotated[..], x, y)
  {
    ghost var r := rotated[..];
    for x := 0 to 5
      invariant rotated[..] == r
      invariant forall u, v {:trigger ChiLane(r, u, v)} :: 0 <= u < x && 0 <= v < 5 ==>
                state[Index(u, v)] == ChiLane(r, u, v)
    {
      for y := 0 to 5
        invariant rotated[..] == r
        invariant forall u, v {:trigger ChiLane(r, u, v)} :: 0 <= u < x && 0 <= v < 5 ==>
                  state[Index(u, v)] == ChiLane(r, u, v)
        invariant forall v {:trigger ChiLane(r, x, v)} :: 0 <= v < y ==> state[Index(x, v)] == ChiLane(r, x, v)
      {
        state[Index(x, y)] := BitXor(rotated[Index(x, y)],
          BitAnd(Invert(rotated[Index(Modulo(x + 1, 5), y)]), rotated[Index(Modulo(x + 2, 5), y)]));
      }
    }
  }

  // ----- iota: the constants against the shift register of section 3.2.5

  /** The number with these bits at positions 0, 8, 24 and 56. */
  function AssembleHigh(b3: bool, b4: bool, b5: bool, b6: bool): nat {
    Value(b3) + 256 * (Value(b4) + 65536 * (Value(b5) + 0x1_0000_0000 * Value(b6)))
  }

  /** The number with these bits at positions 0, 1, 3, 7, 15, 31 and 63. */
  function Assemble(b0: bool, b1: bool, b2: bool, b3: bool, b4: bool, b5: bool, b6: bool): nat {
    Value(b0) + 2 * (Value(b1) + 4 * (Value(b2) + 16 * AssembleHigh(b3, b4, b5, b6)))
  }

  lemma {:induction false} GapBit(b: bool, w: nat, k: nat, z: nat)
    requires k >= 1
    ensures Bit(Value(b) + ShiftLeft(w, k), z) == if z == 0 then b else z >= k && Bit(w, z - k)
  {
    JoinBit(Value(b), w, k, z);
    if 0 < z < k {
      ZeroBit(z - 1);
    }
  }

  lemma ShiftLeftBy(v: nat)
    ensures ShiftLeft(v, 1) == 2 * v && ShiftLeft(v, 2) == 4 * v && ShiftLeft(v, 4) == 16 * v
  {
    assert ShiftLeft(v, 3) == 2 * ShiftLeft(v, 2);
  }

  lemma {:induction false} ShiftLeftTwice(v: nat, m: nat, n: nat)
    ensures ShiftLeft(ShiftLeft(v, m), n) == ShiftLeft(v, m + n)
  {
    if n > 0 {
      ShiftLeftTwice(v, m, n - 1);
    }
  }

  lemma ShiftLeftWide(v: nat)
    ensures ShiftLeft(v, 8) == 256 * v && ShiftLeft(v, 16) == 65536 * v && ShiftLeft(v, 32) == 0x1_0000_0000 * v
  {
    ShiftLeft8(v);
    ShiftLeft8(256 * v);
    ShiftLeftTwice(v, 8, 8);
    ShiftLeft8(65536 * v);
    ShiftLeft8(0x100_0000 * v);
    ShiftLeftTwice(v, 16, 8);
    ShiftLeftTwice(v, 24, 8);
  }

  lemma Gap1(b: bool, w: nat, z: nat)
    ensures Bit(Value(b) + 2 * w, z) == if z == 0 then b else z >= 1 && Bit(w, z - 1)
  {
    ShiftLeftBy(w);
    GapBit(b, w, 1, z);
  }

  lemma Gap2(b: bool, w: nat, z: nat)
    ensures Bit(Value(b) + 4 * w, z) == if z == 0 then b else z >= 2 && Bit(w, z - 2)
  {
    ShiftLeftBy(w);
    GapBit(b, w, 2, z);
  }

  lemma Gap4(b: bool, w: nat, z: nat)
    ensures Bit(Value(b) + 16 * w, z) == if z == 0 then b else z >= 4 && Bit(w, z - 4)
  {
    ShiftLeftBy(w);
    GapBit(b, w, 4, z);
  }

  lemma Gap8(b: bool, w: nat, z: nat)
    ensures Bit(Value(b) + 256 * w, z) == if z == 0 then b else z >= 8 && Bit(w, z - 8)
  {
    ShiftLeftWide(w);
    GapBit(b, w, 8, z);
  }

  lemma Gap16(b: bool, w: nat, z: nat)
    ensures Bit(Value(b) + 65536 * w, z) == if z == 0 then b else z >= 16 && Bit(w, z - 16)
  {
    ShiftLeftWide(w);
    GapBit(b, w, 16, z);
  }

  lemma Gap32(b: bool, w: nat, z: nat)
    ensures Bit(Value(b) + 0x1_0000_0000 * w, z) == if z == 0 then b else z >= 32 && Bit(w, z - 32)
  {
    ShiftLeftWide(w);
    GapBit(b, w, 32, z);
  }

  lemma AssembleHighBit(b3: bool, b4: bool, b5: bool, b6: bool, z: nat)
    requires z <= 56
    ensures Bit(AssembleHigh(b3, b4, b5, b6), z) ==
            if z == 0 then b3 else if z == 8 then b4 else if z == 24 then b5 else if z == 56 then b6 else false
  {
    var c6 := Value(b6);
    var c5 := Value(b5) + 0x1_0000_0000 * c6;
    var c4 := Value(b4) + 65536 * c5;
    Gap8(b3, c4, z);
    if z >= 8 {
      Gap16(b4, c5, z - 8);
    }
    if z >= 24 {
      Gap32(b5, c6, z - 24);
    }
  }

  lemma AssembleBit(b0: bool, b1: bool, b2: bool, b3: bool, b4: bool, b5: bool, b6: bool, z: nat)
    requires z < 64
    ensures Bit(Assemble(b0, b1, b2, b3, b4, b5, b6), z) ==
            if z == 0 then b0 else if z == 1 then b1 else if z == 3 then b2 else if z == 7 then b3
            else if z == 15 then b4 else if z == 31 then b5 else if z == 63 then b6 else false
  {
    var high := AssembleHigh(b3, b4, b5, b6);
    var c2 := Value(b2) + 16 * high;
    var c1 := Value(b1) + 4 * c2;
    Gap1(b0, c1, z);
    if z >= 1 {
      Gap2(b1, c2, z - 1);
    }
    if z >= 3 {
      Gap4(b2, high, z - 3);
    }
    if z >= 7 {
      AssembleHighBit(b3, b4, b5, b6, z - 7);
    }
  }

  function SevenShifts(r: Register): Register {
    Shifted(Shifted(Shifted(Shifted(Shifted(Shifted(Shifted(r)))))))
  }

  lemma {:induction false} RegisterAfter(t: nat)
    ensures RegisterAt(t + 1) == Shifted(RegisterAt(t))
  {
  }

  lemma NoWrap(t: nat)
    requires t < 255
    ensures Rc(t) == RegisterAt(t).r0
  {
  }

  function ConstantBits(round: nat): LaneBits {
    seq(64, z requires 0 <= z < 64 => RoundConstantBit(round, z))
  }

  function Bits7(r: Register): (bool, bool, bool, bool, bool, bool, bool) {
    var r1 := Shifted(r);
    var r2 := Shifted(r1);
    var r3 := Shifted(r2);
    var r4 := Shifted(r3);
    var r5 := Shifted(r4);
    var r6 := Shifted(r5);
    (r.r0, r1.r0, r2.r0, r3.r0, r4.r0, r5.r0, r6.r0)
  }

  /** The constant of a round that starts with the shift register r. */
  function ConstantFrom(r: Register): nat {
    var b := Bits7(r);
    Assemble(b.0, b.1, b.2, b.3, b.4, b.5, b.6)
  }

  lemma RoundRegister(t: nat, r: Register)
    requires RegisterAt(t) == r && t + 7 < 255
    ensures RegisterAt(t + 7) == SevenShifts(r)
    ensures (Rc(t), Rc(1 + t), Rc(2 + t), Rc(3 + t), Rc(4 + t), Rc(5 + t), Rc(6 + t)) == Bits7(r)
  {
    RegisterAfter(t);
    RegisterAfter(t + 1);
    RegisterAfter(t + 2);
    RegisterAfter(t + 3);
    RegisterAfter(t + 4);
    RegisterAfter(t + 5);
    RegisterAfter(t + 6);
    NoWrap(t);
    NoWrap(1 + t);
    NoWrap(2 + t);
    NoWrap(3 + t);
    NoWrap(4 + t);
    NoWrap(5 + t);
    NoWrap(6 + t);
  }

  function R(b0: nat, b1: nat, b2: nat, b3: nat, b4: nat, b5: nat, b6: nat, b7: nat): Register {
    Register(b0 == 1, b1 == 1, b2 == 1, b3 == 1, b4 == 1, b5 == 1, b6 == 1, b7 == 1)
  }

  /** The shift register at the start of each round. */
  function RegisterOf(round: nat): Register {
    if round == 0 then R(1, 0, 0, 0, 0, 0, 0, 0)
    else if round == 1 then R(0, 0, 0, 0, 0, 0, 0, 1)
    else if round == 2 then R(0, 0, 0, 1, 1, 0, 1, 1)
    else if round == 3 then R(0, 1, 0, 1, 1, 0, 0, 0)
    else if round == 4 then R(1, 1, 1, 1, 1, 0, 1, 1)
    else if round == 5 then R(1, 0, 0, 1, 0, 0, 0, 0)
    else if round == 6 then R(1, 0, 1, 0, 1, 1, 0, 0)
    else if round == 7 then R(1, 1, 1, 1, 0, 0, 1, 0)
    else if round == 8 then R(0, 1, 0, 1, 0, 0, 1, 1)
    else if round == 9 then R(0, 0, 0, 0, 1, 1, 1, 0)
    else if round == 10 then R(1, 0, 0, 0, 0, 0, 1, 0)
    else if round == 11 then R(0, 0, 1, 1, 0, 1, 1, 1)
    else if round == 12 then R(1, 0, 1, 0, 1, 0, 1, 1)
    else if round == 13 then R(1, 0, 1, 1, 0, 0, 1, 1)
    else if round == 14 then R(1, 1, 0, 0, 0, 1, 1, 0)
    else if round == 15 then R(1, 1, 0, 1, 0, 1, 0, 1)
    else if round == 16 then R(0, 1, 0, 1, 0, 1, 0, 1)
    else if round == 17 then R(0, 1, 0, 1, 0, 1, 0, 0)
    else if round == 18 then R(0, 1, 0, 0, 1, 1, 1, 1)
    else if round == 19 then R(0, 0, 0, 1, 0, 1, 1, 1)
    else if round == 20 then R(1, 1, 1, 0, 1, 1, 0, 0)
    else if round == 21 then R(0, 1, 1, 1, 1, 1, 0, 0)
    else if round == 22 then R(1, 1, 0, 1, 0, 0, 0, 0)
    else R(0, 0, 1, 0, 0, 0, 1, 0)
  }

  /** Seven shifts at once: each bit is a sum of the old ones. */
  lemma SevenShiftsBits(r: Register)
    ensures SevenShifts(r) == Register(
              Xor(Xor(r.r1, r.r3), r.r4),
              Xor(Xor(r.r2, r.r4), r.r5),
              Xor(Xor(r.r3, r.r5), r.r6),
              Xor(Xor(r.r4, r.r6), r.r7),
              Xor(Xor(Xor(Xor(r.r1, r.r3), r.r4), r.r5), r.r7),
              Xor(Xor(Xor(Xor(r.r1, r.r2), r.r3), r.r5), r.r6),
              Xor(Xor(Xor(r.r1, r.r2), r.r6), r.r7),
              Xor(Xor(Xor(r.r0, r.r2), r.r3), r.r7))
  {
  }

  lemma EarlyRegisterAdvances(round: nat)
    requires round < 12
    ensures SevenShifts(RegisterOf(round)) == RegisterOf(round + 1)
  {
    SevenShiftsBits(RegisterOf(round));
  }

  lemma LateRegisterAdvances(round: nat)
    requires 12 <= round < 23
    ensures SevenShifts(RegisterOf(round)) == RegisterOf(round + 1)
  {
    SevenShiftsBits(RegisterOf(round));
  }

  lemma {:induction false} RegisterIs(round: nat)
    requires round < 24
    ensures RegisterAt(7 * round) == RegisterOf(round)
  {
    hide RegisterOf, SevenShifts, Bits7, RegisterAt, Rc;
    if round == 0 {
      FirstRegister();
    } else {
      RegisterIs(round - 1);
      if round <= 12 {
        EarlyRegisterAdvances(round - 1);
      } else {
        LateRegisterAdvances(round - 1);
      }
      RoundRegister(7 * (round - 1), RegisterOf(round - 1));
    }
  }

  lemma FirstRegister()
    ensures RegisterAt(0) == RegisterOf(0)
  {
  }

  lemma EarlyConstantsMatch(round: nat)
    requires round < 12
    ensures ROUND_CONSTANTS[round] == ConstantFrom(RegisterOf(round)) <= 0xFFFF_FFFF_FFFF_FFFF
  {
  }

  lemma LateConstantsMatch(round: nat)
    requires 12 <= round < 24
    ensures ROUND_CONSTANTS[round] == ConstantFrom(RegisterOf(round)) <= 0xFFFF_FFFF_FFFF_FFFF
  {
  }

  lemma Power2After64(n: nat)
    ensures Power2(n + 64) == 0x1_0000_0000_0000_0000 * Power2(n)
  {
    Power2Shift8(n);
    Power2Shift8(n + 8);
    Power2Shift8(n + 16);
    Power2Shift8(n + 24);
    Power2Shift8(n + 32);
    Power2Shift8(n + 40);
    Power2Shift8(n + 48);
    Power2Shift8(n + 56);
  }

  lemma ConstantBitIs(round: nat, r: Register, z: nat)
    requires round < 24 && z < 64 && RegisterAt(7 * round) == r
    ensures Bit(ConstantFrom(r), z) == ConstantBits(round)[z]
  {
    hide Bits7, RegisterAt, Assemble, Bit, Rc, SevenShifts;
    RoundRegister(7 * round, r);
    var b := Bits7(r);
    AssembleBit(b.0, b.1, b.2, b.3, b.4, b.5, b.6, z);
    assert ConstantBits(round)[z] == RoundConstantBit(round, z);
  }

  /** The table of round constants is what the shift register generates. */
  lemma ConstantHolds(round: nat)
    requires round < 24
    ensures Holds(ROUND_CONSTANTS[round], ConstantBits(round))
  {
    hide ConstantFrom, RegisterOf;
    if round < 12 {
      EarlyConstantsMatch(round);
    } else {
      LateConstantsMatch(round);
    }
    AssembledHolds(round, ROUND_CONSTANTS[round]);
  }

  lemma AssembledHolds(round: nat, c: nat)
    requires round < 24 && c == ConstantFrom(RegisterOf(round)) && c <= 0xFFFF_FFFF_FFFF_FFFF
    ensures Holds(c, ConstantBits(round))
  {
    hide ConstantBits, ConstantFrom, RegisterOf, Bit;
    RegisterIs(round);
    Power2After64(0);
    AgreesOnBits(c, ConstantBits(round), 64);
    forall z | 0 <= z < 64 ensures Bit(c, z) == ConstantBits(round)[z] {
      ConstantBitIs(round, RegisterOf(round), z);
    }
  }

  lemma IotaHolds(lane: nat, a: StateArray, round: nat)
    requires round < 24 && Holds(lane, a[0][0])
    ensures Holds(BitXor(lane, ROUND_CONSTANTS[round]), Iota(a, round)[0][0])
  {
    ConstantHolds(round);
    var r := Iota(a, round)[0][0];
    assert forall z :: 0 <= z < 64 ==> r[z] == IotaBit(a, round, 0, 0, z);
    XorHolds(lane, ROUND_CONSTANTS[round], a[0][0], ConstantBits(round), r);
  }

  lemma IotaElsewhere(a: StateArray, round: nat, x: int, y: int)
    requires 0 <= x < 5 && 0 <= y < 5 && !(x == 0 && y == 0)
    ensures Iota(a, round)[x][y] == a[x][y]
  {
    assert forall z :: 0 <= z < 64 ==> Iota(a, round)[x][y][z] == IotaBit(a, round, x, y, z);
  }

  // ----- one round

  lemma ThetaRefines(s: seq<nat>, t: seq<nat>, a: StateArray)
    requires Represents(s, a) && |t| == 25
    requires forall x, y {:trigger ThetaLane(s, x, y)} :: 0 <= x < 5 && 0 <= y < 5 ==>
             t[Index(x, y)] == ThetaLane(s, x, y)
    ensures Represents(t, Theta(a))
  {
    forall x, y | 0 <= x < 5 && 0 <= y < 5 ensures Holds(t[Index(x, y)], Theta(a)[x][y]) {
      assert t[Index(x, y)] == ThetaLane(s, x, y);
      ThetaHolds(s, a, x, y);
    }
  }

  lemma RhoPiRefines(s: seq<nat>, t: seq<nat>, a: StateArray)
    requires Represents(s, a) && |t| == 25
    requires forall x, y {:trigger RhoPiLane(s, x, y)} :: 0 <= x < 5 && 0 <= y < 5 ==>
             t[Index(x, y)] == RhoPiLane(s, x, y)
    ensures Represents(t, Pi(Rho(a)))
  {
    forall x, y | 0 <= x < 5 && 0 <= y < 5 ensures Holds(t[Index(x, y)], Pi(Rho(a))[x][y]) {
      assert t[Index(x, y)] == RhoPiLane(s, x, y);
      RhoPiHolds(s, a, x, y);
    }
  }

  lemma ChiRefines(s: seq<nat>, t: seq<nat>, a: StateArray)
    requires Represents(s, a) && |t| == 25
    requires forall x, y {:trigger ChiLane(s, x, y)} :: 0 <= x < 5 && 0 <= y < 5 ==> t[Index(x, y)] == ChiLane(s, x, y)
    ensures Represents(t, Chi(a))
  {
    forall x, y | 0 <= x < 5 && 0 <= y < 5 ensures Holds(t[Index(x, y)], Chi(a)[x][y]) {
      assert t[Index(x, y)] == ChiLane(s, x, y);
      ChiLaneHolds(s, a, x, y);
    }
  }

  lemma IotaRefines(s: seq<nat>, a: StateArray, round: nat)
    requires Represents(s, a) && round < 24
    ensures Represents(s[0 := BitXor(s[0], ROUND_CONSTANTS[round])], Iota(a, round))
  {
    var t := s[0 := BitXor(s[0], ROUND_CONSTANTS[round])];
    forall x, y | 0 <= x < 5 && 0 <= y < 5 ensures Holds(t[Index(x, y)], Iota(a, round)[x][y]) {
      assert Holds(s[Index(x, y)], a[x][y]);
      if x == 0 && y == 0 {
        IotaHolds(s[0], a, round);
      } else {
        IotaElsewhere(a, round, x, y);
      }
    }
  }

  method ThetaInPlace(state: array<nat>, ghost a: StateArray)
    requires state.Length == 25 && Represents(state[..], a)
    modifies state
    ensures Represents(state[..], Theta(a))
  {
    ghost var s := state[..];
    ThetaStep(state);
    ThetaRefines(s, state[..], a);
  }

  method RhoPiCopy(state: array<nat>, ghost a: StateArray) returns (rotated: array<nat>)
    requires state.Length == 25 && Represents(state[..], a)
    ensures fresh(rotated) && rotated.Length == 25 && Represents(rotated[..], Pi(Rho(a)))
  {
    rotated := RhoPiStep(state);
    RhoPiRefines(state[..], rotated[..], a);
  }

  method ChiInPlace(state: array<nat>, rotated: array<nat>, ghost a: StateArray)
    requires state.Length == 25 && rotated.Length == 25 && state != rotated && Represents(rotated[..], a)
    modifies state
    ensures Represents(state[..], Chi(a))
  {
    ChiStep(state, rotated);
    ChiRefines(rotated[..], state[..], a);
  }

  method IotaInPlace(state: array<nat>, round: nat, ghost a: StateArray)
    requires state.Length == 25 && round < 24 && Represents(state[..], a)
    modifies state
    ensures Represents(state[..], Iota(a, round))
  {
    ghost var s := state[..];
    IotaRefines(s, a, round);
    state[0] := BitXor(state[0], ROUND_CONSTANTS[round]);
    assert state[..] == s[0 := BitXor(s[0], ROUND_CONSTANTS[round])];
  }

  method KeccakRound(state: array<nat>, round: nat, ghost a: StateArray)
    requires state.Length == 25 && round < 24 && Represents(state[..], a)
    modifies state
    ensures Represents(state[..], Rnd(a, round))
  {
    ghost var b := Theta(a);
    ghost var c := Pi(Rho(b));
    ThetaInPlace(state, a);
    var rotated := RhoPiCopy(state, b);
    ChiInPlace(state, rotated, c);
    IotaInPlace(state, round, Chi(c));
  }

  /** `_keccak_f1600` refines the 24 rounds of FIPS 202, in place, with every lane left below
      2^64. */
  method KeccakF1600(state: array<nat>, ghost a: StateArray)
    requires state.Length == 25 && Represents(state[..], a)
    modifies state
    ensures Represents(state[..], RoundsFrom(a, 0))
  {
    ghost var b := a;
    for round := 0 to 24
      invariant Represents(state[..], b)
      invariant RoundsFrom(b, round) == RoundsFrom(a, 0)
    {
      KeccakRound(state, round, b);
      b := Rnd(b, round);
    }
  }
}
