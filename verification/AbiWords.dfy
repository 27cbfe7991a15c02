/** Big-endian words, as the Solidity Contract ABI Specification lays out numbers. */
module AbiWords {
  import opened PythonInt

  const WORD: nat := 32

  /** 256 to the power n. */
  function Range(n: nat): (r: nat)
    ensures r > 0
  {
    if n == 0 then 1 else 256 * Range(n - 1)
  }

  /** `int.from_bytes(s, "big")`. */
  function FromBig(s: seq<nat>): nat {
    if s == [] then 0 else 256 * FromBig(s[..|s| - 1]) + s[|s| - 1]
  }

  /** The n-byte big-endian representation of v. */
  function ToBig(v: nat, n: nat): (s: seq<nat>)
    ensures |s| == n && IsBytes(s)
  {
    if n == 0 then [] else ToBig(v / 256, n - 1) + [v % 256]
  }

  lemma {:induction false} FromToBig(v: nat, n: nat)
    requires v < Range(n)
    ensures FromBig(ToBig(v, n)) == v
  {
    if n > 0 {
      FromToBig(v / 256, n - 1);
      assert ToBig(v, n)[..n - 1] == ToBig(v / 256, n - 1);
    }
  }

  function Scaled(b: nat, r: nat): nat {
    b * r
  }

  /** The first byte bounds the number. */
  lemma {:induction false} FirstByte(s: seq<nat>)
    requires IsBytes(s) && s != []
    ensures Scaled(s[0], Range(|s| - 1)) <= FromBig(s) < Scaled(s[0], Range(|s| - 1)) + Range(|s| - 1)
  {
    if |s| == 1 {
      assert Range(0) == 1 && s[..0] == [];
    } else {
      var init := s[..|s| - 1];
      FirstByte(init);
      assert Range(|s| - 1) == 256 * Range(|s| - 2);
      ScaleUp(s[0], Range(|s| - 2));
    }
  }

  lemma ScaleUp(b: nat, r: nat)
    ensures Scaled(b, 256 * r) == 256 * Scaled(b, r)
  {
  }

  lemma ScaledHalf(b: nat, r: nat)
    requires r > 0
    ensures b >= 128 ==> Scaled(b, r) >= 128 * r
    ensures b < 128 ==> Scaled(b, r) + r <= 128 * r
  {
    if b < 128 {
      assert Scaled(b, r) + r == (b + 1) * r;
    }
  }

  /** The sign bit splits the range in half. */
  lemma SignBit(s: seq<nat>)
    requires IsBytes(s) && s != []
    ensures s[0] >= 128 <==> 2 * FromBig(s) >= Range(|s|)
  {
    FirstByte(s);
    ScaledHalf(s[0], Range(|s| - 1));
    assert Range(|s|) == 256 * Range(|s| - 1);
  }

  /** `int.from_bytes(s, "big", signed=...)` with the sign taken from the first byte: two's
      complement. */
  function FromBigSigned(s: seq<nat>): int
    requires s != []
  {
    if s[0] >= 128 then FromBig(s) - Range(|s|) else FromBig(s)
  }

  /** The two's complement of v in n bytes. */
  function ToBigSigned(v: int, n: nat): (s: seq<nat>)
    requires -(Range(n) as int) <= v
    ensures |s| == n && IsBytes(s)
  {
    ToBig(if v < 0 then v + Range(n) else v, n)
  }

  lemma FromToBigSigned(v: int, n: nat)
    requires n > 0 && -(Range(n) as int) <= 2 * v < Range(n)
    ensures FromBigSigned(ToBigSigned(v, n)) == v
  {
    hide Range, FromBig, ToBig;
    FromToBig(if v < 0 then v + Range(n) else v, n);
    SignBit(ToBigSigned(v, n));
  }

  /** `_word`: the 32-byte word at an offset, if it lies inside. */
  function WordAt(raw: seq<nat>, offset: nat): seq<nat>
    requires offset + WORD <= |raw|
  {
    raw[offset..offset + WORD]
  }

  // ----- slices

  lemma SliceLeft<T>(a: seq<T>, b: seq<T>, i: nat, j: nat)
    requires i <= j <= |a|
    ensures (a + b)[i..j] == a[i..j]
  {
  }

  lemma SliceRight<T>(a: seq<T>, b: seq<T>, i: nat, j: nat)
    requires i <= j <= |b|
    ensures (a + b)[|a| + i..|a| + j] == b[i..j]
  {
    assert forall k :: i <= k < j ==> (a + b)[|a| + k] == b[k];
  }

  lemma SliceOfSlice<T>(s: seq<T>, at: nat, n: nat, i: nat, j: nat)
    requires at + n <= |s| && i <= j <= n
    ensures s[at..at + n][i..j] == s[at + i..at + j]
  {
    var a, b := s[at..at + n][i..j], s[at + i..at + j];
    assert forall k :: 0 <= k < j - i ==> a[k] == b[k];
  }

  /** `part` lies in `raw` from the offset on. */
  predicate LiesAt(raw: seq<nat>, at: nat, part: seq<nat>) {
    at + |part| <= |raw| && raw[at..at + |part|] == part
  }

  lemma InWhole(heads: seq<nat>, tails: seq<nat>, h: nat, head: seq<nat>, t: nat, tail: seq<nat>)
    requires LiesAt(heads, h, head) && LiesAt(tails, t, tail)
    ensures LiesAt(heads + tails, h, head) && LiesAt(heads + tails, |heads| + t, tail)
  {
    SliceLeft(heads, tails, h, h + |head|);
    SliceRight(heads, tails, t, t + |tail|);
  }

  lemma LiesInParts(raw: seq<nat>, at: nat, x: seq<nat>, y: seq<nat>, z: seq<nat>)
    requires LiesAt(raw, at, x + y + z)
    ensures LiesAt(raw, at, x) && LiesAt(raw, at + |x|, y)
  {
    var whole := x + y + z;
    SliceOfSlice(raw, at, |whole|, 0, |x|);
    SliceOfSlice(raw, at, |whole|, |x|, |x| + |y|);
    assert whole[0..|x|] == x && whole[|x|..|x| + |y|] == y;
  }

  lemma LiesIsWord(raw: seq<nat>, at: nat, word: seq<nat>)
    requires |word| == WORD && LiesAt(raw, at, word)
    ensures at + WORD <= |raw| && WordAt(raw, at) == word
  {
  }

  predicate Aligned(n: nat) {
    n % WORD == 0
  }

  lemma AlignedSum(a: nat, b: nat)
    requires Aligned(a) && Aligned(b)
    ensures Aligned(a + b)
  {
    assert a + b == WORD * (a / WORD + b / WORD);
  }

  /** Zero bytes up to the next multiple of a word. */
  function Padding(n: nat): (k: nat)
    ensures Aligned(WORD + n + k)
  {
    if n % WORD == 0 then 0 else WORD - n % WORD
  }

  lemma {:induction false} WholeWords(n: nat)
    ensures Aligned(WORD * n)
  {
    if n > 0 {
      WholeWords(n - 1);
    }
  }
}
