/** Small value types shared by every model. */
module Basics {

  datatype Option<+T> = None | Some(value: T)

  /** An account address. All addresses are 0x-prefixed lower-case text of one width, so
      ordering the texts is ordering the numbers. */
  type Address = nat

  const ZERO_ADDRESS: Address := 0

  function Min(a: int, b: int): int {
    if a <= b then a else b
  }

  function Max(a: int, b: int): int {
    if a <= b then b else a
  }

  function Abs(a: int): nat {
    if a < 0 then -a else a
  }

  /** Python's `s[:n]` for a non-negative n. */
  function Take<T>(s: seq<T>, n: nat): (t: seq<T>)
    ensures |t| == Min(|s|, n) && t <= s
  {
    if n < |s| then s[..n] else s
  }

  lemma Associate<T>(a: seq<T>, b: seq<T>, c: seq<T>)
    ensures (a + b) + c == a + (b + c)
  {
  }
}
