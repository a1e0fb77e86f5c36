/** Types shared by the models: machine integers with their exact ranges, and Option. */
module Basics {
  datatype Option<+T> = None | Some(value: T)

  const TWO_64 := 0x1_0000_0000_0000_0000
  const TWO_128 := 0x1_0000_0000_0000_0000_0000_0000_0000_0000

  type u64 = n: int | 0 <= n < TWO_64
  type u128 = n: int | 0 <= n < TWO_128

  const MAX_64: u64 := 0xFFFF_FFFF_FFFF_FFFF

  function Min(a: nat, b: nat): (m: nat)
  {
    if a <= b then a else b
  }

  /** Concatenation is associative; kept apart so that proofs can use it without unfolding sequences. */
  lemma Assoc<T>(a: seq<T>, b: seq<T>, c: seq<T>)
    ensures a + (b + c) == (a + b) + c
  {
  }

  lemma HeadTail<T>(a: seq<T>)
    requires a != []
    ensures a == [a[0]] + a[1..]
  {
  }

  lemma EmptyRight<T>(a: seq<T>)
    ensures a + [] == a
  {
  }

  lemma MulMonotone(a: nat, b: nat, c: nat)
    requires a <= b
    ensures a * c <= b * c && (a + 1) * c == a * c + c
  {
  }

  lemma DivBounds(x: nat, b: nat)
    requires b > 0
    ensures (x / b) * b <= x < (x / b) * b + b
  {
  }
}
