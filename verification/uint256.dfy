/** Unsigned 256-bit integers with the checked arithmetic the ledger uses:
    an addition or subtraction that leaves the range yields None instead of wrapping. */
module UInt256 {

  /** The largest value a U256 can hold, 2^256 - 1. */
  const MAX: nat := 115792089237316195423570985008687907853269984665640564039457584007913129639935

  type U256 = x: nat | x <= MAX

  datatype Option<+T> = None | Some(value: T)

  /** Checked addition: defined exactly when the sum fits in 256 bits. */
  function CheckedAdd(a: U256, b: U256): (r: Option<U256>)
    ensures r.Some? <==> a + b <= MAX
    ensures r.Some? ==> r.value - b == a
  {
    if a + b <= MAX then Some(a + b) else None
  }

  /** Checked subtraction: defined exactly when the difference is not negative. */
  function CheckedSub(a: U256, b: U256): (r: Option<U256>)
    ensures r.Some? <==> b <= a
    ensures r.Some? ==> r.value + b == a
  {
    if b <= a then Some(a - b) else None
  }
}
