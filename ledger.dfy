/**
 * Shared storage model of the three contracts.
 *
 * Every contract keeps its persistent state in a flat key-value store whose
 * keys are hashes of (tag, id, address, field) tuples. The hash is modelled
 * by the injective constructor `Key`, so two slots coincide exactly when
 * their tuples do. A slot that was never written reads as 0.
 */
module Ledger {

  /** Upper bound (exclusive) of an unsigned 256-bit value. */
  const U256_LIMIT: nat := 0x1_0000_0000_0000_0000_0000_0000_0000_0000_0000_0000_0000_0000_0000_0000_0000_0000

  /** Upper bound (exclusive) of an unsigned 64-bit value (block number, timestamp). */
  const U64_LIMIT: nat := 0x1_0000_0000_0000_0000

  type U256 = n: nat | n < U256_LIMIT
  type U64 = n: nat | n < U64_LIMIT
  type U8 = n: nat | n < 256

  /** An address, identified with the value the contracts store for it. */
  type Address = nat

  /**
   * Unchecked u256 arithmetic (`u256.add`, `u256.sub`, `u256.mul`): the exact
   * value cut to 256 bits, which leaves every value that fits unchanged.
   */
  function Wrap(x: int): (r: U256)
    ensures 0 <= x < U256_LIMIT ==> r == x
    ensures x < 0 <= x + U256_LIMIT ==> r == x + U256_LIMIT
  {
    x % U256_LIMIT
  }

  datatype Option<+T> = None | Some(value: T)

  /** Outcome of a transaction: its return value, or the reason it aborted. */
  datatype Result<+T, +E> = Ok(value: T) | Err(error: E)

  /** A storage slot: the tuple that the contracts hash into a storage pointer. */
  datatype Key = Key(tag: string, id: Option<nat>, addr: Option<Address>, field: string)

  type Store = map<Key, nat>

  /** `Blockchain.getStorageAt`: an unset slot reads as 0. */
  function Read(store: Store, k: Key): nat
  {
    if k in store then store[k] else 0
  }

  /** A u8 read: the stored value cut to 64 bits, then to 8 bits. */
  function ReadU8(store: Store, k: Key): (r: U8)
    ensures Read(store, k) < 256 ==> r == Read(store, k)
  {
    (Read(store, k) % U64_LIMIT) % 256
  }

  // Facts about natural-number arithmetic used by the payout and reward bounds.

  lemma MulMonotone(a: nat, b: nat, c: nat)
    requires a <= b
    ensures a * c <= b * c
  {
  }

  lemma MulCancel(d: nat, a: nat, b: nat)
    requires 0 < d && d * a < d * b
    ensures a < b
  {
  }

  lemma MulAddLeft(a: nat, b: nat, c: nat)
    ensures (a + b) * c == a * c + b * c
  {
  }

  lemma MulAddRight(d: nat, a: nat, b: nat)
    ensures d * (a + b) == d * a + d * b
  {
  }

  /** The quotient times the divisor never exceeds the dividend. */
  lemma QuotientBelow(x: nat, d: nat)
    requires 0 < d
    ensures d * (x / d) <= x
  {
  }

  /** Truncating division by `d` stays below any `q` with `x <= d * q`. */
  lemma DivBelow(x: nat, d: nat, q: nat)
    requires 0 < d && x <= d * q
    ensures x / d <= q
  {
  }

  /** Truncating division by `d` stays above any `q` with `d * q <= x`. */
  lemma DivLowerBound(x: nat, d: nat, q: nat)
    requires 0 < d && d * q <= x
    ensures q <= x / d
  {
    var r := x / d;
    assert x == d * r + x % d;
    assert d * (r + 1) == d * r + d;
    MulCancel(d, q, r + 1);
  }
}
