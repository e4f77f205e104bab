/** Integer widths, addresses and result types shared by the three contracts. */
module Host {

  const I128_MAX: int := 0x7FFF_FFFF_FFFF_FFFF_FFFF_FFFF_FFFF_FFFF
  const I128_MIN: int := -I128_MAX - 1
  const U64_MAX: int := 0xFFFF_FFFF_FFFF_FFFF
  const U32_MAX: int := 0xFFFF_FFFF

  type i128 = x: int | I128_MIN <= x <= I128_MAX
  type u64 = x: int | 0 <= x <= U64_MAX
  type u32 = x: int | 0 <= x <= U32_MAX

  /** A token balance: an i128 that the token contract keeps non-negative. */
  type Amount = x: int | 0 <= x <= I128_MAX

  /** An account, or the contract that `deployer` deployed under `salt`. */
  datatype Address = Account(id: nat) | Deployed(deployer: Address, salt: u64)

  datatype Option<+T> = None | Some(value: T)

  function ValueOr<T>(o: Option<T>, default: T): T { if o.Some? then o.value else default }

  datatype Result<+T, +E> = Ok(value: T) | Err(error: E)

  predicate FitsI128(x: int) { I128_MIN <= x <= I128_MAX }

  function Min(x: int, y: int): int { if x < y then x else y }

  function Max(x: int, y: int): int { if x > y then x else y }

  lemma MulMonotone(k: int, x: int, y: int)
    requires 0 <= k && x <= y
    ensures k * x <= k * y
  {
    assert k * y - k * x == k * (y - x);
  }

  lemma MulStrict(k: int, x: int, y: int)
    requires 0 < k && x < y
    ensures k * x < k * y
  {
    assert k * y - k * x == k * (y - x);
  }
}
