/** Machine integers, fallible results and call origins shared by every pallet. */
module Base {

  const U8_LIMIT: int := 0x100
  const U32_LIMIT: int := 0x1_0000_0000
  const U64_LIMIT: int := 0x1_0000_0000_0000_0000
  const U128_LIMIT: int := 0x1_0000_0000_0000_0000_0000_0000_0000_0000

  type u8 = n: int | 0 <= n < U8_LIMIT
  type u32 = n: int | 0 <= n < U32_LIMIT
  type u64 = n: int | 0 <= n < U64_LIMIT
  type u128 = n: int | 0 <= n < U128_LIMIT

  type BlockNumber = u32
  type Balance = u128
  type AccountId = nat
  type AssetId = u128

  datatype Option<+T> = None | Some(value: T) {
    function OkOr<E>(error: E): Result<T, E> {
      match this
      case None => Err(error)
      case Some(v) => Ok(v)
    }
  }

  datatype Result<+T, +E> = Ok(value: T) | Err(error: E) {
    predicate IsFailure() { Err? }

    function PropagateFailure<U>(): Result<U, E>
      requires Err?
    {
      Err(error)
    }

    function Extract(): T
      requires Ok?
    {
      value
    }
  }

  /** A guard: `var _ :- Need(c, e);` leaves with `e` when `c` is false. */
  function Need<E>(condition: bool, error: E): Result<(), E> {
    if condition then Ok(()) else Err(error)
  }

  /** Who sends an extrinsic: the committee (root in the runtime) or an account. */
  datatype Origin = Root | Signed(who: AccountId)

  function Max(a: int, b: int): int {
    if a < b then b else a
  }

  function Min(a: int, b: int): int {
    if a < b then a else b
  }

  function Lookup<K, V>(m: map<K, V>, k: K): Option<V> {
    if k in m then Some(m[k]) else None
  }

  /** Reads a storage map whose missing entries mean zero. */
  function GetOrZero<K>(m: map<K, u128>, k: K): u128 {
    if k in m then m[k] else 0
  }
}
