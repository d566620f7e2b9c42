/** Machine integers, keys and result types shared by every module. */
module Numbers {

  const U8_MAX := 0xFF
  const U16_MAX := 0xFFFF
  const U64_MAX := 0xFFFF_FFFF_FFFF_FFFF
  const I64_MIN := -0x8000_0000_0000_0000
  const I64_MAX := 0x7FFF_FFFF_FFFF_FFFF
  const U128_MAX := 0xFFFF_FFFF_FFFF_FFFF_FFFF_FFFF_FFFF_FFFF

  type u8 = x: int | 0 <= x <= U8_MAX
  type u16 = x: int | 0 <= x <= U16_MAX
  type u64 = x: int | 0 <= x <= U64_MAX
  type i64 = x: int | I64_MIN <= x <= I64_MAX
  type u128 = x: int | 0 <= x <= U128_MAX

  datatype Option<+T> = None | Some(value: T)

  datatype Result<+T, +E> = Ok(value: T) | Err(error: E)

  /** What a check or an instruction answers; usable with `:-`. */
  datatype Outcome<+E> = Pass | Fail(error: E) {
    predicate IsFailure() { Fail? }
    function PropagateFailure(): Outcome<E> { this }
  }

  function Require<E>(condition: bool, error: E): Outcome<E> {
    if condition then Pass else Fail(error)
  }

  /** Thirty-two bytes: a public key or a digest. */
  type Bytes32 = b: seq<u8> | |b| == 32 witness seq(32, _ => 0)

  datatype Pubkey = Pubkey(raw: Bytes32)

  function CheckedAdd64(a: u64, b: u64): Option<u64> {
    if a + b <= U64_MAX then Some(a + b) else None
  }

  function CheckedSub64(a: u64, b: u64): Option<u64> {
    if b <= a then Some(a - b) else None
  }

  function SaturatingSub64(a: u64, b: u64): u64 {
    if b <= a then a - b else 0
  }

  function CheckedMul128(a: u128, b: u128): Option<u128> {
    if a * b <= U128_MAX then Some(a * b) else None
  }
}
