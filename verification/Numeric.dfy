/** Exact integer values of the domain crate: `Price`, `Quantity` and `Amount` over `i128`. */
module Numeric {
  import opened Wrappers

  const U32_MAX: int := 0xFFFF_FFFF
  const U64_MAX: int := 0xFFFF_FFFF_FFFF_FFFF
  const I128_MAX: int := 0x7FFF_FFFF_FFFF_FFFF_FFFF_FFFF_FFFF_FFFF
  const I128_MIN: int := -0x8000_0000_0000_0000_0000_0000_0000_0000

  type Sequence = x: int | 0 <= x <= U64_MAX

  /** A strictly positive, market-scaled price. */
  type Price = x: int | 0 < x <= I128_MAX witness 1

  /** A non-negative quantity; zero is the filled state. */
  type Quantity = x: int | 0 <= x <= I128_MAX

  /** A signed ledger amount. */
  type Amount = x: int | I128_MIN <= x <= I128_MAX

  datatype NumericError = NonPositivePrice | NonPositiveQuantity | NegativeQuantity | Overflow

  function NewPrice(value: Amount): Result<Price, NumericError> {
    if value > 0 then Ok(value) else Err(NonPositivePrice)
  }

  function NewQuantity(value: Amount): Result<Quantity, NumericError> {
    if value > 0 then Ok(value) else Err(NonPositiveQuantity)
  }

  function CheckedMul(price: Price, quantity: Quantity): Result<Amount, NumericError> {
    var product := price * quantity;
    if I128_MIN <= product <= I128_MAX then Ok(product) else Err(Overflow)
  }

  function CheckedAdd(left: Quantity, right: Quantity): Result<Quantity, NumericError> {
    if left + right <= I128_MAX then Ok(left + right) else Err(Overflow)
  }

  function CheckedSub(left: Quantity, right: Quantity): Result<Quantity, NumericError> {
    if left >= right then Ok(left - right) else Err(NegativeQuantity)
  }

  function Min(left: Quantity, right: Quantity): Quantity {
    if left <= right then left else right
  }
}
