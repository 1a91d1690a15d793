/** Signed minor-unit amounts with 64-bit overflow guards. */
module Money {
  import opened Prelude

  /** A currency code; the zero value of the source's type is the empty code. */
  type Currency = string

  predicate ValidCurrency(c: Currency) {
    |c| == 3 && forall i :: 0 <= i < 3 ==> 'A' <= c[i] <= 'Z'
  }

  datatype MoneyError = InvalidCurrency | CurrencyMismatch | AmountOverflow

  datatype Money = Money(minor: Int64, currency: Currency)

  function NewMoney(minor: Int64, currency: Currency): Result<Money, MoneyError> {
    if !ValidCurrency(currency) then Err(InvalidCurrency) else Ok(Money(minor, currency))
  }

  /** The guard never leaves the 64-bit range itself, and it fires exactly when the sum would. */
  function AdditionOverflows(left: Int64, right: Int64): (overflows: bool)
    ensures overflows <==> !IsInt64(left + right)
  {
    if right > 0 then
      var room: Int64 := MAX_INT64 - right;
      left > room
    else if right < 0 then
      var room: Int64 := MIN_INT64 - right;
      left < room
    else
      false
  }

  function SubtractionOverflows(left: Int64, right: Int64): (overflows: bool)
    ensures overflows <==> !IsInt64(left - right)
  {
    if right > 0 then
      var room: Int64 := MIN_INT64 + right;
      left < room
    else if right < 0 then
      var room: Int64 := MAX_INT64 + right;
      left > room
    else
      false
  }

  function ValidateOperation(left: Money, right: Money): Option<MoneyError> {
    if !ValidCurrency(left.currency) || !ValidCurrency(right.currency) then Some(InvalidCurrency)
    else if left.currency != right.currency then Some(CurrencyMismatch)
    else None
  }

  function Add(left: Money, right: Money): (r: Result<Money, MoneyError>)
    ensures r.Ok? <==>
              ValidCurrency(left.currency) && left.currency == right.currency && IsInt64(left.minor + right.minor)
    ensures r.Ok? ==> r.value.minor == left.minor + right.minor && r.value.currency == left.currency
  {
    match ValidateOperation(left, right)
    case Some(e) => Err(e)
    case None =>
      if AdditionOverflows(left.minor, right.minor) then Err(AmountOverflow)
      else NewMoney(left.minor + right.minor, left.currency)
  }

  function Subtract(left: Money, right: Money): (r: Result<Money, MoneyError>)
    ensures r.Ok? <==>
              ValidCurrency(left.currency) && left.currency == right.currency && IsInt64(left.minor - right.minor)
    ensures r.Ok? ==> r.value.minor == left.minor - right.minor && r.value.currency == left.currency
  {
    match ValidateOperation(left, right)
    case Some(e) => Err(e)
    case None =>
      if SubtractionOverflows(left.minor, right.minor) then Err(AmountOverflow)
      else NewMoney(left.minor - right.minor, left.currency)
  }

  function Negate(m: Money): (r: Result<Money, MoneyError>)
    ensures r.Ok? <==> ValidCurrency(m.currency) && m.minor != MIN_INT64
    ensures r.Ok? ==> r.value.minor + m.minor == 0 && r.value.currency == m.currency
  {
    if !ValidCurrency(m.currency) then Err(InvalidCurrency)
    else if m.minor == MIN_INT64 then Err(AmountOverflow)
    else NewMoney(-m.minor, m.currency)
  }

  /** The ledger repository's own checked addition; the same guard over bare balances. */
  function CheckedAdd(left: Int64, right: Int64): (r: Result<Int64, MoneyError>)
    ensures r.Ok? <==> IsInt64(left + right)
    ensures r.Ok? ==> r.value == left + right
  {
    if AdditionOverflows(left, right) then Err(AmountOverflow) else Ok(left + right)
  }

  /** A successful addition is undone by subtraction, whatever the signs and however near the limits. */
  lemma SubtractUndoesAdd(left: Money, right: Money)
    requires Add(left, right).Ok?
    ensures Subtract(Add(left, right).value, right) == Ok(left)
  {
    var sum := Add(left, right).value;
    assert sum.minor - right.minor == left.minor;
  }
}
