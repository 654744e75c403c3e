/** Types shared by the repositories: optional values, results and the errors of the store. */
module Common {

  type Id = nat

  datatype Option<+T> = None | Some(value: T)

  datatype Error =
    | NotFound
    | BadRequest
    | InvalidAccountShape
    | InvalidTransactionShape
    | TransferCurrencyMismatch
    | TrackingNotEnabled
    | TrackingAlreadyEnabled
    | DirectBalancePatchForbidden
    | InstallmentManaged
    | LoanPaymentManaged
    | SavingsManaged
    | YieldManaged
    | RequiresCreditAccount
    | PurchaseHasPaidInstallments
    | LegacyBalanceChange
    | LoanInvalid
    | IdempotencyConflict
    | InsufficientUnallocatedSavings
    | InsufficientGoalAllocation
    | YieldDateBeforeMovements
    | YieldNotLatest

  datatype Result<+T> = Ok(value: T) | Err(error: Error) {
    predicate IsFailure() {
      Err?
    }

    function PropagateFailure<U>(): Result<U>
      requires Err?
    {
      Err(error)
    }

    function Extract(): T
      requires Ok?
    {
      value
    }
  }

  /** The value a request leaves behind: the new one on success, the old one after a rollback. */
  function Committed<T>(before: T, result: Result<T>): T {
    if result.Ok? then result.value else before
  }

  /** What a request answers: a value of its own, or the error of the state change. */
  function Answer<S, T>(change: Result<S>, value: T): Result<T> {
    if change.Ok? then Ok(value) else Err(change.error)
  }

  predicate IsDigit(c: char) {
    '0' <= c <= '9'
  }

  predicate AllDigits(text: string) {
    forall k :: 0 <= k < |text| ==> IsDigit(text[k])
  }

  function Digit(n: nat): (c: char)
    requires n < 10
    ensures IsDigit(c) && (c - '0') as nat == n
  {
    '0' + n as char
  }

  /** A number as text, without leading zeros. */
  function Number(n: nat): (text: string)
    ensures |text| >= 1 && AllDigits(text)
  {
    if n < 10 then [Digit(n)] else Number(n / 10) + [Digit(n % 10)]
  }

  function Decimal(n: int): string {
    if n < 0 then "-" + Number(-n) else Number(n)
  }

  predicate IsSpace(c: char) {
    c == ' ' || '\t' <= c <= '\r'
  }

  predicate IsBlank(text: string) {
    forall c <- text :: IsSpace(c)
  }

  /** The text without leading and trailing white space. */
  function Trim(text: string): string {
    if text != [] && IsSpace(text[0]) then Trim(text[1..])
    else if text != [] && IsSpace(text[|text| - 1]) then Trim(text[..|text| - 1])
    else text
  }
}
