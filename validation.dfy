/** The error taxonomy of the value layer and the argument check that every
    keyed operation runs before it touches storage. */
module Validation {
  import opened Values

  /** Each `TypeError` the value layer throws. */
  datatype Error =
    | NoKey
    | AmountNotNumber
    | InfiniteData
    | NoValue
    | StoredNotNumber
    | InvalidOperator
    | NoElement
    | StoredNotArray
    | FilterNotFunction

  /** The text each error is thrown with. */
  function Message(e: Error): string {
    match e
    case NoKey => "No Key Specified"
    case AmountNotNumber => "Amount Must Be A Number"
    case InfiniteData => "Data Cannot Be Infinity"
    case NoValue => "No Value Specified"
    case StoredNotNumber => "Stored Value Must Be A Number"
    case InvalidOperator => "Invalid Operator"
    case NoElement => "No Element Specified"
    case StoredNotArray => "Stored Value Must Be An Array"
    case FilterNotFunction => "Filter Must Be A Function"
  }

  /** No two errors share a message, so a caller can tell them apart by text. */
  lemma MessagesDistinct(e1: Error, e2: Error)
    ensures Message(e1) == Message(e2) ==> e1 == e2
  {
  }

  /** A call that either returns a value or throws one of the errors above. */
  datatype Result<+T> = Ok(value: T) | Err(error: Error)

  datatype Outcome = Pass | Fail(error: Error)

  /** `_validate(key, data, type)`. `key` is None when the caller omitted it
      (only a supplied, falsy key is refused; for strings that is the empty
      string), `expectNumber` stands for `type === 'number'`. The three checks
      run in this order and the first that fails decides the error. */
  function Validate(key: Option<string>, data: Arg, expectNumber: bool): (r: Outcome)
    ensures key == Some("") ==> r == Fail(NoKey)
    ensures key != Some("") && expectNumber && !IsNumber(data) ==> r == Fail(AmountNotNumber)
    ensures key != Some("") && (expectNumber ==> IsNumber(data)) && data.Infinity? ==> r == Fail(InfiniteData)
    ensures r.Pass? <==> key != Some("") && (expectNumber ==> IsNumber(data)) && !data.Infinity?
  {
    if key.Some? && key.value == "" then Fail(NoKey)
    else if expectNumber && !IsNumber(data) then Fail(AmountNotNumber)
    else if data == Infinity then Fail(InfiniteData)
    else Pass
  }

  /** What a passing numeric check leaves: a finite JSON number. */
  lemma PassedAmountIsFinite(key: Option<string>, data: Arg)
    requires Validate(key, data, true).Pass?
    ensures data.Given? && data.value.Num?
  {
  }

  /** An omitted key is never refused; only a supplied empty one is. */
  lemma OmittedKeyPasses(data: Arg, expectNumber: bool)
    ensures Validate(None, data, expectNumber) != Fail(NoKey)
    ensures forall k: string :: Validate(Some(k), data, expectNumber) == Fail(NoKey) <==> k == ""
  {
  }
}
