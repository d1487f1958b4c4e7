/** How a run of the variant script can stop early. */
module Errors {

  /** `IndexError` is Python's exception for a missing tab field, an empty
      token list, or fewer offset pairs than tokens; `StrategyDoesNotExist`
      is the `sys.exit` taken when an artifact token meets a strategy other
      than "del" or "mask". */
  datatype Error = IndexError | StrategyDoesNotExist(strategy: string)

  datatype Result<T> = Ok(value: T) | Err(error: Error)
}
