/** The exceptions the analysis functions raise, and a result type that carries either a value or one of them. */
module Results {

  /** The Python exceptions that the modelled functions can raise. */
  datatype Error =
    | ValueError(message: string)   // raised explicitly by the code
    | ZeroDivisionError              // `/` or `/=` with a zero divisor
    | IndexError                     // indexing past the end of a list

  /** The value a call returns, or the exception it raises instead. */
  datatype Result<T> = Ok(value: T) | Err(error: Error)
}
