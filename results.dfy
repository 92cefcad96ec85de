/** Outcomes of the pipeline stages: a value or the kind of error that aborts the whole call. */
module Results {

  /** Every way the calculator can fail. `InvalidLiteral` stands for the error the number
      parsing library raises on a token with no digit, such as "." or "-.". */
  datatype Error =
    | EmptyExpression
    | InvalidCharacter(c: char)
    | MalformedNumber
    | DanglingUnarySign
    | MisplacedOperator
    | MisplacedCloseParen
    | UnbalancedParens
    | IncompleteExpression
    | MissingOperands
    | InvalidExpression
    | DivisionByZero
    | InvalidLiteral(token: string)

  datatype Result<+T> = Ok(value: T) | Err(error: Error)

  datatype Option<+T> = None | Some(value: T)
}
