/**
  Optional values and the two kinds of failure the services raise:
  `ResourceNotFoundException` (a referenced row is missing) and
  `BusinessException` (a business rule refuses the request). Every
  operation of the model returns a `Result` instead of throwing; a
  failed call carries no state, which is how the model expresses that
  the transaction rolled back and nothing was saved.
 */
module Results {

  /** A nullable value: `None` stands for Java's `null`. */
  datatype Option<+T> = None | Some(value: T) {

    /** The value, or `default` when null (`x != null ? x : default`). */
    function GetOr(default: T): T {
      match this
      case Some(v) => v
      case None => default
    }
  }

  /** Which lookup failed. */
  datatype Missing = MissingProduit | MissingFournisseur | MissingCommande

  /** Which business rule refused the request. */
  datatype Rule =
    | InsufficientStock        // a SORTIE would make the stock negative
    | NegativeAdjustment       // an AJUSTEMENT to a negative quantity
    | NoOrderLines             // an order without lines
    | NegativeResultingStock   // a direct stock variation below zero
    | NegativeAverageCost      // a null or negative weighted average cost
    | NegativeUnitPrice        // a product with a negative list price
    | NegativeCurrentStock     // a product with a negative stock
    | IceAlreadyUsed           // a supplier ICE held by another supplier

  datatype Error = NotFound(missing: Missing) | Business(rule: Rule)

  /** The value of a call that returns, or the exception it throws. */
  datatype Result<+T> = Ok(value: T) | Err(error: Error) {

    predicate IsFailure() {
      Err?
    }

    function PropagateFailure<U>(): Result<U>
      requires Err?
    {
      Err(error)
    }

    function Extract(): T
      requires Ok?
    {
      value
    }
  }

  /** The outcome of a `void` check that may throw. */
  datatype Outcome = Pass | Fail(error: Error) {

    predicate IsFailure() {
      Fail?
    }

    function PropagateFailure<U>(): Result<U>
      requires Fail?
    {
      Err(error)
    }
  }
}
