/** The ways a quality-measure call can fail, and the result type that carries them. */
module Outcomes {

  /** Every failure the modelled code raises. The measure API raises ValueError for the
      first four; `old_doubly_center_matrix` refuses a non-square matrix through an
      AssertionError instead. NotFitted is the AttributeError of reading an attribute
      fit never set. */
  datatype Error =
    | MissingArgument   // a required argument was None
    | NotSquare         // a distance matrix (or a matrix to double-centre) is not square
    | ShapeMismatch     // two matrices that are subtracted have different shapes
    | ZeroDenominator   // the strain denominator is zero
    | NotFitted         // transform called before fit

  datatype Result<+T> = Ok(value: T) | Err(error: Error)

  /** A keyword argument that defaults to None. */
  datatype Option<+T> = None | Some(value: T)
}
