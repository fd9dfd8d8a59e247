/** Failure results for the C++ exceptions the core can raise. */
module Outcomes {

  /** The exceptions of the source, as values. */
  datatype Failure =
    /** std::out_of_range, thrown by string_view::at, vector::at and map::at */
    | OutOfRange
    /** std::runtime_error carrying its what() text */
    | RuntimeError(what: string)
    /** std::bad_variant_access, thrown by std::get on the wrong alternative */
    | BadVariantAccess

  /** Either a value or the exception that replaced it. */
  datatype Result<+T> = Ok(value: T) | Err(error: Failure)
}
