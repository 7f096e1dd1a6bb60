/** Optional values, results, and the failures a pseudo component raises. */
module Outcomes {

  datatype Option<+T> = None | Some(value: T)

  /** A value, or the error the Python code would raise instead of returning. */
  datatype Result<+T, +E> = Ok(value: T) | Err(error: E)

  /** Failure of the unit transform: the two unit names cannot be converted. */
  datatype UnitError = IncompatibleUnits(fromUnits: string, toUnits: string)

  /** The accessor that refused an index argument. */
  datatype Accessor = GetAccess | SetAccess | WrappedAccess

  /** Every failure the pseudo component reports, one constructor per raise site. */
  datatype Error =
    | InvalidTarget                      // destination references more than one variable
    | NoTargetReference                  // destination references no variable: refs[0] fails
    | MissingKey(key: string)            // a dictionary lookup found no entry
    | NoSourceUnits                      // the unit probe of the source produced no unit
    | CannotConnect(srcText: string, destText: string, cause: UnitError)
    | IndexUnsupported(accessor: Accessor)
    | NoSuchAttribute(attr: string)      // getattr on a slot that was never created
    | SecondDerivativesUnsupported(node: string)
    | NotLinearized                      // provideJ before any linearize
    | EvaluationFailed(reason: string)   // raised by the expression evaluator
    | ConversionFailed(reason: string)   // raised by the unit library at run time

  /** The Python exception class behind each error. */
  datatype ExceptionClass =
    | RuntimeErrorClass | ValueErrorClass | TypeErrorClass | KeyErrorClass
    | IndexErrorClass | AttributeErrorClass | ForeignErrorClass

  function ClassOf(e: Error): ExceptionClass
  {
    match e
    case InvalidTarget => RuntimeErrorClass
    case NoTargetReference => IndexErrorClass
    case MissingKey(_) => KeyErrorClass
    case NoSourceUnits => AttributeErrorClass
    case CannotConnect(_, _, _) => TypeErrorClass
    case IndexUnsupported(a) => if a == SetAccess then ValueErrorClass else RuntimeErrorClass
    case NoSuchAttribute(_) => AttributeErrorClass
    case SecondDerivativesUnsupported(_) => RuntimeErrorClass
    case NotLinearized => AttributeErrorClass
    case EvaluationFailed(_) => ForeignErrorClass
    case ConversionFailed(_) => ForeignErrorClass
  }
}
