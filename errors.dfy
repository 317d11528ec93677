/** Status codes and the option/result wrappers shared by every module. */
module Errors {

  /** The library's status codes (the `PST_...` enumeration of param_set.h). */
  datatype Status =
    | Ok
    | InvalidArgument
    | InvalidFormat
    | IndexOverflow
    | ParameterNotFound
    | ParameterValueNotFound
    | ParameterEmpty
    | ParameterIsTypo
    | ParameterIsUnknown
    | UnimplementedObject
    | UnimplementedWildcard
    | OutOfMemory
    | IoError
    | PriorityNegative
    | PriorityTooLarge
    | ParameterInvalidFormat
    | TaskZeroConsistentTasks
    | TaskMultipleConsistentTasks
    | TaskSetHasNoDefinitions
    | TaskSetNotAnalyzed
    | TaskUnableToAnalyzeParamSetChanged
    | WildcardError
    | UndefinedBehaviour
    | ParseOptionInvalidCombination
    | ConvertNotPerformed
    | AliasNotSpecified
    | UnknownError

  /** A status that reports a failure. */
  type Error = s: Status | s != Ok witness InvalidArgument

  /** A C pointer that may be NULL. */
  datatype Option<T> = None | Some(value: T)

  /** Either a value or the status code that replaced it. */
  datatype Result<T> = Success(value: T) | Failure(error: Status)
}
