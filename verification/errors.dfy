/** The failures a template transaction reports, one constructor per
    exception type of the source. */
module TransactionErrors {

  /** Why an operator made the execution fail. */
  datatype FailureCause<P> =
    | CallbackThrew        // one of the operator's callbacks threw
    | MissingData(pos: P)  // createDataForPos returned null for a position without data

  datatype TransactionError<P> =
    | Unsupported                                    // UnsupportedOperationException: already executed
    | OperatorExecutionFailed(cause: FailureCause<P>) // OperatorExecutionFailedException
    | ConcurrentExecution                            // ConcurrentTransactionExecutionException
    | ExecutionFailed                                // any other TransactionExecutionException
}
