/** The Java throwables that reach the entity definer's catch blocks. */
module Exceptions {

  /** Which of the three catch clauses of EntityDefiner.run handles a throwable. */
  datatype ThrowableKind = Unchecked | Checked | JvmError

  datatype Exception =
    | IllegalArgument(message: string)
    | UnsupportedOperation(message: string)
      /** ManagedType.getAttribute(name) when the type has no attribute of that name. */
    | MissingAttribute(managedType: string, attributeName: string)
      /** ManagedType.getAttribute(null), when the batch recorded no key for the type's class. */
    | NoAttributeName(managedType: string)
      /** Anything raised by the persistence service, described only by its kind. */
    | ServiceFailure(kind: ThrowableKind, description: string)

  function KindOf(e: Exception): ThrowableKind {
    match e
    case IllegalArgument(_) => Unchecked
    case UnsupportedOperation(_) => Unchecked
    case MissingAttribute(_, _) => Unchecked
    case NoAttributeName(_) => Unchecked
    case ServiceFailure(k, _) => k
  }

  /**
   * What run() throws after it has failed the batch: RuntimeException and
   * Error are rethrown as they are, any other Exception is wrapped in a new
   * RuntimeException.
   */
  datatype Thrown = Thrown(cause: Exception, wrappedInRuntimeException: bool)

  function Propagated(e: Exception): (t: Thrown)
    ensures t.cause == e
    ensures t.wrappedInRuntimeException <==> KindOf(e) == Checked
  {
    match KindOf(e)
    case Checked => Thrown(e, true)
    case _ => Thrown(e, false)
  }
}
