/**
 * The exceptions the core raises: Python's built-in ones it relies on, the
 * database driver's integrity error, and the application's own hierarchy
 * rooted at AppError (error_handling/error_handler.py).
 */
module Errors {

  datatype Error =
    | ValueError(msg: string)
    | TypeError(msg: string)
    | AttributeError(msg: string)
    | KeyError(key: string)
    /** The store refused a statement (a foreign key violation). */
    | IntegrityError(msg: string)
    | AppError(msg: string)
    | DatabaseConnectionError(msg: string)
    | ValidationError(msg: string)
    | ConfigurationError(msg: string)
    | DataNotFoundError(msg: string)
    | TransactionError(msg: string)

  /** The exception classes an `except` clause or an isinstance test can name. */
  datatype ErrorClass =
    | ExceptionClass
    | ValueErrorClass
    | TypeErrorClass
    | AttributeErrorClass
    | LookupErrorClass
    | KeyErrorClass
    | DriverErrorClass
    | IntegrityErrorClass
    | AppErrorClass
    | DatabaseConnectionErrorClass
    | ValidationErrorClass
    | ConfigurationErrorClass
    | DataNotFoundErrorClass
    | TransactionErrorClass

  /** type(e) */
  function ClassOf(e: Error): ErrorClass {
    match e
    case ValueError(_) => ValueErrorClass
    case TypeError(_) => TypeErrorClass
    case AttributeError(_) => AttributeErrorClass
    case KeyError(_) => KeyErrorClass
    case IntegrityError(_) => IntegrityErrorClass
    case AppError(_) => AppErrorClass
    case DatabaseConnectionError(_) => DatabaseConnectionErrorClass
    case ValidationError(_) => ValidationErrorClass
    case ConfigurationError(_) => ConfigurationErrorClass
    case DataNotFoundError(_) => DataNotFoundErrorClass
    case TransactionError(_) => TransactionErrorClass
  }

  /** The class itself and every class it inherits from. */
  function Ancestors(c: ErrorClass): set<ErrorClass> {
    match c
    case ExceptionClass => {ExceptionClass}
    case ValueErrorClass => {ValueErrorClass, ExceptionClass}
    case TypeErrorClass => {TypeErrorClass, ExceptionClass}
    case AttributeErrorClass => {AttributeErrorClass, ExceptionClass}
    case LookupErrorClass => {LookupErrorClass, ExceptionClass}
    case KeyErrorClass => {KeyErrorClass, LookupErrorClass, ExceptionClass}
    case DriverErrorClass => {DriverErrorClass, ExceptionClass}
    case IntegrityErrorClass => {IntegrityErrorClass, DriverErrorClass, ExceptionClass}
    case AppErrorClass => {AppErrorClass, ExceptionClass}
    case _ => {c, AppErrorClass, ExceptionClass}
  }

  /** isinstance(e, c) */
  predicate IsInstance(e: Error, c: ErrorClass) {
    c in Ancestors(ClassOf(e))
  }

  /** str(e); a KeyError prints its key quoted. */
  function Message(e: Error): string {
    match e
    case KeyError(key) => "'" + key + "'"
    case ValueError(m) => m
    case TypeError(m) => m
    case AttributeError(m) => m
    case IntegrityError(m) => m
    case AppError(m) => m
    case DatabaseConnectionError(m) => m
    case ValidationError(m) => m
    case ConfigurationError(m) => m
    case DataNotFoundError(m) => m
    case TransactionError(m) => m
  }

  /** Every error is an Exception; the application's own errors are exactly the AppErrors. */
  lemma HierarchyFacts(e: Error)
    ensures IsInstance(e, ExceptionClass)
    ensures IsInstance(e, AppErrorClass) <==>
      (e.AppError? || e.DatabaseConnectionError? || e.ValidationError? || e.ConfigurationError?
       || e.DataNotFoundError? || e.TransactionError?)
    ensures IsInstance(e, ClassOf(e))
  {
  }
}
