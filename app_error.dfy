/** The application error record (apps/api/src/utils/app-error.ts) and the outcome of a service call. */
module AppErrors {
  import opened Common

  /** The fixed `name` every application error carries. */
  const ErrorName: string := "AuthSaaS-Error"

  datatype AppError = AppError(name: string, statusCode: int, message: string)

  /** The body `toJSON` produces: exactly these three fields. */
  datatype ErrorJson = ErrorJson(name: string, statusCode: int, message: string)

  /** `new AppError(statusCode, { message, details })`: the details some callers pass are not kept. */
  function NewAppError(statusCode: int, message: string, details: Option<string>): (e: AppError)
    ensures e.name == ErrorName
    ensures e.statusCode == statusCode && e.message == message
  {
    AppError(ErrorName, statusCode, message)
  }

  function ToJson(e: AppError): (j: ErrorJson)
    ensures j.name == e.name && j.statusCode == e.statusCode && j.message == e.message
  {
    ErrorJson(e.name, e.statusCode, e.message)
  }

  /** Two errors built with the same status and message serialise identically, whatever details were passed. */
  lemma DetailsAreDropped(statusCode: int, message: string, d1: Option<string>, d2: Option<string>)
    ensures ToJson(NewAppError(statusCode, message, d1)) == ToJson(NewAppError(statusCode, message, d2))
    ensures ToJson(NewAppError(statusCode, message, d1)) == ErrorJson(ErrorName, statusCode, message)
  {
  }

  /** Exceptions that are not application errors: they abort the request and roll back the open transaction. */
  datatype Fault =
    | RecordNotFound       // Prisma `update` whose `where` matches no row
    | UniqueViolation      // Prisma `create` that breaks a unique constraint
    | UndefinedProperty    // reading a property of `undefined` (a TypeError)
    | NotAnInteger         // Redis INCR on a value that is not an integer
    | InvalidExpireTime    // Redis SET ... EX with a time that is not positive
    | UriMalformed         // `decodeURIComponent` on a malformed escape
    | DeliveryFailed       // the verification email could not be sent
    | TokenLibraryError    // an error from the token library other than the four it maps to 401

  /** How a service call ends: a value, a thrown application error, or another exception. */
  datatype Outcome<+T> = Ok(value: T) | Thrown(error: AppError) | Crashed(fault: Fault)
  {
    /** The same failure, as the outcome of the calling service. */
    function Propagate<U>(): (r: Outcome<U>)
      requires !Ok?
      ensures Thrown? ==> r == Thrown(error)
      ensures Crashed? ==> r == Crashed(fault)
    {
      if Thrown? then Thrown(error) else Crashed(fault)
    }
  }
}
