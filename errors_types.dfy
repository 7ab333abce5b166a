/** The application's error taxonomy: error codes, their HTTP status,
    severity and category, the textual form of an application error, and
    the two in-place builders that attach metadata and field errors.
    An error code is a string, so codes outside the declared set exist and
    take the default branch of every table. */
module ErrorTypes {
  import opened Common

  // Authentication and authorization
  const Unauthorized := "UNAUTHORIZED"
  const Forbidden := "FORBIDDEN"
  const InvalidCredentials := "INVALID_CREDENTIALS"
  const TokenExpired := "TOKEN_EXPIRED"
  const TokenInvalid := "TOKEN_INVALID"
  // Validation
  const ValidationFailed := "VALIDATION_FAILED"
  const InvalidInput := "INVALID_INPUT"
  const MissingField := "MISSING_FIELD"
  const InvalidFormat := "INVALID_FORMAT"
  // Resources
  const NotFound := "NOT_FOUND"
  const AlreadyExists := "ALREADY_EXISTS"
  const Conflict := "CONFLICT"
  // Database
  const DatabaseError := "DATABASE_ERROR"
  const ConnectionFailed := "CONNECTION_FAILED"
  const TransactionFailed := "TRANSACTION_FAILED"
  const ConstraintViolation := "CONSTRAINT_VIOLATION"
  // External services
  const ExternalService := "EXTERNAL_SERVICE_ERROR"
  const ServiceUnavailable := "SERVICE_UNAVAILABLE"
  const Timeout := "TIMEOUT"
  // Business logic
  const BusinessLogic := "BUSINESS_LOGIC_ERROR"
  const InsufficientData := "INSUFFICIENT_DATA"
  const InvalidOperation := "INVALID_OPERATION"
  // System
  const InternalServer := "INTERNAL_SERVER_ERROR"
  const FileSystem := "FILE_SYSTEM_ERROR"
  const MemoryLimit := "MEMORY_LIMIT_EXCEEDED"
  const RateLimited := "RATE_LIMITED"

  /** Every code the application declares. */
  const DeclaredCodes: set<string> := {
    Unauthorized, Forbidden, InvalidCredentials, TokenExpired, TokenInvalid,
    ValidationFailed, InvalidInput, MissingField, InvalidFormat,
    NotFound, AlreadyExists, Conflict,
    DatabaseError, ConnectionFailed, TransactionFailed, ConstraintViolation,
    ExternalService, ServiceUnavailable, Timeout,
    BusinessLogic, InsufficientData, InvalidOperation,
    InternalServer, FileSystem, MemoryLimit, RateLimited }

  const AuthStatusCodes: set<string> := {Unauthorized, InvalidCredentials, TokenExpired, TokenInvalid}
  const ValidationCodes: set<string> := {ValidationFailed, InvalidInput, MissingField, InvalidFormat}

  /** Codes with a category other than SERVER. */
  const CategorisedCodes: set<string> := ValidationCodes + AuthStatusCodes + {Forbidden}
    + {DatabaseError, ConnectionFailed, TransactionFailed, ConstraintViolation}
    + {ExternalService, ServiceUnavailable, Timeout}
    + {BusinessLogic, InsufficientData, InvalidOperation}
    + {NotFound, AlreadyExists, Conflict, RateLimited}

  const SeverityLow := "LOW"
  const SeverityMedium := "MEDIUM"
  const SeverityHigh := "HIGH"
  const SeverityCritical := "CRITICAL"

  const CategoryClient := "CLIENT"
  const CategoryServer := "SERVER"
  const CategoryDatabase := "DATABASE"
  const CategoryExternal := "EXTERNAL"
  const CategoryValidation := "VALIDATION"
  const CategoryAuth := "AUTH"
  const CategoryBusiness := "BUSINESS"

  /** HTTP status of an error code; codes in no listed group are 500. */
  function GetHTTPStatus(code: string): (status: int)
    ensures status in {400, 401, 403, 404, 408, 409, 429, 500, 503}
    ensures code !in DeclaredCodes ==> status == 500
  {
    if code in AuthStatusCodes then 401
    else if code == Forbidden then 403
    else if code in ValidationCodes then 400
    else if code == NotFound then 404
    else if code in {AlreadyExists, Conflict} then 409
    else if code == ServiceUnavailable then 503
    else if code == Timeout then 408
    else if code == RateLimited then 429
    else 500
  }

  /** Severity of an error code; unlisted codes are MEDIUM. */
  function GetSeverity(code: string): (severity: string)
    ensures severity in {SeverityLow, SeverityMedium, SeverityHigh, SeverityCritical}
    ensures code !in DeclaredCodes ==> severity == SeverityMedium
  {
    if code in ValidationCodes + {NotFound, Unauthorized, Forbidden} then SeverityLow
    else if code in {AlreadyExists, Conflict, InvalidCredentials, TokenExpired} then SeverityMedium
    else if code in {DatabaseError, ConnectionFailed, ExternalService, Timeout} then SeverityHigh
    else if code in {InternalServer, TransactionFailed, MemoryLimit, ConstraintViolation} then SeverityCritical
    else SeverityMedium
  }

  /** Monitoring category of an error code; unlisted codes are SERVER. */
  function GetCategory(code: string): (category: string)
    ensures category in {CategoryValidation, CategoryAuth, CategoryDatabase, CategoryExternal,
                         CategoryBusiness, CategoryClient, CategoryServer}
    ensures code !in DeclaredCodes ==> category == CategoryServer
  {
    if code in ValidationCodes then CategoryValidation
    else if code in AuthStatusCodes + {Forbidden} then CategoryAuth
    else if code in {DatabaseError, ConnectionFailed, TransactionFailed, ConstraintViolation} then CategoryDatabase
    else if code in {ExternalService, ServiceUnavailable, Timeout} then CategoryExternal
    else if code in {BusinessLogic, InsufficientData, InvalidOperation} then CategoryBusiness
    else if code in {NotFound, AlreadyExists, Conflict, RateLimited} then CategoryClient
    else CategoryServer
  }

  /** Each HTTP status is produced by exactly the listed group of codes, and
      every other code, declared or not, gives 500. */
  lemma HTTPStatusPreimages(code: string)
    ensures GetHTTPStatus(code) == 401 <==> code in AuthStatusCodes
    ensures GetHTTPStatus(code) == 403 <==> code == Forbidden
    ensures GetHTTPStatus(code) == 400 <==> code in ValidationCodes
    ensures GetHTTPStatus(code) == 404 <==> code == NotFound
    ensures GetHTTPStatus(code) == 409 <==> code in {AlreadyExists, Conflict}
    ensures GetHTTPStatus(code) == 503 <==> code == ServiceUnavailable
    ensures GetHTTPStatus(code) == 408 <==> code == Timeout
    ensures GetHTTPStatus(code) == 429 <==> code == RateLimited
    ensures GetHTTPStatus(code) in {400, 401, 403, 404, 408, 409, 429, 500, 503}
  {
  }

  /** Each severity but MEDIUM is produced by exactly the listed group of
      codes; MEDIUM is the default. */
  lemma SeverityPreimages(code: string)
    ensures GetSeverity(code) == SeverityLow <==> code in ValidationCodes + {NotFound, Unauthorized, Forbidden}
    ensures GetSeverity(code) == SeverityHigh <==> code in {DatabaseError, ConnectionFailed, ExternalService, Timeout}
    ensures GetSeverity(code) == SeverityCritical <==> code in {InternalServer, TransactionFailed, MemoryLimit, ConstraintViolation}
    ensures GetSeverity(code) in {SeverityLow, SeverityMedium, SeverityHigh, SeverityCritical}
  {
  }

  /** The VALIDATION, AUTH, DATABASE and EXTERNAL categories are produced
      by exactly their listed codes. */
  lemma CategoryPreimages(code: string)
    ensures GetCategory(code) == CategoryValidation <==> code in ValidationCodes
    ensures GetCategory(code) == CategoryAuth <==> code in AuthStatusCodes + {Forbidden}
    ensures GetCategory(code) == CategoryDatabase <==> code in {DatabaseError, ConnectionFailed, TransactionFailed, ConstraintViolation}
    ensures GetCategory(code) == CategoryExternal <==> code in {ExternalService, ServiceUnavailable, Timeout}
  {
  }

  /** BUSINESS and CLIENT are produced by exactly their listed codes. */
  lemma CategoryBusinessClient(code: string)
    ensures GetCategory(code) == CategoryBusiness <==> code in {BusinessLogic, InsufficientData, InvalidOperation}
    ensures GetCategory(code) == CategoryClient <==> code in {NotFound, AlreadyExists, Conflict, RateLimited}
  {
  }

  /** SERVER is the category of exactly the codes outside every listed group. */
  lemma CategoryServerDefault(code: string)
    ensures GetCategory(code) == CategoryServer <==> code !in CategorisedCodes
  {
  }

  /** The three tables agree: every code of the validation category is a
      400 of low severity, every authentication code is a 401 or a 403, and
      a code outside the declared set is a 500 of medium severity in the
      server category. */
  lemma TablesAgree(code: string)
    ensures GetCategory(code) == CategoryValidation ==> GetHTTPStatus(code) == 400 && GetSeverity(code) == SeverityLow
    ensures GetCategory(code) == CategoryAuth ==> GetHTTPStatus(code) in {401, 403}
    ensures GetCategory(code) == CategoryDatabase ==> GetHTTPStatus(code) == 500 && GetSeverity(code) in {SeverityHigh, SeverityCritical}
    ensures code !in DeclaredCodes ==>
      GetHTTPStatus(code) == 500 && GetSeverity(code) == SeverityMedium && GetCategory(code) == CategoryServer
  {
  }

  /** The text of an application error: "CODE: message", followed by
      " - details" only when details are present. */
  function FormatError(code: string, message: string, details: string): (r: string)
    ensures HasPrefix(r, code + ": " + message)
    ensures details == "" <==> r == code + ": " + message
    ensures details != "" ==> HasSuffix(r, " - " + details)
    ensures details != "" ==> |r| == |code| + 2 + |message| + 3 + |details|
  {
    if details != "" then code + ": " + message + " - " + details
    else code + ": " + message
  }

  /** A structured application error; WithMetadata updates it in place.
      Metadata values are kept in their textual form. */
  class AppError {
    var code: string
    var message: string
    var details: string
    var metadata: Option<map<string, string>>

    constructor (code: string, message: string)
      ensures this.code == code && this.message == message
      ensures details == "" && metadata == None
    {
      this.code := code;
      this.message := message;
      this.details := "";
      this.metadata := None;
    }

    function Error(): (r: string)
      reads this
      ensures HasPrefix(r, code + ": " + message)
      ensures details != "" <==> r != code + ": " + message
    {
      FormatError(code, message, details)
    }

    /** Creates the metadata map when it is missing and sets only `key`. */
    method WithMetadata(key: string, value: string) returns (self: AppError)
      modifies this`metadata
      ensures self == this
      ensures metadata.Some? && key in metadata.value && metadata.value[key] == value
      ensures forall k :: k != key ==>
        (k in metadata.value <==> old(metadata).Some? && k in old(metadata).value)
      ensures forall k :: k != key && k in metadata.value ==> metadata.value[k] == old(metadata).value[k]
    {
      var m := if metadata.None? then map[] else metadata.value;
      metadata := Some(m[key := value]);
      self := this;
    }
  }

  /** An application error with per-field messages. */
  class ValidationError {
    const base: AppError
    var fields: Option<map<string, string>>

    constructor (base: AppError)
      ensures this.base == base && fields == None
    {
      this.base := base;
      this.fields := None;
    }

    /** Creates the field map when it is missing and sets field to message. */
    method AddFieldError(field: string, message: string)
      modifies this`fields
      ensures fields.Some? && field in fields.value && fields.value[field] == message
      ensures forall f :: f != field ==>
        (f in fields.value <==> old(fields).Some? && f in old(fields).value)
      ensures forall f :: f != field && f in fields.value ==> fields.value[f] == old(fields).value[f]
    {
      var m := if fields.None? then map[] else fields.value;
      fields := Some(m[field := message]);
    }
  }
}
