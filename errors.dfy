/**
 * The exception taxonomy of the grouped design: which class each error belongs to, the
 * message it carries and its details mapping.
 */
module Errors {
  import opened Wrappers
  import opened Text

  /** The exception classes, one constructor per class. */
  datatype ErrorClass =
    | RepopsError
    | ConfigError
    | RepositoryError
    | ValidationError
    | FileNotFoundError
    | InvalidConfigError
    | MissingRequiredFieldError
    | InvalidServerTypeError

  /** The direct base class of each class; the root has none. */
  function Parent(c: ErrorClass): Option<ErrorClass> {
    match c
    case RepopsError => None
    case ConfigError | RepositoryError | ValidationError | FileNotFoundError => Some(RepopsError)
    case InvalidConfigError => Some(ConfigError)
    case MissingRequiredFieldError | InvalidServerTypeError => Some(ValidationError)
  }

  /** Distance from the root of the hierarchy. */
  function Depth(c: ErrorClass): (d: nat)
  {
    match c
    case RepopsError => 0
    case ConfigError | RepositoryError | ValidationError | FileNotFoundError => 1
    case InvalidConfigError | MissingRequiredFieldError | InvalidServerTypeError => 2
  }

  /** `issubclass(c, a)`: `a` is `c` or one of its ancestors. */
  predicate IsA(c: ErrorClass, a: ErrorClass)
    decreases Depth(c)
  {
    c == a || (Parent(c).Some? && IsA(Parent(c).value, a))
  }

  /** A value in an error's details mapping. */
  datatype Detail = TextDetail(s: string) | ListDetail(items: seq<string>)

  /** A raised error: its class, `message` (also what `str(e)` shows) and `details`. */
  datatype Error = Error(cls: ErrorClass, message: string, details: map<string, Detail>)

  /** The base constructor: the message is kept as given and absent details become the empty mapping. */
  function NewError(cls: ErrorClass, message: string, details: Option<map<string, Detail>>): (e: Error)
    ensures e.cls == cls && e.message == message
    ensures details.None? ==> e.details == map[]
    ensures details.Some? ==> e.details == details.value
  {
    Error(cls, message, details.GetOr(map[]))
  }

  const MissingFieldPrefix: string := "Missing required field: "

  /** The error raised for a required field that is missing; `context` is appended only when non-empty. */
  function MissingRequiredField(field: string, context: string): (e: Error)
    ensures e.cls == MissingRequiredFieldError
    ensures StartsWith(e.message, MissingFieldPrefix + field)
    ensures e.message == MissingFieldPrefix + field <==> context == ""
    ensures context != "" ==> e.message[|MissingFieldPrefix + field|..] == " in " + context
    ensures e.details == map["field_name" := TextDetail(field), "context" := TextDetail(context)]
  {
    var message := MissingFieldPrefix + field + (if context != "" then " in " + context else "");
    NewError(MissingRequiredFieldError, message, Some(map["field_name" := TextDetail(field), "context" := TextDetail(context)]))
  }

  const InvalidServerPrefix: string := "Invalid server type: "
  const SupportedInfix: string := ". Supported types: "

  /** The error raised for an unknown server type, listing every supported value. */
  function InvalidServerType(serverType: string, supported: seq<string>): (e: Error)
    ensures e.cls == InvalidServerTypeError
    ensures StartsWith(e.message, InvalidServerPrefix + serverType + SupportedInfix)
    ensures e.message[|InvalidServerPrefix + serverType + SupportedInfix|..] == Join(supported, ", ")
    ensures e.details == map["server_type" := TextDetail(serverType), "supported_types" := ListDetail(supported)]
  {
    var message := InvalidServerPrefix + serverType + SupportedInfix + Join(supported, ", ");
    NewError(InvalidServerTypeError, message, Some(map["server_type" := TextDetail(serverType), "supported_types" := ListDetail(supported)]))
  }

  /** Every class of the taxonomy is a `RepopsError`. */
  lemma {:induction false} EveryErrorIsRepopsError(c: ErrorClass)
    ensures IsA(c, RepopsError)
    decreases Depth(c)
  {
    if c != RepopsError {
      EveryErrorIsRepopsError(Parent(c).value);
    }
  }

  /** The subclass relations the source declares, and the separations between the branches. */
  lemma Hierarchy()
    ensures IsA(InvalidConfigError, ConfigError)
    ensures IsA(MissingRequiredFieldError, ValidationError) && IsA(InvalidServerTypeError, ValidationError)
    ensures forall c :: Parent(c) == Some(RepopsError) <==>
      c in {ConfigError, RepositoryError, ValidationError, FileNotFoundError}
    ensures !IsA(InvalidConfigError, ValidationError) && !IsA(MissingRequiredFieldError, ConfigError)
  {
  }
}
