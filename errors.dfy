/** The error classes of src/types/errors.ts, plus the built-in `Error` and `TypeError`
    that the modelled code also throws. A constructed error is a value: its fields are set
    once by the constructor and never changed. */
module Errors {
  import opened Wrappers

  datatype ErrorClass =
    | PlainError        // the built-in `Error`
    | TypeError         // the built-in `TypeError` (a property read on undefined)
    | BaseError
    | ConfigError
    | ValidationError
    | SSHError
    | DeployError
    | FileError
    | CommandError
  {
    /** The class name, which `this.constructor.name` gives the `name` field. */
    function ClassName(): string {
      match this
      case PlainError => "Error"
      case TypeError => "TypeError"
      case BaseError => "BaseError"
      case ConfigError => "ConfigError"
      case ValidationError => "ValidationError"
      case SSHError => "SSHError"
      case DeployError => "DeployError"
      case FileError => "FileError"
      case CommandError => "CommandError"
    }

    /** The six subclasses of BaseError, each of which supplies a default code. */
    predicate IsCodedSubclass() {
      ConfigError? || ValidationError? || SSHError? || DeployError? || FileError? || CommandError?
    }

    function DefaultCode(): string
      requires IsCodedSubclass()
    {
      match this
      case ConfigError => "CONFIG_ERROR"
      case ValidationError => "VALIDATION_ERROR"
      case SSHError => "SSH_ERROR"
      case DeployError => "DEPLOY_ERROR"
      case FileError => "FILE_ERROR"
      case CommandError => "COMMAND_ERROR"
    }
  }

  datatype Error = Error(
    cls: ErrorClass,
    name: string,
    message: string,
    code: Option<string>,
    exitCode: Option<int>)

  /** `new Error(message)` */
  function NewPlainError(message: string): (e: Error)
    ensures e.cls == PlainError && e.name == "Error" && e.message == message
    ensures e.code == None && e.exitCode == None
  {
    Error(PlainError, PlainError.ClassName(), message, None, None)
  }

  /** The TypeError JavaScript throws when a property of `undefined` or `null` is read. */
  function NewTypeError(message: string): (e: Error)
    ensures e.cls == TypeError && e.name == "TypeError" && e.message == message && e.code == None
  {
    Error(TypeError, TypeError.ClassName(), message, None, None)
  }

  /** `new BaseError(message, code)`: the code is whatever was passed, possibly absent. */
  function NewBaseError(message: string, code: Option<string>): (e: Error)
    ensures e.cls == BaseError && e.name == "BaseError"
    ensures e.message == message && e.code == code && e.exitCode == None
  {
    Error(BaseError, BaseError.ClassName(), message, code, None)
  }

  /** `code || default`: an absent or empty code falls back to the default. */
  function CodeOr(code: Option<string>, default: string): string {
    if code.Some? && code.value != "" then code.value else default
  }

  /** `new ConfigError(message, code)`, `new ValidationError(...)`, `new SSHError(...)`,
      `new DeployError(...)` and `new FileError(...)`. */
  function NewError(cls: ErrorClass, message: string, code: Option<string>): (e: Error)
    requires cls.IsCodedSubclass() && !cls.CommandError?
    ensures e.cls == cls && e.name == cls.ClassName() && e.message == message
    ensures e.code.Some? && e.code.value != ""
    ensures code.Some? && code.value != "" ==> e.code == code
    ensures code.None? || code.value == "" ==> e.code == Some(cls.DefaultCode())
    ensures e.exitCode == None
  {
    Error(cls, cls.ClassName(), message, Some(CodeOr(code, cls.DefaultCode())), None)
  }

  /** `new CommandError(message, exitCode, code)`: the exit code is stored apart from the
      code, and the code is the third argument. */
  function NewCommandError(message: string, exitCode: Option<int>, code: Option<string>): (e: Error)
    ensures e.cls == CommandError && e.name == "CommandError" && e.message == message
    ensures e.exitCode == exitCode
    ensures code.Some? && code.value != "" ==> e.code == code
    ensures code.None? || code.value == "" ==> e.code == Some("COMMAND_ERROR")
  {
    Error(CommandError, CommandError.ClassName(), message, Some(CodeOr(code, CommandError.DefaultCode())), exitCode)
  }

  /** The default codes tell the subclasses apart: an error built without a code
      identifies its class by its code alone. */
  lemma DefaultCodesDistinct(a: ErrorClass, b: ErrorClass)
    requires a.IsCodedSubclass() && b.IsCodedSubclass() && a != b
    ensures a.DefaultCode() != b.DefaultCode()
  {
  }

  /** No two classes share a name. */
  lemma ClassNamesDistinct(a: ErrorClass, b: ErrorClass)
    requires a != b
    ensures a.ClassName() != b.ClassName()
  {
  }

  /** The codes the validators pass are kept as they are. */
  lemma {:induction false} ExplicitCodeKept(cls: ErrorClass, message: string, code: string)
    requires cls.IsCodedSubclass() && !cls.CommandError? && code != ""
    ensures NewError(cls, message, Some(code)).code == Some(code)
    ensures NewError(cls, message, Some(code)).name == cls.ClassName()
  {
  }
}
