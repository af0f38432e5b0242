/**
 * The host's asset element, reduced to the fields the Validate, Resize and Convert services
 * read or write, and the validation errors the Validate service attaches to it.
 */
module Assets {
  import opened Wrappers
  import opened Settings

  /** The asset's scenario; only `move` and `fileOperations` are told apart by the plugin. */
  datatype Scenario = ScenarioMove | ScenarioFileOps | OtherScenario

  /** The messages the Validate service adds (translation is the identity here). */
  datatype ValidationError =
    | ExtensionNotAllowed(extension: string, allowed: string)
    | KindNotAllowed(kind: string, allowed: string)
    | ExceedsMaximum(file: string, limit: SizeValue)
    | BelowMinimum(file: string, limit: SizeValue)

  /** One `addError($attribute, $message)` call. */
  datatype AttributeError = AttributeError(attribute: string, error: ValidationError)

  class Asset {
    var filename: string
    var newFilename: Option<string>
    var tempFilePath: Option<string>
    var newLocation: Option<string>
    var kind: string
    var volumeId: Option<int>
    var scenario: Scenario
    /** The errors added so far, oldest first. */
    var errors: seq<AttributeError>

    constructor (filename: string, kind: string, tempFilePath: Option<string>)
      ensures this.filename == filename && this.kind == kind && this.tempFilePath == tempFilePath
      ensures newFilename.None? && newLocation.None? && volumeId.None?
      ensures scenario == OtherScenario && errors == []
    {
      this.filename := filename;
      this.kind := kind;
      this.tempFilePath := tempFilePath;
      newFilename := None;
      newLocation := None;
      volumeId := None;
      scenario := OtherScenario;
      errors := [];
    }

    /** `addError($attribute, $error)`. */
    method AddError(attribute: string, error: ValidationError)
      modifies this`errors
      ensures errors == old(errors) + [AttributeError(attribute, error)]
    {
      errors := errors + [AttributeError(attribute, error)];
    }
  }
}
