/** Optional values, results and step outcomes shared by every module of the harness model. */
module Wrappers {

  /** An attribute or lookup that may be absent (Python's `None`). */
  datatype Option<+T> = None | Some(value: T) {
    function GetOr(default: T): T
    {
      if Some? then value else default
    }
  }

  /** Why a step of a scenario stops. Each constructor stands for one raise or failed assertion of the harness. */
  datatype Error =
    | MissingAttribute(attr: string)            // a context attribute that must be set is absent
    | ResourceNotFound(name: string)            // the named resource is not in the desired snapshot
    | NoFilename                                // the feature has no file name (ValueError)
    | RenderFailed(stderr: string)              // the renderer exited with a non-zero code
    | UnparsableOutput                          // the renderer's output is not a document stream
    | NoDesiredState                            // the renderer's output holds no document at all
    | CompositeNotMapping                       // the renderer's first document cannot be wrapped as a mapping
    | MissingResourceName(position: nat)        // an output document lacks the resource-name annotation
    | UnknownCommand(cmd: string)               // a table value starts with an unknown `\` command
    | MissingCommandArguments                   // a `\` command with no space after it
    | MergeTypeError                            // deep merge must recurse into something that is not a mapping
    | EntryMissing(key: string)                 // a resource has no (non-null) entry at the key
    | EntryMismatch(key: string, expected: string)
    | CountMismatch(expectedCount: int, actual: set<string>)
    | UnexpectedResource(name: string)          // a desired resource that the expected names do not list
    | ResourcesPresent(names: set<string>)      // resources exist where none were expected

  /** The result of an operation that either yields a value or stops the scenario. */
  datatype Result<+T> = Ok(value: T) | Err(error: Error)

  /** The outcome of a step: it passes, or it stops the scenario with an error. */
  datatype Outcome = Pass | Fail(error: Error)
}
