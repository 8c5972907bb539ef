/**
 * The scenario context the steps share. Each field is one attribute the harness attaches to
 * the test runner's context object; an attribute that has not been set is `None`.
 */
module Context {
  import opened Wrappers
  import opened Documents
  import opened Paths

  class ScenarioContext {
    /** The directory of the feature file, and the paths derived from it before each feature. */
    var basePath: Option<Path>
    var functionsFilepath: Option<Path>
    var compositionsDirectory: Option<Path>
    var compositionFilepath: Option<Path>

    /** The claim document and the file the renderer reads it from. */
    var claim: Option<Document>
    var claimFilepath: Option<string>

    /** The snapshot of the last render: the composite and the managed resources keyed by resource name. */
    var desiredXr: Option<Value>
    var desiredResources: Option<map<string, Value>>

    /** Per-resource overrides staged for the next warm render, keyed by resource name. */
    var updates: Option<Document>

    /** The diagnostic iteration counter. */
    var uid: Option<int>

    /** Whether the next render feeds the snapshot back as observed state. */
    var renderWithObserved: bool

    /** The documents last written to the observed-state scratch file; `None` while it does not exist. */
    var observedFile: Option<seq<Value>>

    /** A fresh context: no attribute set, cold rendering. */
    constructor ()
      ensures basePath == None && functionsFilepath == None
      ensures compositionsDirectory == None && compositionFilepath == None
      ensures claim == None && claimFilepath == None
      ensures desiredXr == None && desiredResources == None && updates == None
      ensures uid == None && !renderWithObserved && observedFile == None
    {
      basePath := None;
      functionsFilepath := None;
      compositionsDirectory := None;
      compositionFilepath := None;
      claim := None;
      claimFilepath := None;
      desiredXr := None;
      desiredResources := None;
      updates := None;
      uid := None;
      renderWithObserved := false;
      observedFile := None;
    }
  }
}
