# Crossplane composition tester, modelled in Dafny

The composition tester is a set of behave steps and helpers for testing Crossplane compositions.
A feature describes scenarios in Gherkin. A scenario loads a claim, a composition and a functions file. It runs
`crossplane beta render` on them and checks the managed resources the renderer prints. It can then stage
"observed" changes, such as status conditions or parameter overrides, and render again with the previous output
fed back as observed state (a "warm" render).

This project models the core of that harness:

- the scenario context the steps share, as a class whose fields are the context's attributes
  (`Context.ScenarioContext`);
- the nested keypath store used for every document, where a user key becomes a keypath by turning each dot into
  the separator `->` (`Documents`);
- the helpers in `steps/utils`: fake status conditions, context lookups, render-output parsing, the table-value
  command parser, the deep merge of staged updates, the render-argument assembler, the iteration counter, the
  reset, the setters and the checkers (`Utils`, `Setters`, `Checkers`);
- the feature hooks that derive the functions file and the composition file from a feature's directory
  (`Environment`);
- the scenario steps themselves: changing the claim, rendering, the checks on the snapshot, and staging observed
  status and parameters (`CompositionTester`).

The Python string and path operations these rely on are modelled lexically: `strip`, `split`, `join`,
one-character `replace` and `lower` in `Strings`, and pathlib's parse, `parent`, `name`, `/` and `str()` in
`Paths`. YAML values are the datatype `Documents.Value`. The renderer is a function parameter from what it is given
(its arguments, the claim its arguments name, and the observed-state file) to what it prints.

Three behaviours of the code are worth knowing when reading the model:

- There is no escape for literal dots in keys: every dot of a user key becomes a keypath separator
  (`Documents.KeyPathSplitsEveryDot`). A key that holds a dot, such as the
  `crossplane.io/composition-resource-name` annotation, can therefore never be read with a dotted key
  (`Checkers.ResourceNameAnnotationUncheckable`).
- Render output is parsed with `yaml.safe_load_all`, which types scalars. A value check compares the typed entry
  with the expected text, so an entry `3` does not match the expected `"3"`.
- A literal `->` inside a key is a keypath separator too: `a->b` addresses the same entry as `a.b`
  (`Documents.SeparatorInKeySplits`).

## Model

| member | source | states |
|---|---|---|
| Context.ScenarioContext.constructor | steps/utils/utils.py:71 | a fresh context has no attribute set and renders cold |
| Strings.Strip | steps/utils/utils.py:212 | the result is a slice of the input with only whitespace before and after it, neither of its ends is whitespace, and text without whitespace at its ends is returned unchanged |
| Strings.Split | steps/utils/utils.py:217 | splitting gives at least one piece and no piece holds the separator |
| Strings.SplitOnce | steps/utils/utils.py:214-215 | the text has no separator exactly when no split happens; otherwise it is head, separator and tail, with the split at the first separator |
| Strings.SplitOnceAround | steps/utils/utils.py:214-215 | a separator placed after a separator-free head is where the one-split cuts |
| Strings.SplitAround | steps/utils/utils.py:217 | a separator placed between two texts splits there and adds no other cut |
| Strings.SplitWithoutSeparator | steps/utils/utils.py:217 | a text without the separator is one piece |
| Strings.JoinSplit | steps/utils/utils.py:217 | joining the pieces of a split gives the text back |
| Strings.SplitJoin | steps/utils/utils.py:217 | splitting a join of separator-free pieces gives the pieces back |
| Strings.ReplaceAllRemoves | steps/composition_tester.py:69 | replacing a character by text without it leaves none of it behind |
| Strings.ReplaceAllAbsent | steps/utils/utils.py:166 | replacing a character the text does not hold changes nothing |
| Strings.ReplaceAllAppend | steps/utils/setters.py:103 | replacing distributes over concatenation |
| Strings.ReplacedCharCollides | steps/composition_tester.py:69-71 | after the replacement, the character and its replacement text in the same place give the same result |
| Strings.LowerChar | steps/composition_tester.py:201 | an upper-case ASCII letter becomes its lower-case letter; any other character is kept |
| Strings.Lower | steps/composition_tester.py:201 | lowering keeps the length and lowers each character |
| Strings.ReadyIgnoresCase | steps/composition_tester.py:201 | a status word lowers to "ready" exactly when it is "ready" in any mix of upper and lower case |
| Paths.Components | environment.py:35 | the kept components come from the pieces and are neither empty nor "."; pieces that are all components are kept as they are |
| Paths.Parse | environment.py:35 | a parsed path has only proper components and is absolute exactly when the text starts with "/" |
| Paths.Parent | environment.py:56 | the parent of a well-formed path is well-formed |
| Paths.Child | environment.py:57 | appending to a well-formed path gives a well-formed path |
| Paths.ChildComponent | environment.py:57 | appending one component adds exactly it; appending "" adds nothing |
| Paths.ChildThenParent | environment.py:56-57 | the parent of a path with a component appended is the path, and its name is the component |
| Paths.ParseToString | steps/utils/utils.py:78-79 | parsing the string form of a path gives the path back |
| Documents.KeyPath | steps/utils/setters.py:103 | a user key addresses at least one level |
| Documents.Get | steps/utils/utils.py:166-168 | a read below the top succeeds only through a mapping holding the first key |
| Documents.Set | steps/utils/setters.py:105 | a write makes the top a mapping, adds the first key to it and keeps every other key and its value |
| Documents.GetOneKey | steps/utils/utils.py:166-168 | a one-key keypath reads the entry of that key |
| Documents.GetSet | steps/utils/setters.py:103-105 | reading a keypath just written gives the value written |
| Documents.GetSetElsewhere | steps/utils/setters.py:105 | writing a keypath leaves every keypath that parts ways with it as it was |
| Documents.GetSetBelow | steps/utils/setters.py:105 | below a keypath just written, reads go inside the value written |
| Documents.SetMakesMappings | steps/utils/setters.py:105 | after a write, every level above the written key is a mapping |
| Documents.DotsToSeparatorAppend | steps/utils/setters.py:103 | turning dots into separators distributes over concatenation |
| Documents.SplitKeypathAround | steps/utils/constants.py:27 | a separator placed between two keypath strings cuts exactly there |
| Documents.KeyPathAppend | steps/utils/utils.py:166 | `a.b` addresses the keys of `a` followed by the keys of `b` |
| Documents.KeyPathSplitsEveryDot | steps/utils/utils.py:166-168 | a key without a literal separator is cut at every dot and nowhere else, so there is no escape for dots |
| Documents.KeyPathHasNoDots | steps/utils/utils.py:166-168 | no key of a keypath holds a dot |
| Documents.SeparatorInKeySplits | steps/utils/utils.py:166-168 | a key holding the separator is cut there as well, just like the dotted key |
| Utils.CreateFakeStatusConditions | steps/utils/utils.py:27-51 | two conditions, Ready then Synced, each with the four fields and the fixed time; status and reason follow the ready and synced flags, both ways |
| Utils.GetFromContext | steps/utils/utils.py:110-130 | the lookup succeeds exactly when the attribute is set, gives its value, and otherwise fails naming the attribute |
| Utils.GetResourceFromContext | steps/utils/utils.py:133-153 | a resource is found exactly when a snapshot exists and holds a non-null document under the name; a missing snapshot and a missing resource fail differently |
| Utils.IndexByName | steps/utils/utils.py:193-198 | indexing succeeds exactly when every document carries a resource name |
| Utils.IndexByNameFirstError | steps/utils/utils.py:195-197 | a failed index reports the position of the first nameless document |
| Utils.IndexByNameContents | steps/utils/utils.py:195-198 | the index holds exactly the names the documents carry, each bound to the last document that carries it |
| Utils.ReadDesiredOutput | steps/utils/utils.py:187-198 | an empty output fails, and so does a composite that is not a mapping; otherwise the first document is the composite and the rest are indexed by name, failing exactly when one is nameless |
| Utils.ReadDesiredOutputIntoContext | steps/utils/utils.py:171-200 | a mapping composite is stored first, the resources only when all are named; an empty output or a non-mapping composite fails and changes nothing |
| Utils.ParseCommand | steps/utils/utils.py:213-219 | plain text stays text; `\list ` is followed by the comma-separated pieces; a command without arguments or an unknown command fails |
| Utils.ParseValueCmd | steps/utils/utils.py:203-221 | the value is stripped first; stripped text not starting with a backslash is the result as text; otherwise it is parsed as a command |
| Utils.ListJoinsBack | steps/utils/utils.py:216-217 | the elements of a parsed list, joined with commas, give back the text after the command |
| Utils.ParseListCommand | steps/utils/utils.py:213-217 | the command parser reads `\list ` before comma-joined pieces as exactly those pieces |
| Utils.ListRoundTrip | steps/utils/utils.py:203-221 | `\list ` before comma-joined pieces parses back into exactly those pieces |
| Utils.MergeKeys | steps/utils/utils.py:234-238 | the merge holds the keys of both sides; keys only in the target are kept; non-mappings overwrite; a mapping meeting a mapping or an absent key is merged recursively into it; an empty mapping leaves a non-mapping alone |
| Utils.MergeIdempotent | steps/utils/utils.py:224-239 | merging the same updates a second time changes nothing |
| Utils.MergeDelivers | steps/utils/utils.py:234-238 | a non-mapping staged at a keypath is found at that keypath after the merge |
| Utils.DeepMerge | steps/utils/utils.py:224-239 | the merge holds the keys of both sides, and keys only in the target keep their values |
| Utils.MergeKeepsTarget | steps/utils/utils.py:234-238 | a value the updates do not reach, and above which they stage only mappings, is still found at its keypath after the merge |
| Utils.DeepUpdate | steps/utils/utils.py:224-239 | the key-by-key merge succeeds exactly when no non-empty mapping meets a non-mapping, and then gives the recursive merge |
| Utils.UpdateEntry | steps/utils/utils.py:235-238 | one key of the merge succeeds exactly when the merge can proceed at that key, and gives the merged entry |
| Utils.RenderArgs | steps/utils/utils.py:77-107 | the arguments exist exactly when the claim, composition and functions paths are set, a missing one is named in that order, and there are six of them cold and eight warm |
| Utils.WarmArgsExtendCold | steps/utils/utils.py:77-107 | cold arguments are the render command, the claim, the composition and the functions; each path is given in string form in that order; warm arguments add exactly the observed-state flag and file |
| Utils.ObservedInput | steps/utils/utils.py:93-98 | without staged updates the snapshot is the observed state; with them it is the merge, failing exactly when the merge fails |
| Utils.ResourceValues | steps/utils/utils.py:105 | every resource of the snapshot is written once |
| Utils.PlannedRenderArgs | steps/utils/utils.py:71-107 | a cold render needs only the paths; a warm render also needs a snapshot into which the updates merge |
| Utils.PrepareRenderArgs | steps/utils/utils.py:54-107 | the counter advances; the arguments are the planned ones; a warm render replaces the snapshot with the merge and writes its resources to the scratch file; a failure before the merge leaves the snapshot as it was |
| Utils.GetUid | steps/utils/utils.py:267-282 | the first call stores and returns 0; later calls return the counter and advance it |
| Utils.UidSequence | steps/utils/utils.py:276-282 | the first three counter values of a scenario are 0, 0 and 1 |
| Utils.ResetContextFlags | steps/utils/utils.py:285-289 | the snapshot and the staged updates are forgotten and rendering is cold again |
| Setters.SetResourceParam | steps/utils/setters.py:95-105 | the value reads back at the keypath of the dotted key |
| Setters.SetResourceParamElsewhere | steps/utils/setters.py:103-105 | keypaths that part ways with the written one keep their values |
| Setters.StagedEntryHeld | steps/utils/setters.py:91-92 | a staged item is in the buffer unless a later item writes at or around its keypath |
| Setters.StageElsewhere | steps/utils/setters.py:91-92 | staging for one resource leaves other resources' staged overrides alone |
| Setters.DistinctPlainKeysDiverge | steps/utils/setters.py:92 | distinct plain keys of one table are staged at keypaths that part ways |
| Setters.DottedResourceNameSplits | steps/utils/setters.py:92 | a resource name `a.b` is staged two levels deep, under `a` |
| Documents.PlainKeyPath | steps/utils/setters.py:103 | a name without dots or separators is a single key |
| Setters.StagedReachesSnapshot | steps/utils/utils.py:93-98 | a non-mapping staged for a plain-named resource reaches that resource's entry once the buffer is merged into the snapshot |
| Setters.UpdateResourceParams | steps/utils/setters.py:72-92 | the resource must be in the snapshot; otherwise the buffer is unchanged; on success each item is staged under the resource's name, in order |
| Utils.GetResourceEntry | steps/utils/utils.py:156-168 | a key without dots or separators reads the resource's entry of that name; a non-mapping resource holds no entries |
| Checkers.AssertHasResourceEntry | steps/utils/checkers.py:20-38 | with a non-empty expected value the entry must equal that text; otherwise it must be present and not null; each failure has its own error |
| Checkers.SetThenCheckPasses | steps/utils/checkers.py:33-38 | a text written with the setter passes the entry check for the same key, with or without the expected value |
| Checkers.ValueCheckImpliesPresence | steps/utils/checkers.py:35-38 | passing the value check implies passing the presence check |
| Checkers.ResourceNameAnnotationUncheckable | steps/utils/utils.py:196 | the resource-name annotation has a dot in its key, so no dotted key reads it |
| Checkers.CheckResources | steps/utils/checkers.py:41-64 | passes exactly when a snapshot exists, has the count, and, with names given, holds only listed resources; a wrong count and an unlisted resource fail differently |
| Checkers.CountAndNamesMeanExactly | steps/utils/checkers.py:55-64 | with as many distinct names as the count, the check accepts exactly the snapshots whose resources are the listed ones |
| Checkers.EmptyNamesCountOnly | steps/utils/checkers.py:61 | an empty name list leaves only the count check |
| Environment.FunctionsFileIsSibling | environment.py:56-57 | the functions file is `functions.yaml` beside the feature's directory |
| Environment.CompositionMirrorsFeature | environment.py:83-89 | the composition file is `composition.yaml` in a directory named after the feature's directory, under `pkg`, at the level above the feature directories |
| Environment.FunctionsFilepathParts | environment.py:56-57 | the functions file, component by component |
| Environment.CompositionsDirectoryParts | environment.py:83-87 | the compositions directory, component by component |
| Environment.CompositionFilepathParts | environment.py:83-89 | the composition file, component by component |
| Environment.CompositionsDirectoryAtTop | environment.py:83-89 | for a directory with no components, the compositions directory is `pkg` itself |
| Environment.FeatureInWorkingDirectory | environment.py:31-89 | a feature file in the working directory takes `functions.yaml` and `pkg/composition.yaml` |
| Environment.LayoutExample | environment.py:67-89 | the documented layout: `dir/feature` takes `dir/functions.yaml` and `pkg/feature/composition.yaml` |
| Environment.SetupBasePath | environment.py:20-36 | a feature without a file name stops the run; otherwise the base path is the file's directory |
| Environment.SetupFunctionsFilepath | environment.py:38-58 | the base path must be set; the functions file is derived from it |
| Environment.SetupCompositionFilepath | environment.py:61-89 | the base path must be set; the compositions directory and the composition file are derived from it |
| Environment.BeforeFeature | environment.py:93-96 | the base path and both derived paths come from this feature's file; a missing file name changes nothing |
| CompositionTester.ClaimDumpPath | steps/composition_tester.py:68-73 | the changed claim is written to `/tmp/claims/<feature>/claim_<scenario>.yaml`, with spaces in both names turned into underscores, so its path has no spaces |
| CompositionTester.ClaimDumpPathsCollide | steps/composition_tester.py:69-72 | scenario names that differ only by a space against an underscore write the same file |
| CompositionTester.ApplyRows | steps/composition_tester.py:63-66 | the rows apply exactly when every value parses; otherwise the error is the first unparsable value's |
| CompositionTester.ApplyRowsStopsAt | steps/composition_tester.py:63-66 | once earlier rows apply, an unparsable value is the step's error |
| CompositionTester.ClaimRowHeld | steps/composition_tester.py:63-66 | each row's parsed value is in the changed claim at its keypath, unless a later row writes at or around it |
| CompositionTester.ClaimElsewhere | steps/composition_tester.py:62-66 | claim entries whose keypaths part ways with every row's keypath are kept |
| CompositionTester.ClaimTextRowCheckable | steps/composition_tester.py:63-66 | a plain text set on the claim passes the entry check for the same key |
| CompositionTester.ApplyClaimRow | steps/composition_tester.py:64-66 | one row: an unparsable value ends the loop with the step's error; a parsable one extends the applied prefix |
| CompositionTester.ApplyClaimRows | steps/composition_tester.py:62-66 | the loop over the rows gives the rows' effect on the claim |
| CompositionTester.ClaimWithParams | steps/composition_tester.py:50-83 | the claim must be set; it is replaced by the changed copy, with its dump path, only when every row parses |
| CompositionTester.Render | steps/composition_tester.py:123-145 | a failed preparation, a non-zero exit or unparsable output fails the step and leaves the composite alone; otherwise the output becomes the snapshot exactly when it is well formed; the renderer is handed the context's claim; a warm render hands it a file listing the resources of the merge of the staged updates into the old snapshot, and a cold render leaves the file alone; on failure the snapshot is the prepared one and the composite changes only when a mapping composite was read |
| CompositionTester.CheckNoResources | steps/composition_tester.py:148-152 | passes exactly when there is no snapshot or it is empty |
| CompositionTester.CheckResourceCount | steps/composition_tester.py:155-161 | passes exactly when a snapshot exists with the count; a missing snapshot and a wrong count fail differently |
| CompositionTester.CheckResourceCountAndNames | steps/composition_tester.py:164-172 | passes exactly when the snapshot has the count and only listed resources |
| CompositionTester.NoResourcesMeansCountZero | steps/composition_tester.py:148-161 | on an existing snapshot, a count of zero means no resources |
| CompositionTester.CheckResourceParameters | steps/composition_tester.py:175-183 | the resource must be in the snapshot; the step passes exactly when every row's entry check passes, and otherwise fails with the first failing row's error |
| CompositionTester.StatusConditions | steps/composition_tester.py:200-204 | a Ready and then a Synced condition, each with the four fields and the fixed time; both are true with their success reasons exactly when the status word is "ready" in any case, and false with their failure reasons otherwise |
| CompositionTester.StatusKeyPath | steps/composition_tester.py:200 | the status key lies two levels below the resource's keypath |
| CompositionTester.StageStatusIsStaging | steps/composition_tester.py:200-206 | staging the one-item table `status.conditions` writes the conditions at the resource's status key |
| CompositionTester.StageStatusEffect | steps/composition_tester.py:206 | the staged conditions are at the status key, and everything outside the resource's keypath is kept |
| CompositionTester.StageConditions | steps/composition_tester.py:206 | the resource must be in the snapshot; the conditions are staged at its status key |
| CompositionTester.SetResourceStatus | steps/composition_tester.py:195-206 | the resource must be in the snapshot; the conditions chosen by the status word are staged for it |
| CompositionTester.StatusesReachEveryName | steps/composition_tester.py:241-242 | after staging for several plain names, each of them carries the conditions |
| CompositionTester.FirstMissing | steps/composition_tester.py:241-242 | every name before the position is found and the name at it is not |
| CompositionTester.StageConditionsEach | steps/composition_tester.py:241-242 | names are staged in order up to the first name not in the snapshot, which fails the step |
| CompositionTester.FollowingResourcesAreReady | steps/composition_tester.py:228-242 | the listed names are staged in order; the first name not in the snapshot stops the step and leaves earlier names staged |
| CompositionTester.AllResourcesAreReady | steps/composition_tester.py:245-259 | the snapshot must exist; it passes exactly when no resource is null, and then every resource is staged once and every plain-named resource carries the conditions |
| CompositionTester.Assign | steps/composition_tester.py:223 | a new key goes last, a known key keeps its place, and the value is replaced |
| CompositionTester.Collapse | steps/composition_tester.py:220-223 | the table has one entry per distinct name, each listed once |
| CompositionTester.LastValueWins | steps/composition_tester.py:223 | a row that no later row overwrites is the value under its name |
| CompositionTester.CollapseLastWins | steps/composition_tester.py:220-223 | each name maps to the text of its last row |
| CompositionTester.Items | steps/utils/setters.py:91 | the pairs of the table, in its order |
| CompositionTester.ResourceIsUpdatedWith | steps/composition_tester.py:209-225 | the resource must be in the snapshot; the rows, collapsed by name, are staged as raw text |
| CompositionTester.TableRowsReachBuffer | steps/composition_tester.py:220-225 | with plain names, each name's last text is in the buffer at the resource's key for that name |
| CompositionTester.SetResourceStatusAndParameters | steps/composition_tester.py:186-192 | the status is staged, then the table; a missing resource stops the step before anything is staged |

## Left out

- File I/O: reading and writing YAML files, the observed-state file, the dump of the changed claim and the
  `dump/` debug files (`dump_yaml_to_file`, `log_input`). The observed-state file becomes a context field
  holding the documents written. The changed claim file is represented by the context's claim and its path; the
  renderer is handed that claim as the content of the file its arguments name.
- `prepare_file`, `prepare_claim`, `prepare_composition`, `prepare_functions` and
  `prepare_compositions_directory`: they locate, load and attach files. That is file-system work.
- `render_wrong`, `log_desired_resources`, `fail_scenario` and the commented-out `compare_resources`: they only
  fail or log.
- Allure attachments and logging: these are reporting side effects.
- The renderer process: it becomes the `renderer` parameter of `CompositionTester.Render`. Its YAML output is
  given already parsed, and `None` stands for a YAML parse error.
- YAML parsing: floats, timestamps and the other scalar types beyond null, boolean, integer and string are not
  modelled. Mapping keys are strings.
- `render_with_observed` is an input flag of the context. No step of this core sets it.
- List-index keypaths of the keypath store (`a[0]`) are not modelled. A keypath step into a list is "absent",
  and a write through it replaces the list with a mapping, where the source raises a TypeError.
- The store's refusal of keys that already hold `->` when a document is wrapped is not modelled. A literal `->`
  in a key splits like a dot.
- Aliasing: the claim copy is shallow, and `deep_update` mutates nested mappings in place. Values here are
  immutable, so the model shows only the resulting documents.
- Utils.DeepUpdate: when the merge meets a non-mapping with a non-empty mapping, the source raises after
  changing some keys. The model reports failure and leaves the snapshot as it was.
- Utils.ReadDesiredOutput: the keypath store's constructor converts some non-mapping inputs, such as text it
  decodes as data or a list of pairs. The model reports any non-mapping composite as an error.
- Utils.IndexByName: a non-string resource-name annotation counts as missing. A document without the
  annotation is a `MissingResourceName` error, where the source raises a key error.
- Utils.ResourceValues: the order of the documents in the observed-state file is left open (each resource once),
  because maps here do not keep Python's insertion order.
- Utils.PrepareRenderArgs: the observed-state file is specified as listing each resource once, in some order,
  for the same reason.
- Checkers.CheckResources: which unlisted resource is reported is left open. The source reports the first one in
  insertion order.
- CompositionTester.AllResourcesAreReady: the staging order and the null resource reported are left open. The
  source uses the snapshot's insertion order.
- Strings.Lower: only ASCII letters are lowered. Python's `str.lower` covers all of Unicode.
- Paths: only lexical pathlib behaviour is modelled. `..` is kept as a component, a leading `//` reads as `/`,
  and no file system is consulted.
- `following_resources_are_ready` chooses the conditions again for each name. The model chooses them once, which
  gives the same value.
