/**
 * The scenario steps of steps/composition_tester.py: changing the claim, rendering, the checks on the snapshot,
 * and the steps that stage observed status and parameters for the next warm render.
 *
 * A step's table is a sequence of rows. The renderer is a function from what it is given to what it prints.
 */
module CompositionTester {
  import opened Wrappers
  import opened Strings
  import opened Documents
  import opened Context
  import opened Utils
  import opened Setters
  import opened Checkers

  /** One row of a step's table: the name column and the value column, as raw text. */
  datatype Row = Row(name: string, value: string)

  /** A name that the keypath store treats as a single key. */
  predicate PlainName(n: string)
  {
    '.' !in n && !HasSeparator(n)
  }

  // ---------------------------------------------------------------------------
  // Changing the claim
  // ---------------------------------------------------------------------------

  /** The directory the changed claims are written under. */
  const ClaimsDirectory: string := "/tmp/claims"

  /** Where a changed claim is written: one directory per feature, one file per scenario, spaces turned into
      underscores in both names. */
  function ClaimDumpPath(feature: string, scenario: string): (r: string)
    ensures ' ' !in r
    ensures |r| > |ClaimsDirectory| + 1 && r[..|ClaimsDirectory| + 1] == ClaimsDirectory + "/"
    ensures r[|ClaimsDirectory| + 1..] ==
      ReplaceAll(feature, ' ', "_") + "/claim_" + ReplaceAll(scenario, ' ', "_") + ".yaml"
  {
    var f := ReplaceAll(feature, ' ', "_");
    var s := ReplaceAll(scenario, ' ', "_");
    ReplaceAllRemoves(feature, ' ', "_");
    ReplaceAllRemoves(scenario, ' ', "_");
    var r := ClaimsDirectory + "/" + f + "/claim_" + s + ".yaml";
    assert r[..|ClaimsDirectory| + 1] == ClaimsDirectory + "/";
    r
  }

  /** Two scenarios whose names differ only by a space where the other has an underscore write the same file, so
      the later one overwrites the earlier one's claim. */
  lemma ClaimDumpPathsCollide(feature: string, a: string, b: string)
    ensures ClaimDumpPath(feature, a + " " + b) == ClaimDumpPath(feature, a + "_" + b)
  {
    ReplacedCharCollides(a, b, ' ', "_");
  }

  /** Each row's value, parsed as a table value. */
  function ParseRows(rows: seq<Row>): (r: seq<Result<Value>>)
  {
    seq(|rows|, i requires 0 <= i < |rows| => ParseValueCmd(rows[i].value))
  }

  /** The value at index `i` is the first that does not parse. */
  predicate FirstBad(parsed: seq<Result<Value>>, i: int)
  {
    && 0 <= i < |parsed|
    && parsed[i].Err?
    && forall j :: 0 <= j < i ==> parsed[j].Ok?
  }

  /** There is one first value that does not parse. */
  lemma FirstBadUnique(parsed: seq<Result<Value>>, i: int, k: int)
    requires FirstBad(parsed, i) && FirstBad(parsed, k)
    ensures i == k
  {
  }

  /** The claim after the table's rows, in order: each row's parsed value is written at the row's dotted key. The
      first value that does not parse stops the step with its error. */
  function ApplyRows(claim: Document, rows: seq<Row>, parsed: seq<Result<Value>>): (r: Result<Document>)
    requires |parsed| == |rows|
    ensures r.Ok? <==> forall i :: 0 <= i < |parsed| ==> parsed[i].Ok?
    ensures r.Err? ==> exists i :: FirstBad(parsed, i) && r.error == parsed[i].error
    decreases |rows|
  {
    if |rows| == 0 then Ok(claim)
    else
      var n := |rows| - 1;
      var prev := ApplyRows(claim, rows[..n], parsed[..n]);
      assert forall j :: 0 <= j < n ==> parsed[..n][j] == parsed[j];
      if prev.Err? then
        var i :| FirstBad(parsed[..n], i) && prev.error == parsed[..n][i].error;
        assert FirstBad(parsed, i);
        prev
      else if parsed[n].Err? then
        assert FirstBad(parsed, n);
        Err(parsed[n].error)
      else
        Ok(SetResourceParam(prev.value, rows[n].name, parsed[n].value))
  }

  /** Once the rows before `i` apply, a value at `i` that does not parse is the step's error. */
  lemma ApplyRowsStopsAt(claim: Document, rows: seq<Row>, parsed: seq<Result<Value>>, i: int)
    requires |parsed| == |rows| && 0 <= i < |rows|
    requires ApplyRows(claim, rows[..i], parsed[..i]).Ok? && parsed[i].Err?
    ensures ApplyRows(claim, rows, parsed) == Err(parsed[i].error)
  {
    assert forall j :: 0 <= j < i ==> parsed[..i][j] == parsed[j];
    assert FirstBad(parsed, i);
    var k :| FirstBad(parsed, k) && ApplyRows(claim, rows, parsed).error == parsed[k].error;
    FirstBadUnique(parsed, i, k);
  }

  /** Once the rows before `i` apply, a value at `i` that parses is written on top of them. */
  lemma ApplyRowsStep(claim: Document, rows: seq<Row>, parsed: seq<Result<Value>>, i: int, prev: Document, v: Value)
    requires |parsed| == |rows| && 0 <= i < |rows|
    requires ApplyRows(claim, rows[..i], parsed[..i]) == Ok(prev) && parsed[i] == Ok(v)
    ensures ApplyRows(claim, rows[..i + 1], parsed[..i + 1]) == Ok(SetResourceParam(prev, rows[i].name, v))
  {
    assert rows[..i + 1][..i] == rows[..i];
    assert parsed[..i + 1][..i] == parsed[..i];
  }

  /** When all rows apply, the claim is the last row written on top of the rows before it. */
  lemma ApplyRowsLast(claim: Document, rows: seq<Row>, parsed: seq<Result<Value>>)
    requires |parsed| == |rows| && |rows| > 0 && ApplyRows(claim, rows, parsed).Ok?
    ensures var n := |rows| - 1;
      && ApplyRows(claim, rows[..n], parsed[..n]).Ok?
      && parsed[n].Ok?
      && ApplyRows(claim, rows, parsed) ==
         Ok(SetResourceParam(ApplyRows(claim, rows[..n], parsed[..n]).value, rows[n].name, parsed[n].value))
  {
  }

  /** A row's parsed value is in the changed claim at the row's keypath, unless a later row writes at or around
      that keypath. */
  lemma {:induction false} ClaimRowHeld(claim: Document, rows: seq<Row>, parsed: seq<Result<Value>>, i: int)
    requires |parsed| == |rows| && ApplyRows(claim, rows, parsed).Ok? && 0 <= i < |rows|
    requires forall j :: i < j < |rows| ==> Diverge(KeyPath(rows[j].name), KeyPath(rows[i].name))
    ensures parsed[i].Ok?
    ensures Get(Dict(ApplyRows(claim, rows, parsed).value), KeyPath(rows[i].name)) == Some(parsed[i].value)
    decreases |rows|
  {
    var n := |rows| - 1;
    ApplyRowsLast(claim, rows, parsed);
    if i < n {
      var prev := ApplyRows(claim, rows[..n], parsed[..n]).value;
      assert rows[..n][i] == rows[i] && parsed[..n][i] == parsed[i];
      assert forall j :: i < j < n ==> rows[..n][j] == rows[j];
      ClaimRowHeld(claim, rows[..n], parsed[..n], i);
      SetResourceParamElsewhere(prev, rows[n].name, parsed[n].value, KeyPath(rows[i].name));
    }
  }

  /** Every entry of the claim whose keypath parts ways with every row's keypath is kept. */
  lemma {:induction false} ClaimElsewhere(claim: Document, rows: seq<Row>, parsed: seq<Result<Value>>, q: seq<string>)
    requires |parsed| == |rows| && ApplyRows(claim, rows, parsed).Ok?
    requires forall j :: 0 <= j < |rows| ==> Diverge(KeyPath(rows[j].name), q)
    ensures Get(Dict(ApplyRows(claim, rows, parsed).value), q) == Get(Dict(claim), q)
    decreases |rows|
  {
    if |rows| > 0 {
      var n := |rows| - 1;
      ApplyRowsLast(claim, rows, parsed);
      var prev := ApplyRows(claim, rows[..n], parsed[..n]).value;
      assert forall j :: 0 <= j < n ==> rows[..n][j] == rows[j];
      ClaimElsewhere(claim, rows[..n], parsed[..n], q);
      SetResourceParamElsewhere(prev, rows[n].name, parsed[n].value, q);
    }
  }

  /** A plain text value set on the claim passes the entry check on the changed claim for the same key. */
  lemma ClaimTextRowCheckable(claim: Document, rows: seq<Row>, i: int)
    requires ApplyRows(claim, rows, ParseRows(rows)).Ok? && 0 <= i < |rows|
    requires var v := rows[i].value; |v| > 0 && !IsSpace(v[0]) && !IsSpace(v[|v| - 1]) && v[0] != '\\'
    requires forall j :: i < j < |rows| ==> Diverge(KeyPath(rows[j].name), KeyPath(rows[i].name))
    ensures AssertHasResourceEntry(Dict(ApplyRows(claim, rows, ParseRows(rows)).value), rows[i].name, Some(rows[i].value))
      == Pass
  {
    var v := rows[i].value;
    assert Strip(v) == v;
    assert ParseValueCmd(v) == Ok(Str(v));
    ClaimRowHeld(claim, rows, ParseRows(rows), i);
  }

  /** One pass of the loop of `claim_with_params`: the row's value is parsed and, when it parses, written at the
      row's key on top of the rows before it; when it does not, its error is the loop's result. */
  method ApplyClaimRow(claim: Document, rows: seq<Row>, i: int, updated: Document) returns (r: Result<Document>)
    requires 0 <= i < |rows|
    requires ApplyRows(claim, rows[..i], ParseRows(rows)[..i]) == Ok(updated)
    ensures r.Err? ==> r == ApplyRows(claim, rows, ParseRows(rows))
    ensures r.Ok? ==> r == ApplyRows(claim, rows[..i + 1], ParseRows(rows)[..i + 1])
  {
    var parsed := ParseValueCmd(rows[i].value);
    if parsed.Err? {
      ApplyRowsStopsAt(claim, rows, ParseRows(rows), i);
      return Err(parsed.error);
    }
    ApplyRowsStep(claim, rows, ParseRows(rows), i, updated, parsed.value);
    r := Ok(SetResourceParam(updated, rows[i].name, parsed.value));
  }

  /** The loop of `claim_with_params` over a copy of the claim: each row's value is parsed and written at the row's
      key; the first value that does not parse ends the loop with its error. */
  method ApplyClaimRows(claim: Document, rows: seq<Row>) returns (r: Result<Document>)
    ensures r == ApplyRows(claim, rows, ParseRows(rows))
  {
    var updated := claim;
    var i := 0;
    while i < |rows|
      invariant 0 <= i <= |rows|
      invariant ApplyRows(claim, rows[..i], ParseRows(rows)[..i]) == Ok(updated)
    {
      var next := ApplyClaimRow(claim, rows, i, updated);
      if next.Err? {
        return next;
      }
      updated := next.value;
      i := i + 1;
    }
    assert rows[..|rows|] == rows;
    assert ParseRows(rows)[..|rows|] == ParseRows(rows);
    r := Ok(updated);
  }

  /** `claim_with_params`: the claim must be set. The rows change a copy, which replaces the claim only when every
      row parses; the changed claim's file path is recorded beside it. */
  method ClaimWithParams(ctx: ScenarioContext, rows: seq<Row>, feature: string, scenario: string) returns (o: Outcome)
    modifies ctx`claim, ctx`claimFilepath
    ensures old(ctx.claim).None? ==> o == Fail(MissingAttribute("claim")) && unchanged(ctx)
    ensures old(ctx.claim).Some? ==>
      var r := ApplyRows(old(ctx.claim).value, rows, ParseRows(rows));
      && (r.Err? ==> o == Fail(r.error) && unchanged(ctx))
      && (r.Ok? ==> o == Pass && ctx.claim == Some(r.value) && ctx.claimFilepath == Some(ClaimDumpPath(feature, scenario)))
  {
    var found := GetFromContext(ctx.claim, "claim");
    if found.Err? {
      return Fail(found.error);
    }
    var r := ApplyClaimRows(found.value, rows);
    if r.Err? {
      return Fail(r.error);
    }
    ctx.claim := Some(r.value);
    ctx.claimFilepath := Some(ClaimDumpPath(feature, scenario));
    o := Pass;
  }

  // ---------------------------------------------------------------------------
  // Rendering
  // ---------------------------------------------------------------------------

  /** What the renderer is given: its arguments, the content of the claim file the arguments name (the context's
      claim, which is what that file holds), and the content of the observed-state file, if that exists. */
  datatype RenderRequest = RenderRequest(args: seq<string>, claim: Option<Document>, observed: Option<seq<Value>>)

  /** What the renderer gives back: its exit code, its output as a document stream (`None` when the output is not
      valid YAML), and its error text. */
  datatype RenderOutput = RenderOutput(exitCode: int, documents: Option<seq<Value>>, stderr: string)

  /** The snapshot once the arguments are prepared: a warm render merges the staged updates into it when it exists
      and the merge succeeds, even when a path is then found missing; otherwise it is as it was. */
  function PreparedSnapshot(withObserved: bool, desired: Option<map<string, Value>>,
                            updates: Option<map<string, Value>>): Option<map<string, Value>>
  {
    if withObserved && desired.Some? && ObservedInput(desired.value, updates).Ok?
    then Some(ObservedInput(desired.value, updates).value)
    else desired
  }

  /** `render`: prepares the arguments, runs the renderer, and on a clean exit replaces the snapshot with the
      renderer's output. */
  method Render(ctx: ScenarioContext, renderer: RenderRequest -> RenderOutput) returns (o: Outcome)
    modifies ctx`uid, ctx`desiredResources, ctx`observedFile, ctx`desiredXr
    ensures ctx.uid == Some(NextUid(old(ctx.uid)))
    ensures !old(ctx.renderWithObserved) ==> ctx.observedFile == old(ctx.observedFile)
    ensures var args := PlannedRenderArgs(old(ctx.renderWithObserved), old(ctx.desiredResources), ctx.updates,
                                          ctx.claimFilepath, ctx.compositionFilepath, ctx.functionsFilepath);
      && (args.Err? ==> o == Fail(args.error) && ctx.desiredXr == old(ctx.desiredXr))
      && (o.Fail? ==>
            ctx.desiredResources == PreparedSnapshot(old(ctx.renderWithObserved), old(ctx.desiredResources), ctx.updates))
      && (args.Ok? && old(ctx.renderWithObserved) ==>
            && ctx.observedFile.Some?
            && exists names :: ValuesInOrder(names, ctx.observedFile.value,
                                             ObservedInput(old(ctx.desiredResources).value, ctx.updates).value))
      && (args.Ok? ==>
            var out := renderer(RenderRequest(args.value, ctx.claim, ctx.observedFile));
            && (out.exitCode != 0 ==> o == Fail(RenderFailed(out.stderr)) && ctx.desiredXr == old(ctx.desiredXr))
            && (out.exitCode == 0 && out.documents.None? ==>
                  o == Fail(UnparsableOutput) && ctx.desiredXr == old(ctx.desiredXr))
            && (out.exitCode == 0 && out.documents.Some? ==>
                  var docs := out.documents.value;
                  && (o.Pass? <==> ReadDesiredOutput(docs).Ok?)
                  && (o.Pass? ==> ctx.desiredXr == Some(docs[0])
                                  && ctx.desiredResources == Some(ReadDesiredOutput(docs).value.1))
                  && (o.Fail? ==> o.error == ReadDesiredOutput(docs).error)
                  && (o.Fail? ==> ctx.desiredXr == if |docs| > 0 && docs[0].Dict? then Some(docs[0])
                                                  else old(ctx.desiredXr))))
  {
    var args := PrepareRenderArgs(ctx);
    if args.Err? {
      return Fail(args.error);
    }
    var out := renderer(RenderRequest(args.value, ctx.claim, ctx.observedFile));
    if out.exitCode != 0 {
      return Fail(RenderFailed(out.stderr));
    }
    if out.documents.None? {
      return Fail(UnparsableOutput);
    }
    o := ReadDesiredOutputIntoContext(ctx, out.documents.value);
  }

  // ---------------------------------------------------------------------------
  // Checks on the snapshot
  // ---------------------------------------------------------------------------

  /** `check_no_resources`: passes when no render has produced resources, or the last one produced none. */
  method CheckNoResources(ctx: ScenarioContext) returns (o: Outcome)
    ensures o.Pass? <==> ctx.desiredResources.None? || |ctx.desiredResources.value| == 0
    ensures o.Fail? ==> o.error == ResourcesPresent(ctx.desiredResources.value.Keys)
  {
    var desired := ctx.desiredResources;
    if desired.None? || |desired.value| == 0 {
      return Pass;
    }
    o := Fail(ResourcesPresent(desired.value.Keys));
  }

  /** `check_resource_count`: the snapshot must exist and hold exactly `count` resources. */
  method CheckResourceCount(ctx: ScenarioContext, count: int) returns (o: Outcome)
    ensures o.Pass? <==> ctx.desiredResources.Some? && |ctx.desiredResources.value| == count
    ensures ctx.desiredResources.None? ==> o == Fail(MissingAttribute("desired_resources"))
    ensures o.Fail? && ctx.desiredResources.Some? ==> o == Fail(CountMismatch(count, ctx.desiredResources.value.Keys))
  {
    var desired := GetFromContext(ctx.desiredResources, "desired_resources");
    if desired.Err? {
      return Fail(desired.error);
    }
    o := CheckResources(Some(desired.value), count, []);
  }

  /** `check_resource_count_and_names`: the count check, then every desired resource must be among the table's
      names. */
  method CheckResourceCountAndNames(ctx: ScenarioContext, count: int, names: seq<string>) returns (o: Outcome)
    ensures o.Pass? <==> ResourcesAsExpected(ctx.desiredResources, count, names)
    ensures ctx.desiredResources.None? ==> o == Fail(MissingAttribute("desired_resources"))
    ensures ctx.desiredResources.Some? && |ctx.desiredResources.value| != count ==>
      o == Fail(CountMismatch(count, ctx.desiredResources.value.Keys))
    ensures o.Fail? && ctx.desiredResources.Some? && |ctx.desiredResources.value| == count ==>
      o.error.UnexpectedResource? && o.error.name in ctx.desiredResources.value && o.error.name !in names
  {
    var desired := GetFromContext(ctx.desiredResources, "desired_resources");
    if desired.Err? {
      return Fail(desired.error);
    }
    o := CheckResources(Some(desired.value), count, names);
  }

  /** `check_no_resources` and the count check agree on an existing snapshot: none means a count of zero. */
  lemma NoResourcesMeansCountZero(desired: map<string, Value>)
    ensures ResourcesAsExpected(Some(desired), 0, []) <==> desired == map[]
  {
    if |desired| == 0 {
      assert desired.Keys == {};
    }
  }

  /** `check_resource_parameters`: the resource must be in the snapshot; each row's entry is checked against the
      row's raw text, in order, and the first mismatch fails the step. */
  method CheckResourceParameters(ctx: ScenarioContext, name: string, rows: seq<Row>) returns (o: Outcome)
    ensures GetResourceFromContext(ctx.desiredResources, name).Err? ==>
      o == Fail(GetResourceFromContext(ctx.desiredResources, name).error)
    ensures GetResourceFromContext(ctx.desiredResources, name).Ok? ==>
      var resource := GetResourceFromContext(ctx.desiredResources, name).value;
      && (o.Pass? <==>
            forall i :: 0 <= i < |rows| ==> AssertHasResourceEntry(resource, rows[i].name, Some(rows[i].value)).Pass?)
      && (o.Fail? ==> exists i :: (
            && 0 <= i < |rows|
            && o == AssertHasResourceEntry(resource, rows[i].name, Some(rows[i].value))
            && forall j :: 0 <= j < i ==> AssertHasResourceEntry(resource, rows[j].name, Some(rows[j].value)).Pass?))
  {
    var found := GetResourceFromContext(ctx.desiredResources, name);
    if found.Err? {
      return Fail(found.error);
    }
    var resource := found.value;
    var i := 0;
    while i < |rows|
      invariant 0 <= i <= |rows|
      invariant forall j :: 0 <= j < i ==> AssertHasResourceEntry(resource, rows[j].name, Some(rows[j].value)).Pass?
    {
      o := AssertHasResourceEntry(resource, rows[i].name, Some(rows[i].value));
      if o.Fail? {
        return;
      }
      i := i + 1;
    }
    o := Pass;
  }

  // ---------------------------------------------------------------------------
  // Staging observed status
  // ---------------------------------------------------------------------------

  /** The two keys of the dotted key the conditions are staged at, under the resource's name. */
  const StatusField: string := "status"
  const ConditionsField: string := "conditions"
  const StatusKey: string := StatusField + "." + ConditionsField

  /** The conditions a status word selects: a Ready and a Synced condition with the fixed timestamp, both true, with
      their success reasons, exactly when the word is "ready" in any case. */
  function StatusConditions(status: string): (r: Value)
    ensures r.List? && |r.items| == 2
    ensures Get(r.items[0], ["status"]) == Some(Str("True")) <==> Lower(status) == "ready"
    ensures Get(r.items[1], ["status"]) == Some(Str("True")) <==> Lower(status) == "ready"
    ensures Get(r.items[0], ["status"]) == Some(Str("False")) <==> Lower(status) != "ready"
    ensures Get(r.items[1], ["status"]) == Some(Str("False")) <==> Lower(status) != "ready"
    ensures Get(r.items[0], ["type"]) == Some(Str("Ready")) && Get(r.items[1], ["type"]) == Some(Str("Synced"))
    ensures Get(r.items[0], ["reason"]) == Some(Str(if Lower(status) == "ready" then "Available" else "Unavailable"))
    ensures Get(r.items[1], ["reason"]) ==
      Some(Str(if Lower(status) == "ready" then "ReconcileSuccess" else "ReconcileError"))
    ensures forall i :: 0 <= i < 2 ==>
      r.items[i].Dict? && r.items[i].entries.Keys == {"lastTransitionTime", "reason", "status", "type"}
      && Get(r.items[i], ["lastTransitionTime"]) == Some(Str(ConditionTimestamp))
  {
    var ready := Lower(status) == "ready";
    CreateFakeStatusConditions(ready, ready)
  }

  /** A dotted key made of two plain keys addresses them one level apart. */
  lemma TwoPlainKeys(a: string, b: string)
    requires PlainName(a) && PlainName(b)
    ensures KeyPath(a + "." + b) == [a, b]
  {
    KeyPathAppend(a, b);
    PlainKeyPath(a);
    PlainKeyPath(b);
  }

  /** A string without a dash holds no separator. */
  lemma NoDashIsPlain(s: string)
    requires '.' !in s && '-' !in s
    ensures PlainName(s)
  {
  }

  /** The status key sits two levels below the resource's own keypath, whatever the resource's name. */
  lemma StatusKeyPath(name: string)
    ensures StagePath(name, StatusKey) == KeyPath(name) + [StatusField, ConditionsField]
  {
    KeyPathAppend(name, StatusKey);
    NoDashIsPlain(StatusField);
    NoDashIsPlain(ConditionsField);
    TwoPlainKeys(StatusField, ConditionsField);
  }

  /** The update buffer after `set_resource_status` stages the conditions `cond` for `name`: the conditions written at
      `status -> conditions` below the resource's keypath. */
  function StageStatus(updates: Document, name: string, cond: Value): Document
  {
    Set(Dict(updates), KeyPath(name) + [StatusField, ConditionsField], cond).entries
  }

  /** Staging the one-row table `status.conditions` for a resource is writing the conditions there. */
  lemma StageStatusIsStaging(updates: Document, name: string, cond: Value)
    ensures Stage(updates, name, [(StatusKey, cond)]) == StageStatus(updates, name, cond)
  {
    var items := [(StatusKey, cond)];
    assert items[..0] == [];
    StatusKeyPath(name);
  }

  /** Staged conditions are found at the resource's status key, and everything outside the resource's own keypath is
      kept. */
  lemma StageStatusEffect(updates: Document, name: string, cond: Value)
    ensures Get(Dict(StageStatus(updates, name, cond)), KeyPath(name) + [StatusField, ConditionsField]) == Some(cond)
    ensures forall q :: Diverge(KeyPath(name), q) ==>
      Get(Dict(StageStatus(updates, name, cond)), q) == Get(Dict(updates), q)
  {
    var p := KeyPath(name) + [StatusField, ConditionsField];
    GetSet(Dict(updates), p, cond);
    forall q | Diverge(KeyPath(name), q)
      ensures Get(Dict(StageStatus(updates, name, cond)), q) == Get(Dict(updates), q)
    {
      var i :| 0 <= i < |KeyPath(name)| && i < |q| && KeyPath(name)[i] != q[i];
      assert p[i] == KeyPath(name)[i];
      GetSetElsewhere(Dict(updates), p, q, cond);
    }
  }

  /** The staging half of `set_resource_status`, once the conditions are chosen: they are staged at the status key
      of one resource of the snapshot. */
  method StageConditions(ctx: ScenarioContext, name: string, cond: Value) returns (o: Outcome)
    modifies ctx`updates
    ensures GetResourceFromContext(ctx.desiredResources, name).Err? ==>
      o == Fail(GetResourceFromContext(ctx.desiredResources, name).error) && ctx.updates == old(ctx.updates)
    ensures GetResourceFromContext(ctx.desiredResources, name).Ok? ==>
      o == Pass && ctx.updates == Some(StageStatus(old(ctx.updates).GetOr(map[]), name, cond))
  {
    StageStatusIsStaging(ctx.updates.GetOr(map[]), name, cond);
    o := UpdateResourceParams(ctx, name, [(StatusKey, cond)]);
  }

  /** `set_resource_status`: stages the conditions the status word selects for one resource of the snapshot. */
  method SetResourceStatus(ctx: ScenarioContext, name: string, status: string) returns (o: Outcome)
    modifies ctx`updates
    ensures GetResourceFromContext(ctx.desiredResources, name).Err? ==>
      o == Fail(GetResourceFromContext(ctx.desiredResources, name).error) && ctx.updates == old(ctx.updates)
    ensures GetResourceFromContext(ctx.desiredResources, name).Ok? ==>
      o == Pass && ctx.updates == Some(StageStatus(old(ctx.updates).GetOr(map[]), name, StatusConditions(status)))
  {
    var cond := StatusConditions(status);
    o := StageConditions(ctx, name, cond);
  }

  /** The update buffer after staging the same conditions for each name, in order. */
  function StagedStatuses(updates: Option<Document>, names: seq<string>, cond: Value): Option<Document>
    decreases |names|
  {
    if |names| == 0 then updates
    else
      var n := |names| - 1;
      Some(StageStatus(StagedStatuses(updates, names[..n], cond).GetOr(map[]), names[n], cond))
  }

  /** One staging step for a plain name: that name's status key now holds the conditions, and the status key of every
      other plain name reads as before. */
  lemma StatusStep(before: Document, last: string, n: string, cond: Value)
    requires PlainName(last) && PlainName(n)
    ensures Get(Dict(StageStatus(before, last, cond)), [n, StatusField, ConditionsField]) ==
      if n == last then Some(cond) else Get(Dict(before), [n, StatusField, ConditionsField])
  {
    StageStatusEffect(before, last, cond);
    PlainKeyPath(last);
    assert [last] + [StatusField, ConditionsField] == [last, StatusField, ConditionsField];
    if n != last {
      assert KeyPath(last)[0] != [n, StatusField, ConditionsField][0];
    }
  }

  /** After staging the conditions for several plain names, each of them carries them. */
  lemma {:induction false} StatusesReachEveryName(updates: Option<Document>, names: seq<string>, cond: Value)
    requires forall j :: 0 <= j < |names| ==> PlainName(names[j])
    ensures forall i :: 0 <= i < |names| ==>
      Get(Dict(StagedStatuses(updates, names, cond).GetOr(map[])), [names[i], StatusField, ConditionsField])
        == Some(cond)
    decreases |names|
  {
    if |names| > 0 {
      var n := |names| - 1;
      var init := names[..n];
      var last := names[n];
      var before := StagedStatuses(updates, init, cond).GetOr(map[]);
      assert StagedStatuses(updates, names, cond) == Some(StageStatus(before, last, cond));
      StatusesReachEveryName(updates, init, cond);
      forall i | 0 <= i < |names|
        ensures Get(Dict(StageStatus(before, last, cond)), [names[i], StatusField, ConditionsField]) == Some(cond)
      {
        StatusStep(before, last, names[i], cond);
        if names[i] != last {
          assert init[i] == names[i];
        }
      }
    }
  }

  /** The lookup `set_resource_status` and `update_resource_params` make succeeds for `name`. */
  predicate Found(desired: Option<map<string, Value>>, name: string)
  {
    GetResourceFromContext(desired, name).Ok?
  }

  /** The position of the first name the snapshot does not hold, or the number of names when it holds them all. */
  function FirstMissing(desired: Option<map<string, Value>>, names: seq<string>): (r: nat)
    ensures r <= |names|
    ensures forall j :: 0 <= j < r ==> Found(desired, names[j])
    ensures r < |names| ==> !Found(desired, names[r])
    decreases |names|
  {
    if |names| == 0 || !Found(desired, names[0]) then 0
    else
      var rest := FirstMissing(desired, names[1..]);
      assert forall j :: 1 <= j < rest + 1 ==> names[j] == names[1..][j - 1];
      rest + 1
  }

  /** The loop of `following_resources_are_ready` once the conditions are chosen: the conditions are staged for each
      listed name in order; the first name not in the snapshot stops it, leaving the names before it staged. */
  method StageConditionsEach(ctx: ScenarioContext, names: seq<string>, cond: Value) returns (o: Outcome)
    modifies ctx`updates
    ensures var k := FirstMissing(ctx.desiredResources, names);
      && (o.Pass? <==> k == |names|)
      && (o.Fail? ==> o == Fail(GetResourceFromContext(ctx.desiredResources, names[k]).error))
      && ctx.updates == StagedStatuses(old(ctx.updates), names[..k], cond)
  {
    ghost var desired := ctx.desiredResources;
    var i := 0;
    while i < |names|
      invariant 0 <= i <= |names|
      invariant ctx.desiredResources == desired
      invariant i <= FirstMissing(desired, names)
      invariant ctx.updates == StagedStatuses(old(ctx.updates), names[..i], cond)
    {
      assert names[..i + 1][..i] == names[..i];
      o := StageConditions(ctx, names[i], cond);
      if o.Fail? {
        assert FirstMissing(desired, names) == i;
        return;
      }
      i := i + 1;
    }
    assert FirstMissing(desired, names) == |names|;
    o := Pass;
  }

  /** `following_resources_are_ready`: the status word selects the conditions, which are then staged for each listed
      name in order; the first name not in the snapshot stops the step, leaving the names before it staged. */
  method FollowingResourcesAreReady(ctx: ScenarioContext, names: seq<string>, status: string) returns (o: Outcome)
    modifies ctx`updates
    ensures var k := FirstMissing(ctx.desiredResources, names);
      && (o.Pass? <==> k == |names|)
      && (o.Fail? ==> o == Fail(GetResourceFromContext(ctx.desiredResources, names[k]).error))
      && ctx.updates == StagedStatuses(old(ctx.updates), names[..k], StatusConditions(status))
  {
    var cond := StatusConditions(status);
    o := StageConditionsEach(ctx, names, cond);
  }

  /** `order` lists each of `keys` exactly once. */
  predicate Enumerates(order: seq<string>, keys: set<string>)
  {
    && (forall i, j :: 0 <= i < j < |order| ==> order[i] != order[j])
    && (forall k :: k in keys ==> k in order)
    && (forall i :: 0 <= i < |order| ==> order[i] in keys)
  }

  /** `all_resources_are_ready`: the snapshot must exist; the status is staged for every resource of it, in the
      snapshot's key order. A resource whose document is null is not found and stops the step. */
  method AllResourcesAreReady(ctx: ScenarioContext, status: string) returns (o: Outcome)
    modifies ctx`updates
    ensures ctx.desiredResources.None? ==> o == Fail(MissingAttribute("desired_resources")) && unchanged(ctx)
    ensures ctx.desiredResources.Some? ==>
      var desired := ctx.desiredResources.value;
      && (o.Pass? <==> forall k :: k in desired ==> desired[k] != Null)
      && (o.Fail? ==> exists k :: k in desired && desired[k] == Null && o == Fail(ResourceNotFound(k)))
      && (o.Pass? ==> exists order :: Enumerates(order, desired.Keys)
                        && ctx.updates == StagedStatuses(old(ctx.updates), order, StatusConditions(status)))
    ensures o.Pass? && (forall k :: k in ctx.desiredResources.value ==> PlainName(k)) ==>
      forall k :: k in ctx.desiredResources.value ==>
        Get(Dict(ctx.updates.GetOr(map[])), [k, StatusField, ConditionsField]) == Some(StatusConditions(status))
  {
    var found := GetFromContext(ctx.desiredResources, "desired_resources");
    if found.Err? {
      return Fail(found.error);
    }
    var desired := found.value;
    var names, docs := ResourceValues(desired);
    assert Enumerates(names, desired.Keys);
    o := FollowingResourcesAreReady(ctx, names, status);
    ghost var k := FirstMissing(ctx.desiredResources, names);
    if o.Fail? {
      assert desired[names[k]] == Null;
    } else {
      assert names[..k] == names;
      assert forall k :: k in desired ==> Found(ctx.desiredResources, k);
      if forall k :: k in desired ==> PlainName(k) {
        StatusesReachEveryName(old(ctx.updates), names, StatusConditions(status));
      }
    }
  }

  // ---------------------------------------------------------------------------
  // Staging observed parameters
  // ---------------------------------------------------------------------------

  /** An insertion-ordered dictionary: its keys in insertion order, and its entries. */
  datatype Table = Table(order: seq<string>, values: map<string, Value>)

  /** `d[k] = v`: a new key goes last, a known key keeps its place and takes the new value. */
  function Assign(t: Table, k: string, v: Value): (r: Table)
    requires Enumerates(t.order, t.values.Keys)
    ensures Enumerates(r.order, r.values.Keys)
    ensures r.values == t.values[k := v]
    ensures k in t.values ==> r.order == t.order
    ensures k !in t.values ==> r.order == t.order + [k]
  {
    if k in t.values then Table(t.order, t.values[k := v])
    else Table(t.order + [k], t.values[k := v])
  }

  /** The dictionary `resource_is_updated_with` builds from the table: one entry per name, in the order the names
      first appear, holding the raw text of the last row with that name. */
  function Collapse(rows: seq<Row>): (r: Table)
    ensures Enumerates(r.order, r.values.Keys)
    ensures r.values.Keys == set i | 0 <= i < |rows| :: rows[i].name
    decreases |rows|
  {
    if |rows| == 0 then Table([], map[])
    else
      var n := |rows| - 1;
      assert forall i :: 0 <= i < n ==> rows[..n][i] == rows[i];
      assert (set i | 0 <= i < |rows| :: rows[i].name) == (set i | 0 <= i < n :: rows[..n][i].name) + {rows[n].name};
      Assign(Collapse(rows[..n]), rows[n].name, Str(rows[n].value))
  }

  /** The values of the table alone: each row assigns its name in turn. */
  function LastValues(rows: seq<Row>): map<string, Value>
    decreases |rows|
  {
    if |rows| == 0 then map[]
    else
      var n := |rows| - 1;
      LastValues(rows[..n])[rows[n].name := Str(rows[n].value)]
  }

  /** The table's values are the rows assigned in turn. */
  lemma {:induction false} CollapseValues(rows: seq<Row>)
    ensures Collapse(rows).values == LastValues(rows)
    decreases |rows|
  {
    if |rows| > 0 {
      CollapseValues(rows[..|rows| - 1]);
    }
  }

  /** A row not overwritten by a later row of the same name is what the assignments leave under its name. */
  lemma {:induction false} LastValueWins(rows: seq<Row>, i: int)
    requires 0 <= i < |rows|
    requires forall j :: i < j < |rows| ==> rows[j].name != rows[i].name
    ensures rows[i].name in LastValues(rows) && LastValues(rows)[rows[i].name] == Str(rows[i].value)
    decreases |rows|
  {
    var n := |rows| - 1;
    if i < n {
      var init := rows[..n];
      assert init[i] == rows[i];
      assert forall j :: i < j < n ==> init[j] == rows[j];
      LastValueWins(init, i);
    }
  }

  /** Later rows win: a name maps to the text of its last row. */
  lemma CollapseLastWins(rows: seq<Row>, i: int)
    requires 0 <= i < |rows|
    requires forall j :: i < j < |rows| ==> rows[j].name != rows[i].name
    ensures rows[i].name in Collapse(rows).values
    ensures Collapse(rows).values[rows[i].name] == Str(rows[i].value)
  {
    LastValueWins(rows, i);
    CollapseValues(rows);
  }

  /** The pairs of a table, in its order. */
  function Items(t: Table): (r: seq<(string, Value)>)
    requires forall i :: 0 <= i < |t.order| ==> t.order[i] in t.values
    ensures |r| == |t.order|
    ensures forall i :: 0 <= i < |r| ==> r[i] == (t.order[i], t.values[t.order[i]])
    decreases |t.order|
  {
    if |t.order| == 0 then []
    else [(t.order[0], t.values[t.order[0]])] + Items(Table(t.order[1..], t.values))
  }

  /** `resource_is_updated_with`: the rows are collapsed by name, later rows winning, and staged as raw text, without
      parsing table values. */
  method ResourceIsUpdatedWith(ctx: ScenarioContext, name: string, rows: seq<Row>) returns (o: Outcome)
    modifies ctx`updates
    ensures GetResourceFromContext(ctx.desiredResources, name).Err? ==>
      o == Fail(GetResourceFromContext(ctx.desiredResources, name).error) && ctx.updates == old(ctx.updates)
    ensures GetResourceFromContext(ctx.desiredResources, name).Ok? ==>
      o == Pass && ctx.updates == Some(Stage(old(ctx.updates).GetOr(map[]), name, Items(Collapse(rows))))
  {
    var updates := Table([], map[]);
    var i := 0;
    while i < |rows|
      invariant 0 <= i <= |rows|
      invariant updates == Collapse(rows[..i])
    {
      assert rows[..i + 1][..i] == rows[..i];
      updates := Assign(updates, rows[i].name, Str(rows[i].value));
      i := i + 1;
    }
    assert rows[..|rows|] == rows;
    o := UpdateResourceParams(ctx, name, Items(updates));
  }

  /** Collapsing rows with plain names gives a table with plain keys. */
  lemma {:induction false} CollapsePlain(rows: seq<Row>)
    requires forall j :: 0 <= j < |rows| ==> PlainName(rows[j].name)
    ensures forall i :: 0 <= i < |Collapse(rows).order| ==> PlainName(Collapse(rows).order[i])
    decreases |rows|
  {
    if |rows| > 0 {
      var n := |rows| - 1;
      assert forall j :: 0 <= j < n ==> rows[..n][j] == rows[j];
      CollapsePlain(rows[..n]);
    }
  }

  /** With plain parameter names, each name's last text is in the buffer at the resource's key for that name. */
  lemma TableRowsReachBuffer(base: Document, name: string, rows: seq<Row>, i: int)
    requires forall j :: 0 <= j < |rows| ==> PlainName(rows[j].name)
    requires 0 <= i < |rows|
    requires forall j :: i < j < |rows| ==> rows[j].name != rows[i].name
    ensures Get(Dict(Stage(base, name, Items(Collapse(rows)))), StagePath(name, rows[i].name))
      == Some(Str(rows[i].value))
  {
    var t := Collapse(rows);
    var items := Items(t);
    var key := rows[i].name;
    CollapseLastWins(rows, i);
    CollapsePlain(rows);
    var m :| 0 <= m < |t.order| && t.order[m] == key;
    forall j | m < j < |items|
      ensures Diverge(StagePath(name, items[j].0), StagePath(name, items[m].0))
    {
      DistinctPlainKeysDiverge(name, t.order[j], key);
    }
    StagedEntryHeld(base, name, items, m);
  }

  /** `set_resource_status_and_parameters`: stages the status, then the table; a resource missing from the snapshot
      stops the step before anything is staged. */
  method SetResourceStatusAndParameters(ctx: ScenarioContext, name: string, status: string, rows: seq<Row>)
    returns (o: Outcome)
    modifies ctx`updates
    ensures GetResourceFromContext(ctx.desiredResources, name).Err? ==>
      o == Fail(GetResourceFromContext(ctx.desiredResources, name).error) && ctx.updates == old(ctx.updates)
    ensures GetResourceFromContext(ctx.desiredResources, name).Ok? ==>
      && o == Pass
      && ctx.updates == Some(Stage(StageStatus(old(ctx.updates).GetOr(map[]), name, StatusConditions(status)),
                                   name, Items(Collapse(rows))))
  {
    o := SetResourceStatus(ctx, name, status);
    if o.Fail? {
      return;
    }
    o := ResourceIsUpdatedWith(ctx, name, rows);
  }
}
