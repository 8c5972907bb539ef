/**
 * The helpers of steps/utils/utils.py: fake status conditions, the render-argument
 * assembler with its warm-render merge, context lookups, the render-output parser,
 * the table-value command parser, the deep merge, the iteration counter and the reset.
 */
module Utils {
  import opened Wrappers
  import opened Strings
  import opened Paths
  import opened Documents
  import opened Context

  // ---------------------------------------------------------------------------
  // Fake status conditions
  // ---------------------------------------------------------------------------

  /** The fixed transition time every fake condition carries. */
  const ConditionTimestamp: string := "2023-11-24T15:29:59Z"

  /** One status condition with the four fields the renderer reads. */
  function Condition(kind: string, status: bool, reason: string): Value
  {
    Dict(map[
      "lastTransitionTime" := Str(ConditionTimestamp),
      "reason" := Str(reason),
      "status" := Str(if status then "True" else "False"),
      "type" := Str(kind)])
  }

  /** The two conditions a managed resource reports: Ready first, then Synced, each set independently. */
  function CreateFakeStatusConditions(ready: bool, synced: bool): (r: Value)
    ensures r.List? && |r.items| == 2
    ensures forall i :: 0 <= i < 2 ==>
      r.items[i].Dict? && r.items[i].entries.Keys == {"lastTransitionTime", "reason", "status", "type"}
      && Get(r.items[i], ["lastTransitionTime"]) == Some(Str(ConditionTimestamp))
    ensures Get(r.items[0], ["type"]) == Some(Str("Ready"))
    ensures Get(r.items[1], ["type"]) == Some(Str("Synced"))
    ensures Get(r.items[0], ["status"]) == Some(Str("True")) <==> ready
    ensures Get(r.items[0], ["status"]) == Some(Str("False")) <==> !ready
    ensures Get(r.items[0], ["reason"]) == Some(Str(if ready then "Available" else "Unavailable"))
    ensures Get(r.items[1], ["status"]) == Some(Str("True")) <==> synced
    ensures Get(r.items[1], ["status"]) == Some(Str("False")) <==> !synced
    ensures Get(r.items[1], ["reason"]) == Some(Str(if synced then "ReconcileSuccess" else "ReconcileError"))
  {
    List([
      Condition("Ready", ready, if ready then "Available" else "Unavailable"),
      Condition("Synced", synced, if synced then "ReconcileSuccess" else "ReconcileError")])
  }

  // ---------------------------------------------------------------------------
  // Context lookups
  // ---------------------------------------------------------------------------

  /** A context attribute that must be set: its value, or a failure naming the attribute. */
  function GetFromContext<T>(attr: Option<T>, name: string): (r: Result<T>)
    ensures r.Ok? <==> attr.Some?
    ensures r.Ok? ==> r.value == attr.value
    ensures r.Err? ==> r.error == MissingAttribute(name)
  {
    if attr.Some? then Ok(attr.value) else Err(MissingAttribute(name))
  }

  /** A resource of the current snapshot by name; fails when there is no snapshot, or when the lookup finds no
      resource: the name is absent or its document is null. */
  function GetResourceFromContext(desired: Option<map<string, Value>>, name: string): (r: Result<Value>)
    ensures r.Ok? <==> desired.Some? && name in desired.value && desired.value[name] != Null
    ensures r.Ok? ==> r.value == desired.value[name]
    ensures desired.None? ==> r == Err(MissingAttribute("desired_resources"))
    ensures desired.Some? && r.Err? ==> r == Err(ResourceNotFound(name))
  {
    match GetFromContext(desired, "desired_resources")
    case Err(e) => Err(e)
    case Ok(resources) =>
      if name in resources && resources[name] != Null then Ok(resources[name]) else Err(ResourceNotFound(name))
  }

  /** The entry of a resource at a dotted user key; `None` when the key path leads nowhere. A key without dots or
      separators reads the resource's own entry of that name. */
  function GetResourceEntry(resource: Value, key: string): (r: Option<Value>)
    ensures '.' !in key && !HasSeparator(key) ==>
      r == if key in Entries(resource) then Some(Entries(resource)[key]) else None
    ensures !resource.Dict? ==> r == None
  {
    if '.' !in key && !HasSeparator(key) then
      PlainKeyPath(key);
      GetOneKey(resource, key);
      Get(resource, KeyPath(key))
    else
      Get(resource, KeyPath(key))
  }

  // ---------------------------------------------------------------------------
  // Render-output parsing
  // ---------------------------------------------------------------------------

  /** The annotation under which the renderer names each composed resource. */
  const ResourceNameAnnotation: string := "crossplane.io/composition-resource-name"

  /** A document's resource name: its metadata, its annotations, then the name annotation, looked up key by key. */
  function ResourceName(doc: Value): Option<string>
  {
    match Get(doc, ["metadata", "annotations", ResourceNameAnnotation])
    case Some(Str(name)) => Some(name)
    case _ => None
  }

  /** Every document carries a resource name. */
  predicate AllNamed(docs: seq<Value>)
  {
    forall i :: 0 <= i < |docs| ==> ResourceName(docs[i]).Some?
  }

  /** Managed-resource documents keyed by their resource names, later documents overwriting earlier ones with the
      same name. `offset` is the position of `docs[0]` in the whole output, for the error of a nameless document. */
  function IndexByName(docs: seq<Value>, offset: nat): (r: Result<map<string, Value>>)
    ensures r.Ok? <==> AllNamed(docs)
    decreases |docs|
  {
    if |docs| == 0 then Ok(map[])
    else
      var init := docs[..|docs| - 1];
      var last := docs[|docs| - 1];
      assert forall i :: 0 <= i < |init| ==> init[i] == docs[i];
      match IndexByName(init, offset)
      case Err(e) => Err(e)
      case Ok(m) =>
        match ResourceName(last)
        case None => Err(MissingResourceName(offset + |docs| - 1))
        case Some(n) => Ok(m[n := last])
  }

  /** No later document carries the same resource name as `docs[i]`. */
  predicate LastWithName(docs: seq<Value>, i: int)
    requires 0 <= i < |docs|
  {
    forall j :: i < j < |docs| ==> ResourceName(docs[j]) != ResourceName(docs[i])
  }

  /** The failure names the position of the first document without a resource name. */
  lemma {:induction false} IndexByNameFirstError(docs: seq<Value>, offset: nat)
    requires !AllNamed(docs)
    ensures exists i :: (0 <= i < |docs| && ResourceName(docs[i]).None? && AllNamed(docs[..i])
                         && IndexByName(docs, offset) == Err(MissingResourceName(offset + i)))
    decreases |docs|
  {
    var init := docs[..|docs| - 1];
    assert forall i :: 0 <= i < |init| ==> init[i] == docs[i];
    if AllNamed(init) {
      var i := |docs| - 1;
      assert docs[..i] == init;
      assert ResourceName(docs[i]).None?;
    } else {
      IndexByNameFirstError(init, offset);
      var i :| 0 <= i < |init| && ResourceName(init[i]).None? && AllNamed(init[..i])
               && IndexByName(init, offset) == Err(MissingResourceName(offset + i));
      assert docs[..i] == init[..i];
    }
  }

  /** The index holds exactly the names the documents carry, each bound to the last document carrying it. */
  lemma IndexByNameContents(docs: seq<Value>, offset: nat)
    requires AllNamed(docs)
    ensures forall n :: n in IndexByName(docs, offset).value <==>
      exists i :: 0 <= i < |docs| && ResourceName(docs[i]) == Some(n)
    ensures forall i :: 0 <= i < |docs| && LastWithName(docs, i) ==>
      IndexByName(docs, offset).value[ResourceName(docs[i]).value] == docs[i]
  {
    IndexByNameKeys(docs, offset);
    IndexByNameValues(docs, offset);
  }

  /** The names the index holds are the names the documents carry. */
  lemma {:induction false} IndexByNameKeys(docs: seq<Value>, offset: nat)
    requires AllNamed(docs)
    ensures forall n :: n in IndexByName(docs, offset).value <==>
      exists i :: 0 <= i < |docs| && ResourceName(docs[i]) == Some(n)
    decreases |docs|
  {
    if |docs| > 0 {
      var init := docs[..|docs| - 1];
      var last := docs[|docs| - 1];
      assert forall i :: 0 <= i < |init| ==> init[i] == docs[i];
      IndexByNameKeys(init, offset);
      var m := IndexByName(init, offset).value;
      assert IndexByName(docs, offset).value == m[ResourceName(last).value := last];
    }
  }

  /** A document that no later document shadows is what the index holds under its name. */
  lemma {:induction false} IndexByNameValues(docs: seq<Value>, offset: nat)
    requires AllNamed(docs)
    ensures forall i :: 0 <= i < |docs| && LastWithName(docs, i) ==>
      && ResourceName(docs[i]).value in IndexByName(docs, offset).value
      && IndexByName(docs, offset).value[ResourceName(docs[i]).value] == docs[i]
    decreases |docs|
  {
    if |docs| > 0 {
      var init := docs[..|docs| - 1];
      var last := docs[|docs| - 1];
      assert forall i :: 0 <= i < |init| ==> init[i] == docs[i];
      IndexByNameValues(init, offset);
      var m := IndexByName(init, offset).value;
      var n := ResourceName(last).value;
      assert IndexByName(docs, offset).value == m[n := last];
      forall i | 0 <= i < |docs| && LastWithName(docs, i)
        ensures ResourceName(docs[i]).value in IndexByName(docs, offset).value
        ensures IndexByName(docs, offset).value[ResourceName(docs[i]).value] == docs[i]
      {
        if i < |init| {
          assert ResourceName(docs[i]) != ResourceName(last);
          assert LastWithName(init, i);
        }
      }
    }
  }

  /** The snapshot a render output describes: the first document is the composite, which must be a mapping to be
      wrapped in the keypath store; the rest are named resources. */
  function ReadDesiredOutput(docs: seq<Value>): (r: Result<(Value, map<string, Value>)>)
    ensures |docs| == 0 ==> r == Err(NoDesiredState)
    ensures |docs| > 0 && !docs[0].Dict? ==> r == Err(CompositeNotMapping)
    ensures r.Ok? <==> |docs| > 0 && docs[0].Dict? && AllNamed(docs[1..])
    ensures r.Ok? ==> r.value.0 == docs[0] && r.value.1 == IndexByName(docs[1..], 1).value
  {
    if |docs| == 0 then Err(NoDesiredState)
    else if !docs[0].Dict? then Err(CompositeNotMapping)
    else
      match IndexByName(docs[1..], 1)
      case Err(e) => Err(e)
      case Ok(resources) => Ok((docs[0], resources))
  }

  /** Stores a parsed render output in the context. The composite is stored before the resources are named, so a
      nameless resource leaves the new composite beside the old resources. An empty output, or a composite that is
      not a mapping, changes nothing. */
  method ReadDesiredOutputIntoContext(ctx: ScenarioContext, docs: seq<Value>) returns (o: Outcome)
    modifies ctx`desiredXr, ctx`desiredResources
    ensures |docs| == 0 ==> o == Fail(NoDesiredState) && unchanged(ctx)
    ensures |docs| > 0 && !docs[0].Dict? ==> o == Fail(CompositeNotMapping) && unchanged(ctx)
    ensures |docs| > 0 && docs[0].Dict? ==> ctx.desiredXr == Some(docs[0])
    ensures o.Pass? <==> ReadDesiredOutput(docs).Ok?
    ensures o.Pass? ==> ctx.desiredResources == Some(ReadDesiredOutput(docs).value.1)
    ensures o.Fail? ==> ctx.desiredResources == old(ctx.desiredResources)
    ensures o.Fail? && |docs| > 0 && docs[0].Dict? ==> o.error == IndexByName(docs[1..], 1).error
  {
    if |docs| == 0 {
      return Fail(NoDesiredState);
    }
    if !docs[0].Dict? {
      return Fail(CompositeNotMapping);
    }
    ctx.desiredXr := Some(docs[0]);
    var named := IndexByName(docs[1..], 1);
    if named.Err? {
      return Fail(named.error);
    }
    ctx.desiredResources := Some(named.value);
    o := Pass;
  }

  // ---------------------------------------------------------------------------
  // Table-value commands
  // ---------------------------------------------------------------------------

  /** The only command a table value may carry. */
  const ListCommand: string := "\\list"

  function Strs(texts: seq<string>): (r: seq<Value>)
    ensures |r| == |texts| && forall i :: 0 <= i < |r| ==> r[i] == Str(texts[i])
  {
    if |texts| == 0 then [] else [Str(texts[0])] + Strs(texts[1..])
  }

  /** A stripped table value: plain text stays text; `\list a,b` becomes the list of the comma-separated pieces,
      untrimmed; any other backslash command, or a command with no space after it, fails. */
  function ParseCommand(v: string): (r: Result<Value>)
    ensures !StartsWith(v, '\\') ==> r == Ok(Str(v))
    ensures StartsWith(v, '\\') && ' ' !in v ==> r == Err(MissingCommandArguments)
    ensures r.Ok? && StartsWith(v, '\\') ==>
      |v| >= 6 && v[..6] == ListCommand + " " && r.value == List(Strs(Split(v[6..], ',')))
    ensures r.Err? && r.error.UnknownCommand? ==>
      var cmd := r.error.cmd;
      cmd != ListCommand && StartsWith(cmd, '\\') && ' ' !in cmd && |cmd| < |v| && v[..|cmd| + 1] == cmd + " "
  {
    if !StartsWith(v, '\\') then Ok(Str(v))
    else
      match SplitOnce(v, ' ')
      case NoSplit => Err(MissingCommandArguments)
      case Halves(cmd, args) =>
        assert v[..|cmd| + 1] == cmd + " ";
        if cmd == ListCommand then
          assert v[6..] == args;
          Ok(List(Strs(Split(args, ','))))
        else
          assert |cmd| > 0 && cmd[0] == v[0];
          Err(UnknownCommand(cmd))
  }

  /** `parse_value_cmd`: the value is stripped first, so plain text comes back without surrounding whitespace. */
  function ParseValueCmd(value: string): (r: Result<Value>)
    ensures !StartsWith(Strip(value), '\\') ==> r == Ok(Str(Strip(value)))
    ensures StartsWith(Strip(value), '\\') ==> r == ParseCommand(Strip(value))
    ensures r.Ok? && r.value.Str? && |r.value.s| > 0 ==>
      !IsSpace(r.value.s[0]) && !IsSpace(r.value.s[|r.value.s| - 1])
  {
    var v := Strip(value);
    var r := ParseCommand(v);
    assert r.Ok? && r.value.Str? ==> !StartsWith(v, '\\') && r.value.s == v;
    r
  }

  /** The text of each element of a `\list` value. */
  function Texts(items: seq<Value>): (r: seq<string>)
    ensures |r| == |items|
  {
    if |items| == 0 then [] else [if items[0].Str? then items[0].s else ""] + Texts(items[1..])
  }

  lemma {:induction false} TextsOfStrs(texts: seq<string>)
    ensures Texts(Strs(texts)) == texts
  {
    if |texts| > 0 {
      TextsOfStrs(texts[1..]);
    }
  }

  /** The elements of a parsed `\list` value, joined with commas, give back the text after the command. */
  lemma ListJoinsBack(value: string)
    requires ParseValueCmd(value).Ok? && ParseValueCmd(value).value.List?
    ensures Join(Texts(ParseValueCmd(value).value.items), ',') == Strip(value)[6..]
  {
    var v := Strip(value);
    assert StartsWith(v, '\\');
    TextsOfStrs(Split(v[6..], ','));
    JoinSplit(v[6..], ',');
  }

  /** Writing `\list ` before comma-joined pieces is parsed back into exactly those pieces, provided the text does
      not end in whitespace (which `strip` would remove). */
  lemma ListRoundTrip(pieces: seq<string>)
    requires |pieces| >= 1
    requires forall i :: 0 <= i < |pieces| ==> ',' !in pieces[i]
    requires |Join(pieces, ',')| > 0 && !IsSpace(Join(pieces, ',')[|Join(pieces, ',')| - 1])
    ensures ParseValueCmd(ListCommand + " " + Join(pieces, ',')) == Ok(List(Strs(pieces)))
  {
    ListTextStripped(Join(pieces, ','));
    ParseListCommand(pieces);
  }

  /** `\list ` before text that does not end in whitespace is already stripped, and starts a command. */
  lemma ListTextStripped(j: string)
    requires |j| > 0 && !IsSpace(j[|j| - 1])
    ensures Strip(ListCommand + " " + j) == ListCommand + " " + j
    ensures StartsWith(ListCommand + " " + j, '\\')
  {
    var v := ListCommand + " " + j;
    assert v[0] == '\\' && v[|v| - 1] == j[|j| - 1];
  }

  /** The command parser reads `\list ` before comma-joined pieces as exactly those pieces. */
  lemma ParseListCommand(pieces: seq<string>)
    requires |pieces| >= 1
    requires forall i :: 0 <= i < |pieces| ==> ',' !in pieces[i]
    ensures ParseCommand(ListCommand + " " + Join(pieces, ',')) == Ok(List(Strs(pieces)))
  {
    var j := Join(pieces, ',');
    assert ListCommand + " " + j == ListCommand + [' '] + j;
    SplitOnceAround(ListCommand, j, ' ');
    SplitJoin(pieces, ',');
  }

  // ---------------------------------------------------------------------------
  // Deep merge
  // ---------------------------------------------------------------------------

  /** The merge of `u[k]` into `d` can proceed at key `k`: where a non-empty mapping meets an existing value, that
      value is a mapping that can take it in turn. Elsewhere the merge would index into a non-mapping and raise. */
  predicate MergeableAt(d: map<string, Value>, u: map<string, Value>, k: string)
    requires k in u
    decreases Dict(u), 0
  {
    u[k].Dict? && u[k].entries != map[] && k in d ==>
      d[k].Dict? && Mergeable(d[k].entries, u[k].entries)
  }

  predicate Mergeable(d: map<string, Value>, u: map<string, Value>)
    decreases Dict(u), 1
  {
    forall k :: k in u ==> MergeableAt(d, u, k)
  }

  /** The merged value at a key that `u` holds. */
  function MergeEntry(d: map<string, Value>, u: map<string, Value>, k: string): Value
    requires k in u && MergeableAt(d, u, k)
    decreases Dict(u), 0
  {
    if !u[k].Dict? then u[k]
    else if k in d && !d[k].Dict? then d[k]
    else Dict(DeepMerge(if k in d then d[k].entries else map[], u[k].entries))
  }

  /** `d` after the recursive merge of `u`: mappings merge key by key, anything else (lists included) overwrites. */
  function DeepMerge(d: map<string, Value>, u: map<string, Value>): (r: map<string, Value>)
    requires Mergeable(d, u)
    ensures r.Keys == d.Keys + u.Keys
    ensures forall k :: k in d && k !in u ==> r[k] == d[k]
    decreases Dict(u), 1
  {
    map k | k in d.Keys + u.Keys :: if k in u then MergeEntry(d, u, k) else d[k]
  }

  /** What the merge keeps and what it overwrites, key by key. */
  lemma MergeKeys(d: map<string, Value>, u: map<string, Value>)
    requires Mergeable(d, u)
    ensures DeepMerge(d, u).Keys == d.Keys + u.Keys
    ensures forall k :: k in d && k !in u ==> DeepMerge(d, u)[k] == d[k]
    ensures forall k :: k in u && !u[k].Dict? ==> DeepMerge(d, u)[k] == u[k]
    ensures forall k :: k in u && u[k].Dict? && (k in d ==> d[k].Dict?) ==>
      && Mergeable(if k in d then d[k].entries else map[], u[k].entries)
      && DeepMerge(d, u)[k] == Dict(DeepMerge(if k in d then d[k].entries else map[], u[k].entries))
    ensures forall k :: k in u && u[k].Dict? && k in d && !d[k].Dict? ==>
      u[k].entries == map[] && DeepMerge(d, u)[k] == d[k]
  {
    forall k | k in u
      ensures MergeableAt(d, u, k) && DeepMerge(d, u)[k] == MergeEntry(d, u, k)
    {
    }
  }

  /** Merging the same updates a second time changes nothing. */
  lemma {:induction false} MergeIdempotent(d: map<string, Value>, u: map<string, Value>)
    requires Mergeable(d, u)
    ensures Mergeable(DeepMerge(d, u), u)
    ensures DeepMerge(DeepMerge(d, u), u) == DeepMerge(d, u)
    decreases Dict(u)
  {
    var r := DeepMerge(d, u);
    forall k | k in u
      ensures MergeableAt(r, u, k) && MergeEntry(r, u, k) == r[k]
    {
      assert MergeableAt(d, u, k) && r[k] == MergeEntry(d, u, k);
      if u[k].Dict? {
        if k in d && !d[k].Dict? {
          assert u[k].entries == map[];
        } else {
          var dk := if k in d then d[k].entries else map[];
          assert r[k] == Dict(DeepMerge(dk, u[k].entries));
          MergeIdempotent(dk, u[k].entries);
        }
      }
    }
    assert Mergeable(r, u);
    var rr := DeepMerge(r, u);
    forall k | k in r
      ensures k in rr && rr[k] == r[k]
    {
      if k in u {
        assert rr[k] == MergeEntry(r, u, k);
      }
    }
    assert rr.Keys == r.Keys;
  }

  /** An entry staged in the updates reaches the merged document at the same keypath, unless it is a mapping
      (mappings merge rather than replace). */
  lemma {:induction false} MergeDelivers(d: map<string, Value>, u: map<string, Value>, p: seq<string>, x: Value)
    requires Mergeable(d, u)
    requires Get(Dict(u), p) == Some(x) && !x.Dict?
    ensures Get(Dict(DeepMerge(d, u)), p) == Some(x)
    decreases |p|
  {
    assert |p| > 0;
    var k := p[0];
    assert k in u;
    var r := DeepMerge(d, u);
    assert MergeableAt(d, u, k) && r[k] == MergeEntry(d, u, k);
    if |p| > 1 {
      assert u[k].Dict? && p[1] in u[k].entries;
      var dk := if k in d then d[k].entries else map[];
      assert r[k] == Dict(DeepMerge(dk, u[k].entries));
      MergeDelivers(dk, u[k].entries, p[1..], x);
    }
  }

  /** An entry of the target survives the merge when the updates hold nothing at its keypath and only mappings
      above it: the merge descends into mappings rather than replacing them. */
  lemma {:induction false} MergeKeepsTarget(d: map<string, Value>, u: map<string, Value>, p: seq<string>, x: Value)
    requires Mergeable(d, u)
    requires Get(Dict(d), p) == Some(x) && Get(Dict(u), p) == None
    requires forall i :: 0 < i < |p| && Get(Dict(u), p[..i]).Some? ==> Get(Dict(u), p[..i]).value.Dict?
    ensures Get(Dict(DeepMerge(d, u)), p) == Some(x)
    decreases |p|
  {
    assert |p| > 0;
    var k := p[0];
    assert k in d;
    var r := DeepMerge(d, u);
    if k in u {
      assert |p| > 1;
      assert p[..1] == [k];
      assert Get(Dict(u), p[..1]) == Some(u[k]);
      assert p[1] in Entries(d[k]);
      assert MergeableAt(d, u, k) && r[k] == MergeEntry(d, u, k);
      var dk, uk := d[k].entries, u[k].entries;
      assert r[k] == Dict(DeepMerge(dk, uk));
      forall i | 0 < i < |p[1..]| && Get(Dict(uk), p[1..][..i]).Some?
        ensures Get(Dict(uk), p[1..][..i]).value.Dict?
      {
        assert p[..i + 1][1..] == p[1..][..i];
        assert Get(Dict(u), p[..i + 1]) == Get(Dict(uk), p[1..][..i]);
      }
      MergeKeepsTarget(dk, uk, p[1..], x);
    }
  }

  /** The imperative merge: walks the keys of `u`, recursing into mappings and overwriting the rest. It reports
      failure exactly where the merge would raise on a non-mapping target. */
  method DeepUpdate(d: map<string, Value>, u: map<string, Value>) returns (ok: bool, r: map<string, Value>)
    ensures ok <==> Mergeable(d, u)
    ensures ok ==> r == DeepMerge(d, u)
    decreases Dict(u), 1
  {
    r := d;
    var todo := u.Keys;
    while todo != {}
      invariant todo <= u.Keys
      invariant r.Keys == d.Keys + (u.Keys - todo)
      invariant forall k :: k in d && k !in u.Keys - todo ==> r[k] == d[k]
      invariant forall k :: k in u.Keys - todo ==> MergeableAt(d, u, k) && r[k] == MergeEntry(d, u, k)
      decreases todo
    {
      var k :| k in todo;
      var entryOk, entry := UpdateEntry(d, u, k, if k in r then Some(r[k]) else None);
      if !entryOk {
        return false, r;
      }
      r := r[k := entry];
      todo := todo - {k};
    }
    ok := true;
    assert Mergeable(d, u);
    var merged := DeepMerge(d, u);
    forall k | k in r
      ensures k in merged && merged[k] == r[k]
    {
      if k in u {
        assert merged[k] == MergeEntry(d, u, k);
      }
    }
    assert r == merged;
  }

  /** One key of the walk: `current` is what the target holds at `k` so far, which is what `d` holds there. A
      mapping is merged into a mapping, an empty mapping leaves a non-mapping alone, and a non-empty one raises. */
  method UpdateEntry(d: map<string, Value>, u: map<string, Value>, k: string, current: Option<Value>)
    returns (ok: bool, entry: Value)
    requires k in u
    requires current == (if k in d then Some(d[k]) else None)
    ensures ok <==> MergeableAt(d, u, k)
    ensures ok ==> entry == MergeEntry(d, u, k)
    decreases Dict(u), 0
  {
    var v := u[k];
    if !v.Dict? {
      return true, v;
    }
    var target := current.GetOr(Dict(map[]));
    if !target.Dict? {
      return v.entries == map[], target;
    }
    var subOk, sub := DeepUpdate(target.entries, v.entries);
    ok, entry := subOk, Dict(sub);
  }

  // ---------------------------------------------------------------------------
  // Render arguments
  // ---------------------------------------------------------------------------

  /** The scratch file that carries the observed state to the renderer. */
  const ObservedFilePath: string := "/tmp/observed.yaml"

  /** The renderer's argument vector. The three paths are read in order; a missing one stops the render. */
  function RenderArgs(claimPath: Option<string>, compositionPath: Option<Path>, functionsPath: Option<Path>,
                      withObserved: bool): (r: Result<seq<string>>)
    ensures r.Ok? <==> claimPath.Some? && compositionPath.Some? && functionsPath.Some?
    ensures claimPath.None? ==> r == Err(MissingAttribute("claim_filepath"))
    ensures claimPath.Some? && compositionPath.None? ==> r == Err(MissingAttribute("composition_filepath"))
    ensures claimPath.Some? && compositionPath.Some? && functionsPath.None? ==>
      r == Err(MissingAttribute("functions_filepath"))
    ensures r.Ok? ==> |r.value| == (if withObserved then 8 else 6)
  {
    if claimPath.None? then Err(MissingAttribute("claim_filepath"))
    else if compositionPath.None? then Err(MissingAttribute("composition_filepath"))
    else if functionsPath.None? then Err(MissingAttribute("functions_filepath"))
    else
      Ok(["crossplane", "beta", "render", claimPath.value, ToString(compositionPath.value),
          ToString(functionsPath.value)] + (if withObserved then ["-o", ObservedFilePath] else []))
  }

  /** A cold render passes exactly the claim, composition and functions; a warm render adds the observed-state flag
      and the scratch file, and nothing else. */
  lemma WarmArgsExtendCold(c: Option<string>, p: Option<Path>, f: Option<Path>)
    ensures RenderArgs(c, p, f, true).Ok? <==> RenderArgs(c, p, f, false).Ok?
    ensures RenderArgs(c, p, f, false).Ok? ==>
      var cold := RenderArgs(c, p, f, false).value;
      |cold| == 6 && cold[..3] == ["crossplane", "beta", "render"] && cold[3] == c.value
      && cold[4] == ToString(p.value) && cold[5] == ToString(f.value)
      && RenderArgs(c, p, f, true).value == cold + ["-o", ObservedFilePath]
  {
  }

  /** The observed state of a warm render: the snapshot, with the staged updates merged in when there are any. */
  function ObservedInput(desired: map<string, Value>, updates: Option<Document>): (r: Result<map<string, Value>>)
    ensures updates.None? || updates.value == map[] ==> r == Ok(desired)
    ensures updates.Some? && updates.value != map[] ==>
      (r.Ok? <==> Mergeable(desired, updates.value))
      && (r.Ok? ==> r.value == DeepMerge(desired, updates.value))
      && (r.Err? ==> r.error == MergeTypeError)
  {
    if updates.None? || updates.value == map[] then Ok(desired)
    else if Mergeable(desired, updates.value) then Ok(DeepMerge(desired, updates.value))
    else Err(MergeTypeError)
  }

  /** `docs` lists the values of `m` once each, in the order of `names`. */
  predicate ValuesInOrder(names: seq<string>, docs: seq<Value>, m: map<string, Value>)
  {
    && |names| == |docs|
    && (forall i, j :: 0 <= i < j < |names| ==> names[i] != names[j])
    && (forall k :: k in m ==> k in names)
    && (forall i :: 0 <= i < |docs| ==> names[i] in m && docs[i] == m[names[i]])
  }

  /** The documents written to the observed-state file: every resource of the snapshot, once. */
  method ResourceValues(m: map<string, Value>) returns (names: seq<string>, docs: seq<Value>)
    ensures ValuesInOrder(names, docs, m)
  {
    names, docs := [], [];
    var todo := m.Keys;
    while todo != {}
      invariant todo <= m.Keys
      invariant |names| == |docs|
      invariant forall i, j :: 0 <= i < j < |names| ==> names[i] != names[j]
      invariant forall k :: k in m ==> (k in names <==> k !in todo)
      invariant forall i :: 0 <= i < |docs| ==> names[i] in m && docs[i] == m[names[i]]
      decreases todo
    {
      var k :| k in todo;
      names, docs := names + [k], docs + [m[k]];
      todo := todo - {k};
    }
  }

  /** The iteration counter after one more `GetUid`. */
  function NextUid(uid: Option<int>): int
  {
    if uid.None? then 0 else uid.value + 1
  }

  /** The outcome of preparing a render from the context's attributes: cold renders only need the paths; warm
      renders need a snapshot into which the staged updates merge. */
  function PlannedRenderArgs(withObserved: bool, desired: Option<map<string, Value>>, updates: Option<Document>,
                             claimPath: Option<string>, compositionPath: Option<Path>, functionsPath: Option<Path>)
    : (r: Result<seq<string>>)
    ensures !withObserved ==> r == RenderArgs(claimPath, compositionPath, functionsPath, false)
    ensures withObserved && desired.None? ==> r == Err(MissingAttribute("desired_resources"))
    ensures withObserved && desired.Some? && ObservedInput(desired.value, updates).Err? ==> r == Err(MergeTypeError)
    ensures r.Ok? ==> r == RenderArgs(claimPath, compositionPath, functionsPath, withObserved)
  {
    if !withObserved then RenderArgs(claimPath, compositionPath, functionsPath, false)
    else if desired.None? then Err(MissingAttribute("desired_resources"))
    else if ObservedInput(desired.value, updates).Err? then Err(MergeTypeError)
    else RenderArgs(claimPath, compositionPath, functionsPath, true)
  }

  /** Builds the renderer's arguments. Every call advances the iteration counter. A cold render reads the three
      paths. A warm render removes the scratch file, requires a snapshot, merges any staged updates into the
      snapshot in place, writes the snapshot's resources to the scratch file and adds it to the arguments. */
  method PrepareRenderArgs(ctx: ScenarioContext) returns (r: Result<seq<string>>)
    modifies ctx`uid, ctx`desiredResources, ctx`observedFile
    ensures ctx.uid == Some(NextUid(old(ctx.uid)))
    ensures r == PlannedRenderArgs(old(ctx.renderWithObserved), old(ctx.desiredResources), ctx.updates,
                                   ctx.claimFilepath, ctx.compositionFilepath, ctx.functionsFilepath)
    ensures !old(ctx.renderWithObserved) ==>
      && r == RenderArgs(ctx.claimFilepath, ctx.compositionFilepath, ctx.functionsFilepath, false)
      && ctx.desiredResources == old(ctx.desiredResources)
      && ctx.observedFile == old(ctx.observedFile)
    ensures old(ctx.renderWithObserved) && old(ctx.desiredResources).None? ==>
      && r == Err(MissingAttribute("desired_resources"))
      && ctx.desiredResources == old(ctx.desiredResources)
      && ctx.observedFile == None
    ensures old(ctx.renderWithObserved) && old(ctx.desiredResources).Some? ==>
      var observed := ObservedInput(old(ctx.desiredResources).value, ctx.updates);
      && (observed.Err? ==>
            r == Err(observed.error) && ctx.desiredResources == old(ctx.desiredResources)
            && ctx.observedFile == None)
      && (observed.Ok? ==>
            && ctx.desiredResources == Some(observed.value)
            && ctx.observedFile.Some?
            && (exists names :: ValuesInOrder(names, ctx.observedFile.value, observed.value))
            && r == RenderArgs(ctx.claimFilepath, ctx.compositionFilepath, ctx.functionsFilepath, true))
  {
    var uid := GetUid(ctx);
    if !ctx.renderWithObserved {
      return RenderArgs(ctx.claimFilepath, ctx.compositionFilepath, ctx.functionsFilepath, false);
    }
    ctx.observedFile := None;
    if ctx.desiredResources.None? {
      return Err(MissingAttribute("desired_resources"));
    }
    var observed := ctx.desiredResources.value;
    if ctx.updates.Some? && ctx.updates.value != map[] {
      var ok, merged := DeepUpdate(observed, ctx.updates.value);
      if !ok {
        return Err(MergeTypeError);
      }
      observed := merged;
      ctx.desiredResources := Some(observed);
    }
    var names, docs := ResourceValues(observed);
    ctx.observedFile := Some(docs);
    r := RenderArgs(ctx.claimFilepath, ctx.compositionFilepath, ctx.functionsFilepath, true);
  }

  // ---------------------------------------------------------------------------
  // Iteration counter and reset
  // ---------------------------------------------------------------------------

  /** Returns the stored counter and advances it; the first call stores and returns 0, so the first two calls both
      return 0. */
  method GetUid(ctx: ScenarioContext) returns (uid: int)
    modifies ctx`uid
    ensures old(ctx.uid).None? ==> uid == 0 && ctx.uid == Some(0)
    ensures old(ctx.uid).Some? ==> uid == old(ctx.uid).value && ctx.uid == Some(uid + 1)
  {
    if ctx.uid.None? {
      uid := 0;
      ctx.uid := Some(uid);
    } else {
      uid := ctx.uid.value;
      ctx.uid := Some(uid + 1);
    }
  }

  /** The first three counter values of a scenario are 0, 0 and 1. */
  method UidSequence(ctx: ScenarioContext) returns (first: int, second: int, third: int)
    requires ctx.uid.None?
    modifies ctx`uid
    ensures first == 0 && second == 0 && third == 1
  {
    first := GetUid(ctx);
    second := GetUid(ctx);
    third := GetUid(ctx);
  }

  /** Forgets the snapshot and the staged updates and returns to cold rendering. */
  method ResetContextFlags(ctx: ScenarioContext)
    modifies ctx`desiredXr, ctx`desiredResources, ctx`updates, ctx`renderWithObserved
    ensures ctx.desiredXr == None && ctx.desiredResources == None && ctx.updates == None
    ensures !ctx.renderWithObserved
  {
    ctx.desiredXr := None;
    ctx.desiredResources := None;
    ctx.updates := None;
    ctx.renderWithObserved := false;
  }
}
