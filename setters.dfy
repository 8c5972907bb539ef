/**
 * The setters of steps/utils/setters.py: staging per-resource overrides in the context's
 * update buffer, and writing one entry of a document at a dotted key.
 */
module Setters {
  import opened Wrappers
  import opened Strings
  import opened Documents
  import opened Utils
  import opened Context

  /** `set_resource_param`: writes `value` at the keypath of the dotted `key`, creating mappings along the way. The
      entry reads back as written. */
  function SetResourceParam(resource: Document, key: string, value: Value): (r: Document)
    ensures Get(Dict(r), KeyPath(key)) == Some(value)
  {
    var p := KeyPath(key);
    GetSet(Dict(resource), p, value);
    Set(Dict(resource), p, value).entries
  }

  /** Every keypath that parts ways with the one `set_resource_param` writes keeps its value. */
  lemma SetResourceParamElsewhere(resource: Document, key: string, value: Value, q: seq<string>)
    requires Diverge(KeyPath(key), q)
    ensures Get(Dict(SetResourceParam(resource, key, value)), q) == Get(Dict(resource), q)
  {
    GetSetElsewhere(Dict(resource), KeyPath(key), q, value);
  }

  /** The keypath under which an override of `key` for resource `name` is staged. */
  function StagePath(name: string, key: string): seq<string>
  {
    KeyPath(name + "." + key)
  }

  /** The update buffer after staging `items` for resource `name`, one `set_resource_param` per item, in order. */
  function Stage(base: Document, name: string, items: seq<(string, Value)>): Document
    decreases |items|
  {
    if |items| == 0 then base
    else
      var last := items[|items| - 1];
      SetResourceParam(Stage(base, name, items[..|items| - 1]), name + "." + last.0, last.1)
  }

  /** An item is found in the buffer after staging, unless a later item of the same table writes at or around its
      keypath. */
  lemma {:induction false} StagedEntryHeld(base: Document, name: string, items: seq<(string, Value)>, i: int)
    requires 0 <= i < |items|
    requires forall j :: i < j < |items| ==> Diverge(StagePath(name, items[j].0), StagePath(name, items[i].0))
    ensures Get(Dict(Stage(base, name, items)), StagePath(name, items[i].0)) == Some(items[i].1)
    decreases |items|
  {
    var n := |items|;
    if i < n - 1 {
      var init := items[..n - 1];
      assert init[i] == items[i];
      assert forall j :: i < j < |init| ==> init[j] == items[j];
      StagedEntryHeld(base, name, init, i);
      SetResourceParamElsewhere(Stage(base, name, init), name + "." + items[n - 1].0, items[n - 1].1,
                                StagePath(name, items[i].0));
    }
  }

  /** Staging for one resource leaves alone every keypath that parts ways with the resource's own keypath: the
      overrides already staged for other resources, in particular. */
  lemma {:induction false} StageElsewhere(base: Document, name: string, items: seq<(string, Value)>, q: seq<string>)
    requires Diverge(KeyPath(name), q)
    ensures Get(Dict(Stage(base, name, items)), q) == Get(Dict(base), q)
    decreases |items|
  {
    if |items| > 0 {
      var n := |items|;
      var key := items[n - 1].0;
      StageElsewhere(base, name, items[..n - 1], q);
      KeyPathAppend(name, key);
      var i :| 0 <= i < |KeyPath(name)| && i < |q| && KeyPath(name)[i] != q[i];
      assert StagePath(name, key)[i] == KeyPath(name)[i];
      SetResourceParamElsewhere(Stage(base, name, items[..n - 1]), name + "." + key, items[n - 1].1, q);
    }
  }

  /** Keys without dots or separators: distinct keys of one table are staged at keypaths that part ways. */
  lemma DistinctPlainKeysDiverge(name: string, k1: string, k2: string)
    requires k1 != k2
    requires '.' !in k1 && '.' !in k2 && !HasSeparator(k1) && !HasSeparator(k2)
    ensures Diverge(StagePath(name, k1), StagePath(name, k2))
  {
    KeyPathAppend(name, k1);
    KeyPathAppend(name, k2);
    KeyPathSplitsEveryDot(k1);
    KeyPathSplitsEveryDot(k2);
    SplitWithoutSeparator(k1, '.');
    SplitWithoutSeparator(k2, '.');
    var i := |KeyPath(name)|;
    assert StagePath(name, k1)[i] == k1 && StagePath(name, k2)[i] == k2;
  }

  /** A resource name is one key of the buffer only when it has no dot: a name `a.b` is staged two levels deep,
      under `a`, so the update later lands on a resource called `a`, not on `a.b`. */
  lemma DottedResourceNameSplits(a: string, b: string, key: string)
    requires '.' !in a && !HasSeparator(a) && '.' !in b && !HasSeparator(b)
    ensures StagePath(a + "." + b, key) == [a, b] + KeyPath(key)
  {
    KeyPathAppend(a, b);
    KeyPathAppend(a + "." + b, key);
    PlainKeyPath(a);
    PlainKeyPath(b);
  }

  /** A value staged for a plain-named resource reaches that resource once the buffer is merged into the snapshot,
      unless it is a mapping (mappings merge) or a later item of the table overwrites it. */
  lemma StagedReachesSnapshot(desired: map<string, Value>, base: Document, name: string,
                              items: seq<(string, Value)>, i: int)
    requires '.' !in name && !HasSeparator(name)
    requires 0 <= i < |items| && !items[i].1.Dict?
    requires forall j :: i < j < |items| ==> Diverge(StagePath(name, items[j].0), StagePath(name, items[i].0))
    requires Mergeable(desired, Stage(base, name, items))
    ensures var merged := DeepMerge(desired, Stage(base, name, items));
      name in merged && GetResourceEntry(merged[name], items[i].0) == Some(items[i].1)
  {
    var staged := Stage(base, name, items);
    var key := items[i].0;
    StagedEntryHeld(base, name, items, i);
    KeyPathAppend(name, key);
    PlainKeyPath(name);
    MergeDelivers(desired, staged, [name] + KeyPath(key), items[i].1);
    var merged := DeepMerge(desired, staged);
    assert ([name] + KeyPath(key))[1..] == KeyPath(key);
  }

  /** `update_resource_params`: the resource must exist in the snapshot; an empty buffer is replaced by a fresh one,
      and each item is staged under the resource's name, in table order. */
  method UpdateResourceParams(ctx: ScenarioContext, name: string, items: seq<(string, Value)>) returns (o: Outcome)
    modifies ctx`updates
    ensures GetResourceFromContext(ctx.desiredResources, name).Err? ==>
      o == Fail(GetResourceFromContext(ctx.desiredResources, name).error) && ctx.updates == old(ctx.updates)
    ensures GetResourceFromContext(ctx.desiredResources, name).Ok? ==>
      o == Pass && ctx.updates == Some(Stage(old(ctx.updates).GetOr(map[]), name, items))
  {
    var found := GetResourceFromContext(ctx.desiredResources, name);
    if found.Err? {
      return Fail(found.error);
    }
    var base := ctx.updates.GetOr(map[]);
    if base == map[] {
      ctx.updates := Some(map[]);
    }
    var i := 0;
    while i < |items|
      invariant 0 <= i <= |items|
      invariant ctx.updates == Some(Stage(base, name, items[..i]))
    {
      assert items[..i + 1][..i] == items[..i];
      ctx.updates := Some(SetResourceParam(ctx.updates.value, name + "." + items[i].0, items[i].1));
      i := i + 1;
    }
    assert items[..|items|] == items;
    o := Pass;
  }
}
