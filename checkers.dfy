/**
 * The assertions of steps/utils/checkers.py: one entry of a resource, and the count and names of the
 * resources in the snapshot.
 */
module Checkers {
  import opened Wrappers
  import opened Documents
  import opened Utils
  import opened Setters

  /** An expected value counts only when it is truthy: an absent or empty expected value checks presence alone. */
  predicate HasExpectedValue(expected: Option<string>)
  {
    expected.Some? && expected.value != ""
  }

  /** An entry is present when the keypath reaches it and it is not null. */
  predicate Present(entry: Option<Value>)
  {
    entry.Some? && entry.value != Null
  }

  /** `assert_has_resource_entry`: with an expected value, the entry at the dotted key must be that string; without
      one, the entry must be present. */
  function AssertHasResourceEntry(resource: Value, key: string, expected: Option<string>): (o: Outcome)
    ensures HasExpectedValue(expected) ==> (o.Pass? <==> GetResourceEntry(resource, key) == Some(Str(expected.value)))
    ensures !HasExpectedValue(expected) ==> (o.Pass? <==> Present(GetResourceEntry(resource, key)))
    ensures o.Fail? ==> o.error == if HasExpectedValue(expected) then EntryMismatch(key, expected.value)
                                   else EntryMissing(key)
  {
    var entry := GetResourceEntry(resource, key);
    if HasExpectedValue(expected) then
      if entry == Some(Str(expected.value)) then Pass else Fail(EntryMismatch(key, expected.value))
    else if Present(entry) then Pass
    else Fail(EntryMissing(key))
  }

  /** A string written with `set_resource_param` passes the entry check for the same key, with or without the
      expected value. */
  lemma SetThenCheckPasses(doc: Document, key: string, value: string)
    ensures AssertHasResourceEntry(Dict(SetResourceParam(doc, key, Str(value))), key, Some(value)) == Pass
    ensures AssertHasResourceEntry(Dict(SetResourceParam(doc, key, Str(value))), key, None) == Pass
  {
  }

  /** The entry check with an expected value is stricter than the presence check. */
  lemma ValueCheckImpliesPresence(resource: Value, key: string, value: string)
    requires value != ""
    requires AssertHasResourceEntry(resource, key, Some(value)).Pass?
    ensures AssertHasResourceEntry(resource, key, None).Pass?
  {
  }

  /** The resource-name annotation has a dot in its key, so no dotted key can reach it: checking it on a resource
      that carries nothing else fails for every key. */
  lemma ResourceNameAnnotationUncheckable(name: string, key: string)
    requires name != ""
    ensures var resource := Dict(map["metadata" := Dict(map["annotations" := Dict(map[ResourceNameAnnotation := Str(name)])])]);
      AssertHasResourceEntry(resource, key, Some(name)).Fail?
  {
    var annotationPath := ["metadata", "annotations", ResourceNameAnnotation];
    var p := KeyPath(key);
    KeyPathHasNoDots(key);
    assert ResourceNameAnnotation[10] == '.';
    assert p != annotationPath by {
      if |p| == 3 {
        assert '.' !in p[2];
      }
    }
    AnnotationOnlyPath(name, p);
  }

  /** In a resource that carries only its name annotation, the name is found at the annotation's keypath alone. */
  lemma AnnotationOnlyPath(name: string, p: seq<string>)
    ensures var resource := Dict(map["metadata" := Dict(map["annotations" := Dict(map[ResourceNameAnnotation := Str(name)])])]);
      Get(resource, p) == Some(Str(name)) ==> p == ["metadata", "annotations", ResourceNameAnnotation]
  {
    var leaf := Dict(map[ResourceNameAnnotation := Str(name)]);
    var mid := Dict(map["annotations" := leaf]);
    var resource := Dict(map["metadata" := mid]);
    if Get(resource, p) == Some(Str(name)) {
      assert |p| > 0 && p[0] == "metadata";
      var p1 := p[1..];
      assert Get(resource, p) == Get(mid, p1);
      assert |p1| > 0 && p1[0] == "annotations";
      var p2 := p1[1..];
      assert Get(mid, p1) == Get(leaf, p2);
      assert |p2| > 0 && p2[0] == ResourceNameAnnotation;
      var p3 := p2[1..];
      assert Get(leaf, p2) == Get(Str(name), p3);
      assert |p3| == 0;
      assert p == [p[0], p1[0], p2[0]];
    }
  }

  /** Every desired name is one of the expected names. */
  predicate NamesListed(names: set<string>, expected: seq<string>)
  {
    forall n :: n in names ==> n in expected
  }

  /** What `check_resources` accepts: a snapshot exists, holds `count` resources, and, when names are given, only
      resources the names list. */
  predicate ResourcesAsExpected(desired: Option<map<string, Value>>, count: int, expected: seq<string>)
  {
    desired.Some? && |desired.value| == count && (|expected| > 0 ==> NamesListed(desired.value.Keys, expected))
  }

  /** `check_resources`: the snapshot must exist and hold `count` resources; with a non-empty name list, each
      desired resource is looked up in it and the first unlisted one fails. Listed names that are not desired are
      not reported. */
  method CheckResources(desired: Option<map<string, Value>>, count: int, expected: seq<string>) returns (o: Outcome)
    ensures o.Pass? <==> ResourcesAsExpected(desired, count, expected)
    ensures desired.None? ==> o == Fail(MissingAttribute("desired_resources"))
    ensures desired.Some? && |desired.value| != count ==> o == Fail(CountMismatch(count, desired.value.Keys))
    ensures o.Fail? && desired.Some? && |desired.value| == count ==>
      o.error.UnexpectedResource? && o.error.name in desired.value && o.error.name !in expected
  {
    if desired.None? {
      return Fail(MissingAttribute("desired_resources"));
    }
    var resources := desired.value;
    if |resources| != count {
      return Fail(CountMismatch(count, resources.Keys));
    }
    if |expected| > 0 {
      var todo := resources.Keys;
      while todo != {}
        invariant todo <= resources.Keys
        invariant forall n :: n in resources.Keys - todo ==> n in expected
        decreases todo
      {
        var n :| n in todo;
        if n !in expected {
          return Fail(UnexpectedResource(n));
        }
        todo := todo - {n};
      }
    }
    o := Pass;
  }

  /** No name occurs twice. */
  predicate Distinct(names: seq<string>)
  {
    forall i, j :: 0 <= i < j < |names| ==> names[i] != names[j]
  }

  lemma {:induction false} DistinctCard(names: seq<string>)
    requires Distinct(names)
    ensures |set n | n in names| == |names|
  {
    if |names| > 0 {
      var rest := names[1..];
      DistinctCard(rest);
      assert (set n | n in names) == {names[0]} + (set n | n in rest);
      assert names[0] !in (set n | n in rest);
    }
  }

  /** With as many distinct names as the expected count, the count-and-names check accepts exactly the snapshots
      whose resources are the listed ones, no more and no fewer. */
  lemma CountAndNamesMeanExactly(resources: map<string, Value>, expected: seq<string>)
    requires Distinct(expected) && |expected| > 0
    ensures ResourcesAsExpected(Some(resources), |expected|, expected) <==> resources.Keys == set n | n in expected
  {
    var listed := set n | n in expected;
    DistinctCard(expected);
    if ResourcesAsExpected(Some(resources), |expected|, expected) {
      assert resources.Keys <= listed;
      var extra := listed - resources.Keys;
      assert listed == resources.Keys + extra;
      assert resources.Keys * extra == {};
      assert |extra| == 0;
    }
  }

  /** An empty name list leaves the count as the only check. */
  lemma EmptyNamesCountOnly(desired: Option<map<string, Value>>, count: int)
    ensures ResourcesAsExpected(desired, count, []) <==> desired.Some? && |desired.value| == count
  {
  }
}
