/**
 * Resource documents and the keypath store the harness reads and writes them with.
 *
 * A document is a parsed YAML mapping. The harness wraps every document in a nested
 * dictionary configured with the keypath separator "->" (steps/utils/constants.py:27),
 * and turns each user key into a keypath by replacing every "." with that separator
 * (steps/utils/utils.py:166, steps/utils/setters.py:103). A keypath names one key per
 * level; reading stops with "absent" at the first missing key, writing creates mappings
 * along the way.
 */
module Documents {
  import opened Wrappers
  import opened Strings

  /** A YAML value after safe loading: scalars keep their YAML type, mappings have string keys. */
  datatype Value =
    | Null
    | Bool(b: bool)
    | Int(i: int)
    | Str(s: string)
    | List(items: seq<Value>)
    | Dict(entries: map<string, Value>)

  /** A whole manifest: a mapping at the top. */
  type Document = map<string, Value>

  /** The separator the keypath store splits keypaths at. */
  const KeypathSeparator: string := "->"

  /** The separator occurs in `s` at position `i`. */
  predicate SeparatorAt(s: string, i: int)
  {
    0 <= i && i + 1 < |s| && s[i] == '-' && s[i + 1] == '>'
  }

  predicate HasSeparator(s: string)
  {
    exists i :: 0 <= i < |s| && SeparatorAt(s, i)
  }

  /** `key.replace(".", "->")`. */
  function DotsToSeparator(key: string): string
  {
    ReplaceAll(key, '.', KeypathSeparator)
  }

  /** The keys a keypath string names: it is cut at every occurrence of the separator. */
  function SplitKeypath(s: string): (keys: seq<string>)
    ensures |keys| >= 1
    decreases |s|
  {
    if |s| == 0 then [""]
    else if |s| >= 2 && s[0] == '-' && s[1] == '>' then [""] + SplitKeypath(s[2..])
    else
      var rest := SplitKeypath(s[1..]);
      [[s[0]] + rest[0]] + rest[1..]
  }

  /** The keys a user key addresses: its dots become separators, then the keypath is cut at each separator. */
  function KeyPath(key: string): (keys: seq<string>)
    ensures |keys| >= 1
  {
    SplitKeypath(DotsToSeparator(key))
  }

  /** The mapping inside a value; anything that is not a mapping holds no keys. */
  function Entries(v: Value): Document
  {
    if v.Dict? then v.entries else map[]
  }

  /** The value at a keypath, or `None` when some key along it is missing or lands on a non-mapping. */
  function Get(v: Value, path: seq<string>): (r: Option<Value>)
    ensures r.Some? && |path| > 0 ==> v.Dict? && path[0] in v.entries
    decreases |path|
  {
    if |path| == 0 then Some(v)
    else if path[0] in Entries(v) then Get(Entries(v)[path[0]], path[1..])
    else None
  }

  /** A one-key path reads the entry of that key. */
  lemma GetOneKey(v: Value, k: string)
    ensures Get(v, [k]) == if k in Entries(v) then Some(Entries(v)[k]) else None
  {
    assert [k][1..] == [];
  }

  /** Assignment at a keypath: every intermediate that is absent or not a mapping becomes a fresh mapping. */
  function Set(v: Value, path: seq<string>, x: Value): (r: Value)
    ensures |path| > 0 ==> r.Dict? && r.entries.Keys == Entries(v).Keys + {path[0]}
    ensures |path| > 0 ==> forall k :: k in Entries(v) && k != path[0] ==> r.entries[k] == Entries(v)[k]
    decreases |path|
  {
    if |path| == 0 then x
    else
      var m := Entries(v);
      var k := path[0];
      Dict(m[k := Set(if k in m then m[k] else Null, path[1..], x)])
  }

  /** Two keypaths part ways: at some level they name different keys, so neither lies below the other. */
  predicate Diverge(p: seq<string>, q: seq<string>)
  {
    exists i :: 0 <= i < |p| && i < |q| && p[i] != q[i]
  }

  /** Reading back a keypath just written gives the value written. */
  lemma {:induction false} GetSet(v: Value, p: seq<string>, x: Value)
    ensures Get(Set(v, p, x), p) == Some(x)
    decreases |p|
  {
    if |p| > 0 {
      var m := Entries(v);
      GetSet(if p[0] in m then m[p[0]] else Null, p[1..], x);
    }
  }

  /** Writing a keypath leaves every keypath that parts ways with it as it was. */
  lemma {:induction false} GetSetElsewhere(v: Value, p: seq<string>, q: seq<string>, x: Value)
    requires Diverge(p, q)
    ensures Get(Set(v, p, x), q) == Get(v, q)
    decreases |p|
  {
    var m := Entries(v);
    if p[0] != q[0] {
      assert Entries(Set(v, p, x)) == m[p[0] := Set(if p[0] in m then m[p[0]] else Null, p[1..], x)];
    } else {
      var i :| 0 <= i < |p| && i < |q| && p[i] != q[i];
      assert p[1..][i - 1] != q[1..][i - 1];
      var child := if p[0] in m then m[p[0]] else Null;
      GetSetElsewhere(child, p[1..], q[1..], x);
      assert Get(Set(v, p, x), q) == Get(child, q[1..]);
      if p[0] !in m {
        assert |q[1..]| > 0;
        assert Get(child, q[1..]) == None;
      }
    }
  }

  /** Below a keypath just written, the store reads inside the value written. */
  lemma {:induction false} GetSetBelow(v: Value, p: seq<string>, r: seq<string>, x: Value)
    ensures Get(Set(v, p, x), p + r) == Get(x, r)
    decreases |p|
  {
    if |p| > 0 {
      var m := Entries(v);
      assert (p + r)[1..] == p[1..] + r;
      GetSetBelow(if p[0] in m then m[p[0]] else Null, p[1..], r, x);
    } else {
      assert p + r == r;
    }
  }

  /** Writing a keypath leaves a mapping at every level above it. */
  lemma {:induction false} SetMakesMappings(v: Value, p: seq<string>, x: Value, i: nat)
    requires i < |p|
    ensures Get(Set(v, p, x), p[..i]).Some? && Get(Set(v, p, x), p[..i]).value.Dict?
    decreases |p|
  {
    if i > 0 {
      var m := Entries(v);
      SetMakesMappings(if p[0] in m then m[p[0]] else Null, p[1..], x, i - 1);
      assert p[..i][1..] == p[1..][..i - 1];
    }
  }

  /** Rewriting dots distributes over concatenation. */
  lemma DotsToSeparatorAppend(a: string, b: string)
    ensures DotsToSeparator(a + b) == DotsToSeparator(a) + DotsToSeparator(b)
  {
    ReplaceAllAppend(a, b, '.', KeypathSeparator);
  }

  /** A separator placed between two keypath strings cuts exactly there. */
  lemma {:induction false} SplitKeypathAround(x: string, y: string)
    ensures SplitKeypath(x + KeypathSeparator + y) == SplitKeypath(x) + SplitKeypath(y)
  {
    var s := x + KeypathSeparator + y;
    if |x| == 0 {
      assert s == "->" + y;
      assert s[2..] == y;
    } else if |x| >= 2 && x[0] == '-' && x[1] == '>' {
      assert s[2..] == x[2..] + KeypathSeparator + y;
      SplitKeypathAround(x[2..], y);
    } else {
      assert s[1..] == x[1..] + KeypathSeparator + y;
      assert !(s[0] == '-' && s[1] == '>');
      SplitKeypathAround(x[1..], y);
      var l, r := SplitKeypath(x[1..]), SplitKeypath(y);
      assert SplitKeypath(s) == [[x[0]] + (l + r)[0]] + (l + r)[1..];
      PrependToFirst(x[0], l, r);
    }
  }

  /** Extending the first key of a keypath commutes with appending keys after it. */
  lemma PrependToFirst(c: char, l: seq<string>, r: seq<string>)
    requires |l| >= 1
    ensures [[c] + (l + r)[0]] + (l + r)[1..] == ([[c] + l[0]] + l[1..]) + r
  {
    assert (l + r)[1..] == l[1..] + r;
  }

  /** A user key with a dot in it addresses the keys on each side of the dot, one level apart. */
  lemma KeyPathAppend(a: string, b: string)
    ensures KeyPath(a + "." + b) == KeyPath(a) + KeyPath(b)
  {
    assert a + "." + b == a + ("." + b);
    DotsToSeparatorAppend(a, "." + b);
    DotsToSeparatorAppend(".", b);
    assert DotsToSeparator(".") == KeypathSeparator;
    assert DotsToSeparator(a + "." + b) == DotsToSeparator(a) + KeypathSeparator + DotsToSeparator(b);
    SplitKeypathAround(DotsToSeparator(a), DotsToSeparator(b));
  }

  /** The first character after replacing dots. */
  lemma DotsToSeparatorHead(s: string)
    requires |s| > 0
    ensures |DotsToSeparator(s)| > 0
    ensures DotsToSeparator(s)[0] == if s[0] == '.' then '-' else s[0]
  {
  }

  /** A key without a literal separator is cut at every dot and nowhere else: the store has no escape for dots. */
  lemma {:induction false} KeyPathSplitsEveryDot(key: string)
    requires !HasSeparator(key)
    ensures KeyPath(key) == Split(key, '.')
  {
    if |key| > 0 {
      var rest := key[1..];
      assert !HasSeparator(rest) by {
        forall i | SeparatorAt(rest, i) ensures SeparatorAt(key, i + 1) { }
      }
      KeyPathSplitsEveryDot(rest);
      var d := DotsToSeparator(key);
      assert d == (if key[0] == '.' then KeypathSeparator else [key[0]]) + DotsToSeparator(rest);
      if key[0] == '.' {
        assert d[2..] == DotsToSeparator(rest);
      } else {
        assert d[1..] == DotsToSeparator(rest);
        if |rest| > 0 {
          DotsToSeparatorHead(rest);
          assert !SeparatorAt(key, 0);
        }
      }
    }
  }

  /** A key without dots or separators is a single key. */
  lemma PlainKeyPath(name: string)
    requires '.' !in name && !HasSeparator(name)
    ensures KeyPath(name) == [name]
  {
    KeyPathSplitsEveryDot(name);
    SplitWithoutSeparator(name, '.');
  }

  /** Cutting a keypath string never brings in a character the string does not hold. */
  lemma {:induction false} SplitKeypathKeepsOut(s: string, c: char)
    requires c !in s
    ensures forall i :: 0 <= i < |SplitKeypath(s)| ==> c !in SplitKeypath(s)[i]
    decreases |s|
  {
    if |s| >= 2 && s[0] == '-' && s[1] == '>' {
      SplitKeypathKeepsOut(s[2..], c);
    } else if |s| > 0 {
      SplitKeypathKeepsOut(s[1..], c);
    }
  }

  /** No key of a keypath holds a dot, so a mapping key with a dot in it cannot be addressed by any user key. */
  lemma KeyPathHasNoDots(key: string)
    ensures forall i :: 0 <= i < |KeyPath(key)| ==> '.' !in KeyPath(key)[i]
  {
    ReplaceAllRemoves(key, '.', KeypathSeparator);
    SplitKeypathKeepsOut(DotsToSeparator(key), '.');
  }

  /** A key that already holds the separator is cut there too: `a->b` addresses `b` below `a`, just as `a.b` does. */
  lemma SeparatorInKeySplits(a: string, b: string)
    requires '.' !in a && !HasSeparator(a) && '.' !in b && !HasSeparator(b)
    ensures KeyPath(a + KeypathSeparator + b) == [a, b]
    ensures KeyPath(a + KeypathSeparator + b) == KeyPath(a + "." + b)
  {
    var s := a + KeypathSeparator + b;
    assert '.' !in s;
    ReplaceAllAbsent(s, '.', KeypathSeparator);
    ReplaceAllAbsent(a, '.', KeypathSeparator);
    ReplaceAllAbsent(b, '.', KeypathSeparator);
    SplitKeypathAround(a, b);
    KeyPathSplitsEveryDot(a);
    KeyPathSplitsEveryDot(b);
    SplitWithoutSeparator(a, '.');
    SplitWithoutSeparator(b, '.');
    KeyPathAppend(a, b);
  }
}
