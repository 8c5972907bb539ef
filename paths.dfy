/**
 * POSIX `pathlib` paths as the harness uses them: parsing a file name, `.parent`, `.name`,
 * the `/` operator and `str()`. Everything is lexical, as in pathlib: no file system is consulted.
 */
module Paths {
  import opened Strings

  /** A path: whether it starts at the root, and its components in order. */
  datatype Path = Path(absolute: bool, parts: seq<string>)

  /** A component as pathlib keeps it: not empty, not ".", without "/". */
  predicate IsComponent(c: string)
  {
    c != "" && c != "." && '/' !in c
  }

  predicate Valid(p: Path)
  {
    forall i :: 0 <= i < |p.parts| ==> IsComponent(p.parts[i])
  }

  /** The components pathlib keeps of the pieces of a path string cut at every "/": empty pieces and "." go. */
  function Components(pieces: seq<string>): (parts: seq<string>)
    ensures forall c :: c in parts ==> c in pieces && c != "" && c != "."
    ensures (forall i :: 0 <= i < |pieces| ==> IsComponent(pieces[i])) ==> parts == pieces
  {
    if |pieces| == 0 then []
    else (if pieces[0] == "" || pieces[0] == "." then [] else [pieces[0]]) + Components(pieces[1..])
  }

  /** `Path(s)`. */
  function Parse(s: string): (p: Path)
    ensures Valid(p)
    ensures p.absolute <==> StartsWith(s, '/')
  {
    var pieces := Split(s, '/');
    var parts := Components(pieces);
    assert forall i :: 0 <= i < |parts| ==> parts[i] in pieces;
    Path(StartsWith(s, '/'), parts)
  }

  /** `str(p)`. */
  function ToString(p: Path): string
  {
    if |p.parts| == 0 then (if p.absolute then "/" else ".")
    else (if p.absolute then "/" else "") + Join(p.parts, '/')
  }

  /** `p.parent`: the path without its last component; the root and "." are their own parents. */
  function Parent(p: Path): (r: Path)
    ensures Valid(p) ==> Valid(r)
  {
    if |p.parts| == 0 then p else Path(p.absolute, p.parts[..|p.parts| - 1])
  }

  /** `p.name`: the last component, or "" for the root and ".". */
  function Name(p: Path): string
  {
    if |p.parts| == 0 then "" else p.parts[|p.parts| - 1]
  }

  /** `p / s`: a rooted `s` replaces `p`; otherwise the components of `s` are appended. */
  function Child(p: Path, s: string): (r: Path)
    ensures Valid(p) ==> Valid(r)
  {
    if StartsWith(s, '/') then Parse(s)
    else
      var added := Parse(s).parts;
      Path(p.absolute, p.parts + added)
  }

  /** Appending a single component adds exactly that component; appending "" adds nothing. */
  lemma ChildComponent(p: Path, c: string)
    ensures IsComponent(c) ==> Child(p, c) == Path(p.absolute, p.parts + [c])
    ensures c == "" ==> Child(p, c) == p
  {
    if IsComponent(c) {
      SplitWithoutSeparator(c, '/');
    }
    if c == "" {
      assert Split(c, '/') == [""];
    }
  }

  /** Appending a component and taking the parent gives the path back; the name is the component appended. */
  lemma ChildThenParent(p: Path, c: string)
    requires IsComponent(c)
    ensures Parent(Child(p, c)) == p && Name(Child(p, c)) == c
    ensures Valid(p) ==> Valid(Child(p, c))
  {
    ChildComponent(p, c);
  }

  /** A joined path string begins with its first component. */
  lemma {:induction false} JoinStarts(parts: seq<string>)
    requires |parts| >= 1
    ensures |Join(parts, '/')| >= |parts[0]| && Join(parts, '/')[..|parts[0]|] == parts[0]
  {
    if |parts| > 1 {
      assert Join(parts, '/') == parts[0] + (['/'] + Join(parts[1..], '/'));
    }
  }

  /** Parsing the string form of a path gives the path back. */
  lemma ParseToString(p: Path)
    requires Valid(p)
    ensures Parse(ToString(p)) == p
  {
    var s := ToString(p);
    if |p.parts| == 0 {
      if p.absolute {
        assert s == [] + ['/'] + [];
        SplitAround([], [], '/');
        assert Split("", '/') == [""];
      } else {
        SplitWithoutSeparator(".", '/');
      }
    } else {
      var j := Join(p.parts, '/');
      SplitJoin(p.parts, '/');
      JoinStarts(p.parts);
      assert j[0] == p.parts[0][0];
      if p.absolute {
        assert s == [] + ['/'] + j;
        SplitAround([], j, '/');
        assert Split("", '/') == [""];
        assert Split(s, '/') == [""] + p.parts;
        assert Components([""] + p.parts) == Components(p.parts);
      } else {
        assert s == j;
      }
    }
  }
}
