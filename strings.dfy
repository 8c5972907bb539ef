/**
 * The few Python `str` operations the harness relies on, over `seq<char>`:
 * `strip`, `startswith`, `split` (with and without a limit), `join`,
 * `replace` of one character and `lower`.
 */
module Strings {

  /** Python's `str.isspace` for one character: the characters `strip()` removes. */
  predicate IsSpace(c: char)
  {
    var n := c as int;
    (9 <= n <= 13) || (28 <= n <= 32) || n == 0x85 || n == 0xA0 || n == 0x1680
    || (0x2000 <= n <= 0x200A) || n == 0x2028 || n == 0x2029 || n == 0x202F
    || n == 0x205F || n == 0x3000
  }

  /** `s.lstrip()`: drops the leading whitespace and nothing else. */
  function StripStart(s: string): (r: string)
    ensures |r| <= |s| && r == s[|s| - |r|..]
    ensures forall i :: 0 <= i < |s| - |r| ==> IsSpace(s[i])
    ensures |r| > 0 ==> !IsSpace(r[0])
  {
    if |s| > 0 && IsSpace(s[0]) then StripStart(s[1..]) else s
  }

  /** `s.rstrip()`: drops the trailing whitespace and nothing else. */
  function StripEnd(s: string): (r: string)
    ensures |r| <= |s| && r == s[..|r|]
    ensures forall i :: |r| <= i < |s| ==> IsSpace(s[i])
    ensures |r| > 0 ==> !IsSpace(r[|r| - 1])
  {
    if |s| > 0 && IsSpace(s[|s| - 1]) then StripEnd(s[..|s| - 1]) else s
  }

  /** `s.strip()`: neither end of the result is whitespace, and a string already in that form is kept. */
  function Strip(s: string): (r: string)
    ensures exists i, j :: TrimmedTo(s, r, i, j)
    ensures |r| > 0 ==> !IsSpace(r[0]) && !IsSpace(r[|r| - 1])
    ensures |s| > 0 && !IsSpace(s[0]) && !IsSpace(s[|s| - 1]) ==> r == s
  {
    var t := StripStart(s);
    var r := StripEnd(t);
    assert |r| > 0 ==> r[0] == t[0];
    TrimSlices(s, t, r, |s| - |t|);
    r
  }

  /** Whitespace dropped from the front of `s`, then from the back of what is left, leaves a whitespace-framed slice. */
  lemma TrimSlices(s: string, t: string, r: string, i: int)
    requires 0 <= i <= |s| && t == s[i..] && |r| <= |t| && r == t[..|r|]
    requires forall k :: 0 <= k < i ==> IsSpace(s[k])
    requires forall k :: |r| <= k < |t| ==> IsSpace(t[k])
    ensures TrimmedTo(s, r, i, i + |r|)
  {
    forall k | i + |r| <= k < |s| ensures IsSpace(s[k]) {
      assert s[k] == t[k - i];
    }
  }

  /** `r` is `s[i..j]`, and everything of `s` outside that slice is whitespace. */
  predicate TrimmedTo(s: string, r: string, i: int, j: int)
  {
    && 0 <= i <= j <= |s| && r == s[i..j]
    && (forall k :: 0 <= k < i ==> IsSpace(s[k]))
    && (forall k :: j <= k < |s| ==> IsSpace(s[k]))
  }

  /** `s.startswith(c)` for a one-character prefix. */
  predicate StartsWith(s: string, c: char)
  {
    |s| > 0 && s[0] == c
  }

  /** `s.split(sep)` for a one-character separator: every occurrence of `sep` splits. */
  function Split(s: string, sep: char): (parts: seq<string>)
    ensures |parts| >= 1
    ensures forall i :: 0 <= i < |parts| ==> sep !in parts[i]
  {
    if |s| == 0 then [""]
    else
      var rest := Split(s[1..], sep);
      if s[0] == sep then [""] + rest
      else [[s[0]] + rest[0]] + rest[1..]
  }

  /** `sep.join(parts)`. */
  function Join(parts: seq<string>, sep: char): string
  {
    if |parts| == 0 then ""
    else if |parts| == 1 then parts[0]
    else parts[0] + [sep] + Join(parts[1..], sep)
  }

  /** `s.split(sep, 1)` with a one-character separator: the text before the first `sep` and the text after it, or
      `NoSplit` when `s` has no `sep` (the list then has a single element). */
  function SplitOnce(s: string, sep: char): (r: Option2)
    ensures r.NoSplit? <==> sep !in s
    ensures r.Halves? ==> s == r.head + [sep] + r.tail && sep !in r.head
  {
    if |s| == 0 then NoSplit
    else if s[0] == sep then Halves("", s[1..])
    else
      match SplitOnce(s[1..], sep)
      case NoSplit => NoSplit
      case Halves(h, t) => Halves([s[0]] + h, t)
  }

  /** A split at the first separator finds the separator placed after a separator-free head. */
  lemma {:induction false} SplitOnceAround(head: string, tail: string, sep: char)
    requires sep !in head
    ensures SplitOnce(head + [sep] + tail, sep) == Halves(head, tail)
  {
    var s := head + [sep] + tail;
    if |head| > 0 {
      assert s[1..] == head[1..] + [sep] + tail;
      SplitOnceAround(head[1..], tail, sep);
      assert [head[0]] + head[1..] == head;
    } else {
      assert s[1..] == tail;
    }
  }

  /** What `split(sep, 1)` yields: one piece, or the two halves around the first separator. */
  datatype Option2 = NoSplit | Halves(head: string, tail: string)

  /** `s.replace(c, with)` for a one-character pattern. */
  function ReplaceAll(s: string, c: char, with: string): (r: string)
  {
    if |s| == 0 then ""
    else (if s[0] == c then with else [s[0]]) + ReplaceAll(s[1..], c, with)
  }

  /** Replacing `c` by a text without `c` leaves no `c` behind. */
  lemma {:induction false} ReplaceAllRemoves(s: string, c: char, with: string)
    requires c !in with
    ensures c !in ReplaceAll(s, c, with)
    decreases |s|
  {
    if |s| > 0 {
      ReplaceAllRemoves(s[1..], c, with);
    }
  }

  /** A text without `c` is left as it is. */
  lemma {:induction false} ReplaceAllAbsent(s: string, c: char, with: string)
    requires c !in s
    ensures ReplaceAll(s, c, with) == s
    decreases |s|
  {
    if |s| > 0 {
      assert c !in s[1..];
      ReplaceAllAbsent(s[1..], c, with);
      assert s == [s[0]] + s[1..];
    }
  }

  /** Replacing distributes over concatenation. */
  lemma {:induction false} ReplaceAllAppend(a: string, b: string, c: char, with: string)
    ensures ReplaceAll(a + b, c, with) == ReplaceAll(a, c, with) + ReplaceAll(b, c, with)
  {
    if |a| > 0 {
      assert (a + b)[1..] == a[1..] + b;
      ReplaceAllAppend(a[1..], b, c, with);
    } else {
      assert a + b == b;
    }
  }

  /** Once `c` is replaced by a text without `c`, a `c` and that text in the same place are indistinguishable. */
  lemma ReplacedCharCollides(a: string, b: string, c: char, with: string)
    requires c !in with
    ensures ReplaceAll(a + [c] + b, c, with) == ReplaceAll(a + with + b, c, with)
  {
    var ra, rb := ReplaceAll(a, c, with), ReplaceAll(b, c, with);
    assert ReplaceAll([c], c, with) == with by {
      assert [c][1..] == [];
    }
    ReplaceAllAbsent(with, c, with);
    ReplaceAllAppend(a, [c], c, with);
    ReplaceAllAppend(a + [c], b, c, with);
    assert ReplaceAll(a + [c] + b, c, with) == ra + with + rb;
    ReplaceAllAppend(a, with, c, with);
    ReplaceAllAppend(a + with, b, c, with);
    assert ReplaceAll(a + with + b, c, with) == ra + with + rb;
  }

  /** Python's `str.lower` on one character, for the ASCII letters. */
  function LowerChar(c: char): (r: char)
    ensures 'A' <= c <= 'Z' ==> r as int == c as int + 32
    ensures !('A' <= c <= 'Z') ==> r == c
  {
    if 'A' <= c <= 'Z' then (c as int + 32) as char else c
  }

  /** `s.lower()` for ASCII text. */
  function Lower(s: string): (r: string)
    ensures |r| == |s|
    ensures forall i :: 0 <= i < |s| ==> r[i] == LowerChar(s[i])
  {
    if |s| == 0 then "" else [LowerChar(s[0])] + Lower(s[1..])
  }

  /** Splitting at a separator that was inserted between two strings splits there and nowhere else new. */
  lemma {:induction false} SplitAround(a: string, b: string, sep: char)
    ensures Split(a + [sep] + b, sep) == Split(a, sep) + Split(b, sep)
  {
    if |a| == 0 {
      assert a + [sep] + b == [sep] + b;
      assert ([sep] + b)[1..] == b;
    } else {
      var s := a + [sep] + b;
      assert s[0] == a[0] && s[1..] == a[1..] + [sep] + b;
      SplitAround(a[1..], b, sep);
      var left, right := Split(a[1..], sep), Split(b, sep);
      if a[0] != sep {
        assert (left + right)[0] == left[0];
        assert (left + right)[1..] == left[1..] + right;
        assert Split(s, sep) == [[a[0]] + left[0]] + (left[1..] + right);
        assert Split(a, sep) == [[a[0]] + left[0]] + left[1..];
      }
    }
  }

  /** A string without the separator is a single piece. */
  lemma {:induction false} SplitWithoutSeparator(s: string, sep: char)
    requires sep !in s
    ensures Split(s, sep) == [s]
  {
    if |s| > 0 {
      SplitWithoutSeparator(s[1..], sep);
      assert [s[0]] + s[1..] == s;
    }
  }

  /** Joining the pieces of a split gives back the original string. */
  lemma {:induction false} JoinSplit(s: string, sep: char)
    ensures Join(Split(s, sep), sep) == s
  {
    if |s| > 0 {
      var rest := Split(s[1..], sep);
      JoinSplit(s[1..], sep);
      if s[0] == sep {
        assert Split(s, sep) == [""] + rest;
        assert ([""] + rest)[1..] == rest;
        assert [sep] + s[1..] == s;
      } else {
        var parts := [[s[0]] + rest[0]] + rest[1..];
        assert Split(s, sep) == parts;
        if |rest| == 1 {
          assert s == [s[0]] + s[1..];
        } else {
          assert parts[1..] == rest[1..];
          assert Join(rest, sep) == rest[0] + [sep] + Join(rest[1..], sep);
          assert s == [s[0]] + s[1..];
        }
      }
    }
  }

  /** Splitting a join of separator-free pieces gives back the pieces. */
  lemma {:induction false} SplitJoin(parts: seq<string>, sep: char)
    requires |parts| >= 1
    requires forall i :: 0 <= i < |parts| ==> sep !in parts[i]
    ensures Split(Join(parts, sep), sep) == parts
  {
    if |parts| == 1 {
      SplitWithoutSeparator(parts[0], sep);
    } else {
      SplitJoin(parts[1..], sep);
      SplitWithoutSeparator(parts[0], sep);
      SplitAround(parts[0], Join(parts[1..], sep), sep);
      assert [parts[0]] + parts[1..] == parts;
    }
  }

  /** The spellings of "ready" in any mix of upper and lower case. */
  predicate ReadySpelling(s: string)
  {
    |s| == 5 && forall i :: 0 <= i < 5 ==> s[i] == "ready"[i] || s[i] == "READY"[i]
  }

  /** Only a spelling of "ready" lowers to "ready". */
  lemma LowerReadyIsSpelling(s: string)
    requires Lower(s) == "ready"
    ensures ReadySpelling(s)
  {
    var ready, upper := "ready", "READY";
    forall i | 0 <= i < 5 ensures s[i] == ready[i] || s[i] == upper[i] {
      assert LowerChar(s[i]) == ready[i];
    }
  }

  /** Every spelling of "ready" lowers to "ready". */
  lemma SpellingLowersToReady(s: string)
    requires ReadySpelling(s)
    ensures Lower(s) == "ready"
  {
    var ready, upper := "ready", "READY";
    forall i | 0 <= i < 5 ensures Lower(s)[i] == ready[i] {
      assert s[i] == ready[i] || s[i] == upper[i];
    }
  }

  /** `s.lower() == "ready"` holds exactly for the spellings of "ready" in any mix of upper and lower case. */
  lemma ReadyIgnoresCase(s: string)
    ensures Lower(s) == "ready" <==> ReadySpelling(s)
  {
    if Lower(s) == "ready" {
      LowerReadyIsSpelling(s);
    }
    if ReadySpelling(s) {
      SpellingLowersToReady(s);
    }
  }
}
