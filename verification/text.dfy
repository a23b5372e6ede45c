/**
 * The Python string operations the core relies on: `str.strip()`,
 * `str.startswith`, the `in` substring test, `sep.join(parts)`,
 * `str.split(sep)` for a one-character separator, and `str.lower()` on
 * ASCII letters.
 */
module Text {

  /** Python's `str.isspace()` for one character (the characters `str.strip()` removes). */
  predicate IsSpace(c: char) {
    || c == ' '
    || ('\t' <= c <= '\r')
    || ('\U{1c}' <= c <= '\U{1f}')
    || c == '\U{85}' || c == '\U{a0}' || c == '\U{1680}'
    || ('\U{2000}' <= c <= '\U{200a}')
    || c == '\U{2028}' || c == '\U{2029}' || c == '\U{202f}'
    || c == '\U{205f}' || c == '\U{3000}'
  }

  ghost predicate AllSpace(s: string) {
    forall k :: 0 <= k < |s| ==> IsSpace(s[k])
  }

  lemma AllSpaceConcat(a: string, b: string)
    requires AllSpace(a) && AllSpace(b)
    ensures AllSpace(a + b)
  {
    forall k | 0 <= k < |a + b| ensures IsSpace((a + b)[k]) {
      if k < |a| {
        assert (a + b)[k] == a[k];
      } else {
        assert (a + b)[k] == b[k - |a|];
      }
    }
  }

  /** `s.lstrip()`: the suffix of `s` left after dropping its leading whitespace. */
  function TrimLeft(s: string): (r: string)
    ensures |r| <= |s| && r == s[|s| - |r|..]
    ensures AllSpace(s[..|s| - |r|])
    ensures r != [] ==> !IsSpace(r[0])
  {
    if s != [] && IsSpace(s[0]) then
      var r := TrimLeft(s[1..]);
      assert s[..|s| - |r|] == [s[0]] + s[1..][..|s| - 1 - |r|];
      AllSpaceConcat([s[0]], s[1..][..|s| - 1 - |r|]);
      r
    else s
  }

  /** `s.rstrip()`: the prefix of `s` left after dropping its trailing whitespace. */
  function TrimRight(s: string): (r: string)
    ensures |r| <= |s| && r == s[..|r|]
    ensures AllSpace(s[|r|..])
    ensures r != [] ==> !IsSpace(r[|r| - 1])
  {
    if s != [] && IsSpace(s[|s| - 1]) then
      var r := TrimRight(s[..|s| - 1]);
      assert s[|r|..] == s[..|s| - 1][|r|..] + [s[|s| - 1]];
      AllSpaceConcat(s[..|s| - 1][|r|..], [s[|s| - 1]]);
      r
    else s
  }

  /**
   * `s.strip()`: the part of `s` between its leading and its trailing
   * whitespace. The result starts and ends with a non-space character and is
   * empty exactly when `s` is all whitespace; `StripIsPiece` shows it is a
   * contiguous piece of `s` with only whitespace around it.
   */
  function Strip(s: string): (r: string)
    ensures |r| <= |s|
    ensures r != [] ==> !IsSpace(r[0]) && !IsSpace(r[|r| - 1])
    ensures r == [] <==> AllSpace(s)
  {
    var left := TrimLeft(s);
    var r := TrimRight(left);
    StripShape(s, |s| - |left|, left, r);
    r
  }

  /** The facts about the two trims that make up the contract of `Strip`. */
  lemma StripShape(s: string, i: nat, left: string, r: string)
    requires i <= |s| && left == s[i..] && AllSpace(s[..i])
    requires left != [] ==> !IsSpace(left[0])
    requires |r| <= |left| && r == left[..|r|] && AllSpace(left[|r|..])
    requires r != [] ==> !IsSpace(r[|r| - 1])
    ensures i + |r| <= |s| && r == s[i..i + |r|] && AllSpace(s[..i]) && AllSpace(s[i + |r|..])
    ensures r != [] ==> !IsSpace(r[0]) && !IsSpace(r[|r| - 1])
    ensures r == [] <==> AllSpace(s)
  {
    StripPiece(s, i, left, r);
    assert r != [] ==> r[0] == left[0];
    StripEmptyIff(s, i, r);
  }

  /** `r` is a contiguous piece of `s` with nothing but whitespace before and after it. */
  ghost predicate WhitespaceAround(s: string, r: string) {
    exists i :: 0 <= i <= |s| - |r| && r == s[i..i + |r|] && AllSpace(s[..i]) && AllSpace(s[i + |r|..])
  }

  lemma WhitespaceAroundAt(s: string, r: string, i: nat)
    requires i + |r| <= |s| && r == s[i..i + |r|] && AllSpace(s[..i]) && AllSpace(s[i + |r|..])
    ensures WhitespaceAround(s, r)
  {
  }

  /** `Strip` removes only whitespace, and only from the two ends. */
  lemma StripIsPiece(s: string)
    ensures WhitespaceAround(s, Strip(s))
  {
    var left := TrimLeft(s);
    var r := TrimRight(left);
    var i := |s| - |left|;
    StripShape(s, i, left, r);
    WhitespaceAroundAt(s, r, i);
  }

  /** Trimming both ends leaves the piece of `s` at `i` with all-space surroundings. */
  lemma StripPiece(s: string, i: nat, left: string, r: string)
    requires i <= |s| && left == s[i..] && AllSpace(s[..i])
    requires |r| <= |left| && r == left[..|r|] && AllSpace(left[|r|..])
    ensures i + |r| <= |s| && r == s[i..i + |r|]
    ensures AllSpace(s[i + |r|..])
  {
    assert s[i + |r|..] == left[|r|..];
    forall k | 0 <= k < |r| ensures r[k] == s[i + k] {
      assert r[k] == left[k];
    }
  }

  /** The piece between two all-space ends is empty exactly when the whole string is all space. */
  lemma StripEmptyIff(s: string, i: nat, r: string)
    requires i + |r| <= |s| && r == s[i..i + |r|]
    requires AllSpace(s[..i]) && AllSpace(s[i + |r|..])
    requires r != [] ==> !IsSpace(r[0])
    ensures r == [] <==> AllSpace(s)
  {
    if r == [] {
      forall k | 0 <= k < |s| ensures IsSpace(s[k]) {
        if k < i {
          assert s[k] == s[..i][k];
        } else {
          assert s[k] == s[i..][k - i];
        }
      }
    } else {
      assert r[0] == s[i];
    }
  }

  /** Stripping a second time changes nothing. */
  lemma StripIdempotent(s: string)
    ensures Strip(Strip(s)) == Strip(s)
  {
    var r := Strip(s);
    if r != [] {
      assert TrimLeft(r) == r;
      assert TrimRight(r) == r;
    }
  }

  /** Python's `s.startswith(p)`. */
  predicate StartsWith(s: string, p: string) {
    |p| <= |s| && s[..|p|] == p
  }

  predicate OccursAt(s: string, sub: string, i: int) {
    0 <= i <= |s| - |sub| && s[i..i + |sub|] == sub
  }

  /** Python's `sub in s`, scanning `s` left to right. */
  function Contains(s: string, sub: string): bool
    decreases |s|
  {
    StartsWith(s, sub) || (|s| > |sub| && Contains(s[1..], sub))
  }

  /** `Contains` holds exactly when `sub` occurs at some position of `s`. */
  lemma {:induction false} ContainsIff(s: string, sub: string)
    ensures Contains(s, sub) <==> exists i :: OccursAt(s, sub, i)
    decreases |s|
  {
    if StartsWith(s, sub) {
      assert OccursAt(s, sub, 0);
    } else if |s| > |sub| {
      ContainsIff(s[1..], sub);
      if Contains(s[1..], sub) {
        var i :| OccursAt(s[1..], sub, i);
        assert s[1..][i..i + |sub|] == s[i + 1..i + 1 + |sub|];
        assert OccursAt(s, sub, i + 1);
      }
      forall i | OccursAt(s, sub, i) ensures Contains(s[1..], sub) {
        assert i != 0;
        assert s[1..][i - 1..i - 1 + |sub|] == s[i..i + |sub|];
        assert OccursAt(s[1..], sub, i - 1);
      }
    }
  }

  /** Python's `sep.join(parts)`. */
  function Join(sep: string, parts: seq<string>): (r: string)
    ensures parts == [] ==> r == []
  {
    if |parts| == 0 then []
    else if |parts| == 1 then parts[0]
    else parts[0] + sep + Join(sep, parts[1..])
  }

  /** A joined string begins with its first part. */
  lemma JoinStartsWithFirst(sep: string, parts: seq<string>)
    requires parts != []
    ensures |parts[0]| <= |Join(sep, parts)| && Join(sep, parts)[..|parts[0]|] == parts[0]
  {
  }

  /**
   * Python's `s.split(c)` for a one-character separator: the pieces between
   * occurrences of `c`; there is always at least one piece.
   */
  function Split(s: string, c: char): (r: seq<string>)
    ensures |r| >= 1
  {
    if s == [] then [[]]
    else
      var rest := Split(s[1..], c);
      if s[0] == c then [[]] + rest
      else [[s[0]] + rest[0]] + rest[1..]
  }

  /** A piece free of the separator splits into itself. */
  lemma {:induction false} SplitNoSeparator(s: string, c: char)
    requires c !in s
    ensures Split(s, c) == [s]
  {
    if s != [] {
      assert s[0] != c && c !in s[1..];
      SplitNoSeparator(s[1..], c);
      assert [s[0]] + s[1..] == s;
    }
  }

  /** Splitting `x + [c] + y` where `x` has no `c` yields `x` followed by the pieces of `y`. */
  lemma {:induction false} SplitAtFirst(x: string, c: char, y: string)
    requires c !in x
    ensures Split(x + [c] + y, c) == [x] + Split(y, c)
    decreases |x|
  {
    var s := x + [c] + y;
    if x == [] {
      assert s[1..] == y;
    } else {
      assert s[1..] == x[1..] + [c] + y;
      SplitAtFirst(x[1..], c, y);
      assert [x[0]] + x[1..] == x;
    }
  }

  /**
   * Joining pieces that do not contain the separator and splitting again
   * gives the pieces back.
   */
  lemma {:induction false} SplitJoin(parts: seq<string>, c: char)
    requires parts != []
    requires forall k :: 0 <= k < |parts| ==> c !in parts[k]
    ensures Split(Join([c], parts), c) == parts
    decreases |parts|
  {
    if |parts| == 1 {
      SplitNoSeparator(parts[0], c);
    } else {
      SplitJoin(parts[1..], c);
      SplitAtFirst(parts[0], c, Join([c], parts[1..]));
      assert [parts[0]] + parts[1..] == parts;
    }
  }

  /** Splitting and joining again gives the string back. */
  lemma {:induction false} JoinSplit(s: string, c: char)
    ensures Join([c], Split(s, c)) == s
    decreases |s|
  {
    if s != [] {
      JoinSplit(s[1..], c);
      var rest := Split(s[1..], c);
      if s[0] == c {
        assert Split(s, c) == [[]] + rest;
        assert s == [] + [c] + Join([c], rest);
      } else {
        var r := Split(s, c);
        assert r[0] == [s[0]] + rest[0];
        if |rest| == 1 {
          assert r == [[s[0]] + rest[0]];
        } else {
          assert r[1..] == rest[1..];
          assert Join([c], rest) == rest[0] + [c] + Join([c], rest[1..]);
        }
      }
    }
  }

  /** Python's `c.lower()` on ASCII letters; other characters are unchanged. */
  function ToLowerAscii(c: char): (r: char)
    ensures 'A' <= c <= 'Z' ==> 'a' <= r <= 'z' && r as int - 'a' as int == c as int - 'A' as int
    ensures !('A' <= c <= 'Z') ==> r == c
  {
    if 'A' <= c <= 'Z' then (c as int + 32) as char else c
  }

  function LowerAscii(s: string): (r: string)
    ensures |r| == |s|
    ensures forall k :: 0 <= k < |s| ==> r[k] == ToLowerAscii(s[k])
  {
    if s == [] then [] else [ToLowerAscii(s[0])] + LowerAscii(s[1..])
  }
}
