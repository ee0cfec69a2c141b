/** The Python string primitives that the pipeline relies on: `str.isspace`,
    `str.strip()` and `sep.join(parts)`. `s.split(c)`, which the application never
    calls, is here only to state that a join can be undone. */
module Strings {

  /** Python's `str.isspace` for one code point: the characters that `str.strip()`
      with no argument removes. */
  predicate IsSpace(c: char) {
    || '\t' <= c <= '\r'
    || '\U{1C}' <= c <= '\U{1F}'
    || c == ' '
    || c == '\U{85}'
    || c == '\U{A0}'
    || c == '\U{1680}'
    || '\U{2000}' <= c <= '\U{200A}'
    || c == '\U{2028}'
    || c == '\U{2029}'
    || c == '\U{202F}'
    || c == '\U{205F}'
    || c == '\U{3000}'
  }

  /** Neither the first nor the last character is whitespace. */
  predicate Trimmed(s: string) {
    s == [] || (!IsSpace(s[0]) && !IsSpace(s[|s| - 1]))
  }

  /** `s.lstrip()`: the longest suffix of `s` that does not start with whitespace. */
  function LStrip(s: string): (r: string)
    ensures |r| <= |s| && r == s[|s| - |r|..]
    ensures forall i :: 0 <= i < |s| - |r| ==> IsSpace(s[i])
    ensures r == [] || !IsSpace(r[0])
  {
    if s != [] && IsSpace(s[0]) then LStrip(s[1..]) else s
  }

  /** `s.rstrip()`: the longest prefix of `s` that does not end with whitespace. */
  function RStrip(s: string): (r: string)
    ensures |r| <= |s| && r == s[..|r|]
    ensures forall i :: |r| <= i < |s| ==> IsSpace(s[i])
    ensures r == [] || !IsSpace(r[|r| - 1])
  {
    if s != [] && IsSpace(s[|s| - 1]) then RStrip(s[..|s| - 1]) else s
  }

  /** `r` is the slice of `s` starting at `i`, and everything before and after it is whitespace. */
  ghost predicate MiddleOf(s: string, i: int, r: string) {
    0 <= i <= |s| - |r| && r == s[i..i + |r|]
    && (forall k :: 0 <= k < i ==> IsSpace(s[k]))
    && (forall k :: i + |r| <= k < |s| ==> IsSpace(s[k]))
  }

  /** `s.strip()`: whitespace removed from both ends and nowhere else (`StripTakesMiddle`). */
  function Strip(s: string): (r: string)
    ensures Trimmed(r)
    ensures Trimmed(s) ==> r == s
  {
    var t := RStrip(s);
    var r := LStrip(t);
    assert r != [] ==> r[|r| - 1] == t[|t| - 1];
    r
  }

  /** A stripped string is the slice of the original left after dropping a run of
      whitespace at each end: order and count of what remains are kept. */
  lemma StripTakesMiddle(s: string)
    ensures exists i :: MiddleOf(s, i, Strip(s))
  {
    var t := RStrip(s);
    var r := LStrip(t);
    var i := |t| - |r|;
    assert Strip(s) == r;
    assert r == s[i..i + |r|] by {
      assert t == s[..|t|];
    }
    forall k | 0 <= k < i ensures IsSpace(s[k]) {
      assert s[k] == t[k];
    }
    assert MiddleOf(s, i, r);
  }

  /** Every character of a stripped string comes from the original. */
  lemma StripAddsNothing(s: string, x: char)
    requires x in Strip(s)
    ensures x in s
  {
    var t := RStrip(s);
    var r := LStrip(t);
    var k :| 0 <= k < |r| && r[k] == x;
    assert t[|t| - |r| + k] == x;
    assert s[|t| - |r| + k] == x;
  }

  /** Stripping never removes a character that is not whitespace. */
  lemma StripKeepsContent(s: string, x: char)
    requires x in s && !IsSpace(x)
    ensures x in Strip(s)
  {
    var t := RStrip(s);
    var r := LStrip(t);
    var k :| 0 <= k < |s| && s[k] == x;
    assert k < |t| && t[k] == x;
    assert r[k - (|t| - |r|)] == x;
  }

  /** `sep.join(parts)`: the parts in order with `sep` between neighbours. */
  function Join(sep: string, parts: seq<string>): string {
    if |parts| == 0 then []
    else if |parts| == 1 then parts[0]
    else parts[0] + sep + Join(sep, parts[1..])
  }

  /** `s.split(c)` for a one-character separator: the pieces between occurrences of `c`. */
  function Split(s: string, c: char): (r: seq<string>)
    ensures |r| >= 1
    ensures forall k :: 0 <= k < |r| ==> c !in r[k]
  {
    if s == [] then [[]]
    else
      var rest := Split(s[1..], c);
      if s[0] == c then [[]] + rest else [[s[0]] + rest[0]] + rest[1..]
  }

  /** Adding one more part extends a join by the separator and that part. */
  lemma {:induction false} JoinSnoc(sep: string, parts: seq<string>, x: string)
    requires parts != []
    ensures Join(sep, parts + [x]) == Join(sep, parts) + sep + x
  {
    if |parts| > 1 {
      assert (parts + [x])[1..] == parts[1..] + [x];
      JoinSnoc(sep, parts[1..], x);
    }
  }

  /** A join of parts whose first part is non-empty starts with that part's first character. */
  lemma {:induction false} JoinStartsWithFirstPart(sep: string, parts: seq<string>)
    requires parts != [] && parts[0] != []
    ensures Join(sep, parts) != [] && Join(sep, parts)[0] == parts[0][0]
  {
  }

  /** Joining with a character that occurs in no part, then splitting on it, gives the parts back. */
  lemma {:induction false} SplitJoin(parts: seq<string>, c: char)
    requires parts != []
    requires forall k :: 0 <= k < |parts| ==> c !in parts[k]
    ensures Split(Join([c], parts), c) == parts
  {
    if |parts| == 1 {
      SplitWithoutSeparator(parts[0], c);
    } else {
      SplitJoin(parts[1..], c);
      SplitAtFirstSeparator(parts[0], Join([c], parts[1..]), c);
      assert parts == [parts[0]] + parts[1..];
    }
  }

  /** Splitting, then joining with the same character, gives the string back. */
  lemma {:induction false} JoinSplit(s: string, c: char)
    ensures Join([c], Split(s, c)) == s
  {
    if s != [] {
      var rest := Split(s[1..], c);
      JoinSplit(s[1..], c);
      if s[0] == c {
        assert ([[]] + rest)[1..] == rest;
      } else {
        var r := [[s[0]] + rest[0]] + rest[1..];
        assert r[1..] == rest[1..];
        if |rest| > 1 {
          assert rest == [rest[0]] + rest[1..];
        }
      }
    }
  }

  lemma {:induction false} SplitWithoutSeparator(s: string, c: char)
    requires c !in s
    ensures Split(s, c) == [s]
  {
    if s != [] {
      SplitWithoutSeparator(s[1..], c);
      assert [s[0]] + s[1..] == s;
    }
  }

  lemma {:induction false} SplitAtFirstSeparator(a: string, b: string, c: char)
    requires c !in a
    ensures Split(a + [c] + b, c) == [a] + Split(b, c)
  {
    if a == [] {
      assert (a + [c] + b)[1..] == b;
    } else {
      assert (a + [c] + b)[1..] == a[1..] + [c] + b;
      SplitAtFirstSeparator(a[1..], b, c);
      assert [a[0]] + a[1..] == a;
    }
  }
}
