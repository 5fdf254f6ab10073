/**
 * The string primitives the import script relies on, stated over sequences:
 * substring search (`str.find`, the `in` operator), prefix tests
 * (`startswith`), ASCII upper-casing (`str.upper`) and trimming (`str.strip`).
 */
module Text {

  /** `pat` occurs in `s` starting at index `i`. */
  predicate OccursAt<T(==)>(s: seq<T>, pat: seq<T>, i: int)
  {
    0 <= i && i + |pat| <= |s| && s[i..i + |pat|] == pat
  }

  /**
   * `s.find(pat, from)`: the least index at or after `from` where `pat`
   * occurs in `s`, or -1 when there is none.
   */
  function Find<T(==)>(s: seq<T>, pat: seq<T>, from: nat): (r: int)
    ensures r == -1 || (from <= r && OccursAt(s, pat, r))
    ensures forall i :: from <= i && (r == -1 || i < r) ==> !OccursAt(s, pat, i)
    decreases |s| - from
  {
    if |s| < from + |pat| then -1
    else if s[from..from + |pat|] == pat then from
    else Find(s, pat, from + 1)
  }

  /** `pat in s`: a plain substring (or sub-bytes) test. */
  function Contains<T(==)>(s: seq<T>, pat: seq<T>): (b: bool)
    ensures b <==> exists i :: OccursAt(s, pat, i)
  {
    Find(s, pat, 0) >= 0
  }

  /** `s.startswith(p)`: `p` occurs at index 0. */
  function StartsWith<T(==)>(s: seq<T>, p: seq<T>): (b: bool)
    ensures b <==> OccursAt(s, p, 0)
  {
    |p| <= |s| && s[..|p|] == p
  }

  predicate IsLowerAscii(c: char)
  {
    'a' <= c <= 'z'
  }

  function UpperChar(c: char): char
  {
    if IsLowerAscii(c) then (c as int - 32) as char else c
  }

  /**
   * `s.upper()` restricted to ASCII: every lower-case ASCII letter becomes
   * its capital, every other character is kept.
   */
  function Upper(s: string): (r: string)
    ensures |r| == |s|
    ensures forall i :: 0 <= i < |s| ==> !IsLowerAscii(r[i])
    ensures forall i :: 0 <= i < |s| && IsLowerAscii(s[i]) ==> r[i] as int == s[i] as int - 32
    ensures forall i :: 0 <= i < |s| && !IsLowerAscii(s[i]) ==> r[i] == s[i]
  {
    seq(|s|, i requires 0 <= i < |s| => UpperChar(s[i]))
  }

  /** `s.lstrip(chars)`: drops the longest prefix made only of `chars`. */
  function TrimLeft(s: string, chars: set<char>): (r: string)
    ensures |r| <= |s| && r == s[|s| - |r|..]
    ensures r == [] || r[0] !in chars
    ensures forall i :: 0 <= i < |s| - |r| ==> s[i] in chars
  {
    if s != [] && s[0] in chars then
      var r := TrimLeft(s[1..], chars);
      assert s[1..][|s| - 1 - |r|..] == s[|s| - |r|..];
      assert forall i :: 1 <= i < |s| - |r| ==> s[i] == s[1..][i - 1];
      r
    else s
  }

  /** `s.rstrip(chars)`: drops the longest suffix made only of `chars`. */
  function TrimRight(s: string, chars: set<char>): (r: string)
    ensures |r| <= |s| && r == s[..|r|]
    ensures r == [] || r[|r| - 1] !in chars
    ensures forall i :: |r| <= i < |s| ==> s[i] in chars
  {
    if s != [] && s[|s| - 1] in chars then TrimRight(s[..|s| - 1], chars) else s
  }

  /**
   * `s.strip(chars)`: removes a leading and a trailing run of `chars`; what
   * is left is a slice of `s` that neither starts nor ends with one of them.
   */
  function Strip(s: string, chars: set<char>): (r: string)
    ensures |r| <= |s|
    ensures r == [] || (r[0] !in chars && r[|r| - 1] !in chars)
    ensures exists a :: StrippedAt(s, chars, a, r)
  {
    StripIsSlice(s, chars);
    TrimRight(TrimLeft(s, chars), chars)
  }

  /** The two trims leave the slice of `s` starting where the left trim stopped. */
  lemma StripIsSlice(s: string, chars: set<char>)
    ensures StrippedAt(s, chars, |s| - |TrimLeft(s, chars)|, TrimRight(TrimLeft(s, chars), chars))
  {
    var l := TrimLeft(s, chars);
    SliceOfSuffix(s, chars, |s| - |l|, l, TrimRight(l, chars));
  }

  /** A prefix `r` of the suffix `l` of `s`, with only `chars` around it, is a stripped slice. */
  lemma SliceOfSuffix(s: string, chars: set<char>, a: nat, l: string, r: string)
    requires a <= |s| && l == s[a..] && |r| <= |l| && r == l[..|r|]
    requires forall i :: 0 <= i < a ==> s[i] in chars
    requires forall i :: |r| <= i < |l| ==> l[i] in chars
    ensures StrippedAt(s, chars, a, r)
  {
    assert r == s[a..a + |r|];
    forall i | a + |r| <= i < |s|
      ensures s[i] in chars
    {
      assert s[i] == l[i - a];
    }
  }

  /** `r` is `s` from index `a` on, with everything before and after it in `chars`. */
  predicate StrippedAt(s: string, chars: set<char>, a: int, r: string)
  {
    && 0 <= a && a + |r| <= |s| && r == s[a..a + |r|]
    && (forall i :: 0 <= i < a ==> s[i] in chars)
    && (forall i :: a + |r| <= i < |s| ==> s[i] in chars)
  }

  /** When the first character is not trimmable, stripping only trims the right end. */
  lemma StripKeepsStart(s: string, chars: set<char>)
    requires s != [] && s[0] !in chars
    ensures Strip(s, chars) == TrimRight(s, chars)
  {
  }
}
