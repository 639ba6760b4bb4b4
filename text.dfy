/** The string operations the preprocessor borrows from Python's `str`. */
module Text {
  import opened Python

  /** `c.isspace()`: the characters Python's `str.strip()` removes. */
  predicate IsSpace(c: char) {
    || c == ' '
    || ('\t' <= c <= '\r')
    || ('\U{1C}' <= c <= '\U{1F}')
    || c == '\U{85}' || c == '\U{A0}' || c == '\U{1680}'
    || ('\U{2000}' <= c <= '\U{200A}')
    || c == '\U{2028}' || c == '\U{2029}' || c == '\U{202F}' || c == '\U{205F}' || c == '\U{3000}'
  }

  /** Every character of `s` from `lo` up to `hi` is whitespace. */
  predicate SpacesIn(s: string, lo: int, hi: int)
    requires 0 <= lo <= hi <= |s|
  {
    forall k :: lo <= k < hi ==> IsSpace(s[k])
  }

  /** The first position at or after `i` that does not hold whitespace. */
  function SkipSpaces(s: string, i: nat): (j: nat)
    requires i <= |s|
    ensures i <= j <= |s| && SpacesIn(s, i, j)
    ensures j < |s| ==> !IsSpace(s[j])
    decreases |s| - i
  {
    if i < |s| && IsSpace(s[i]) then SkipSpaces(s, i + 1) else i
  }

  /** The last position at or before `j`, but not before `lo`, that ends a run of
      whitespace reaching up to `j`. */
  function SkipSpacesBack(s: string, lo: nat, j: nat): (i: nat)
    requires lo <= j <= |s|
    ensures lo <= i <= j && SpacesIn(s, i, j)
    ensures lo < i ==> !IsSpace(s[i - 1])
    decreases j
  {
    if lo < j && IsSpace(s[j - 1]) then SkipSpacesBack(s, lo, j - 1) else j
  }

  /** `r` is what remains of `s` once the whitespace before position `i` and after
      `r` is removed, and `r` neither starts nor ends with whitespace. */
  predicate Stripped(s: string, i: int, r: string) {
    && 0 <= i <= |s| - |r|
    && s[i..i + |r|] == r
    && SpacesIn(s, 0, i)
    && SpacesIn(s, i + |r|, |s|)
    && (r == [] || (!IsSpace(r[0]) && !IsSpace(r[|r| - 1])))
  }

  /** `s.strip()`: `s` without its leading and trailing whitespace. */
  function Strip(s: string): string {
    var i := SkipSpaces(s, 0);
    s[i..SkipSpacesBack(s, i, |s|)]
  }

  /** What `Strip` removes is whitespace, and what it keeps neither starts nor ends
      with whitespace. */
  lemma StripIsStripped(s: string)
    ensures exists i :: Stripped(s, i, Strip(s))
  {
    var i := SkipSpaces(s, 0);
    var j := SkipSpacesBack(s, i, |s|);
    var r := s[i..j];
    assert Strip(s) == r;
    assert Stripped(s, i, r) by {
      if r != [] {
        assert r[0] == s[i] && r[|r| - 1] == s[j - 1];
      }
    }
  }

  /** Python's `str.lower()` on the ASCII letters. */
  function LowerChar(c: char): char {
    if 'A' <= c <= 'Z' then (c as int + 32) as char else c
  }

  function Lower(s: string): (r: string)
    ensures |r| == |s|
    ensures forall i :: 0 <= i < |s| ==> r[i] == LowerChar(s[i])
  {
    if s == [] then [] else [LowerChar(s[0])] + Lower(s[1..])
  }

  /** Lower-casing twice is lower-casing once, and leaves no upper-case ASCII letter. */
  lemma LowerIsIdempotent(s: string)
    ensures Lower(Lower(s)) == Lower(s)
    ensures forall i :: 0 <= i < |s| ==> !('A' <= Lower(s)[i] <= 'Z')
  {
    var l := Lower(s);
    forall i | 0 <= i < |l|
      ensures Lower(l)[i] == l[i]
    {
      assert l[i] == LowerChar(s[i]);
    }
  }

  predicate StartsWith(s: string, prefix: string) {
    |prefix| <= |s| && s[..|prefix|] == prefix
  }

  /** `x` occurs in `s` starting at position `i`. */
  predicate OccursAt(x: string, s: string, i: int) {
    0 <= i <= |s| - |x| && s[i..i + |x|] == x
  }

  /** Python's `x in s` for two strings: `x` occurs somewhere in `s`. */
  function IsSubstring(x: string, s: string): (r: bool)
    ensures r <==> exists i :: OccursAt(x, s, i)
    decreases |s|
  {
    if |x| > |s| then false
    else if s[..|x|] == x then
      assert OccursAt(x, s, 0);
      true
    else
      forall i ensures OccursAt(x, s[1..], i) <==> OccursAt(x, s, i + 1) {
        if 0 <= i <= |s| - 1 - |x| {
          assert s[1..][i..i + |x|] == s[i + 1..i + 1 + |x|];
        }
      }
      assert !OccursAt(x, s, 0);
      assert forall i :: OccursAt(x, s, i) ==> OccursAt(x, s[1..], i - 1);
      IsSubstring(x, s[1..])
  }

  /** The position of the first `c` in `s`. */
  function FirstIndexOf(s: string, c: char): (r: Option<nat>)
    ensures r.None? <==> c !in s
    ensures r.Some? ==> r.value < |s| && s[r.value] == c && c !in s[..r.value]
  {
    if s == [] then None
    else if s[0] == c then Some(0)
    else
      match FirstIndexOf(s[1..], c)
      case None => None
      case Some(k) =>
        assert s[..k + 1] == [s[0]] + s[1..][..k];
        Some(k + 1)
  }

  /** The position of the last `c` in `s`. */
  function LastIndexOf(s: string, c: char): (r: Option<nat>)
    ensures r.None? <==> c !in s
    ensures r.Some? ==> r.value < |s| && s[r.value] == c && c !in s[r.value + 1..]
  {
    if s == [] then None
    else if s[|s| - 1] == c then Some(|s| - 1)
    else
      var r := LastIndexOf(s[..|s| - 1], c);
      assert s == s[..|s| - 1] + [s[|s| - 1]];
      if r.Some? then
        assert s[r.value + 1..] == s[..|s| - 1][r.value + 1..] + [s[|s| - 1]];
        r
      else r
  }

  /** `sep.join(parts)`. */
  function Join(sep: string, parts: seq<string>): (r: string)
    ensures parts != [] ==> StartsWith(r, parts[0])
  {
    if parts == [] then ""
    else if |parts| == 1 then parts[0]
    else parts[0] + sep + Join(sep, parts[1..])
  }

  /** Joining two non-empty runs of parts is joining each and putting one separator
      between them: every part appears, in order, with one separator before each
      part but the first. */
  lemma {:induction false} JoinAppend(sep: string, a: seq<string>, b: seq<string>)
    requires a != [] && b != []
    ensures Join(sep, a + b) == Join(sep, a) + sep + Join(sep, b)
    decreases |a|
  {
    if |a| == 1 {
      assert (a + b)[1..] == b;
    } else {
      assert (a + b)[1..] == a[1..] + b;
      JoinAppend(sep, a[1..], b);
      assert Join(sep, a + b) == a[0] + sep + (Join(sep, a[1..]) + sep + Join(sep, b));
    }
  }
}
