/**
 * The Go string primitives the core relies on (package strings): TrimSpace,
 * ToLower, Index, Contains, HasPrefix, Split and Replace-all, over `seq<char>`.
 */
module Text {

  // ---------------------------------------------------------------------------
  // Whitespace and trimming
  // ---------------------------------------------------------------------------

  /** Go's unicode.IsSpace: the Unicode White_Space property. */
  predicate IsSpace(c: char) {
    ('\t' <= c <= '\r') || c == ' ' || c == '\U{85}' || c == '\U{A0}' || c == '\U{1680}'
    || ('\U{2000}' <= c <= '\U{200A}') || c == '\U{2028}' || c == '\U{2029}'
    || c == '\U{202F}' || c == '\U{205F}' || c == '\U{3000}'
  }

  predicate AllSpace(s: string) {
    forall i :: 0 <= i < |s| ==> IsSpace(s[i])
  }

  /** Number of whitespace characters at the front of `s`. */
  function LeadingSpaces(s: string): (n: nat)
    ensures n <= |s|
    ensures forall i :: 0 <= i < n ==> IsSpace(s[i])
    ensures n == |s| || !IsSpace(s[n])
  {
    if s != [] && IsSpace(s[0]) then 1 + LeadingSpaces(s[1..]) else 0
  }

  /** Number of whitespace characters at the back of `s`. */
  function TrailingSpaces(s: string): (n: nat)
    ensures n <= |s|
    ensures forall i :: |s| - n <= i < |s| ==> IsSpace(s[i])
    ensures n == |s| || !IsSpace(s[|s| - 1 - n])
  {
    if s != [] && IsSpace(s[|s| - 1]) then 1 + TrailingSpaces(s[..|s| - 1]) else 0
  }

  function TrimLeft(s: string): string {
    s[LeadingSpaces(s)..]
  }

  function TrimRight(s: string): string {
    s[..|s| - TrailingSpaces(s)]
  }

  /** strings.TrimSpace: TrimRightFunc(TrimLeftFunc(s, IsSpace), IsSpace). */
  function TrimSpace(s: string): (r: string)
    ensures r == [] || (!IsSpace(r[0]) && !IsSpace(r[|r| - 1]))
    ensures |r| <= |s|
  {
    TrimRight(TrimLeft(s))
  }

  lemma {:induction false} LeadingSpacesAppend(w: string, y: string)
    requires AllSpace(w)
    ensures LeadingSpaces(w + y) == |w| + LeadingSpaces(y)
    decreases |w|
  {
    if w != [] {
      assert (w + y)[1..] == w[1..] + y;
      LeadingSpacesAppend(w[1..], y);
    } else {
      assert w + y == y;
    }
  }

  lemma {:induction false} TrailingSpacesAppend(y: string, w: string)
    requires AllSpace(w)
    ensures TrailingSpaces(y + w) == |w| + TrailingSpaces(y)
    decreases |w|
  {
    if w != [] {
      assert (y + w)[..|y + w| - 1] == y + w[..|w| - 1];
      TrailingSpacesAppend(y, w[..|w| - 1]);
    } else {
      assert y + w == y;
    }
  }

  lemma TrimLeftPadded(w: string, y: string)
    requires AllSpace(w)
    ensures TrimLeft(w + y) == TrimLeft(y)
  {
    LeadingSpacesAppend(w, y);
    assert (w + y)[|w| + LeadingSpaces(y)..] == y[LeadingSpaces(y)..];
  }

  lemma TrimLeftAppend(x: string, w: string)
    requires AllSpace(w)
    ensures TrimLeft(x + w) == TrimLeft(x) + w || (TrimLeft(x) == [] && TrimLeft(x + w) == [])
  {
    if LeadingSpaces(x) == |x| {
      assert AllSpace(x + w);
      LeadingSpacesAppend(x + w, []);
      assert x + w + [] == x + w;
    } else {
      LeadingSpacesPrefix(x, w);
      assert (x + w)[LeadingSpaces(x)..] == x[LeadingSpaces(x)..] + w;
    }
  }

  lemma TrimRightAppend(u: string, w: string)
    requires AllSpace(w)
    ensures TrimRight(u + w) == TrimRight(u)
  {
    TrailingSpacesAppend(u, w);
    assert (u + w)[..|u + w| - TrailingSpaces(u + w)] == u[..|u| - TrailingSpaces(u)];
  }

  /** Surrounding whitespace never changes what TrimSpace returns. */
  lemma TrimSpacePadded(w1: string, x: string, w2: string)
    requires AllSpace(w1) && AllSpace(w2)
    ensures TrimSpace(w1 + x + w2) == TrimSpace(x)
  {
    assert w1 + x + w2 == w1 + (x + w2);
    TrimLeftPadded(w1, x + w2);
    TrimLeftAppend(x, w2);
    if TrimLeft(x + w2) == TrimLeft(x) + w2 {
      TrimRightAppend(TrimLeft(x), w2);
    }
  }

  lemma {:induction false} LeadingSpacesPrefix(x: string, w: string)
    requires LeadingSpaces(x) < |x|
    ensures LeadingSpaces(x + w) == LeadingSpaces(x)
    decreases |x|
  {
    if IsSpace(x[0]) {
      assert (x + w)[1..] == x[1..] + w;
      LeadingSpacesPrefix(x[1..], w);
    }
  }

  /** TrimSpace is idempotent. */
  lemma TrimSpaceIdempotent(s: string)
    ensures TrimSpace(TrimSpace(s)) == TrimSpace(s)
  {
    var t := TrimSpace(s);
    assert LeadingSpaces(t) == 0;
    assert TrailingSpaces(t) == 0;
  }

  /**
   * TrimSpace cuts a contiguous block out of its input and drops only white
   * space around it; with the result's non-space ends this fixes the result.
   */
  lemma TrimSpaceIsSlice(s: string)
    ensures exists a, b :: 0 <= a <= b <= |s| && TrimSpace(s) == s[a..b] && AllSpace(s[..a]) && AllSpace(s[b..])
  {
    var a := LeadingSpaces(s);
    var u := s[a..];
    var b := a + (|u| - TrailingSpaces(u));
    assert TrimSpace(s) == s[a..b];
    assert AllSpace(s[..a]);
    assert forall i :: b <= i < |s| ==> s[i] == u[i - a];
    assert AllSpace(s[b..]);
  }

  // ---------------------------------------------------------------------------
  // Case
  // ---------------------------------------------------------------------------

  function LowerChar(c: char): char {
    if 'A' <= c <= 'Z' then (c as int + 32) as char else c
  }

  function UpperChar(c: char): char {
    if 'a' <= c <= 'z' then (c as int - 32) as char else c
  }

  /** strings.ToLower, restricted to the ASCII letters. */
  function ToLower(s: string): (r: string)
    ensures |r| == |s|
    ensures forall i :: 0 <= i < |s| ==> r[i] == LowerChar(s[i])
  {
    seq(|s|, i requires 0 <= i < |s| => LowerChar(s[i]))
  }

  /** strings.ToUpper, restricted to the ASCII letters. */
  function ToUpper(s: string): (r: string)
    ensures |r| == |s|
    ensures forall i :: 0 <= i < |s| ==> r[i] == UpperChar(s[i])
  {
    seq(|s|, i requires 0 <= i < |s| => UpperChar(s[i]))
  }

  /** The normal form the enum parsers look up: lower-cased, then trimmed. */
  function Normalize(s: string): (r: string)
    ensures |r| <= |s|
    ensures r == [] || (!IsSpace(r[0]) && !IsSpace(r[|r| - 1]))
  {
    TrimSpace(ToLower(s))
  }

  /** A normal form holds no upper-case ASCII letter. */
  lemma NormalizeNoUpper(s: string)
    ensures forall i :: 0 <= i < |Normalize(s)| ==> !('A' <= Normalize(s)[i] <= 'Z')
  {
    var t := ToLower(s);
    TrimSpaceOffset(t);
    assert forall i :: 0 <= i < |t| ==> !('A' <= t[i] <= 'Z');
  }

  /** The trimmed text starts where the leading white space ends. */
  lemma TrimSpaceOffset(s: string)
    ensures LeadingSpaces(s) + |TrimSpace(s)| <= |s|
    ensures forall i :: 0 <= i < |TrimSpace(s)| ==> TrimSpace(s)[i] == s[LeadingSpaces(s) + i]
  {
  }

  /** Normalisation ignores surrounding whitespace. */
  lemma NormalizePadded(w1: string, s: string, w2: string)
    requires AllSpace(w1) && AllSpace(w2)
    ensures Normalize(w1 + s + w2) == Normalize(s)
  {
    assert ToLower(w1 + s + w2) == w1 + ToLower(s) + w2;
    TrimSpacePadded(w1, ToLower(s), w2);
  }

  /** Normalisation ignores the case of ASCII letters. */
  lemma NormalizeUpper(s: string)
    ensures Normalize(ToUpper(s)) == Normalize(s)
  {
    assert ToLower(ToUpper(s)) == ToLower(s);
  }

  /** A word made only of lower-case ASCII letters. */
  predicate LowerWord(s: string) {
    forall i :: 0 <= i < |s| ==> 'a' <= s[i] <= 'z'
  }

  /** A word of lower-case letters is its own normal form. */
  lemma NormalizeLowerWord(s: string)
    requires LowerWord(s)
    ensures Normalize(s) == s
  {
    assert ToLower(s) == s;
    assert LeadingSpaces(s) == 0;
    assert TrailingSpaces(s) == 0;
  }

  // ---------------------------------------------------------------------------
  // Searching
  // ---------------------------------------------------------------------------

  predicate OccursAt(s: string, sub: string, j: int) {
    0 <= j && j + |sub| <= |s| && s[j..j + |sub|] == sub
  }

  lemma OccursShift(s: string, sub: string)
    requires s != []
    ensures forall j :: 1 <= j ==> (OccursAt(s, sub, j) <==> OccursAt(s[1..], sub, j - 1))
  {
    forall j | 1 <= j
      ensures OccursAt(s, sub, j) <==> OccursAt(s[1..], sub, j - 1)
    {
      if j + |sub| <= |s| {
        assert s[1..][j - 1..j - 1 + |sub|] == s[j..j + |sub|];
      }
    }
  }

  /** strings.Index: the first position where `sub` occurs, or -1. */
  function Index(s: string, sub: string): (i: int)
    ensures -1 <= i <= |s|
    ensures i >= 0 ==> OccursAt(s, sub, i)
    ensures forall j :: 0 <= j && (i < 0 || j < i) ==> !OccursAt(s, sub, j)
    decreases |s|
  {
    if |s| < |sub| then -1
    else if s[..|sub|] == sub then 0
    else
      OccursShift(s, sub);
      var k := Index(s[1..], sub);
      if k < 0 then -1 else k + 1
  }

  /** strings.Contains. */
  predicate Contains(s: string, sub: string) {
    Index(s, sub) >= 0
  }

  predicate HasPrefix(s: string, p: string) {
    |p| <= |s| && s[..|p|] == p
  }

  /** `Contains(s, p) && Index(s, p) == 0` is exactly a prefix test. */
  lemma IndexZeroIsPrefix(s: string, p: string)
    ensures (Contains(s, p) && Index(s, p) == 0) <==> HasPrefix(s, p)
  {
    if HasPrefix(s, p) {
      assert OccursAt(s, p, 0);
    }
  }

  /** A block cut out of a string without `sub` has no `sub` either. */
  lemma NotContainsSlice(s: string, sub: string, a: int, b: int)
    requires 0 <= a <= b <= |s|
    requires !Contains(s, sub)
    ensures !Contains(s[a..b], sub)
  {
    var t := s[a..b];
    forall j | 0 <= j
      ensures !OccursAt(t, sub, j)
    {
      if j + |sub| <= |t| {
        assert !OccursAt(s, sub, a + j);
        SliceOfSlice(s, a, b, j, |sub|);
      }
    }
  }

  /** A slice of a slice is a slice of the whole. */
  lemma SliceOfSlice(s: string, a: int, b: int, j: int, n: int)
    requires 0 <= a <= b <= |s| && 0 <= j && 0 <= n && j + n <= b - a
    ensures s[a..b][j..j + n] == s[a + j..a + j + n]
  {
    var u, v := s[a..b][j..j + n], s[a + j..a + j + n];
    forall k | 0 <= k < n
      ensures u[k] == v[k]
    {
      assert u[k] == s[a..b][j + k];
    }
  }

  // ---------------------------------------------------------------------------
  // Splitting and joining
  // ---------------------------------------------------------------------------

  /** strings.Split with a non-empty separator. */
  function SplitOn(s: string, sep: string): (parts: seq<string>)
    requires sep != []
    ensures |parts| >= 1
    decreases |s|
  {
    var i := Index(s, sep);
    if i < 0 then [s] else [s[..i]] + SplitOn(s[i + |sep|..], sep)
  }

  /** strings.Split with the empty separator: one piece per character. */
  function Explode(s: string): (parts: seq<string>)
    ensures |parts| == |s|
  {
    seq(|s|, i requires 0 <= i < |s| => [s[i]])
  }

  /** strings.Split. */
  function Split(s: string, sep: string): (parts: seq<string>)
    ensures sep != [] ==> |parts| >= 1
  {
    if sep == [] then Explode(s) else SplitOn(s, sep)
  }

  /** strings.Join. */
  function Join(parts: seq<string>, sep: string): string {
    if parts == [] then []
    else if |parts| == 1 then parts[0]
    else parts[0] + sep + Join(parts[1..], sep)
  }

  /** Joining the pieces with the separator gives back the input. */
  lemma {:induction false} SplitJoin(s: string, sep: string)
    requires sep != []
    ensures Join(SplitOn(s, sep), sep) == s
    decreases |s|
  {
    var i := Index(s, sep);
    if i >= 0 {
      var rest := s[i + |sep|..];
      var parts := SplitOn(s, sep);
      assert parts == [s[..i]] + SplitOn(rest, sep);
      assert parts[1..] == SplitOn(rest, sep);
      assert Join(parts, sep) == s[..i] + sep + Join(SplitOn(rest, sep), sep);
      SplitJoin(rest, sep);
      assert s == s[..i] + sep + rest by {
        assert s[i..i + |sep|] == sep;
      }
    }
  }

  /** No piece of a split contains the separator. */
  lemma {:induction false} SplitPiecesFree(s: string, sep: string)
    requires sep != []
    ensures forall k :: 0 <= k < |SplitOn(s, sep)| ==> !Contains(SplitOn(s, sep)[k], sep)
    decreases |s|
  {
    var i := Index(s, sep);
    if i >= 0 {
      HeadFree(s, sep, i);
      SplitPiecesFree(s[i + |sep|..], sep);
    }
  }

  /** The text before the first occurrence holds no occurrence. */
  lemma HeadFree(s: string, sep: string, i: int)
    requires sep != [] && 0 <= i <= |s| && forall j :: 0 <= j < i ==> !OccursAt(s, sep, j)
    ensures !Contains(s[..i], sep)
  {
    var head := s[..i];
    forall j | 0 <= j
      ensures !OccursAt(head, sep, j)
    {
      if j + |sep| <= |head| {
        assert !OccursAt(s, sep, j);
        assert head[j..j + |sep|] == s[j..j + |sep|];
      }
    }
  }

  /** Number of occurrences of `c` in `s`. */
  function CountChar(s: string, c: char): nat {
    if s == [] then 0 else (if s[0] == c then 1 else 0) + CountChar(s[1..], c)
  }

  lemma {:induction false} CountCharAppend(a: string, b: string, c: char)
    ensures CountChar(a + b, c) == CountChar(a, c) + CountChar(b, c)
    decreases |a|
  {
    if a != [] {
      assert (a + b)[1..] == a[1..] + b;
      CountCharAppend(a[1..], b, c);
    } else {
      assert a + b == b;
    }
  }

  lemma {:induction false} CountCharAbsent(a: string, c: char)
    requires c !in a
    ensures CountChar(a, c) == 0
    decreases |a|
  {
    if a != [] {
      CountCharAbsent(a[1..], c);
    }
  }

  /** With a one-character separator, Index finds the first occurrence of that character. */
  lemma IndexCharAfter(a: string, c: char, rest: string)
    requires c !in a
    ensures Index(a + [c] + rest, [c]) == |a|
  {
    var s := a + [c] + rest;
    assert s[|a|..|a| + 1] == [c];
    assert OccursAt(s, [c], |a|);
    forall j | 0 <= j < |a|
      ensures !OccursAt(s, [c], j)
    {
      assert s[j..j + 1] == [a[j]];
    }
  }

  lemma IndexCharAbsent(a: string, c: char)
    requires c !in a
    ensures Index(a, [c]) < 0
  {
    forall j | 0 <= j < |a|
      ensures !OccursAt(a, [c], j)
    {
      assert a[j..j + 1] == [a[j]];
    }
  }

  /** Splitting on a one-character separator gives one piece more than there are separators. */
  lemma {:induction false} SplitCharCount(s: string, c: char)
    ensures |SplitOn(s, [c])| == CountChar(s, c) + 1
    decreases |s|
  {
    if c in s {
      var i :| 0 <= i < |s| && s[i] == c && c !in s[..i] by {
        FirstOccurrence(s, c);
      }
      assert s == s[..i] + [c] + s[i + 1..];
      IndexCharAfter(s[..i], c, s[i + 1..]);
      SplitCharCount(s[i + 1..], c);
      CountCharAppend(s[..i] + [c], s[i + 1..], c);
      CountCharAppend(s[..i], [c], c);
      CountCharAbsent(s[..i], c);
    } else {
      IndexCharAbsent(s, c);
      CountCharAbsent(s, c);
    }
  }

  lemma {:induction false} FirstOccurrence(s: string, c: char)
    requires c in s
    ensures exists i :: 0 <= i < |s| && s[i] == c && c !in s[..i]
    decreases |s|
  {
    if s[0] == c {
      assert s[..0] == [];
    } else {
      FirstOccurrence(s[1..], c);
      var k :| 0 <= k < |s[1..]| && s[1..][k] == c && c !in s[1..][..k];
      var p := s[..k + 1];
      forall j | 0 <= j < |p|
        ensures p[j] != c
      {
        if j > 0 {
          assert p[j] == s[1..][..k][j - 1];
        }
      }
      assert s[k + 1] == s[1..][k];
    }
  }

  /** A piece free of the separator is split off at the first separator. */
  lemma SplitCharCons(a: string, c: char, rest: string)
    requires c !in a
    ensures SplitOn(a + [c] + rest, [c]) == [a] + SplitOn(rest, [c])
  {
    var s := a + [c] + rest;
    IndexCharAfter(a, c, rest);
    assert s[..|a|] == a;
    assert s[|a| + 1..] == rest;
  }

  lemma SplitCharNone(a: string, c: char)
    requires c !in a
    ensures SplitOn(a, [c]) == [a]
  {
    IndexCharAbsent(a, c);
  }

  /**
   * Three separator-free titles joined by `c` split back into exactly
   * those three titles.
   */
  lemma SplitThree(a: string, b: string, d: string, c: char)
    requires c !in a && c !in b && c !in d
    ensures SplitOn(a + [c] + b + [c] + d, [c]) == [a, b, d]
  {
    var tail := b + [c] + d;
    calc {
      SplitOn(a + [c] + b + [c] + d, [c]);
      { assert a + [c] + b + [c] + d == a + [c] + tail; }
      SplitOn(a + [c] + tail, [c]);
      { SplitCharCons(a, c, tail); }
      [a] + SplitOn(tail, [c]);
      { SplitCharCons(b, c, d); SplitCharNone(d, c); }
      [a, b, d];
    }
  }

  // ---------------------------------------------------------------------------
  // Replacing
  // ---------------------------------------------------------------------------

  /**
   * strings.Replace(s, pat, "", -1): every non-overlapping occurrence of
   * `pat`, scanning left to right, is deleted.
   */
  function RemoveAll(s: string, pat: string): (r: string)
    requires pat != []
    ensures |r| <= |s|
    decreases |s|
  {
    var i := Index(s, pat);
    if i < 0 then s else s[..i] + RemoveAll(s[i + |pat|..], pat)
  }

  /** Deleting occurrences of a prefix shortens the string by at least that prefix. */
  lemma RemoveAllPrefix(s: string, pat: string)
    requires pat != [] && HasPrefix(s, pat)
    ensures |RemoveAll(s, pat)| <= |s| - |pat|
  {
    assert OccursAt(s, pat, 0);
  }

  /**
   * Deleting is splitting on `pat` and joining the pieces with nothing:
   * what survives is exactly the text between the occurrences Split finds.
   */
  lemma {:induction false} RemoveAllSplitJoin(s: string, pat: string)
    requires pat != []
    ensures RemoveAll(s, pat) == Join(SplitOn(s, pat), "")
    decreases |s|
  {
    var i := Index(s, pat);
    if i >= 0 {
      var rest := s[i + |pat|..];
      var parts := SplitOn(s, pat);
      assert parts == [s[..i]] + SplitOn(rest, pat);
      assert parts[1..] == SplitOn(rest, pat);
      assert Join(parts, "") == s[..i] + "" + Join(SplitOn(rest, pat), "");
      RemoveAllSplitJoin(rest, pat);
    }
  }

  /** A string without `pat` is left as it is. */
  lemma RemoveAllAbsent(s: string, pat: string)
    requires pat != [] && !Contains(s, pat)
    ensures RemoveAll(s, pat) == s
  {
  }
}
