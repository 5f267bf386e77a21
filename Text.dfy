/**
 * The Python string operations the companion script relies on: `str.strip()`
 * with no argument, `str.split(sep)` with a non-empty separator, and
 * `sep.join(parts)`; plus a right-to-left search that serves as an independent
 * reference for "the text after the last separator".
 */
module Text {
  import opened Wrappers

  // ---------------------------------------------------------------------------
  // White space and strip()
  // ---------------------------------------------------------------------------

  /** Python's `str.isspace()` on one character: the characters `strip()` removes
      when it is given no argument (bidirectional classes WS, B, S and category Zs). */
  predicate IsSpace(c: char)
  {
    var n := c as int;
    (0x09 <= n <= 0x0D) || (0x1C <= n <= 0x20) || n == 0x85 || n == 0xA0 ||
    n == 0x1680 || (0x2000 <= n <= 0x200A) || n == 0x2028 || n == 0x2029 ||
    n == 0x202F || n == 0x205F || n == 0x3000
  }

  predicate AllSpace(s: string)
  {
    forall i :: 0 <= i < |s| ==> IsSpace(s[i])
  }

  /** Neither starts nor ends with white space. */
  predicate Trimmed(s: string)
  {
    s == [] || (!IsSpace(s[0]) && !IsSpace(s[|s| - 1]))
  }

  /** The first index at or after `i` whose character is not white space, or `|s|`. */
  function SkipSpace(s: string, i: nat): (k: nat)
    requires i <= |s|
    decreases |s| - i
    ensures i <= k <= |s|
    ensures forall m :: i <= m < k ==> IsSpace(s[m])
    ensures k < |s| ==> !IsSpace(s[k])
  {
    if i == |s| || !IsSpace(s[i]) then i else SkipSpace(s, i + 1)
  }

  /** The end of the text before `j` once its trailing white space is dropped, looking no
      further left than `lo`. */
  function SkipSpaceBack(s: string, lo: nat, j: nat): (k: nat)
    requires lo <= j <= |s|
    ensures lo <= k <= j
    ensures forall m :: k <= m < j ==> IsSpace(s[m])
    ensures lo < k ==> !IsSpace(s[k - 1])
  {
    if j == lo || !IsSpace(s[j - 1]) then j else SkipSpaceBack(s, lo, j - 1)
  }

  /** `s.strip()`: `s` without its leading and its trailing white space. */
  function Strip(s: string): string
  {
    var i := SkipSpace(s, 0);
    s[i..SkipSpaceBack(s, i, |s|)]
  }

  /** Any index with the properties of `SkipSpace` is the one it finds. */
  lemma SkipSpaceUnique(s: string, i: nat, k: nat)
    requires i <= k <= |s|
    requires forall m :: i <= m < k ==> IsSpace(s[m])
    requires k < |s| ==> !IsSpace(s[k])
    ensures SkipSpace(s, i) == k
  {
    var r := SkipSpace(s, i);
    if r < k {
    } else if k < r {
    }
  }

  /** Any index with the properties of `SkipSpaceBack` is the one it finds. */
  lemma SkipSpaceBackUnique(s: string, lo: nat, j: nat, k: nat)
    requires lo <= k <= j <= |s|
    requires forall m :: k <= m < j ==> IsSpace(s[m])
    requires lo < k ==> !IsSpace(s[k - 1])
    ensures SkipSpaceBack(s, lo, j) == k
  {
    var r := SkipSpaceBack(s, lo, j);
    if r < k {
    } else if k < r {
    }
  }

  /** What `strip()` returns neither starts nor ends with white space, and it is empty
      exactly when the text is all white space. */
  lemma StripShape(s: string)
    ensures Trimmed(Strip(s))
    ensures Strip(s) == [] <==> AllSpace(s)
  {
    var i := SkipSpace(s, 0);
    var j := SkipSpaceBack(s, i, |s|);
    if i < j {
      assert Strip(s)[0] == s[i] && Strip(s)[|Strip(s)| - 1] == s[j - 1];
      assert !AllSpace(s) by {
        assert !IsSpace(s[i]);
      }
    } else {
      assert AllSpace(s) by {
        forall m | 0 <= m < |s| ensures IsSpace(s[m]) {
        }
      }
    }
  }

  /** What `strip()` keeps is one slice of the text, with only white space around it. */
  lemma StripIsSlice(s: string) returns (i: nat)
    ensures i + |Strip(s)| <= |s| && Strip(s) == s[i..i + |Strip(s)|]
    ensures AllSpace(s[..i]) && AllSpace(s[i + |Strip(s)|..])
  {
    i := SkipSpace(s, 0);
    var j := SkipSpaceBack(s, i, |s|);
    assert |Strip(s)| == j - i;
    forall m | 0 <= m < |s[j..]| ensures IsSpace(s[j..][m]) {
      assert s[j..][m] == s[j + m];
    }
  }

  /** Stripping text that is already trimmed changes nothing. */
  lemma StripTrimmed(s: string)
    requires Trimmed(s)
    ensures Strip(s) == s
  {
    if s != [] {
      SkipSpaceUnique(s, 0, 0);
      SkipSpaceBackUnique(s, 0, |s|, |s|);
    }
  }

  /** A leading white-space character makes no difference to `strip()`. */
  lemma StripLeadingSpace(c: char, s: string)
    requires IsSpace(c)
    ensures Strip([c] + s) == Strip(s)
  {
    var t := [c] + s;
    var i := SkipSpace(s, 0);
    var j := SkipSpaceBack(s, i, |s|);
    ShiftedSpans(c, s, i, j);
    assert Strip(t) == t[i + 1..j + 1];
    SliceOfCons(c, s, i, j);
  }

  lemma SliceOfCons(c: char, s: string, i: nat, j: nat)
    requires i <= j <= |s|
    ensures ([c] + s)[i + 1..j + 1] == s[i..j]
  {
    var t := [c] + s;
    assert t[1..] == s;
    assert t[i + 1..j + 1] == t[1..][i..j];
  }

  /** Prefixing a white-space character moves both ends of the stripped slice by one. */
  lemma ShiftedSpans(c: char, s: string, i: nat, j: nat)
    requires IsSpace(c) && i == SkipSpace(s, 0) && j == SkipSpaceBack(s, i, |s|)
    ensures SkipSpace([c] + s, 0) == i + 1
    ensures SkipSpaceBack([c] + s, i + 1, |s| + 1) == j + 1
  {
    var t := [c] + s;
    forall m | 1 <= m < |t| ensures t[m] == s[m - 1] {
    }
    SkipSpaceUnique(t, 0, i + 1);
    SkipSpaceBackUnique(t, i + 1, |t|, j + 1);
  }

  /** `strip()` is idempotent. */
  lemma StripIdempotent(s: string)
    ensures Strip(Strip(s)) == Strip(s)
  {
    StripShape(s);
    StripTrimmed(Strip(s));
  }

  // ---------------------------------------------------------------------------
  // Occurrences of a substring
  // ---------------------------------------------------------------------------

  /** `sub` occurs in `s` starting at index `i`. */
  predicate OccursAt(s: string, sub: string, i: nat)
  {
    i + |sub| <= |s| && s[i..i + |sub|] == sub
  }

  /** Python's `sub in s`. */
  ghost predicate Contains(s: string, sub: string)
  {
    exists i: nat :: OccursAt(s, sub, i)
  }

  /** `sub` occurs in `s` at index `i` and nowhere else. */
  ghost predicate OccursOnlyAt(s: string, sub: string, i: nat)
  {
    OccursAt(s, sub, i) && forall j: nat :: OccursAt(s, sub, j) ==> j == i
  }

  /** An occurrence agrees with `sub` character by character. */
  lemma OccurrenceChars(s: string, sub: string, j: nat)
    requires OccursAt(s, sub, j)
    ensures forall k :: 0 <= k < |sub| ==> s[j + k] == sub[k]
  {
    forall k | 0 <= k < |sub| ensures s[j + k] == sub[k] {
      assert s[j..j + |sub|][k] == s[j + k];
    }
  }

  /** An occurrence inside a prefix is an occurrence in the whole. */
  lemma OccursInPrefix(s: string, sub: string, b: nat, j: nat)
    requires b <= |s|
    requires OccursAt(s[..b], sub, j)
    ensures OccursAt(s, sub, j)
  {
    assert s[..b][j..j + |sub|] == s[j..j + |sub|];
  }

  /** Occurrences in a suffix are the occurrences in the whole, shifted. */
  lemma OccursInSuffix(s: string, sub: string, a: nat, j: nat)
    requires a <= |s|
    ensures OccursAt(s[a..], sub, j) <==> OccursAt(s, sub, a + j)
  {
    if a + j + |sub| <= |s| {
      assert s[a..][j..j + |sub|] == s[a + j..a + j + |sub|];
    }
  }

  /** A slice of a text without `sub` is without `sub`. */
  lemma SliceAvoids(s: string, sub: string, a: nat, b: nat)
    requires a <= b <= |s|
    requires !Contains(s, sub)
    ensures !Contains(s[a..b], sub)
  {
    forall j: nat ensures !OccursAt(s[a..b], sub, j) {
      OccursInSuffix(s[..b], sub, a, j);
      if OccursAt(s[..b], sub, a + j) {
        OccursInPrefix(s, sub, b, a + j);
      }
    }
  }

  /** Stripping never introduces `sub`. */
  lemma StripAvoids(s: string, sub: string)
    requires !Contains(s, sub)
    ensures !Contains(Strip(s), sub)
  {
    var i := StripIsSlice(s);
    SliceAvoids(s, sub, i, i + |Strip(s)|);
  }

  /** A text lacking the first character of `sub` cannot contain `sub`. */
  lemma LacksFirstChar(s: string, sub: string)
    requires sub != [] && sub[0] !in s
    ensures !Contains(s, sub)
  {
    forall j: nat | j + |sub| <= |s| ensures !OccursAt(s, sub, j) {
      assert s[j..j + |sub|][0] == s[j];
    }
  }

  /** Two occurrences closer than `|sub|` would make a proper suffix of `sub` equal to a
      prefix of it; this excludes that. */
  predicate NoSelfOverlap(sub: string)
  {
    forall d :: 0 < d < |sub| ==> sub[d..] != sub[..|sub| - d]
  }

  /** Two occurrences less than `|sub|` apart share a proper suffix and prefix of `sub`. */
  lemma OverlapShape(s: string, sub: string, i: nat, p: nat)
    requires OccursAt(s, sub, i) && OccursAt(s, sub, p) && i < p < i + |sub|
    ensures sub[p - i..] == sub[..|sub| - (p - i)]
  {
    assert sub[p - i..] == s[p..i + |sub|];
    assert sub[..|sub| - (p - i)] == s[p..i + |sub|];
  }

  lemma NoOverlappingOccurrences(s: string, sub: string, i: nat, p: nat)
    requires NoSelfOverlap(sub)
    requires OccursAt(s, sub, i) && OccursAt(s, sub, p)
    ensures p <= i || i + |sub| <= p
  {
    if i < p < i + |sub| {
      OverlapShape(s, sub, i, p);
    }
  }

  // ---------------------------------------------------------------------------
  // Searching
  // ---------------------------------------------------------------------------

  /** `s.find(sub, from)`: the first occurrence at or after `from`. */
  function IndexOf(s: string, sub: string, from: nat): (r: Option<nat>)
    decreases |s| - from
    ensures r.Some? ==> from <= r.value && OccursAt(s, sub, r.value)
    ensures forall j: nat :: from <= j && OccursAt(s, sub, j) ==> r.Some? && r.value <= j
  {
    if |s| < from + |sub| then None
    else if OccursAt(s, sub, from) then Some(from)
    else IndexOf(s, sub, from + 1)
  }

  /** The last occurrence below `bound`, found by scanning from the right. */
  function LastIndexBelow(s: string, sub: string, bound: nat): (r: Option<nat>)
    ensures r.Some? ==> r.value < bound && OccursAt(s, sub, r.value)
    ensures forall j: nat :: j < bound && OccursAt(s, sub, j) ==> r.Some? && j <= r.value
  {
    if bound == 0 then None
    else if OccursAt(s, sub, bound - 1) then Some(bound - 1)
    else LastIndexBelow(s, sub, bound - 1)
  }

  /** `s.rfind(sub)`: the last occurrence anywhere. */
  function LastIndexOf(s: string, sub: string): (r: Option<nat>)
    ensures r.None? <==> !Contains(s, sub)
    ensures r.Some? ==> OccursAt(s, sub, r.value) &&
                        forall j: nat :: OccursAt(s, sub, j) ==> j <= r.value
  {
    LastIndexBelow(s, sub, |s| + 1)
  }

  /** `s.rsplit(sep, 1)[-1]`: what follows the last `sep`, or all of `s` when there is none.
      This is the reference meaning of "the text after the last marker". */
  function AfterLast(s: string, sep: string): (r: string)
    ensures |r| <= |s| && r == s[|s| - |r|..]
  {
    match LastIndexOf(s, sep)
    case None => s
    case Some(k) => s[k + |sep|..]
  }

  lemma AfterLastAbsent(s: string, sep: string)
    requires !Contains(s, sep)
    ensures AfterLast(s, sep) == s
  {
  }

  /** Nothing after the last separator is a separator. */
  lemma AfterLastAvoids(s: string, sep: string)
    requires sep != []
    ensures !Contains(AfterLast(s, sep), sep)
  {
    match LastIndexOf(s, sep)
    case None =>
    case Some(k) =>
      var t := s[k + |sep|..];
      forall j: nat ensures !OccursAt(t, sep, j) {
        OccursInSuffix(s, sep, k + |sep|, j);
      }
  }

  /** When `s` has an occurrence at or after `a`, the last one is that of the suffix from `a`. */
  lemma AfterLastOfSuffix(s: string, sep: string, a: nat)
    requires a <= |s| && Contains(s[a..], sep)
    ensures AfterLast(s, sep) == AfterLast(s[a..], sep)
  {
    var t := s[a..];
    var j := LastIndexOf(t, sep).value;
    OccursInSuffix(s, sep, a, j);
    var m := LastIndexOf(s, sep).value;
    OccursInSuffix(s, sep, a, m - a);
    assert m == a + j;
    assert s[m + |sep|..] == t[j + |sep|..];
  }

  /** Whatever precedes a separator, the text after it is what follows the last one,
      provided that text has no separator and separators cannot overlap. */
  lemma AfterLastAppend(x: string, sep: string, y: string)
    requires sep != [] && NoSelfOverlap(sep)
    requires !Contains(y, sep)
    ensures AfterLast(x + sep + y, sep) == y
  {
    var s := x + sep + y;
    var a := |x| + |sep|;
    assert s[|x|..a] == sep;
    assert OccursAt(s, sep, |x|);
    var k := LastIndexOf(s, sep).value;
    NoOverlappingOccurrences(s, sep, |x|, k);
    assert s[a..] == y;
    if k >= a {
      OccursInSuffix(s, sep, a, k - a);
    }
  }

  // ---------------------------------------------------------------------------
  // split() and join()
  // ---------------------------------------------------------------------------

  /** The text before the first occurrence holds no occurrence. */
  lemma BeforeFirstAvoids(s: string, sep: string, i: nat)
    requires sep != [] && IndexOf(s, sep, 0) == Some(i)
    ensures !Contains(s[..i], sep)
  {
    forall j: nat | OccursAt(s[..i], sep, j) ensures false {
      OccursInPrefix(s, sep, i, j);
    }
  }

  /** `s.split(sep)` for a non-empty `sep`: the pieces between successive separators,
      found left to right. */
  function Split(s: string, sep: string): (parts: seq<string>)
    requires sep != []
    decreases |s|
    ensures |parts| >= 1
    ensures forall k :: 0 <= k < |parts| ==> !Contains(parts[k], sep)
  {
    match IndexOf(s, sep, 0)
    case None => [s]
    case Some(i) =>
      BeforeFirstAvoids(s, sep, i);
      [s[..i]] + Split(s[i + |sep|..], sep)
  }

  /** `sep.join(parts)`. */
  function Join(parts: seq<string>, sep: string): string
  {
    if |parts| == 0 then ""
    else if |parts| == 1 then parts[0]
    else parts[0] + sep + Join(parts[1..], sep)
  }

  /** Joining the pieces of a split with the same separator gives back the text. */
  lemma {:induction false} SplitJoin(s: string, sep: string)
    requires sep != []
    ensures Join(Split(s, sep), sep) == s
    decreases |s|
  {
    match IndexOf(s, sep, 0)
    case None =>
    case Some(i) =>
      var rest := s[i + |sep|..];
      var parts := Split(rest, sep);
      SplitJoin(rest, sep);
      assert Split(s, sep) == [s[..i]] + parts;
      assert ([s[..i]] + parts)[1..] == parts;
      assert Join([s[..i]] + parts, sep) == s[..i] + sep + Join(parts, sep);
      SplitAround(s, sep, i);
  }

  function Last(parts: seq<string>): string
    requires parts != []
  {
    parts[|parts| - 1]
  }

  /** One step of the split: the last piece is the last piece of the remainder. */
  lemma LastPieceOfSplit(s: string, sep: string, i: nat)
    requires sep != [] && IndexOf(s, sep, 0) == Some(i)
    ensures Last(Split(s, sep)) == Last(Split(s[i + |sep|..], sep))
  {
    var rest := Split(s[i + |sep|..], sep);
    assert Split(s, sep) == [s[..i]] + rest;
  }

  lemma SplitAround(s: string, sep: string, i: nat)
    requires OccursAt(s, sep, i)
    ensures s == s[..i] + sep + s[i + |sep|..]
  {
    assert s[i..i + |sep|] == sep;
  }

  /** Dropping everything up to the end of a separator keeps the text after the last one. */
  lemma AfterLastStep(s: string, sep: string, i: nat)
    requires sep != [] && NoSelfOverlap(sep) && OccursAt(s, sep, i)
    ensures AfterLast(s, sep) == AfterLast(s[i + |sep|..], sep)
  {
    var t := s[i + |sep|..];
    if LastIndexOf(t, sep).Some? {
      AfterLastOfSuffix(s, sep, i + |sep|);
    } else {
      AfterLastAtLast(s, sep, i);
    }
  }

  /** A separator followed by no other is the last one. */
  lemma AfterLastAtLast(s: string, sep: string, i: nat)
    requires sep != [] && NoSelfOverlap(sep) && OccursAt(s, sep, i)
    requires !Contains(s[i + |sep|..], sep)
    ensures AfterLast(s, sep) == s[i + |sep|..]
    ensures AfterLast(s[i + |sep|..], sep) == s[i + |sep|..]
  {
    var t := s[i + |sep|..];
    AfterLastAbsent(t, sep);
    SplitAround(s, sep, i);
    AfterLastAppend(s[..i], sep, t);
  }

  /** When separators cannot overlap, the last piece of a left-to-right split is exactly
      the text after the last separator. */
  lemma {:induction false} LastPieceIsAfterLast(s: string, sep: string)
    requires sep != [] && NoSelfOverlap(sep)
    ensures Last(Split(s, sep)) == AfterLast(s, sep)
    decreases |s|
  {
    var first := IndexOf(s, sep, 0);
    if first.None? {
      AfterLastAbsent(s, sep);
    } else {
      var i := first.value;
      LastPieceIsAfterLast(s[i + |sep|..], sep);
      LastPieceOfSplit(s, sep, i);
      AfterLastStep(s, sep, i);
    }
  }
}
