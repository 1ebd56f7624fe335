/**
 * The handful of Python `str` operations the scraper relies on, with Python's
 * semantics: `startswith`, `endswith`, `find`/`index` (first occurrence),
 * `in`, `strip()` (Unicode whitespace), slicing with negative and
 * out-of-range bounds, and `split(sep)`.
 */
module PyStr {
  import opened Wrappers

  predicate StartsWith(s: string, prefix: string) {
    |prefix| <= |s| && s[..|prefix|] == prefix
  }

  predicate EndsWith(s: string, suffix: string) {
    |suffix| <= |s| && s[|s| - |suffix|..] == suffix
  }

  /** `pat` occurs in `s` starting at index `i`. */
  predicate OccursAt(s: string, pat: string, i: nat) {
    i + |pat| <= |s| && s[i..i + |pat|] == pat
  }

  /** First occurrence of `pat` in `s` at or after index `from`. */
  function FindFrom(s: string, pat: string, from: nat): (r: Option<nat>)
    decreases |s| - from
    ensures r.Some? ==> from <= r.value && OccursAt(s, pat, r.value)
    ensures r.Some? ==> forall j :: from <= j < r.value ==> !OccursAt(s, pat, j)
    ensures r.None? ==> forall j :: from <= j ==> !OccursAt(s, pat, j)
  {
    if from + |pat| > |s| then None
    else if s[from..from + |pat|] == pat then Some(from)
    else FindFrom(s, pat, from + 1)
  }

  /** `s.find(pat)` / `s.index(pat)`: the first occurrence, None where Python returns -1 or raises. */
  function Find(s: string, pat: string): (r: Option<nat>)
    ensures r.Some? ==> OccursAt(s, pat, r.value) && forall j :: 0 <= j < r.value ==> !OccursAt(s, pat, j)
    ensures r.None? ==> forall j: nat :: !OccursAt(s, pat, j)
  {
    FindFrom(s, pat, 0)
  }

  /** Python's `pat in s`. */
  predicate Contains(s: string, pat: string) {
    Find(s, pat).Some?
  }

  /** The characters `str.strip()` removes (Python's `str.isspace`). */
  predicate IsSpace(c: char) {
    var n := c as int;
    (0x09 <= n <= 0x0D) || (0x1C <= n <= 0x20) || n == 0x85 || n == 0xA0 || n == 0x1680
    || (0x2000 <= n <= 0x200A) || n == 0x2028 || n == 0x2029 || n == 0x202F || n == 0x205F
    || n == 0x3000
  }

  /** The first index at or after `i` that holds no whitespace, or `|s|`. */
  function LeftEnd(s: string, i: nat): (k: nat)
    requires i <= |s|
    decreases |s| - i
    ensures i <= k <= |s|
    ensures forall j :: i <= j < k ==> IsSpace(s[j])
    ensures k == |s| || !IsSpace(s[k])
  {
    if i < |s| && IsSpace(s[i]) then LeftEnd(s, i + 1) else i
  }

  /** The end of `s[lo..hi]` once the whitespace at its right is dropped. */
  function RightEnd(s: string, lo: nat, hi: nat): (e: nat)
    requires lo <= hi <= |s|
    decreases hi
    ensures lo <= e <= hi
    ensures forall j :: e <= j < hi ==> IsSpace(s[j])
    ensures e == lo || !IsSpace(s[e - 1])
  {
    if lo < hi && IsSpace(s[hi - 1]) then RightEnd(s, lo, hi - 1) else hi
  }

  /** `r` occurs in `s` at `k`, with only whitespace before it and after it. */
  predicate TrimmedAt(s: string, r: string, k: nat) {
    && OccursAt(s, r, k)
    && (forall i :: 0 <= i < k ==> IsSpace(s[i]))
    && (forall i :: k + |r| <= i < |s| ==> IsSpace(s[i]))
  }

  /** `s.strip()`: the longest slice of `s` with no whitespace at either end. */
  function Strip(s: string): (r: string)
    ensures r == [] || (!IsSpace(r[0]) && !IsSpace(r[|r| - 1]))
    ensures r == [] <==> forall i :: 0 <= i < |s| ==> IsSpace(s[i])
    ensures exists k: nat :: OccursAt(s, r, k)
    // only whitespace is removed, and only from the ends
    ensures exists k: nat :: TrimmedAt(s, r, k)
  {
    var k := LeftEnd(s, 0);
    var e := RightEnd(s, k, |s|);
    assert TrimmedAt(s, s[k..e], k);
    s[k..e]
  }

  /** Python's normalisation of one slice bound against a length. */
  function SliceBound(n: int, len: nat): (r: nat)
    ensures r <= len
    ensures 0 <= n <= len ==> r == n
  {
    if n < 0 then (if n + len < 0 then 0 else n + len)
    else if n > len then len
    else n
  }

  /** `s[i:j]` with Python's handling of negative and out-of-range bounds. */
  function Slice(s: string, i: int, j: int): (r: string)
    ensures 0 <= i <= j <= |s| ==> r == s[i..j]
    ensures |r| <= |s|
  {
    var a := SliceBound(i, |s|);
    var b := SliceBound(j, |s|);
    if a < b then s[a..b] else ""
  }

  /** A slice holds no character its string does not. */
  lemma SliceExcludes(s: string, i: int, j: int, c: char)
    ensures c !in s ==> c !in Slice(s, i, j)
  {
    var a := SliceBound(i, |s|);
    var b := SliceBound(j, |s|);
    if a < b {
      assert forall k :: 0 <= k < b - a ==> s[a..b][k] == s[a + k];
    }
  }

  /** `s[:j]` is a prefix of `s`. */
  lemma SliceHead(s: string, j: int)
    ensures StartsWith(s, Slice(s, 0, j))
  {
  }

  /** `s[i:]` is a suffix of `s`. */
  lemma SliceTail(s: string, i: int)
    ensures EndsWith(s, Slice(s, i, |s|))
  {
  }

  /**
   * Cutting `s` at `i` and at `j`: when the two cuts are in order the three
   * pieces put back together give `s`; when they cross, the middle is empty
   * and the outer pieces overlap.
   */
  lemma SliceJoin(s: string, i: int, j: int)
    requires 0 <= i <= |s|
    ensures |Slice(s, 0, i)| + |Slice(s, j, |s|)| <= |s| ==> Slice(s, 0, i) + Slice(s, i, j) + Slice(s, j, |s|) == s
    ensures |Slice(s, 0, i)| + |Slice(s, j, |s|)| > |s| ==> Slice(s, i, j) == ""
  {
  }

  /** `s[1:]`: everything but the first character ("" stays ""). */
  function DropFirst(s: string): (r: string)
    ensures r == Slice(s, 1, |s|)
    ensures |s| > 0 ==> [s[0]] + r == s
    ensures s == [] ==> r == []
  {
    if |s| == 0 then "" else s[1..]
  }

  /** `s.split(sep)` for a single-character separator. */
  function Split(s: string, sep: char): (r: seq<string>)
    ensures |r| >= 1
    ensures forall k :: 0 <= k < |r| ==> sep !in r[k]
  {
    if sep !in s then [s]
    else
      var i := IndexOfChar(s, sep);
      [s[..i]] + Split(s[i + 1..], sep)
  }

  /** Index of the first `c` in `s`. */
  function IndexOfChar(s: string, c: char): (i: nat)
    requires c in s
    ensures i < |s| && s[i] == c && c !in s[..i]
  {
    if s[0] == c then 0 else 1 + IndexOfChar(s[1..], c)
  }

  /** `sep.join(parts)`. */
  function Join(parts: seq<string>, sep: char): string {
    if |parts| == 0 then ""
    else if |parts| == 1 then parts[0]
    else parts[0] + [sep] + Join(parts[1..], sep)
  }

  /** Splitting and re-joining on the same separator gives back the text. */
  lemma {:induction false} JoinSplit(s: string, sep: char)
    ensures Join(Split(s, sep), sep) == s
    decreases |s|
  {
    if sep in s {
      var i := IndexOfChar(s, sep);
      var rest := Split(s[i + 1..], sep);
      var parts := [s[..i]] + rest;
      assert Split(s, sep) == parts;
      assert parts[0] == s[..i] && parts[1..] == rest;
      JoinSplit(s[i + 1..], sep);
      assert Join(parts, sep) == s[..i] + [sep] + s[i + 1..];
      assert s == s[..i] + [sep] + s[i + 1..];
    }
  }

  /** The longest prefix of `s` without `c` (what a greedy regex `.+` consumes, for `c == '\n'`). */
  function TakeUntil(s: string, c: char): (r: string)
    ensures |r| <= |s| && r == s[..|r|] && c !in r
    ensures |r| < |s| ==> s[|r|] == c
  {
    if c in s then s[..IndexOfChar(s, c)] else s
  }
}
