/**
  The JavaScript string operations the handlers rely on, on strings as
  sequences of Unicode scalar values: `trim`, `replace` with a string
  pattern (first occurrence only) and `split(",")[0]`.
 */
module Text {
  import opened Wrappers

  /** The characters `String.prototype.trim` removes: the ECMAScript
      WhiteSpace and LineTerminator code points. */
  predicate IsSpace(c: char) {
    || c == ' ' || c == '\t' || c == '\n' || c == '\r'
    || c == '\U{000B}' || c == '\U{000C}' || c == '\U{00A0}' || c == '\U{1680}'
    || ('\U{2000}' <= c <= '\U{200A}')
    || c == '\U{2028}' || c == '\U{2029}' || c == '\U{202F}' || c == '\U{205F}'
    || c == '\U{3000}' || c == '\U{FEFF}'
  }

  /** Every character of `s` in the index range `[lo, hi)` is white space. */
  predicate SpaceBetween(s: string, lo: int, hi: int) {
    forall k :: lo <= k < hi && 0 <= k < |s| ==> IsSpace(s[k])
  }

  /** The index of the first non-white-space character of `s` at or after
      `i`, or `|s|` when there is none. */
  function SkipSpace(s: string, i: nat): (k: nat)
    requires i <= |s|
    ensures i <= k <= |s| && SpaceBetween(s, i, k)
    ensures k < |s| ==> !IsSpace(s[k])
    decreases |s| - i
  {
    if i < |s| && IsSpace(s[i]) then SkipSpace(s, i + 1) else i
  }

  /** The end of `s[..j]` once its trailing white space is dropped. */
  function SkipSpaceBack(s: string, j: nat): (k: nat)
    requires j <= |s|
    ensures k <= j && SpaceBetween(s, k, j)
    ensures k > 0 ==> !IsSpace(s[k - 1])
  {
    if j > 0 && IsSpace(s[j - 1]) then SkipSpaceBack(s, j - 1) else j
  }

  /** `s.trimStart()`: the longest suffix of `s` that does not start with white space. */
  function TrimStart(s: string): (r: string)
    ensures |r| <= |s| && r == s[|s| - |r|..]
    ensures SpaceBetween(s, 0, |s| - |r|)
    ensures |r| > 0 ==> !IsSpace(r[0])
  {
    s[SkipSpace(s, 0)..]
  }

  /** `s.trimEnd()`: the longest prefix of `s` that does not end with white space. */
  function TrimEnd(s: string): (r: string)
    ensures |r| <= |s| && r == s[..|r|]
    ensures SpaceBetween(s, |r|, |s|)
    ensures |r| > 0 ==> !IsSpace(r[|r| - 1])
  {
    s[..SkipSpaceBack(s, |s|)]
  }

  /** `s.trim()`. */
  function Trim(s: string): (r: string)
  {
    TrimEnd(TrimStart(s))
  }

  /** A prefix `r` of a suffix `t` of `s` is an infix of `s`, and what
      follows `r` in `t` follows it in `s`. */
  lemma PrefixOfSuffix(s: string, t: string, r: string)
    requires |r| <= |t| <= |s| && t == s[|s| - |t|..] && r == t[..|r|]
    requires SpaceBetween(t, |r|, |t|)
    ensures r == s[|s| - |t|..|s| - |t| + |r|]
    ensures SpaceBetween(s, |s| - |t| + |r|, |s|)
  {
    var i := |s| - |t|;
    forall k | i + |r| <= k < |s|
      ensures IsSpace(s[k])
    {
      assert s[k] == t[k - i];
    }
  }

  /** Trimming cuts only white space off either end of `s`: the result is
      the infix of `s` that starts after the leading white space, and only
      white space follows it. */
  lemma TrimIsInfix(s: string)
    ensures var i, j := |s| - |TrimStart(s)|, |s| - |TrimStart(s)| + |Trim(s)|;
            && j <= |s| && Trim(s) == s[i..j]
            && SpaceBetween(s, 0, i) && SpaceBetween(s, j, |s|)
  {
    var t := TrimStart(s);
    PrefixOfSuffix(s, t, TrimEnd(t));
  }

  /** A string that neither starts nor ends with white space is its own
      trim. */
  lemma TrimOfTrimmed(s: string)
    requires |s| > 0 ==> !IsSpace(s[0]) && !IsSpace(s[|s| - 1])
    ensures Trim(s) == s
  {
    assert TrimStart(s) == s;
    assert TrimEnd(s) == s;
  }

  /** A trimmed string neither starts nor ends with white space, and holds
      no character that `s` does not. */
  lemma TrimEnds(s: string, c: char)
    ensures |Trim(s)| > 0 ==> !IsSpace(Trim(s)[0]) && !IsSpace(Trim(s)[|Trim(s)| - 1])
    ensures c !in s ==> c !in Trim(s)
  {
    var t := TrimStart(s);
    var r := TrimEnd(t);
    if |r| > 0 {
      assert r[0] == t[0];
    }
  }

  /** Trimming twice is trimming once. */
  lemma TrimIdempotent(s: string)
    ensures Trim(Trim(s)) == Trim(s)
  {
    TrimEnds(s, ' ');
    TrimOfTrimmed(Trim(s));
  }

  /** `pat` occurs in `s` at index `i`. */
  predicate OccursAt(s: string, pat: string, i: int) {
    0 <= i && i + |pat| <= |s| && s[i..i + |pat|] == pat
  }

  /** `s.indexOf(pat, from)`, with `None` for -1. */
  function IndexOfFrom(s: string, pat: string, from: nat): (r: Option<nat>)
    ensures r.Some? ==> from <= r.value && OccursAt(s, pat, r.value)
    ensures r.Some? ==> forall j :: from <= j < r.value ==> !OccursAt(s, pat, j)
    ensures r.None? ==> forall j :: from <= j ==> !OccursAt(s, pat, j)
    decreases |s| - from
  {
    if from + |pat| > |s| then None
    else if s[from..from + |pat|] == pat then Some(from)
    else IndexOfFrom(s, pat, from + 1)
  }

  /** `s.replace(pat, rep)` for a string `pat`: only the first occurrence
      is replaced. */
  function ReplaceFirst(s: string, pat: string, rep: string): (r: string)
  {
    match IndexOfFrom(s, pat, 0)
    case None => s
    case Some(i) => s[..i] + rep + s[i + |pat|..]
  }

  /** What `ReplaceFirst` does, stated without the search: with no
      occurrence it is the identity; otherwise it splices `rep` in at the
      earliest occurrence and leaves the rest of `s` as it was. */
  lemma ReplaceFirstSpec(s: string, pat: string, rep: string)
    ensures (forall j :: !OccursAt(s, pat, j)) ==> ReplaceFirst(s, pat, rep) == s
    ensures forall i :: OccursAt(s, pat, i) && (forall j :: 0 <= j < i ==> !OccursAt(s, pat, j))
             ==> ReplaceFirst(s, pat, rep) == s[..i] + rep + s[i + |pat|..]
  {
    var k := IndexOfFrom(s, pat, 0);
    forall i | OccursAt(s, pat, i) && (forall j :: 0 <= j < i ==> !OccursAt(s, pat, j))
      ensures ReplaceFirst(s, pat, rep) == s[..i] + rep + s[i + |pat|..]
    {
      assert k.Some?;
    }
  }

  /** `s.split(sep)[0]` for a one-character separator: everything before
      the first `sep`, or all of `s` when there is none. */
  function FirstField(s: string, sep: char): (r: string)
    ensures |r| <= |s| && r == s[..|r|]
    ensures sep !in r
    ensures |r| < |s| ==> s[|r|] == sep
  {
    if |s| == 0 || s[0] == sep then "" else [s[0]] + FirstField(s[1..], sep)
  }

  /** Without the separator, the first field is the whole string. */
  lemma FirstFieldWithoutSeparator(s: string, sep: char)
    requires sep !in s
    ensures FirstField(s, sep) == s
  {
  }
}
