/** String helpers with the meaning Python gives them on `str`. */
module Text {
  import opened Wrappers

  /** The regular-expression class `[A-Za-z0-9]`. */
  predicate IsAlnum(c: char) {
    ('A' <= c <= 'Z') || ('a' <= c <= 'z') || ('0' <= c <= '9')
  }

  predicate AlnumBetween(s: string, i: int, j: int)
    requires 0 <= i <= j <= |s|
  {
    forall k :: i <= k < j ==> IsAlnum(s[k])
  }

  predicate AllAlnum(s: string) {
    forall k :: 0 <= k < |s| ==> IsAlnum(s[k])
  }

  /** `str.lower()` restricted to ASCII letters. */
  function LowerChar(c: char): char {
    if 'A' <= c <= 'Z' then (c as int - 'A' as int + 'a' as int) as char else c
  }

  function Lower(s: string): (r: string)
    ensures |r| == |s|
    ensures forall i :: 0 <= i < |s| ==> r[i] == LowerChar(s[i])
  {
    seq(|s|, i requires 0 <= i < |s| => LowerChar(s[i]))
  }

  /** `pat` occurs in `s` starting at index `i`. */
  predicate OccursAt(pat: string, s: string, i: int) {
    0 <= i && i + |pat| <= |s| && s[i..i + |pat|] == pat
  }

  /** `s.find(pat, from)`: the first occurrence of `pat` at or after `from`. */
  function IndexOf(s: string, pat: string, from: nat): (r: Option<nat>)
    requires from <= |s|
    ensures r.Some? ==> from <= r.value && OccursAt(pat, s, r.value)
    ensures r.Some? ==> forall j :: from <= j < r.value ==> !OccursAt(pat, s, j)
    ensures r.None? ==> forall j :: from <= j ==> !OccursAt(pat, s, j)
    decreases |s| - from
  {
    if OccursAt(pat, s, from) then Some(from)
    else if from == |s| then None
    else IndexOf(s, pat, from + 1)
  }

  /** Python's `pat in s`. */
  predicate Contains(s: string, pat: string) {
    IndexOf(s, pat, 0).Some?
  }

  lemma ContainsMeansOccurs(s: string, pat: string, i: int)
    requires OccursAt(pat, s, i)
    ensures Contains(s, pat)
  {
  }

  /** An occurrence inside a slice of `s` is an occurrence in `s`. */
  lemma OccursInSlice(s: string, pat: string, lo: int, hi: int, j: int)
    requires 0 <= lo <= hi <= |s|
    requires OccursAt(pat, s[lo..hi], j)
    ensures OccursAt(pat, s, lo + j)
  {
    forall k | 0 <= k < |pat| ensures s[lo + j + k] == pat[k] {
      assert s[lo..hi][j..j + |pat|][k] == pat[k];
    }
    assert s[lo + j..lo + j + |pat|] == pat;
  }

  /** The last piece of Python's `s[from:].split(sep)`. */
  function LastPiece(s: string, sep: string, from: nat): (r: string)
    requires |sep| > 0 && from <= |s|
    ensures |r| <= |s| - from && r == s[|s| - |r|..]
    ensures forall j :: !OccursAt(sep, r, j)
    ensures IndexOf(s, sep, from).None? ==> r == s[from..]
    ensures IndexOf(s, sep, from).Some? ==> OccursAt(sep, s, |s| - |r| - |sep|)
    decreases |s| - from
  {
    match IndexOf(s, sep, from)
    case None =>
      NoOccurrenceInSuffix(s, sep, from);
      s[from..]
    case Some(i) => LastPiece(s, sep, i + |sep|)
  }

  lemma NoOccurrenceInSuffix(s: string, sep: string, from: nat)
    requires from <= |s|
    requires forall j :: from <= j ==> !OccursAt(sep, s, j)
    ensures forall j :: !OccursAt(sep, s[from..], j)
  {
    assert s[from..] == s[from..|s|];
    forall j | OccursAt(sep, s[from..], j) ensures false {
      OccursInSlice(s, sep, from, |s|, j);
    }
  }

  /** The first piece of Python's `s.split(sep)`. */
  function FirstPiece(s: string, sep: string): (r: string)
    requires |sep| > 0
    ensures r <= s
    ensures forall j :: !OccursAt(sep, r, j)
    ensures r == s || OccursAt(sep, s, |r|)
  {
    match IndexOf(s, sep, 0)
    case None =>
      s
    case Some(i) =>
      forall j | OccursAt(sep, s[..i], j) ensures false {
        OccursInSlice(s, sep, 0, i, j);
      }
      s[..i]
  }
}
