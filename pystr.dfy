/** The few Python string primitives the prompt builder and the tally rely
    on: `s.find(pat)`, `pat in s`, the prefix slice `s[:k]` (with Python's
    negative indices) and `str(n)` for a non-negative integer. */
module PyStr {

  /** `pat` occurs in `s` starting at index `i`. */
  predicate OccursAt(s: string, pat: string, i: int)
  {
    0 <= i && i + |pat| <= |s| && s[i..i + |pat|] == pat
  }

  predicate IsPrefix(p: string, s: string)
  {
    |p| <= |s| && s[..|p|] == p
  }

  /** Python's `s.find(pat)`: the lowest index at which `pat` occurs in `s`,
      or -1 when it does not occur at all. */
  function Find(s: string, pat: string): (r: int)
    ensures -1 <= r <= |s|
    ensures r >= 0 ==> OccursAt(s, pat, r)
    ensures r >= 0 ==> forall j :: 0 <= j < r ==> !OccursAt(s, pat, j)
    ensures r == -1 ==> forall j :: !OccursAt(s, pat, j)
  {
    FindFrom(s, pat, 0)
  }

  /** The scan behind `Find`, starting at index `i`. */
  function FindFrom(s: string, pat: string, i: nat): (r: int)
    requires i <= |s|
    ensures r == -1 || i <= r <= |s|
    ensures r >= 0 ==> OccursAt(s, pat, r)
    ensures r >= 0 ==> forall j :: i <= j < r ==> !OccursAt(s, pat, j)
    ensures r == -1 ==> forall j :: i <= j ==> !OccursAt(s, pat, j)
    decreases |s| - i
  {
    if i + |pat| > |s| then -1
    else if s[i..i + |pat|] == pat then i
    else FindFrom(s, pat, i + 1)
  }

  /** Python's `pat in s` on two strings. */
  predicate Contains(s: string, pat: string)
  {
    Find(s, pat) >= 0
  }

  /** `pat in s` holds exactly when `pat` occurs somewhere in `s`. */
  lemma ContainsIff(s: string, pat: string)
    ensures Contains(s, pat) <==> exists j :: OccursAt(s, pat, j)
  {
    if Contains(s, pat) {
      assert OccursAt(s, pat, Find(s, pat));
    }
  }

  /** An occurrence in `a` is still one in `a + b`. */
  lemma OccursInLeft(a: string, b: string, pat: string, p: int)
    requires OccursAt(a, pat, p)
    ensures OccursAt(a + b, pat, p)
  {
    assert (a + b)[p..p + |pat|] == a[p..p + |pat|];
  }

  /** An occurrence in `b` is one in `a + b`, shifted by `|a|`. */
  lemma OccursInRight(a: string, b: string, pat: string, p: int)
    requires OccursAt(b, pat, p)
    ensures OccursAt(a + b, pat, |a| + p)
  {
    assert (a + b)[|a| + p..|a| + p + |pat|] == b[p..p + |pat|];
  }

  /** An occurrence inside a prefix of `s` is one in `s`. */
  lemma OccursInPrefix(e: string, s: string, pat: string, j: int)
    requires IsPrefix(e, s) && OccursAt(e, pat, j)
    ensures OccursAt(s, pat, j) && j + |pat| <= |e|
  {
    assert s[j..j + |pat|] == e[j..j + |pat|];
  }

  /** Python's prefix slice `s[:k]`: a negative `k` counts from the end and
      an index past either end is clamped. */
  function PrefixSlice(s: string, k: int): (r: string)
    ensures IsPrefix(r, s)
    ensures k >= 0 ==> |r| == if k <= |s| then k else |s|
    ensures k < 0 ==> |r| == if |s| + k >= 0 then |s| + k else 0
  {
    if k >= 0 then
      (if k <= |s| then s[..k] else s)
    else
      (if |s| + k >= 0 then s[..|s| + k] else [])
  }

  predicate IsDigit(c: char)
  {
    '0' <= c <= '9'
  }

  function DigitChar(d: nat): (c: char)
    requires d < 10
    ensures IsDigit(c)
  {
    "0123456789"[d]
  }

  function DigitValue(c: char): (d: nat)
    requires IsDigit(c)
    ensures d < 10
  {
    (c as int - '0' as int) as nat
  }

  lemma DigitRoundTrip(d: nat)
    requires d < 10
    ensures DigitValue(DigitChar(d)) == d
  {
  }

  /** Python's `str(n)` for `n >= 0`: decimal digits without leading zeros. */
  function IntToString(n: nat): (s: string)
    ensures |s| >= 1
    ensures forall i :: 0 <= i < |s| ==> IsDigit(s[i])
    ensures |s| > 1 ==> s[0] != '0'
  {
    if n < 10 then [DigitChar(n)] else IntToString(n / 10) + [DigitChar(n % 10)]
  }

  /** The inverse reading of a string of decimal digits. */
  function ParseNat(s: string): nat
    requires forall i :: 0 <= i < |s| ==> IsDigit(s[i])
  {
    if s == [] then 0 else ParseNat(s[..|s| - 1]) * 10 + DigitValue(s[|s| - 1])
  }

  /** Reading back the digits `str(n)` prints gives `n` again. */
  lemma {:induction false} ParseIntToString(n: nat)
    ensures ParseNat(IntToString(n)) == n
  {
    var s := IntToString(n);
    if n < 10 {
      assert s[..|s| - 1] == [];
      DigitRoundTrip(n);
    } else {
      assert s[..|s| - 1] == IntToString(n / 10);
      ParseIntToString(n / 10);
      DigitRoundTrip(n % 10);
    }
  }
}
