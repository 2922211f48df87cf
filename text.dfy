/**
 * The string operations the notifier applies while composing messages:
 * `String.prototype.replace` with a string pattern (first occurrence only),
 * `Array.prototype.join` with ", ", and the decimal rendering of a count
 * inside a template literal.
 */
module Text {
  import opened Wrappers

  /** `pat` occurs in `s` starting at index `i`. */
  predicate OccursAt(s: string, pat: string, i: nat)
  {
    i + |pat| <= |s| && s[i..i + |pat|] == pat
  }

  /** The first index at or after `k` where `pat` occurs in `s`. */
  function IndexFrom(s: string, pat: string, k: nat): (r: Option<nat>)
    ensures r.Some? ==> k <= r.value && OccursAt(s, pat, r.value)
    ensures forall j: nat :: k <= j && (r.None? || j < r.value) ==> !OccursAt(s, pat, j)
    decreases |s| - k
  {
    if k + |pat| > |s| then None
    else if s[k..k + |pat|] == pat then Some(k)
    else IndexFrom(s, pat, k + 1)
  }

  /** The first index where `pat` occurs in `s`, as `indexOf` finds it. */
  function IndexOf(s: string, pat: string): Option<nat>
  {
    IndexFrom(s, pat, 0)
  }

  /** `s.replace(pat, "")`: removes the first occurrence of `pat`, if any. */
  function RemoveFirst(s: string, pat: string): string
  {
    match IndexOf(s, pat)
    case None => s
    case Some(i) => s[..i] + s[i + |pat|..]
  }

  /** `pat` occurs at `i` and nowhere before. */
  predicate FirstAt(s: string, pat: string, i: nat)
  {
    OccursAt(s, pat, i) && forall j: nat :: j < i ==> !OccursAt(s, pat, j)
  }

  /** Removing the first occurrence leaves `s` alone when `pat` does not occur,
      and otherwise cuts exactly one copy out at the earliest place it occurs. */
  lemma RemoveFirstCutsEarliest(s: string, pat: string)
    ensures (forall j: nat :: !OccursAt(s, pat, j)) ==> RemoveFirst(s, pat) == s
    ensures forall i: nat :: FirstAt(s, pat, i) ==> RemoveFirst(s, pat) == s[..i] + s[i + |pat|..]
    ensures |RemoveFirst(s, pat)| == |s| || |RemoveFirst(s, pat)| == |s| - |pat|
  {
    match IndexOf(s, pat)
    case None =>
    case Some(r) =>
      assert FirstAt(s, pat, r);
      assert |s[..r] + s[r + |pat|..]| == |s| - |pat|;
      forall i: nat | FirstAt(s, pat, i) ensures i == r {
        FirstIsUnique(s, pat, i, r);
      }
  }

  lemma FirstIsUnique(s: string, pat: string, i: nat, k: nat)
    requires FirstAt(s, pat, i) && FirstAt(s, pat, k)
    ensures i == k
  {
  }

  /** Total length of a sequence of strings. */
  function TotalLength(parts: seq<string>): nat
  {
    if parts == [] then 0 else |parts[0]| + TotalLength(parts[1..])
  }

  /** `parts.join(", ")`. */
  function Join(parts: seq<string>): (r: string)
    ensures |parts| == 1 ==> r == parts[0]
    ensures |parts| > 0 ==> |r| == TotalLength(parts) + 2 * (|parts| - 1)
    ensures |parts| > 0 ==> r[..|parts[0]|] == parts[0]
  {
    if parts == [] then ""
    else if |parts| == 1 then parts[0]
    else parts[0] + ", " + Join(parts[1..])
  }

  /** One more name goes at the end, after ", ": the names appear in order. */
  lemma {:induction false} JoinSnoc(parts: seq<string>, x: string)
    requires parts != []
    ensures Join(parts + [x]) == Join(parts) + ", " + x
    decreases |parts|
  {
    if |parts| > 1 {
      assert (parts + [x])[1..] == parts[1..] + [x];
      JoinSnoc(parts[1..], x);
    } else {
      assert (parts + [x])[1..] == [x];
    }
  }

  predicate IsDigit(c: char)
  {
    '0' <= c <= '9'
  }

  function DigitChar(d: nat): (c: char)
    requires d < 10
    ensures IsDigit(c) && c as int - '0' as int == d
  {
    (d + '0' as int) as char
  }

  /** The decimal text of `n`, as a template literal renders a non-negative integer. */
  function DecimalText(n: nat): (r: string)
    ensures |r| >= 1
    ensures forall i :: 0 <= i < |r| ==> IsDigit(r[i])
    ensures r[0] == '0' ==> n == 0
    decreases n
  {
    if n < 10 then [DigitChar(n)] else DecimalText(n / 10) + [DigitChar(n % 10)]
  }

  /** The number a string of decimal digits denotes. */
  function DecimalValue(s: string): nat
    requires forall i :: 0 <= i < |s| ==> IsDigit(s[i])
  {
    if s == [] then 0
    else
      assert IsDigit(s[|s| - 1]);
      DecimalValue(s[..|s| - 1]) * 10 + (s[|s| - 1] as int - '0' as int)
  }

  /** Reading the rendered count back gives the count: the text is its decimal numeral. */
  lemma {:induction false} DecimalRoundTrip(n: nat)
    ensures DecimalValue(DecimalText(n)) == n
    decreases n
  {
    var r := DecimalText(n);
    if n >= 10 {
      DecimalRoundTrip(n / 10);
      assert r[..|r| - 1] == DecimalText(n / 10);
    }
  }
}
