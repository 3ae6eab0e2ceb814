/**
 * The string operations the tool relies on, with Python's meaning: substring
 * containment (`t in s`), `str(n)` for a non-negative integer, slicing, string
 * repetition and left-aligned padding (`f"{s:<{w}}"`).
 */
module Text {

  /** `t` occurs in `s` starting at index `i`. */
  ghost predicate OccursAt(s: string, t: string, i: int)
  {
    0 <= i && i + |t| <= |s| && s[i..i + |t|] == t
  }

  /** `t` is a prefix of `s`. */
  predicate StartsWith(s: string, t: string)
  {
    |t| <= |s| && s[..|t|] == t
  }

  /** Python's `t in s` on strings: ordinary, case-sensitive substring containment. */
  function Contains(s: string, t: string): bool
    decreases |s|
  {
    if |t| > |s| then false
    else if StartsWith(s, t) then true
    else Contains(s[1..], t)
  }

  /** A slice of `s` is the same slice, one place earlier, of `s` without its first element. */
  lemma SliceOfTail<T>(s: seq<T>, lo: int, hi: int)
    requires 1 <= lo <= hi <= |s|
    ensures s[1..][lo - 1..hi - 1] == s[lo..hi]
  {
  }

  /** `Contains` holds exactly when `t` occurs somewhere in `s`. */
  lemma {:induction false} ContainsIff(s: string, t: string)
    ensures Contains(s, t) <==> exists i :: OccursAt(s, t, i)
    decreases |s|
  {
    if |t| > |s| {
    } else if StartsWith(s, t) {
      assert OccursAt(s, t, 0);
    } else {
      var rest := s[1..];
      ContainsIff(rest, t);
      if Contains(rest, t) {
        var i :| OccursAt(rest, t, i);
        SliceOfTail(s, i + 1, i + 1 + |t|);
        assert OccursAt(s, t, i + 1);
      } else {
        assert !OccursAt(s, t, 0);
        forall i | 0 < i && OccursAt(s, t, i)
          ensures OccursAt(rest, t, i - 1)
        {
          SliceOfTail(s, i, i + |t|);
        }
      }
    }
  }

  /** Every string contains the empty string. */
  lemma ContainsEmpty(s: string)
    ensures Contains(s, "")
  {
    assert StartsWith(s, "");
  }

  /** A string that lacks the first character of `t` does not contain `t`. */
  lemma ContainsNeedsFirst(s: string, t: string)
    requires t != [] && t[0] !in s
    ensures !Contains(s, t)
  {
    ContainsIff(s, t);
  }

  /** A string contains itself with anything around it. */
  lemma ContainsInfix(a: string, t: string, b: string)
    ensures Contains(a + t + b, t)
  {
    var s := a + t + b;
    assert s[|a|..|a| + |t|] == t;
    assert OccursAt(s, t, |a|);
    ContainsIff(s, t);
  }

  predicate IsDigit(c: char)
  {
    '0' <= c <= '9'
  }

  predicate AllDigits(s: string)
  {
    forall i :: 0 <= i < |s| ==> IsDigit(s[i])
  }

  function DigitChar(d: nat): (c: char)
    requires d < 10
    ensures IsDigit(c)
  {
    ('0' as int + d) as char
  }

  /** Python's `str(n)` for a non-negative integer: its decimal digits, most significant first. */
  function NatToString(n: nat): (s: string)
    ensures |s| >= 1 && AllDigits(s)
    ensures n < 10 <==> |s| == 1
  {
    if n < 10 then [DigitChar(n)] else NatToString(n / 10) + [DigitChar(n % 10)]
  }

  /** The number that a string of decimal digits denotes. */
  function DecimalValue(s: string): nat
    requires AllDigits(s)
  {
    if s == [] then 0
    else DecimalValue(s[..|s| - 1]) * 10 + (s[|s| - 1] as int - '0' as int)
  }

  /**
   * `NatToString` is the canonical decimal form, as `str(n)` is: reading the
   * digits back gives the number, zero is "0", and no other number starts
   * with a '0', so no padded form such as "012" can come out.
   */
  lemma {:induction false} NatToStringRoundTrip(n: nat)
    ensures DecimalValue(NatToString(n)) == n
    ensures n == 0 ==> NatToString(n) == "0"
    ensures n > 0 ==> NatToString(n)[0] != '0'
  {
    if n >= 10 {
      NatToStringRoundTrip(n / 10);
      var s := NatToString(n);
      var front := NatToString(n / 10);
      assert s[..|s| - 1] == front;
      assert s[0] == front[0];
    }
  }

  /** `c` repeated `n` times (Python's `c * n`). */
  function Repeat(c: char, n: nat): (s: string)
    ensures |s| == n && forall i :: 0 <= i < n ==> s[i] == c
  {
    seq(n, _ => c)
  }

  /**
   * `f"{s:<{w}}"` for a width `w >= 0`: `s` followed by spaces up to `w`
   * characters; a value longer than `w` is kept whole, never cropped.
   */
  function PadRight(s: string, w: nat): (r: string)
    ensures |r| == if |s| < w then w else |s|
    ensures StartsWith(r, s)
    ensures forall i :: |s| <= i < |r| ==> r[i] == ' '
  {
    if |s| < w then s + Repeat(' ', w - |s|) else s
  }

  /** Python's `s[:stop]`: a negative `stop` counts from the end, and the cut is clamped to the string. */
  function SliceTo(s: string, stop: int): (r: string)
    ensures |r| == if stop >= 0 then (if stop < |s| then stop else |s|)
                   else (if |s| + stop > 0 then |s| + stop else 0)
    ensures StartsWith(s, r)
  {
    var end := if stop >= 0 then (if stop < |s| then stop else |s|)
               else (if |s| + stop > 0 then |s| + stop else 0);
    s[..end]
  }
}
