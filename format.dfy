/**
 * Formatting helpers: `format_size` (binary units, one decimal place) and
 * `truncate_text`.
 *
 * `format_size` divides by 1024 until the value drops below 1024, and renders
 * the value with Python's `.1f`. Dividing by 1024 is exact in binary floating
 * point, so for every size a float holds exactly (below 2^53) the value
 * is the exact rational `size / 1024^k`, and `.1f` rounds it to the nearest
 * tenth, ties to even; this module computes exactly that on reals.
 */
module Format {
  import opened Seqs
  import opened Text

  const Units: seq<string> := ["B", "KB", "MB", "GB", "TB", "PB"]

  function Pow1024(k: nat): (p: nat)
    ensures p >= 1
  {
    if k == 0 then 1 else 1024 * Pow1024(k - 1)
  }

  lemma {:induction false} Pow1024Monotonic(j: nat, k: nat)
    requires j <= k
    ensures Pow1024(j) <= Pow1024(k)
    decreases k
  {
    if j < k {
      Pow1024Monotonic(j, k - 1);
    }
  }

  /** The first unit index from `i` on whose next power of 1024 exceeds `size`, PB (5) at the latest. */
  function UnitFrom(size: nat, i: nat): (k: nat)
    requires i <= 5
    requires i > 0 ==> Pow1024(i) <= size
    ensures i <= k <= 5
    ensures k < 5 ==> size < Pow1024(k + 1)
    ensures k > 0 ==> Pow1024(k) <= size
    decreases 5 - i
  {
    if i == 5 || size < Pow1024(i + 1) then i else UnitFrom(size, i + 1)
  }

  /** The index into `Units` of the unit `format_size` picks for `size`. */
  function UnitIndex(size: nat): (k: nat)
    ensures k <= 5
  {
    UnitFrom(size, 0)
  }

  /**
   * The unit is B below 1024, KB below 1024^2, MB below 1024^3, GB below
   * 1024^4, TB below 1024^5 and PB from there on: index `k` is chosen exactly
   * when `size` lies in `[1024^k, 1024^(k+1))`, with no lower bound for B and
   * no upper bound for PB.
   */
  lemma UnitIndexIff(size: nat, k: nat)
    ensures UnitIndex(size) == k <==>
      k <= 5 && (k == 0 || Pow1024(k) <= size) && (k == 5 || size < Pow1024(k + 1))
  {
    var u := UnitIndex(size);
    if k <= 5 && (k == 0 || Pow1024(k) <= size) && (k == 5 || size < Pow1024(k + 1)) {
      if u < k {
        Pow1024Monotonic(u + 1, k);
      } else if k < u {
        Pow1024Monotonic(k + 1, u);
      }
    }
  }

  /** The nearest integer to `x`, an exact half going to the even neighbour. */
  function RoundHalfEven(x: real): (n: int)
    ensures -0.5 <= n as real - x <= 0.5
    ensures (n as real - x == 0.5 || x - n as real == 0.5) ==> n % 2 == 0
    ensures x >= 0.0 ==> n >= 0
  {
    var f := x.Floor;
    var d := x - f as real;
    if d < 0.5 then f
    else if d > 0.5 then f + 1
    else if f % 2 == 0 then f
    else f + 1
  }

  /** Python's `f"{x:.1f}"` for a non-negative exact value `x`. */
  function OneDecimal(x: real): string
    requires x >= 0.0
  {
    var tenths := RoundHalfEven(x * 10.0);
    NatToString(tenths / 10) + "." + [DigitChar(tenths % 10)]
  }

  /** A whole number is its own nearest integer. */
  lemma RoundWhole(m: int)
    ensures RoundHalfEven(m as real) == m
  {
    assert (m as real).Floor == m;
  }

  /** A whole number is printed with ".0". */
  lemma OneDecimalWhole(n: nat)
    ensures OneDecimal(n as real) == NatToString(n) + ".0"
  {
    var m := 10 * n;
    assert n as real * 10.0 == m as real;
    RoundWhole(m);
    assert m / 10 == n && m % 10 == 0;
    var s := NatToString(n);
    assert OneDecimal(n as real) == s + "." + [DigitChar(0)];
    assert [DigitChar(0)] == "0";
    AppendAssoc(s, ".", "0");
  }

  /** `size` divided by 1024 `k` times, exactly (the value `format_size` holds after `k` divisions). */
  function Scaled(size: nat, k: nat): (v: real)
    ensures v >= 0.0
  {
    if k == 0 then size as real else Scaled(size, k - 1) / 1024.0
  }

  /** The scaled value is the quotient of `size` by `1024^k`. */
  lemma {:induction false} ScaledIsQuotient(size: nat, k: nat)
    ensures Scaled(size, k) * Pow1024(k) as real == size as real
  {
    if k > 0 {
      ScaledIsQuotient(size, k - 1);
      var v := Scaled(size, k - 1);
      var p := Pow1024(k - 1) as real;
      assert Pow1024(k) as real == 1024.0 * p;
      assert (v / 1024.0) * (1024.0 * p) == v * p;
    }
  }

  /** The text `format_size` returns for `size`. */
  function SizeText(size: nat): string
  {
    var k := UnitIndex(size);
    OneDecimal(Scaled(size, k)) + Units[k]
  }

  lemma MulLess(a: real, b: real, c: real)
    requires c > 0.0
    ensures a < b <==> a * c < b * c
  {
    if a < b {
      assert (b - a) * c > 0.0;
    } else {
      assert (a - b) * c >= 0.0;
    }
  }

  /** The only `v` with `v * p == s` is `s / p`. */
  lemma QuotientUnique(v: real, p: real, s: real)
    requires p > 0.0 && v * p == s
    ensures v == s / p
  {
    assert (s / p) * p == s;
    MulLess(v, s / p, p);
    MulLess(s / p, v, p);
  }

  lemma Pow1024Real(k: nat)
    ensures Pow1024(k + 1) as real == 1024.0 * Pow1024(k) as real
  {
    var n := Pow1024(k);
    assert Pow1024(k + 1) == 1024 * n;
  }

  /** When `v * p == s` and `q == 1024 * p`, `v` is below 1024 exactly when `s` is below `q`. */
  lemma BelowIff(v: real, p: real, s: real, q: real)
    requires p > 0.0 && v * p == s && q == 1024.0 * p
    ensures v < 1024.0 <==> s < q
  {
    MulLess(v, 1024.0, p);
  }

  /** The value after `k` divisions is below 1024 exactly when `size` is below `1024^(k+1)`. */
  lemma ScaledBelow(size: nat, k: nat)
    ensures Scaled(size, k) < 1024.0 <==> size < Pow1024(k + 1)
  {
    ScaledIsQuotient(size, k);
    Pow1024Real(k);
    BelowIff(Scaled(size, k), Pow1024(k) as real, size as real, Pow1024(k + 1) as real);
  }

  /** Where the loop stops, at unit `i`, the text it returns is `SizeText(size)`. */
  lemma StopAt(size: nat, i: nat)
    requires i <= 5
    requires i > 0 ==> Pow1024(i) <= size
    requires i < 5 ==> Scaled(size, i) < 1024.0
    ensures SizeText(size) == OneDecimal(Scaled(size, i)) + Units[i]
  {
    ScaledBelow(size, i);
    UnitIndexIff(size, i);
  }

  /**
   * `format_size`: walks the units B, KB, MB, GB, TB, dividing by 1024 while
   * the value is not below 1024, and falls through to PB.
   */
  method FormatSize(size: nat) returns (text: string)
    ensures text == SizeText(size)
  {
    var units := ["B", "KB", "MB", "GB", "TB"];
    var value: real := size as real;
    var i := 0;
    while i < 5
      invariant 0 <= i <= 5
      invariant value == Scaled(size, i)
      invariant i > 0 ==> Pow1024(i) <= size
    {
      if value < 1024.0 {
        StopAt(size, i);
        return OneDecimal(value) + units[i];
      }
      ScaledBelow(size, i);
      value := value / 1024.0;
      i := i + 1;
    }
    StopAt(size, i);
    text := OneDecimal(value) + "PB";
  }

  /**
   * The closed form of `format_size`: `size / 1024^k` to one decimal place,
   * then unit `k`, where `k` is the unit `UnitIndexIff` pins down.
   */
  lemma SizeTextQuotient(size: nat)
    ensures var k := UnitIndex(size);
      && Scaled(size, k) == size as real / Pow1024(k) as real
      && SizeText(size) == OneDecimal(size as real / Pow1024(k) as real) + Units[k]
  {
    var k := UnitIndex(size);
    ScaledIsQuotient(size, k);
    QuotientUnique(Scaled(size, k), Pow1024(k) as real, size as real);
  }

  /** Below 1024 the text is the size itself with ".0B", for example "0.0B" and "1023.0B". */
  lemma SizeTextBytes(size: nat)
    requires size < 1024
    ensures SizeText(size) == NatToString(size) + ".0B"
  {
    StopAt(size, 0);
    OneDecimalWhole(size);
  }

  /**
   * A whole number `n` of units is printed as "<n>.0<unit>": 1024 is "1.0KB",
   * 1048576 is "1.0MB", 1099511627776 is "1.0TB". For PB `n` may be 1024 or more.
   */
  lemma SizeTextWholeUnits(n: nat, k: nat)
    requires k <= 5
    requires k > 0 ==> n >= 1
    requires k < 5 ==> n < 1024
    ensures SizeText(n * Pow1024(k)) == NatToString(n) + ".0" + Units[k]
  {
    var p := Pow1024(k);
    ScaledWhole(n, k);
    if k > 0 {
      assert n * p == p + (n - 1) * p;
    }
    StopAt(n * p, k);
    OneDecimalWhole(n);
  }

  /** Dividing `n * 1024^k` by 1024 `k` times gives back `n` exactly. */
  lemma {:induction false} ScaledWhole(n: nat, k: nat)
    ensures Scaled(n * Pow1024(k), k) == n as real
    decreases k
  {
    if k > 0 {
      ScaledWhole(1024 * n, k - 1);
      assert n * Pow1024(k) == (1024 * n) * Pow1024(k - 1);
    }
  }

  /** Every size from 1024^5 on is printed in PB. */
  lemma SizeTextPetabytes(size: nat)
    requires size >= Pow1024(5)
    ensures UnitIndex(size) == 5
    ensures SizeText(size)[|SizeText(size)| - 2..] == "PB"
  {
    UnitIndexIff(size, 5);
  }

  /** Every size text starts with a decimal digit (it never reads like a column title). */
  lemma SizeTextStartsWithDigit(size: nat)
    ensures |SizeText(size)| > 0 && IsDigit(SizeText(size)[0])
  {
  }

  /** Worked value: nothing at all is "0.0B". */
  lemma SizeTextZero()
    ensures SizeText(0) == "0.0B"
  {
    SizeTextBytes(0);
  }

  /** Worked value: the largest size still shown in bytes, "1023.0B". */
  lemma SizeTextLargestInBytes()
    ensures SizeText(1023) == "1023.0B"
  {
    SizeTextBytes(1023);
    assert NatToString(1023) == "1023";
  }

  /** Worked value: 1024 bytes is "1.0KB". */
  lemma SizeTextOneKilobyte()
    ensures SizeText(1024) == "1.0KB"
  {
    SizeTextWholeUnits(1, 1);
  }

  /** Worked value: 2048 bytes is "2.0KB". */
  lemma SizeTextTwoKilobytes()
    ensures SizeText(2048) == "2.0KB"
  {
    SizeTextWholeUnits(2, 1);
  }

  /** Worked value: 1048576 bytes is "1.0MB". */
  lemma SizeTextOneMegabyte()
    ensures Pow1024(2) == 1048576 && SizeText(Pow1024(2)) == "1.0MB"
  {
    SizeTextWholeUnits(1, 2);
  }

  /** Worked value: 1099511627776 bytes is "1.0TB". */
  lemma SizeTextOneTerabyte()
    ensures Pow1024(4) == 1099511627776 && SizeText(Pow1024(4)) == "1.0TB"
  {
    SizeTextWholeUnits(1, 4);
  }

  /**
   * The unit is chosen before rounding: 1048575 bytes is 1023.999 KB, which
   * prints as "1024.0KB", not "1.0MB".
   */
  lemma SizeTextRoundsUp()
    ensures SizeText(1048575) == "1024.0KB"
  {
    ScaledBelow(1048575, 1);
    StopAt(1048575, 1);
    var v := Scaled(1048575, 1);
    assert v == 1048575.0 / 1024.0;
    assert (v * 10.0).Floor == 10239;
    assert RoundHalfEven(v * 10.0) == 10240;
    assert NatToString(1024) == "1024";
  }

  /** An exact half goes to the even digit: 1280 bytes is 1.25 KB and prints as "1.2KB". */
  lemma SizeTextHalfToEven()
    ensures SizeText(1280) == "1.2KB"
  {
    ScaledBelow(1280, 1);
    StopAt(1280, 1);
    var v := Scaled(1280, 1);
    assert v == 1.25;
    assert (v * 10.0).Floor == 12;
    assert RoundHalfEven(v * 10.0) == 12;
  }

  /**
   * `truncate_text`: the text itself when it fits in `maxLength`, otherwise
   * `text[:maxLength-3] + "..."` with Python's slice rules.
   */
  function TruncateText(text: string, maxLength: int): (r: string)
    ensures |text| <= maxLength ==> r == text
    ensures |text| > maxLength && maxLength >= 3 ==>
      |r| == maxLength && StartsWith(r, text[..maxLength - 3]) && r[maxLength - 3..] == "..."
    ensures |text| > maxLength && maxLength < 3 ==>
      |r| > maxLength && |r| >= 3 && r[|r| - 3..] == "..."
  {
    if |text| <= maxLength then text else SliceTo(text, maxLength - 3) + "..."
  }
}
