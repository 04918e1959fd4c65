/** File names under which a scan stores its frames: row `k` (counting from 1)
    is written to `pics\test<k>.tif`, with `k` in decimal. */
module ScanPaths {

  predicate IsDigit(c: char) { '0' <= c <= '9' }

  function DigitChar(d: nat): (c: char)
    requires d < 10
    ensures IsDigit(c)
  {
    "0123456789"[d]
  }

  function DigitValue(c: char): (d: nat)
    requires IsDigit(c)
    ensures d < 10
  {
    c as int - '0' as int
  }

  /** Decimal notation of a natural number, without leading zeros. */
  function Decimal(n: nat): (s: string)
    ensures |s| >= 1
    ensures forall k :: 0 <= k < |s| ==> IsDigit(s[k])
    ensures |s| > 1 ==> s[0] != '0'
    decreases n
  {
    if n < 10 then [DigitChar(n)] else Decimal(n / 10) + [DigitChar(n % 10)]
  }

  /** Reads a string of digits back as a number. */
  function ParseDecimal(s: string): nat
    requires forall k :: 0 <= k < |s| ==> IsDigit(s[k])
    decreases |s|
  {
    if s == [] then 0 else ParseDecimal(s[..|s| - 1]) * 10 + DigitValue(s[|s| - 1])
  }

  lemma DigitRoundTrip(d: nat)
    requires d < 10
    ensures DigitValue(DigitChar(d)) == d
  {
  }

  /** Reading the decimal notation of `n` gives `n` back, so distinct numbers
      have distinct notations. */
  lemma {:induction false} DecimalRoundTrip(n: nat)
    ensures ParseDecimal(Decimal(n)) == n
    decreases n
  {
    var s := Decimal(n);
    DigitRoundTrip(n % 10);
    if n >= 10 {
      assert s[..|s| - 1] == Decimal(n / 10);
      DecimalRoundTrip(n / 10);
    }
  }

  lemma DecimalInjective(a: nat, b: nat)
    ensures Decimal(a) == Decimal(b) <==> a == b
  {
    if Decimal(a) == Decimal(b) {
      DecimalRoundTrip(a);
      DecimalRoundTrip(b);
    }
  }

  const Prefix: string := "pics\\test"
  const Suffix: string := ".tif"

  /** Path of the frame saved for scan row `row` (1-based). */
  function ScanPath(row: nat): (p: string)
    ensures |p| > |Prefix| + |Suffix|
  {
    Prefix + Decimal(row) + Suffix
  }

  /** A row's path is the fixed prefix, the row number in decimal and the
      fixed suffix: the row can be read back from the path. */
  lemma ScanPathRow(row: nat)
    ensures var p := ScanPath(row);
      p[..|Prefix|] == Prefix && p[|p| - |Suffix|..] == Suffix &&
      var digits := p[|Prefix|..|p| - |Suffix|];
      (forall k :: 0 <= k < |digits| ==> IsDigit(digits[k])) && ParseDecimal(digits) == row
  {
    var p := ScanPath(row);
    assert p[|Prefix|..|p| - |Suffix|] == Decimal(row);
    DecimalRoundTrip(row);
  }

  /** Different rows are saved under different paths. */
  lemma ScanPathInjective(a: nat, b: nat)
    ensures ScanPath(a) == ScanPath(b) <==> a == b
  {
    var p, q := ScanPath(a), ScanPath(b);
    assert p[|Prefix|..|p| - |Suffix|] == Decimal(a);
    assert q[|Prefix|..|q| - |Suffix|] == Decimal(b);
    DecimalInjective(a, b);
  }
}
