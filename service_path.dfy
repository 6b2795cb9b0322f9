/**
 * The region service path that the server registers its WebSocket handler
 * under: "/region/" followed by the region's two grid coordinates in decimal,
 * separated by an "x". The coordinates are unsigned, so their text is plain
 * decimal digits; since no digit is an "x", the path can be split back into
 * the two coordinates, and two regions at different coordinates never share a
 * path.
 */
module ServicePath {
  import opened Wrappers
  import opened Lists

  const Prefix := "/region/"
  const Separator: char := 'x'

  predicate IsDigit(c: char)
  {
    '0' <= c <= '9'
  }

  predicate AllDigits(s: string)
  {
    forall i :: 0 <= i < |s| ==> IsDigit(s[i])
  }

  function DigitChar(d: nat): (c: char)
    requires d < 10
    ensures IsDigit(c)
  {
    ('0' as int + d) as char
  }

  function DigitValue(c: char): nat
    requires IsDigit(c)
  {
    (c as int - '0' as int) as nat
  }

  /** The text of an unsigned integer in decimal: at least one digit, only digits. */
  function DecimalString(n: nat): (s: string)
    ensures 1 <= |s| && AllDigits(s)
    ensures |s| == 1 <==> n < 10
    ensures s[0] == '0' <==> n == 0
  {
    if n < 10 then [DigitChar(n)]
    else DecimalString(n / 10) + [DigitChar(n % 10)]
  }

  /** The value of a string of decimal digits. */
  function ParseDecimal(s: string): nat
    requires AllDigits(s)
  {
    if s == [] then 0
    else 10 * ParseDecimal(s[..|s| - 1]) + DigitValue(s[|s| - 1])
  }

  /** Reading a number's decimal text back gives the number. */
  lemma {:induction false} ParseDecimalString(n: nat)
    ensures ParseDecimal(DecimalString(n)) == n
  {
    var s := DecimalString(n);
    if n >= 10 {
      ParseDecimalString(n / 10);
      assert s[..|s| - 1] == DecimalString(n / 10);
    }
  }

  /** The path of the region at grid coordinates (`x`, `y`). */
  function RegionServicePath(x: nat, y: nat): (p: string)
    ensures |p| == |Prefix| + |DecimalString(x)| + 1 + |DecimalString(y)|
    ensures p[..|Prefix|] == Prefix
    ensures p[|Prefix| + |DecimalString(x)|] == Separator
  {
    Prefix + DecimalString(x) + [Separator] + DecimalString(y)
  }

  /**
   * Reads a region service path back into its coordinates: the prefix, then
   * the digits before the first "x", then the digits after it.
   */
  function ParseRegionServicePath(p: string): Option<(nat, nat)>
  {
    if |p| < |Prefix| || p[..|Prefix|] != Prefix then None
    else
      var rest := p[|Prefix|..];
      var k := IndexOf(rest, Separator);
      if k < 0 then None
      else
        var xs, ys := rest[..k], rest[k + 1..];
        if xs == [] || ys == [] || !AllDigits(xs) || !AllDigits(ys) then None
        else Some((ParseDecimal(xs), ParseDecimal(ys)))
  }

  /** Parsing a region service path gives back the coordinates it was made from. */
  lemma ParseRegionServicePathRoundTrip(x: nat, y: nat)
    ensures ParseRegionServicePath(RegionServicePath(x, y)) == Some((x, y))
  {
    var xs, ys := DecimalString(x), DecimalString(y);
    var p := RegionServicePath(x, y);
    var rest := xs + [Separator] + ys;
    assert p == Prefix + rest;
    assert p[..|Prefix|] == Prefix;
    assert p[|Prefix|..] == rest;
    assert rest[..|xs|] == xs;
    assert rest[|xs|] == Separator;
    assert Separator !in xs by {
      forall i | 0 <= i < |xs| ensures xs[i] != Separator {
        assert IsDigit(xs[i]);
      }
    }
    var k := IndexOf(rest, Separator);
    assert k == |xs|;
    assert rest[k + 1..] == ys;
    ParseDecimalString(x);
    ParseDecimalString(y);
  }

  /** Distinct coordinate pairs give distinct paths, and equal pairs equal ones. */
  lemma RegionServicePathUnique(x1: nat, y1: nat, x2: nat, y2: nat)
    ensures RegionServicePath(x1, y1) == RegionServicePath(x2, y2) <==> x1 == x2 && y1 == y2
  {
    ParseRegionServicePathRoundTrip(x1, y1);
    ParseRegionServicePathRoundTrip(x2, y2);
  }
}
