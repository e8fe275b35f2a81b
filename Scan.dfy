/**
  The two number scanners `setFontFromRun` and `parseHexColor` rely on:
  `strconv.ParseFloat` on a half-point size, restricted to plain decimal
  notation, and `fmt.Sscanf(s, "%02x%02x%02x", &r, &g, &b)`.
 */
module Scan {
  import opened Wrappers

  // ---------------------------------------------------------------------
  // Decimal numbers
  // ---------------------------------------------------------------------

  predicate IsDigit(c: char) { '0' <= c <= '9' }

  /** s[lo..hi] holds decimal digits only. */
  predicate DigitRange(s: string, lo: nat, hi: nat)
    requires lo <= hi <= |s|
    decreases hi
  {
    lo == hi || (IsDigit(s[hi - 1]) && DigitRange(s, lo, hi - 1))
  }

  /** The value of the decimal digits s[lo..hi], most significant first. */
  function DigitsValue(s: string, lo: nat, hi: nat): nat
    requires lo <= hi <= |s| && DigitRange(s, lo, hi)
    decreases hi
  {
    if lo == hi then 0 else DigitsValue(s, lo, hi - 1) * 10 + (s[hi - 1] as int - '0' as int)
  }

  /** m / 10^k, dividing by ten k times. */
  function Scale(m: nat, k: nat): (r: real)
    ensures r >= 0.0
  {
    if k == 0 then m as real else Scale(m, k - 1) / 10.0
  }

  /**
    Reads the rest s[i..] of an unsigned number, left to right: digits
    with at most one '.', and at least one digit in all ("12", "1.5", ".5",
    "3."). `mant` holds the value of the digits read so far, `frac` how
    many of them follow the '.', `count` how many there are, and `dot`
    whether the '.' has been read.
   */
  function ScanDecimal(s: string, i: nat, mant: nat, frac: nat, count: nat, dot: bool): (r: Option<real>)
    requires i <= |s|
    ensures r.Some? ==> r.value >= 0.0
    decreases |s| - i
  {
    if i == |s| then
      if count > 0 then Some(Scale(mant, frac)) else None
    else if IsDigit(s[i]) then
      ScanDecimal(s, i + 1, mant * 10 + (s[i] as int - '0' as int), if dot then frac + 1 else frac, count + 1, dot)
    else if s[i] == '.' && !dot then
      ScanDecimal(s, i + 1, mant, frac, count, true)
    else
      None
  }

  /** The number written from position lo on. */
  function ParseUnsignedDecimal(s: string, lo: nat): Option<real>
    requires lo <= |s|
  {
    ScanDecimal(s, lo, 0, 0, 0, false)
  }

  /**
    `strconv.ParseFloat(s, 64)` on plain decimal notation with an optional
    sign; None stands for a non-nil error.
   */
  function ParseDecimal(s: string): Option<real>
  {
    if |s| > 0 && (s[0] == '+' || s[0] == '-') then
      match ParseUnsignedDecimal(s, 1)
      case None => None
      case Some(v) => Some(if s[0] == '-' then -v else v)
    else
      ParseUnsignedDecimal(s, 0)
  }

  /** The syntax of an unsigned number from lo on, stated on its own: digits and '.', one '.' at most, some digit. */
  ghost predicate UnsignedSyntax(s: string, lo: nat)
    requires lo <= |s|
  {
    && (forall i :: lo <= i < |s| ==> IsDigit(s[i]) || s[i] == '.')
    && (forall i, j :: lo <= i < j < |s| && s[i] == '.' ==> s[j] != '.')
    && (exists i :: lo <= i < |s| && IsDigit(s[i]))
  }

  /** The accepted syntax: an optional sign, then an unsigned number. */
  ghost predicate DecimalSyntax(s: string)
  {
    if |s| > 0 && (s[0] == '+' || s[0] == '-') then UnsignedSyntax(s, 1) else UnsignedSyntax(s, 0)
  }

  lemma {:induction false} DigitRangeAll(s: string, lo: nat, hi: nat)
    requires lo <= hi <= |s|
    ensures DigitRange(s, lo, hi) <==> forall i :: lo <= i < hi ==> IsDigit(s[i])
    decreases hi
  {
    if lo < hi {
      DigitRangeAll(s, lo, hi - 1);
    }
  }

  /**
    What the scanner still accepts from position i on, once it has or has
    not read a '.' and a digit: digits and '.' only, no second '.', and a
    digit somewhere.
   */
  ghost predicate RestSyntax(s: string, i: nat, dot: bool, digit: bool)
    requires i <= |s|
  {
    && (forall k :: i <= k < |s| ==> IsDigit(s[k]) || s[k] == '.')
    && (forall k, l :: i <= k < l < |s| && s[k] == '.' ==> s[l] != '.')
    && (dot ==> forall k :: i <= k < |s| ==> s[k] != '.')
    && (digit || exists k :: i <= k < |s| && IsDigit(s[k]))
  }

  lemma {:induction false} ScanAccepts(s: string, i: nat, mant: nat, frac: nat, count: nat, dot: bool)
    requires i <= |s|
    ensures ScanDecimal(s, i, mant, frac, count, dot).Some? <==> RestSyntax(s, i, dot, count > 0)
    decreases |s| - i
  {
    if i < |s| {
      if IsDigit(s[i]) {
        ScanAccepts(s, i + 1, mant * 10 + (s[i] as int - '0' as int), if dot then frac + 1 else frac, count + 1, dot);
        if RestSyntax(s, i + 1, dot, true) {
          assert IsDigit(s[i]);
        }
      } else if s[i] == '.' && !dot {
        ScanAccepts(s, i + 1, mant, frac, count, true);
        if RestSyntax(s, i, dot, count > 0) && count == 0 {
          var k :| i <= k < |s| && IsDigit(s[k]);
          assert k != i;
        }
      }
    }
  }

  /** ParseUnsignedDecimal succeeds exactly on the syntax UnsignedSyntax describes. */
  lemma UnsignedAccepts(s: string, lo: nat)
    requires lo <= |s|
    ensures ParseUnsignedDecimal(s, lo).Some? <==> UnsignedSyntax(s, lo)
  {
    ScanAccepts(s, lo, 0, 0, 0, false);
  }

  /** ParseDecimal succeeds exactly on the syntax DecimalSyntax describes. */
  lemma ParseDecimalAccepts(s: string)
    ensures ParseDecimal(s).Some? <==> DecimalSyntax(s)
  {
    if |s| > 0 && (s[0] == '+' || s[0] == '-') {
      UnsignedAccepts(s, 1);
    } else {
      UnsignedAccepts(s, 0);
    }
  }

  lemma {:induction false} ScanDigits(s: string, lo: nat, i: nat)
    requires lo <= i <= |s| && forall k :: lo <= k < |s| ==> IsDigit(s[k])
    ensures DigitRange(s, lo, i) && DigitRange(s, lo, |s|)
    ensures ScanDecimal(s, i, DigitsValue(s, lo, i), 0, i - lo, false)
            == if lo < |s| then Some(DigitsValue(s, lo, |s|) as real) else None
    decreases |s| - i
  {
    DigitRangeAll(s, lo, i);
    DigitRangeAll(s, lo, |s|);
    if i < |s| {
      DigitRangeAll(s, lo, i + 1);
      ScanDigits(s, lo, i + 1);
    }
  }

  /** Digits alone, from lo to the end, are read as a whole number. */
  lemma UnsignedOfDigits(s: string, lo: nat)
    requires lo < |s| && forall i :: lo <= i < |s| ==> IsDigit(s[i])
    ensures DigitRange(s, lo, |s|)
    ensures ParseUnsignedDecimal(s, lo) == Some(DigitsValue(s, lo, |s|) as real)
  {
    ScanDigits(s, lo, lo);
  }

  /** A string of digits parses to its decimal value. */
  lemma ParseDecimalOfDigits(s: string)
    requires s != [] && forall i :: 0 <= i < |s| ==> IsDigit(s[i])
    ensures DigitRange(s, 0, |s|)
    ensures ParseDecimal(s) == Some(DigitsValue(s, 0, |s|) as real)
  {
    UnsignedOfDigits(s, 0);
  }

  /** The decimal rendering of n, without sign or leading zeros. */
  function NatToDecimal(n: nat): (s: string)
    ensures |s| > 0 && forall i :: 0 <= i < |s| ==> IsDigit(s[i])
  {
    (if n < 10 then "" else NatToDecimal(n / 10)) + [('0' as int + n % 10) as char]
  }

  /** The digits of s[lo..hi] and their value do not depend on what follows s. */
  lemma {:induction false} DigitsPrefix(s: string, u: string, lo: nat, hi: nat)
    requires lo <= hi <= |s|
    ensures DigitRange(s + u, lo, hi) == DigitRange(s, lo, hi)
    ensures DigitRange(s, lo, hi) ==> DigitsValue(s + u, lo, hi) == DigitsValue(s, lo, hi)
    decreases hi
  {
    if lo < hi {
      DigitsPrefix(s, u, lo, hi - 1);
      assert (s + u)[hi - 1] == s[hi - 1];
    }
  }

  lemma {:induction false} DigitsValueOfNatToDecimal(n: nat)
    ensures DigitRange(NatToDecimal(n), 0, |NatToDecimal(n)|)
    ensures DigitsValue(NatToDecimal(n), 0, |NatToDecimal(n)|) == n
  {
    var s := NatToDecimal(n);
    DigitRangeAll(s, 0, |s|);
    var p := if n < 10 then "" else NatToDecimal(n / 10);
    var c := [('0' as int + n % 10) as char];
    assert s == p + c;
    DigitRangeAll(p, 0, |p|);
    DigitsPrefix(p, c, 0, |p|);
    if n >= 10 {
      DigitsValueOfNatToDecimal(n / 10);
    }
  }

  /** Rendering a natural number in decimal and parsing it back gives the number. */
  lemma ParseDecimalRoundTrip(n: nat)
    ensures ParseDecimal(NatToDecimal(n)) == Some(n as real)
  {
    ParseDecimalOfDigits(NatToDecimal(n));
    DigitsValueOfNatToDecimal(n);
  }

  // ---------------------------------------------------------------------
  // fmt.Sscanf with the format "%02x%02x%02x"
  // ---------------------------------------------------------------------

  predicate IsHexDigit(c: char) { '0' <= c <= '9' || 'a' <= c <= 'f' || 'A' <= c <= 'F' }

  function HexDigitValue(c: char): (v: nat)
    requires IsHexDigit(c)
    ensures v < 16
  {
    if '0' <= c <= '9' then c as int - '0' as int
    else if 'a' <= c <= 'f' then c as int - 'a' as int + 10
    else c as int - 'A' as int + 10
  }

  /** The characters fmt's integer scanner takes for the verb x: hex digits and '_'. */
  predicate IsHexScanChar(c: char) { IsHexDigit(c) || c == '_' }

  /** The end of the longest run of scanner characters in s[i..limit]. */
  function ScanEnd(s: string, i: nat, limit: nat): (e: nat)
    requires i <= limit <= |s|
    ensures i <= e <= limit
    decreases limit - i
  {
    if i < limit && IsHexScanChar(s[i]) then ScanEnd(s, i + 1, limit) else i
  }

  /** s[lo..hi] holds hex digits only. */
  predicate HexRange(s: string, lo: nat, hi: nat)
    requires lo <= hi <= |s|
    decreases hi
  {
    lo == hi || (IsHexDigit(s[hi - 1]) && HexRange(s, lo, hi - 1))
  }

  /** The value of the hex digits s[lo..hi], most significant first. */
  function HexValueIn(s: string, lo: nat, hi: nat): nat
    requires lo <= hi <= |s| && HexRange(s, lo, hi)
    decreases hi
  {
    if lo == hi then 0 else HexValueIn(s, lo, hi - 1) * 16 + HexDigitValue(s[hi - 1])
  }

  /** One or two hex digits are worth at most 15 or 255. */
  lemma HexValueBound(s: string, lo: nat, hi: nat)
    requires lo <= hi <= |s| && hi <= lo + 2 && HexRange(s, lo, hi)
    ensures HexValueIn(s, lo, hi) <= if hi < lo + 2 then 15 else 255
  {
    if hi == lo + 2 {
      assert HexValueIn(s, lo, hi) == HexValueIn(s, lo, lo + 1) * 16 + HexDigitValue(s[lo + 1]);
    }
  }

  /** One converted field and the position just after it. */
  datatype Field = Field(value: int, next: nat)

  /**
    One `%02x` conversion starting at position pos: at most two characters,
    an optional sign, then at least one hex digit. A '_' is taken by the
    scanner but refused by the integer parser. None is a scan error, which
    ends the whole Sscanf call.
   */
  function ScanHexField(s: string, pos: nat): (f: Option<Field>)
    ensures f.Some? ==> -15 <= f.value.value <= 255
  {
    if pos >= |s| then None
    else
      var limit := if pos + 2 <= |s| then pos + 2 else |s|;
      var start := if s[pos] == '+' || s[pos] == '-' then pos + 1 else pos;
      var end := ScanEnd(s, start, limit);
      if end == start || !HexRange(s, start, end) then None
      else
        HexValueBound(s, start, end);
        var v: int := HexValueIn(s, start, end);
        Some(Field(if s[pos] == '-' then -v else v, end))
  }

  /**
    The values of up to n consecutive fields from position pos; the first
    failing field ends the scan, as an error ends `fmt.Sscanf`.
   */
  function ScanFields(s: string, pos: nat, n: nat): (values: seq<int>)
    ensures |values| <= n
    ensures forall i :: 0 <= i < |values| ==> -15 <= values[i] <= 255
    decreases n
  {
    if n == 0 then []
    else
      match ScanHexField(s, pos)
      case None => []
      case Some(f) => [f.value] + ScanFields(s, f.next, n - 1)
  }

  /** The i-th scanned value, or Go's zero value when the scan stopped before it. */
  function Scanned(values: seq<int>, i: nat): int
  {
    if i < |values| then values[i] else 0
  }

  /**
    `parseHexColor`: the three fields in R, G, B order; a field that is not
    reached because an earlier one failed keeps its zero value. A field is
    at most two characters and a sign takes one of them, so every component
    lies in -15..255.
   */
  function ParseHexColor(s: string): (rgb: (int, int, int))
    ensures -15 <= rgb.0 <= 255 && -15 <= rgb.1 <= 255 && -15 <= rgb.2 <= 255
  {
    var values := ScanFields(s, 0, 3);
    (Scanned(values, 0), Scanned(values, 1), Scanned(values, 2))
  }

  /** Two hex digits form a field of their own, worth 16 * high + low. */
  lemma ScanTwoHexDigits(s: string, pos: nat)
    requires pos + 2 <= |s| && IsHexDigit(s[pos]) && IsHexDigit(s[pos + 1])
    ensures ScanHexField(s, pos) == Some(Field(16 * HexDigitValue(s[pos]) + HexDigitValue(s[pos + 1]), pos + 2))
  {
    assert ScanEnd(s, pos, pos + 2) == pos + 2 by {
      assert ScanEnd(s, pos + 1, pos + 2) == pos + 2;
    }
    assert HexRange(s, pos, pos + 2) by {
      assert HexRange(s, pos, pos + 1);
    }
    assert HexValueIn(s, pos, pos + 1) == HexDigitValue(s[pos]);
  }

  /**
    On six hex digits (anything may follow them) the colour is the three
    consecutive two-digit values, each a byte.
   */
  lemma ParseSixHexDigits(s: string)
    requires |s| >= 6 && forall i :: 0 <= i < 6 ==> IsHexDigit(s[i])
    ensures ParseHexColor(s) ==
      (16 * HexDigitValue(s[0]) + HexDigitValue(s[1]),
       16 * HexDigitValue(s[2]) + HexDigitValue(s[3]),
       16 * HexDigitValue(s[4]) + HexDigitValue(s[5]))
    ensures 0 <= ParseHexColor(s).0 <= 255 && 0 <= ParseHexColor(s).1 <= 255 && 0 <= ParseHexColor(s).2 <= 255
  {
    var r := 16 * HexDigitValue(s[0]) + HexDigitValue(s[1]);
    var g := 16 * HexDigitValue(s[2]) + HexDigitValue(s[3]);
    var b := 16 * HexDigitValue(s[4]) + HexDigitValue(s[5]);
    ScanTwoHexDigits(s, 0);
    ScanTwoHexDigits(s, 2);
    ScanTwoHexDigits(s, 4);
    ThreeFields(s, r, g, b);
  }

  /** Three fields in a row fill R, G and B. */
  lemma ThreeFields(s: string, r: int, g: int, b: int)
    requires ScanHexField(s, 0) == Some(Field(r, 2))
    requires ScanHexField(s, 2) == Some(Field(g, 4))
    requires ScanHexField(s, 4) == Some(Field(b, 6))
    ensures ParseHexColor(s) == (r, g, b)
  {
    assert ScanFields(s, 4, 1) == [b] by { assert ScanFields(s, 6, 0) == []; }
    assert ScanFields(s, 2, 2) == [g, b];
    assert ScanFields(s, 0, 3) == [r, g, b];
  }

  /** Nothing is assigned when the first character cannot start a field. */
  lemma ParseHexColorNoField(s: string)
    requires s == [] || !(IsHexDigit(s[0]) || s[0] == '+' || s[0] == '-')
    ensures ParseHexColor(s) == (0, 0, 0)
  {
    if s != [] {
      var limit := if 2 <= |s| then 2 else |s|;
      var end := ScanEnd(s, 0, limit);
      assert end == 0 || !HexRange(s, 0, end) by {
        if end == 2 { assert !HexRange(s, 0, 1); }
      }
    }
    assert ScanFields(s, 0, 3) == [];
  }

  /** When the second field fails, only R is assigned; G and B stay 0. */
  lemma {:induction false} ParseHexColorSecondFieldFails(s: string, r: int, p: nat)
    requires ScanHexField(s, 0) == Some(Field(r, p)) && ScanHexField(s, p) == None
    ensures ParseHexColor(s) == (r, 0, 0)
  {
    assert ScanFields(s, p, 2) == [];
  }

  /** When the third field fails, R and G are assigned and B stays 0. */
  lemma {:induction false} ParseHexColorThirdFieldFails(s: string, r: int, p: nat, g: int, q: nat)
    requires ScanHexField(s, 0) == Some(Field(r, p))
    requires ScanHexField(s, p) == Some(Field(g, q))
    requires ScanHexField(s, q) == None
    ensures ParseHexColor(s) == (r, g, 0)
  {
    assert ScanFields(s, q, 1) == [];
    assert ScanFields(s, p, 2) == [g];
  }

  function HexChar(d: nat): (c: char)
    requires d < 16
    ensures IsHexDigit(c) && HexDigitValue(c) == d
  {
    if d < 10 then ('0' as int + d) as char else ('a' as int + d - 10) as char
  }

  /** `%02x` formatting of a byte: two lower-case hex digits. */
  function HexByte(n: nat): (s: string)
    requires n < 256
    ensures |s| == 2 && IsHexDigit(s[0]) && IsHexDigit(s[1])
  {
    [HexChar(n / 16), HexChar(n % 16)]
  }

  /** Formatting a colour as six hex digits and parsing it back gives the colour. */
  lemma ParseHexColorRoundTrip(r: nat, g: nat, b: nat)
    requires r < 256 && g < 256 && b < 256
    ensures ParseHexColor(HexByte(r) + HexByte(g) + HexByte(b)) == (r, g, b)
  {
    var s := HexByte(r) + HexByte(g) + HexByte(b);
    ParseSixHexDigits(s);
    assert s[0] == HexChar(r / 16) && s[1] == HexChar(r % 16);
    assert s[2] == HexChar(g / 16) && s[3] == HexChar(g % 16);
    assert s[4] == HexChar(b / 16) && s[5] == HexChar(b % 16);
  }
}
