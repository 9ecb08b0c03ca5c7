/**
 * JavaScript's `parseInt(string)` with no radix argument, as `POST /delete/:id`
 * applies it to the path parameter (routes/index.mjs). NaN is `None`; the
 * number is exact (ids are assumed far below 2^53).
 */
module JsParseInt {
  import opened Wrappers

  /** The characters `parseInt` skips before the number: ECMAScript white space and line terminators. */
  predicate IsStrWhiteSpace(c: char) {
    var n := c as int;
    n == 0x09 || n == 0x0A || n == 0x0B || n == 0x0C || n == 0x0D || n == 0x20 || n == 0xA0 ||
    n == 0x1680 || (0x2000 <= n <= 0x200A) || n == 0x2028 || n == 0x2029 || n == 0x202F ||
    n == 0x205F || n == 0x3000 || n == 0xFEFF
  }

  /** `s` without its leading white space. */
  function TrimStart(s: string): (t: string)
    ensures |t| <= |s| && t == s[|s| - |t|..]
    ensures forall i :: 0 <= i < |s| - |t| ==> IsStrWhiteSpace(s[i])
    ensures t != [] ==> !IsStrWhiteSpace(t[0])
  {
    if s != [] && IsStrWhiteSpace(s[0]) then TrimStart(s[1..]) else s
  }

  /** The value of `c` as a digit of radix up to 36 (letters in either case), or 36 when it is none. */
  function DigitValue(c: char): (v: nat)
    ensures v <= 36
    ensures v < 10 <==> '0' <= c <= '9'
  {
    if '0' <= c <= '9' then c as int - '0' as int
    else if 'a' <= c <= 'z' then c as int - 'a' as int + 10
    else if 'A' <= c <= 'Z' then c as int - 'A' as int + 10
    else 36
  }

  /** The longest prefix of `s` made of digits of the radix. */
  function DigitPrefix(s: string, radix: nat): (d: string)
    ensures |d| <= |s| && d == s[..|d|]
    ensures forall i :: 0 <= i < |d| ==> DigitValue(d[i]) < radix
    ensures |d| < |s| ==> DigitValue(s[|d|]) >= radix
  {
    if s != [] && DigitValue(s[0]) < radix then [s[0]] + DigitPrefix(s[1..], radix) else []
  }

  /** The number a digit string denotes in the radix, most significant digit first. */
  function DigitsValue(d: string, radix: nat): nat
    decreases |d|
  {
    if d == [] then 0 else DigitsValue(d[..|d| - 1], radix) * radix + DigitValue(d[|d| - 1])
  }

  /** One optional sign: whether it was `-`, and the text after it. */
  function SplitSign(t: string): (r: (bool, string))
    ensures r.0 <==> t != [] && t[0] == '-'
    ensures r.1 == if t != [] && (t[0] == '-' || t[0] == '+') then t[1..] else t
  {
    if t != [] && (t[0] == '-' || t[0] == '+') then (t[0] == '-', t[1..]) else (false, t)
  }

  /** `u` starts with the `0x` or `0X` prefix that selects radix 16. */
  predicate HasHexPrefix(u: string) {
    |u| >= 2 && u[0] == '0' && (u[1] == 'x' || u[1] == 'X')
  }

  /** The unsigned number at the start of `u`, in radix 16 after a hex prefix and radix 10 otherwise. */
  function Magnitude(u: string): (m: Option<nat>)
    ensures m.None? <==> DigitPrefix(if HasHexPrefix(u) then u[2..] else u, if HasHexPrefix(u) then 16 else 10) == []
  {
    var radix := if HasHexPrefix(u) then 16 else 10;
    var digits := DigitPrefix(if HasHexPrefix(u) then u[2..] else u, radix);
    if digits == [] then None else Some(DigitsValue(digits, radix))
  }

  /**
   * `parseInt(s)`: skip leading white space, take one optional sign, read a
   * `0x`/`0X` prefix as radix 16 (else radix 10), then the longest run of digits;
   * no digits at all is NaN. Anything after the digits is ignored.
   */
  function ParseInt(s: string): (r: Option<int>)
    ensures r.None? <==> Magnitude(SplitSign(TrimStart(s)).1).None?
    ensures r.Some? ==> (r.value < 0 ==> SplitSign(TrimStart(s)).0)
  {
    ParseTrimmed(TrimStart(s))
  }

  /** `parseInt` on text that starts with no white space. */
  function ParseTrimmed(t: string): (r: Option<int>)
    ensures r.None? <==> Magnitude(SplitSign(t).1).None?
    ensures r.Some? ==> (r.value < 0 ==> SplitSign(t).0)
  {
    var split := SplitSign(t);
    match Magnitude(split.1)
    case None => None
    case Some(m) =>
      var magnitude: int := m;
      Some(if split.0 then -magnitude else magnitude)
  }

  /** The decimal digits of `n`, without leading zeros. */
  function Decimal(n: nat): (d: string)
    ensures |d| >= 1
    ensures forall i :: 0 <= i < |d| ==> '0' <= d[i] <= '9'
    ensures |d| == 1 ==> (d[0] == '0' <==> n == 0)
  {
    if n < 10 then [('0' as int + n) as char] else Decimal(n / 10) + [('0' as int + n % 10) as char]
  }

  /** `String(i)` for an integer-valued number, as an id appears in a delete URL. */
  function NumberToString(i: int): string {
    if i < 0 then "-" + Decimal(-i) else Decimal(i)
  }

  lemma {:induction false} DecimalValue(n: nat)
    ensures DigitsValue(Decimal(n), 10) == n
  {
    if n >= 10 {
      DecimalValue(n / 10);
      var d := Decimal(n);
      assert d[..|d| - 1] == Decimal(n / 10);
    }
  }

  lemma {:induction false} DigitPrefixOfDigits(d: string, rest: string, radix: nat)
    requires forall i :: 0 <= i < |d| ==> DigitValue(d[i]) < radix
    requires rest == [] || DigitValue(rest[0]) >= radix
    ensures DigitPrefix(d + rest, radix) == d
  {
    if d != [] {
      assert (d + rest)[1..] == d[1..] + rest;
      DigitPrefixOfDigits(d[1..], rest, radix);
    }
  }

  /** The digits of `n` followed by text that does not continue them read back as `n`. */
  lemma MagnitudeOfDecimal(n: nat, rest: string)
    requires rest == [] || (DigitValue(rest[0]) >= 10 && (n == 0 ==> rest[0] != 'x' && rest[0] != 'X'))
    ensures Magnitude(Decimal(n) + rest) == Some(n)
  {
    var d := Decimal(n);
    var u := d + rest;
    assert u[0] == d[0];
    assert !HasHexPrefix(u) by {
      if |d| >= 2 {
        assert u[1] == d[1];
      }
    }
    DigitPrefixOfDigits(d, rest, 10);
    DecimalValue(n);
  }

  /** Text that starts with a sign or a digit is parsed by its sign and its magnitude. */
  lemma ParseIntSigned(negative: bool, n: nat, u: string)
    requires u != [] && '0' <= u[0] <= '9'
    requires Magnitude(u) == Some(n)
    ensures ParseInt(if negative then "-" + u else u) == Some(if negative then -(n as int) else n)
  {
    var s := if negative then "-" + u else u;
    assert s[0] == (if negative then '-' else u[0]);
    assert !IsStrWhiteSpace(s[0]);
    assert TrimStart(s) == s;
    if negative {
      assert s[1..] == u;
    }
    assert SplitSign(s) == (negative, u);
    assert ParseTrimmed(s) == Some(if negative then -(n as int) else n);
    assert ParseInt(s) == ParseTrimmed(s);
  }

  /**
   * Parsing the string form of an id, followed by anything that does not
   * continue the number, gives the id back.
   */
  lemma ParseIntOfNumberString(i: int, rest: string)
    requires rest == [] || (DigitValue(rest[0]) >= 10 && (i == 0 ==> rest[0] != 'x' && rest[0] != 'X'))
    ensures ParseInt(NumberToString(i) + rest) == Some(i)
  {
    var n: nat := if i < 0 then -i else i;
    var u := Decimal(n) + rest;
    MagnitudeOfDecimal(n, rest);
    assert u[0] == Decimal(n)[0];
    if i < 0 {
      assert NumberToString(i) == "-" + Decimal(n);
      assert NumberToString(i) + rest == "-" + u;
      ParseIntSigned(true, n, u);
      assert -(n as int) == i;
    } else {
      assert NumberToString(i) + rest == u;
      ParseIntSigned(false, n, u);
    }
  }

  /** A string with no decimal digit in it parses to NaN. */
  lemma ParseIntWithoutDigits(s: string)
    requires forall i :: 0 <= i < |s| ==> !('0' <= s[i] <= '9')
    ensures ParseInt(s) == None
  {
    var u := SplitSign(TrimStart(s)).1;
    assert forall i :: 0 <= i < |u| ==> u[i] == s[|s| - |u| + i];
    assert !HasHexPrefix(u);
  }

  /** Text after the digits is ignored: `/delete/12abc` targets id 12. */
  lemma ParseIntIgnoresTrailingText()
    ensures ParseInt("12abc") == Some(12)
  {
    assert Decimal(1) == "1";
    assert Decimal(12) == "1" + "2";
    assert NumberToString(12) + "abc" == "12abc";
    ParseIntOfNumberString(12, "abc");
  }

  /** A `0x` prefix switches to radix 16: `/delete/0x1A` targets id 26. */
  lemma ParseIntReadsHexPrefix()
    ensures ParseInt("0x1A") == Some(26)
  {
    var u := "0x1A";
    assert HasHexPrefix(u);
    var digits := u[2..];
    assert digits == "1A";
    assert DigitPrefix(digits, 16) == digits by {
      DigitPrefixOfDigits(digits, [], 16);
      assert digits + [] == digits;
    }
    assert DigitsValue(digits, 16) == 26 by {
      assert digits[..1] == "1" && "1"[..0] == "";
      assert DigitValue('1') == 1 && DigitValue('A') == 10;
      assert DigitsValue("1", 16) == 1;
    }
    assert Magnitude(u) == Some(26);
    ParseIntSigned(false, 26, u);
  }
}
