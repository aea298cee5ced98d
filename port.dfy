// TCP port validation of dnc: dnc_port_parse and the strtol(3) conversion it
// is built on (base 10, C locale, LP64 target where `long` has 64 bits).

module Port {

  const LONG_MIN: int := -0x8000_0000_0000_0000
  const LONG_MAX: int := 0x7FFF_FFFF_FFFF_FFFF
  /** (unsigned long) of a negative long adds ULONG_MAX + 1. */
  const ULONG_MODULUS: int := 0x1_0000_0000_0000_0000
  const UINT16_MAX: int := 0xFFFF

  type uint16 = x: int | 0 <= x <= 0xFFFF

  /** The character at index i of a C string: past the end of s sits the terminating NUL. */
  function CharAt(s: string, i: nat): char
  {
    if i < |s| then s[i] else '\0'
  }

  /** isspace() in the C locale. */
  predicate IsSpace(c: char)
  {
    c == ' ' || c == '\t' || c == '\n' || c == '\U{B}' || c == '\U{C}' || c == '\r'
  }

  predicate IsDigit(c: char)
  {
    '0' <= c <= '9'
  }

  predicate AllSpaces(s: string)
  {
    forall k :: 0 <= k < |s| ==> IsSpace(s[k])
  }

  predicate AllDigits(s: string)
  {
    forall k :: 0 <= k < |s| ==> IsDigit(s[k])
  }

  /** A C string has no NUL before its terminator. */
  predicate NoNul(s: string)
  {
    forall k :: 0 <= k < |s| ==> s[k] != '\0'
  }

  /** The index of the first character at or after i that is not white space. */
  function SkipSpaces(s: string, i: nat): (j: nat)
    requires i <= |s|
    decreases |s| - i
    ensures i <= j <= |s|
    ensures forall k :: i <= k < j ==> IsSpace(s[k])
    ensures !IsSpace(CharAt(s, j))
  {
    if IsSpace(CharAt(s, i)) then SkipSpaces(s, i + 1) else i
  }

  /** The index just past the run of decimal digits that starts at i. */
  function DigitsEnd(s: string, i: nat): (j: nat)
    requires i <= |s|
    decreases |s| - i
    ensures i <= j <= |s|
    ensures forall k :: i <= k < j ==> IsDigit(s[k])
    ensures !IsDigit(CharAt(s, j))
  {
    if IsDigit(CharAt(s, i)) then DigitsEnd(s, i + 1) else i
  }

  function DigitValue(c: char): nat
    requires IsDigit(c)
  {
    c as int - '0' as int
  }

  /** The number a run of decimal digits denotes, most significant digit first. */
  function DecimalValue(ds: string): nat
    requires AllDigits(ds)
  {
    if ds == [] then 0
    else DecimalValue(ds[..|ds| - 1]) * 10 + DigitValue(ds[|ds| - 1])
  }

  /** strtol saturates at the bounds of `long` when the value does not fit. */
  function Clamp(v: int): (r: int)
    ensures LONG_MIN <= r <= LONG_MAX
    ensures LONG_MIN <= v <= LONG_MAX ==> r == v
    ensures v < LONG_MIN ==> r == LONG_MIN
    ensures v > LONG_MAX ==> r == LONG_MAX
  {
    if v < LONG_MIN then LONG_MIN else if v > LONG_MAX then LONG_MAX else v
  }

  /** The value of a digit run under an optional sign "+" or "-". */
  function Signed(sign: string, m: nat): int
  {
    if sign == "-" then -(m as int) else m
  }

  predicate IsSign(sign: string)
  {
    sign == "" || sign == "+" || sign == "-"
  }

  /** What strtol(s, &end, 10) returns and where it leaves `end`. */
  datatype Conversion = Conversion(value: int, end: nat)

  /** The index just past an optional sign character at i. */
  function SignEnd(s: string, i: nat): (j: nat)
    requires i <= |s|
    ensures i <= j <= |s| && IsSign(s[i..j])
  {
    if CharAt(s, i) == '+' || CharAt(s, i) == '-' then
      assert s[i..i + 1] == [s[i]];
      i + 1
    else i
  }

  /**
   * strtol(s, &end, 10): skip white space, take an optional sign, then the
   * longest run of digits. Without digits the result is 0 and `end` is the
   * start of the string.
   */
  function StrToL(s: string): (c: Conversion)
    ensures LONG_MIN <= c.value <= LONG_MAX
    ensures c.end <= |s|
    ensures c.end == 0 ==> c.value == 0
    ensures c.end > 0 ==> IsDigit(s[c.end - 1]) && !IsDigit(CharAt(s, c.end))
  {
    var i := SkipSpaces(s, 0);
    var j := SignEnd(s, i);
    var e := DigitsEnd(s, j);
    if e == j then Conversion(0, 0)
    else Conversion(Clamp(Signed(s[i..j], DecimalValue(s[j..e]))), e)
  }

  /** The C conversion of a `long` to `unsigned long`. */
  function ULong(v: int): (u: int)
    requires LONG_MIN <= v <= LONG_MAX
    ensures 0 <= u < ULONG_MODULUS
    ensures v < 0 ==> u > LONG_MAX
  {
    if v < 0 then v + ULONG_MODULUS else v
  }

  /** The return value of dnc_port_parse and the contents of *portp afterwards. */
  datatype PortOut = PortOut(rc: int, port: uint16)

  /**
   * dnc_port_parse(s, portp): converts s with strtol, and fails unless the
   * conversion stopped at the terminating NUL and the value, read as an
   * unsigned long, is at most UINT16_MAX. On failure *portp is not written.
   */
  function PortParse(s: string, port: uint16): (r: PortOut)
    ensures r.rc == 0 || r.rc == -1
    ensures r.rc == -1 ==> r.port == port
    ensures r.rc == 0 <==> CharAt(s, StrToL(s).end) == '\0' && 0 <= StrToL(s).value <= UINT16_MAX
    ensures r.rc == 0 ==> r.port == StrToL(s).value
  {
    var c := StrToL(s);
    if CharAt(s, c.end) != '\0' || ULong(c.value) > UINT16_MAX then PortOut(-1, port)
    else PortOut(0, c.value)
  }

  // ---------------------------------------------------------------------
  // strtol on a string of the shape  spaces, sign, digits, rest

  lemma {:induction false} SkipSpacesOver(w: string, t: string, i: nat)
    requires i <= |w| && AllSpaces(w)
    requires t == [] || !IsSpace(t[0])
    ensures SkipSpaces(w + t, i) == |w|
    decreases |w| - i
  {
    var s := w + t;
    if i < |w| {
      assert CharAt(s, i) == w[i];
      SkipSpacesOver(w, t, i + 1);
    } else if t != [] {
      assert CharAt(s, i) == t[0];
    }
  }

  lemma {:induction false} DigitsEndOver(p: string, d: string, t: string, i: nat)
    requires |p| <= i <= |p| + |d| && AllDigits(d)
    requires t == [] || !IsDigit(t[0])
    ensures DigitsEnd(p + d + t, i) == |p| + |d|
    decreases |p| + |d| - i
  {
    var s := p + d + t;
    if i < |p| + |d| {
      assert CharAt(s, i) == d[i - |p|];
      DigitsEndOver(p, d, t, i + 1);
    } else if t != [] {
      assert CharAt(s, i) == t[0];
    }
  }

  /** Where the white space ends in  spaces, sign, digits, rest. */
  lemma SpacesEndAt(w: string, sign: string, d: string, rest: string)
    requires AllSpaces(w) && IsSign(sign) && d != [] && AllDigits(d)
    ensures SkipSpaces(w + sign + d + rest, 0) == |w|
    ensures CharAt(w + sign + d + rest, |w|) == if sign == "" then d[0] else sign[0]
  {
    var t := sign + d + rest;
    assert w + sign + d + rest == w + t;
    assert t[0] == if sign == "" then d[0] else sign[0];
    SkipSpacesOver(w, t, 0);
  }

  /** Where the digit run ends in  spaces, sign, digits, rest. */
  lemma DigitsEndAt(w: string, sign: string, d: string, rest: string)
    requires AllDigits(d)
    requires rest == [] || !IsDigit(rest[0])
    ensures DigitsEnd(w + sign + d + rest, |w| + |sign|) == |w| + |sign| + |d|
    ensures (w + sign + d + rest)[|w| + |sign|..|w| + |sign| + |d|] == d
  {
    DigitsEndOver(w + sign, d, rest, |w| + |sign|);
  }

  /** Where the sign ends in  spaces, sign, digits, rest. */
  lemma SignEndAt(w: string, sign: string, d: string, rest: string)
    requires IsSign(sign) && d != [] && AllDigits(d)
    requires CharAt(w + sign + d + rest, |w|) == if sign == "" then d[0] else sign[0]
    ensures SignEnd(w + sign + d + rest, |w|) == |w| + |sign|
    ensures (w + sign + d + rest)[|w|..|w| + |sign|] == sign
  {
    var s := w + sign + d + rest;
    if sign != "" {
      assert s[|w|..|w| + 1] == [s[|w|]];
    }
  }

  /** strtol reads exactly the digits after the white space and the sign. */
  lemma StrToLShape(w: string, sign: string, d: string, rest: string)
    requires AllSpaces(w) && IsSign(sign) && AllDigits(d) && d != []
    requires rest == [] || !IsDigit(rest[0])
    ensures StrToL(w + sign + d + rest) == Conversion(Clamp(Signed(sign, DecimalValue(d))), |w| + |sign| + |d|)
  {
    var s := w + sign + d + rest;
    SpacesEndAt(w, sign, d, rest);
    SignEndAt(w, sign, d, rest);
    DigitsEndAt(w, sign, d, rest);
    var i, j, e := |w|, |w| + |sign|, |w| + |sign| + |d|;
    assert SkipSpaces(s, 0) == i && SignEnd(s, i) == j && DigitsEnd(s, j) == e;
    assert s[i..j] == sign && s[j..e] == d;
  }

  /** Past the white space and sign there is no digit: strtol converts nothing. */
  lemma StrToLNoDigits(w: string, sign: string, rest: string)
    requires AllSpaces(w) && IsSign(sign)
    requires rest == [] || (!IsDigit(rest[0]) && (sign == "" ==> !IsSpace(rest[0]) && rest[0] != '+' && rest[0] != '-'))
    ensures StrToL(w + sign + rest) == Conversion(0, 0)
  {
    var s := w + sign + rest;
    assert s == w + (sign + rest);
    SkipSpacesOver(w, sign + rest, 0);
    var j := |w| + |sign|;
    assert CharAt(s, j) == if rest == [] then '\0' else rest[0];
  }

  // ---------------------------------------------------------------------
  // dnc_port_parse: which texts it accepts, and with which value

  /** The empty string converts to 0 with nothing consumed, which is the terminator: accepted as port 0. */
  lemma EmptyIsPortZero(port: uint16)
    ensures PortParse("", port) == PortOut(0, 0)
  {
    StrToLNoDigits("", "", "");
  }

  /** Optional white space, an optional sign and a digit run whose signed value lies in 0..65535 is accepted with that value. */
  lemma PortParseAccepts(w: string, sign: string, d: string, port: uint16)
    requires AllSpaces(w) && IsSign(sign) && AllDigits(d) && d != []
    requires 0 <= Signed(sign, DecimalValue(d)) <= UINT16_MAX
    ensures PortParse(w + sign + d, port) == PortOut(0, Signed(sign, DecimalValue(d)))
  {
    StrToLShape(w, sign, d, "");
    assert w + sign + d + "" == w + sign + d;
  }

  /** The same shape with a signed value outside 0..65535 ("-1", "65536", 20 nines) is rejected and *portp kept. */
  lemma PortParseRejectsRange(w: string, sign: string, d: string, port: uint16)
    requires AllSpaces(w) && IsSign(sign) && AllDigits(d) && d != []
    requires Signed(sign, DecimalValue(d)) < 0 || Signed(sign, DecimalValue(d)) > UINT16_MAX
    ensures PortParse(w + sign + d, port) == PortOut(-1, port)
  {
    StrToLShape(w, sign, d, "");
    assert w + sign + d + "" == w + sign + d;
  }

  /** Any character other than NUL left after the digits ("80x", "80 ") makes the parse fail. */
  lemma PortParseRejectsTrailing(w: string, sign: string, d: string, rest: string, port: uint16)
    requires AllSpaces(w) && IsSign(sign) && AllDigits(d) && d != []
    requires rest != [] && !IsDigit(rest[0]) && rest[0] != '\0'
    ensures PortParse(w + sign + d + rest, port) == PortOut(-1, port)
  {
    StrToLShape(w, sign, d, rest);
    var s := w + sign + d + rest;
    assert CharAt(s, |w| + |sign| + |d|) == rest[0];
  }

  /** A non-empty string without a digit after the white space and sign (" ", "+", "x1") is rejected. */
  lemma PortParseRejectsNoDigits(w: string, sign: string, rest: string, port: uint16)
    requires AllSpaces(w) && IsSign(sign) && NoNul(w + sign + rest) && w + sign + rest != []
    requires rest == [] || (!IsDigit(rest[0]) && (sign == "" ==> !IsSpace(rest[0]) && rest[0] != '+' && rest[0] != '-'))
    ensures PortParse(w + sign + rest, port) == PortOut(-1, port)
  {
    StrToLNoDigits(w, sign, rest);
    assert CharAt(w + sign + rest, 0) == (w + sign + rest)[0];
  }

  /**
   * Conversely, every accepted non-empty C string has the shape white space,
   * sign, digits and nothing else, and the port stored is its signed value.
   */
  lemma PortParseSound(s: string, port: uint16) returns (w: string, sign: string, d: string)
    requires NoNul(s) && s != []
    requires PortParse(s, port).rc == 0
    ensures s == w + sign + d
    ensures AllSpaces(w) && IsSign(sign) && AllDigits(d) && d != []
    ensures PortParse(s, port).port == Signed(sign, DecimalValue(d))
  {
    var i := SkipSpaces(s, 0);
    var j := SignEnd(s, i);
    var e := DigitsEnd(s, j);
    assert j < e == |s|;
    w, sign, d := s[..i], s[i..j], s[j..e];
    assert s == s[..j] + s[j..] && s[..j] == s[..i] + s[i..j];
  }

  // ---------------------------------------------------------------------
  // Round trip with the canonical decimal rendering

  function DigitChar(v: nat): (c: char)
    requires v < 10
    ensures IsDigit(c) && DigitValue(c) == v
  {
    ('0' as int + v) as char
  }

  /** The decimal rendering of n, without sign or leading zeros. */
  function Decimal(n: nat): (s: string)
    ensures AllDigits(s) && s != []
  {
    if n < 10 then [DigitChar(n)] else Decimal(n / 10) + [DigitChar(n % 10)]
  }

  lemma {:induction false} DecimalValueOfDecimal(n: nat)
    ensures DecimalValue(Decimal(n)) == n
  {
    var s := Decimal(n);
    if n >= 10 {
      DecimalValueOfDecimal(n / 10);
      assert s[..|s| - 1] == Decimal(n / 10);
    } else {
      assert s[..|s| - 1] == [];
    }
  }

  /** Every port number written in decimal parses back to itself; larger numbers are rejected. */
  lemma PortRoundTrip(n: nat, port: uint16)
    ensures n <= UINT16_MAX ==> PortParse(Decimal(n), port) == PortOut(0, n)
    ensures n > UINT16_MAX ==> PortParse(Decimal(n), port) == PortOut(-1, port)
  {
    DecimalValueOfDecimal(n);
    assert "" + "" + Decimal(n) == Decimal(n);
    if n <= UINT16_MAX {
      PortParseAccepts("", "", Decimal(n), port);
    } else {
      PortParseRejectsRange("", "", Decimal(n), port);
    }
  }

  /** A sign followed by white space ("+ 80") converts nothing and is rejected. */
  lemma SignThenSpaceRejected(port: uint16)
    ensures StrToL("+ 80") == Conversion(0, 0)
    ensures PortParse("+ 80", port) == PortOut(-1, port)
  {
    assert "" + "+" + " 80" == "+ 80";
    StrToLNoDigits("", "+", " 80");
    PortParseRejectsNoDigits("", "+", " 80", port);
  }

  /** "-0" is accepted as port 0, while "-1" wraps to a huge unsigned value and is rejected. */
  lemma NegativeZeroAndMinusOne(port: uint16)
    ensures PortParse("-0", port) == PortOut(0, 0)
    ensures PortParse("-1", port) == PortOut(-1, port)
  {
    assert "" + "-" + "0" == "-0";
    assert "" + "-" + "1" == "-1";
    assert DecimalValue("0") == 0 by { assert "0"[..0] == ""; }
    assert DecimalValue("1") == 1 by { assert "1"[..0] == ""; }
    PortParseAccepts("", "-", "0", port);
    PortParseRejectsRange("", "-", "1", port);
  }
}
