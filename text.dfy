/** Characters and strings as the configuration reader sees them: the C locale's
    character classes, `tolower`, and the `std::stoi` conversion of setting values. */
module Text {
  import opened InputCodes

  datatype Option<+T> = None | Some(value: T)

  /** `std::isspace` in the C locale, which is also what `\s` matches in `std::regex`. */
  predicate IsSpace(c: char)
  {
    c == ' ' || c == '\t' || c == '\n' || c == '\U{0B}' || c == '\U{0C}' || c == '\r'
  }

  predicate IsDigit(c: char)
  {
    '0' <= c <= '9'
  }

  predicate IsUpper(c: char)
  {
    'A' <= c <= 'Z'
  }

  /** `\w` of the ECMAScript regular expression grammar. */
  predicate IsWordChar(c: char)
  {
    'a' <= c <= 'z' || IsUpper(c) || IsDigit(c) || c == '_'
  }

  /** The characters `[\w.]` allowed in a setting name. */
  predicate IsKeyChar(c: char)
  {
    IsWordChar(c) || c == '.'
  }

  /** The characters that the ECMAScript `.` does not match. */
  predicate IsLineTerminator(c: char)
  {
    c == '\n' || c == '\r'
  }

  predicate NoLineTerminator(s: string)
  {
    forall i :: 0 <= i < |s| ==> !IsLineTerminator(s[i])
  }

  /** `tolower` in the C locale. */
  function Lower(c: char): (r: char)
    ensures !IsUpper(r)
    ensures IsUpper(c) ==> r as int == c as int + 32
    ensures !IsUpper(c) ==> r == c
  {
    if IsUpper(c) then (c as int + 32) as char else c
  }

  /** `std::transform(s.begin(), s.end(), s.begin(), tolower)`. */
  function LowerStr(s: string): (r: string)
    ensures |r| == |s|
    ensures forall i :: 0 <= i < |s| ==> r[i] == Lower(s[i])
  {
    if s == [] then [] else [Lower(s[0])] + LowerStr(s[1..])
  }

  /** Lowering a string twice is lowering it once, so case-insensitive lookups
      may lowercase their input again without changing the outcome. */
  lemma LowerStrIdempotent(s: string)
    ensures LowerStr(LowerStr(s)) == LowerStr(s)
  {
    var once := LowerStr(s);
    assert forall i :: 0 <= i < |once| ==> LowerStr(once)[i] == once[i];
  }

  /** Length of the longest prefix of `s` whose characters all satisfy `p`. */
  function Span(s: string, p: char -> bool): (n: nat)
    ensures n <= |s|
    ensures forall i :: 0 <= i < n ==> p(s[i])
    ensures n < |s| ==> !p(s[n])
  {
    if s == [] || !p(s[0]) then 0 else 1 + Span(s[1..], p)
  }

  /** A run of `p` characters followed by a character outside `p` is spanned exactly. */
  lemma {:induction false} SpanOfConcat(a: string, b: string, p: char -> bool)
    requires forall i :: 0 <= i < |a| ==> p(a[i])
    requires b != [] ==> !p(b[0])
    ensures Span(a + b, p) == |a|
  {
    if a != [] {
      assert (a + b)[1..] == a[1..] + b;
      SpanOfConcat(a[1..], b, p);
    }
  }

  // ---------------------------------------------------------------------------
  // std::stoi
  // ---------------------------------------------------------------------------

  function DigitValue(c: char): nat
    requires IsDigit(c)
  {
    c as int - '0' as int
  }

  /** Value of a string of decimal digits, read most significant digit first. */
  function DigitsValue(d: string): nat
    requires forall i :: 0 <= i < |d| ==> IsDigit(d[i])
  {
    if d == [] then 0 else DigitsValue(d[..|d| - 1]) * 10 + DigitValue(d[|d| - 1])
  }

  predicate HasDigit(s: string)
  {
    exists i :: 0 <= i < |s| && IsDigit(s[i])
  }

  /** `std::stoi(s)` in base 10: it skips leading white space, accepts one optional
      sign and then the longest run of digits, and ignores whatever follows. It throws
      (result `None`) when there is no digit or when the number does not fit an `int`. */
  function Stoi(s: string): (r: Option<i32>)
    ensures !HasDigit(s) ==> r.None?
  {
    ReadSigned(s[Span(s, IsSpace)..])
  }

  /** The text after the leading white space: one optional sign, then the digits. */
  function ReadSigned(t: string): (r: Option<i32>)
    ensures !HasDigit(t) ==> r.None?
  {
    var signed := |t| > 0 && (t[0] == '-' || t[0] == '+');
    ReadDigits(signed && t[0] == '-', if signed then t[1..] else t)
  }

  /** The longest run of digits at the start of `u`, negated when a minus sign
      preceded it; `None` when there is no digit or the value does not fit an `int`. */
  function ReadDigits(negative: bool, u: string): (r: Option<i32>)
    ensures !HasDigit(u) ==> r.None?
  {
    var n := Span(u, IsDigit);
    if n == 0 then None
    else
      var magnitude := DigitsValue(u[..n]);
      var v: int := if negative then -(magnitude as int) else magnitude;
      if -0x8000_0000 <= v < 0x8000_0000 then Some(v) else None
  }

  function DigitChar(d: nat): (c: char)
    requires d < 10
    ensures IsDigit(c) && DigitValue(c) == d
  {
    ('0' as int + d) as char
  }

  /** Decimal spelling of a natural number, without leading zeros. */
  function NatToString(n: nat): (s: string)
    ensures |s| > 0
    ensures forall i :: 0 <= i < |s| ==> IsDigit(s[i])
  {
    if n < 10 then [DigitChar(n)] else NatToString(n / 10) + [DigitChar(n % 10)]
  }

  /** Decimal spelling of an integer, with a leading '-' when it is negative. */
  function IntToString(n: int): string
  {
    if n < 0 then "-" + NatToString(-n) else NatToString(n)
  }

  lemma {:induction false} DigitsValueOfNatToString(n: nat)
    ensures DigitsValue(NatToString(n)) == n
  {
    var s := NatToString(n);
    if n >= 10 {
      assert s[..|s| - 1] == NatToString(n / 10);
      DigitsValueOfNatToString(n / 10);
    }
  }

  /** `std::stoi` reads back every `int` written in decimal. */
  lemma StoiIntToString(n: i32)
    ensures Stoi(IntToString(n)) == Some(n)
  {
    var m: nat := if n < 0 then -(n as int) else n;
    var digits := NatToString(m);
    var s := IntToString(n);
    assert s[0] == '-' || IsDigit(s[0]);
    assert Span(s, IsSpace) == 0;
    assert s[0..] == s;
    var u := if n < 0 then s[1..] else s;
    assert u == digits;
    SpanOfConcat(digits, [], IsDigit);
    assert digits + [] == digits;
    assert u[..|digits|] == digits;
    DigitsValueOfNatToString(m);
  }

  /** Leading white space is skipped and trailing text after the number is ignored. */
  lemma StoiReadsLeadingNumber()
    ensures Stoi(" 42") == Some(42)
    ensures Stoi("-7px") == Some(-7)
  {
    StoiSkipsLeadingSpace();
    StoiIgnoresTrailingText();
  }

  lemma StoiSkipsLeadingSpace()
    ensures Stoi(" 42") == Some(42)
  {
    assert DigitsValue("42") == 42 by {
      assert "42"[..1] == "4";
      assert "4"[..0] == "";
    }
    StoiReadsNumber(" ", "", "42", "");
    assert " " + ("" + ("42" + "")) == " 42";
  }

  lemma StoiIgnoresTrailingText()
    ensures Stoi("-7px") == Some(-7)
  {
    assert DigitsValue("7") == 7 by { assert "7"[..0] == ""; }
    StoiReadsNumber("", "-", "7", "px");
    assert "" + ("-" + ("7" + "px")) == "-7px";
  }

  /**
    * What `std::stoi` reads in general: white space, an optional sign, a
    * run of digits and any text that does not continue the run. The number
    * is returned when it fits in `int`; otherwise the call throws.
    */
  lemma StoiReadsNumber(ws: string, sign: string, digits: string, rest: string)
    requires forall i :: 0 <= i < |ws| ==> IsSpace(ws[i])
    requires sign == "" || sign == "+" || sign == "-"
    requires digits != [] && forall i :: 0 <= i < |digits| ==> IsDigit(digits[i])
    requires rest != [] ==> !IsDigit(rest[0])
    ensures var v := if sign == "-" then -(DigitsValue(digits) as int) else DigitsValue(digits);
      Stoi(ws + (sign + (digits + rest))) == if -0x8000_0000 <= v < 0x8000_0000 then Some(v) else None
  {
    ReadDigitsOfRun(sign == "-", digits, rest);
    ReadSignedOf(sign, digits, rest);
    StoiSkipsSpace(ws, sign, digits, rest);
  }

  /** Leading white space is skipped up to the sign or the first digit. */
  lemma StoiSkipsSpace(ws: string, sign: string, digits: string, rest: string)
    requires forall i :: 0 <= i < |ws| ==> IsSpace(ws[i])
    requires sign == "" || sign == "+" || sign == "-"
    requires digits != [] && IsDigit(digits[0])
    ensures Stoi(ws + (sign + (digits + rest))) == ReadSigned(sign + (digits + rest))
  {
    var t := sign + (digits + rest);
    assert t[0] == (if sign == "" then digits[0] else sign[0]);
    SpanOfConcat(ws, t, IsSpace);
    assert (ws + t)[|ws|..] == t;
  }

  /** A sign is consumed and remembered; without one the number is not negated. */
  lemma ReadSignedOf(sign: string, digits: string, rest: string)
    requires sign == "" || sign == "+" || sign == "-"
    requires digits != [] && IsDigit(digits[0])
    ensures ReadSigned(sign + (digits + rest)) == ReadDigits(sign == "-", digits + rest)
  {
    var number := digits + rest;
    var t := sign + number;
    assert t[0] == (if sign == "" then digits[0] else sign[0]);
    var signed := |t| > 0 && (t[0] == '-' || t[0] == '+');
    assert signed == (sign != "");
    assert (if signed then t[1..] else t) == number;
  }

  /** The run of digits ends where `rest` begins. */
  lemma ReadDigitsOfRun(negative: bool, digits: string, rest: string)
    requires digits != [] && forall i :: 0 <= i < |digits| ==> IsDigit(digits[i])
    requires rest != [] ==> !IsDigit(rest[0])
    ensures var v := if negative then -(DigitsValue(digits) as int) else DigitsValue(digits);
      ReadDigits(negative, digits + rest) == if -0x8000_0000 <= v < 0x8000_0000 then Some(v) else None
  {
    var u := digits + rest;
    SpanOfConcat(digits, rest, IsDigit);
    assert u[..|digits|] == digits;
    var magnitude := DigitsValue(u[..Span(u, IsDigit)]);
    assert magnitude == DigitsValue(digits);
  }

  /** A value without digits, or one outside the range of `int`, makes `std::stoi` throw. */
  lemma StoiThrows()
    ensures Stoi("fast") == None
    ensures Stoi(IntToString(0x8000_0000)) == None
  {
    assert !HasDigit("fast");
    var big := IntToString(0x8000_0000);
    assert big == NatToString(0x8000_0000);
    DigitsValueOfNatToString(0x8000_0000);
    StoiReadsNumber("", "", big, "");
    assert "" + ("" + (big + "")) == big;
  }

}
