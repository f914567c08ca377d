/**
 * Decimal integers as the Java client reads and writes them:
 * `Integer.toString` (what string concatenation prints for an `int`) and
 * `Integer.parseInt` (which rejects anything but an optional sign followed by
 * digits, and anything outside the 32-bit range).
 */
module Numbers {
  import opened Wrappers

  /** Java's `int`. */
  type Int32 = x: int | -0x8000_0000 <= x < 0x8000_0000

  predicate IsDigit(c: char) { '0' <= c <= '9' }

  predicate AllDigits(s: string) { forall i :: 0 <= i < |s| ==> IsDigit(s[i]) }

  function DigitChar(d: nat): (c: char)
    requires d < 10
    ensures IsDigit(c) && c as int - '0' as int == d
  {
    ('0' as int + d) as char
  }

  /** The value of a string of decimal digits, most significant first. */
  function DigitsValue(s: string): nat
    requires AllDigits(s)
    decreases |s|
  {
    if s == [] then 0
    else DigitsValue(s[..|s| - 1]) * 10 + (s[|s| - 1] as int - '0' as int)
  }

  /** The decimal digits of `n`, without leading zeros. */
  function NatToDigits(n: nat): (s: string)
    decreases n
  {
    if n < 10 then [DigitChar(n)] else NatToDigits(n / 10) + [DigitChar(n % 10)]
  }

  /** `Integer.toString(n)`: a minus sign for negatives, never a plus sign. */
  function IntToString(n: int): (s: string)
  {
    if n < 0 then "-" + NatToDigits(-n) else NatToDigits(n)
  }

  /**
   * An optional sign followed by at least one digit, with no bound on the
   * value. This is the part of Java's number syntax the model accepts for the
   * protocol's float fields.
   */
  function ParseSigned(s: string): (r: Option<int>)
    ensures r.Some? ==> |s| > 0
  {
    if |s| > 0 && (s[0] == '-' || s[0] == '+') then
      var body := s[1..];
      if |body| > 0 && AllDigits(body) then
        var magnitude: int := DigitsValue(body);
        Some(if s[0] == '-' then -magnitude else magnitude)
      else None
    else if |s| > 0 && AllDigits(s) then Some(DigitsValue(s))
    else None
  }

  /** `Integer.parseInt(s)`: `None` where Java throws NumberFormatException. */
  function ParseInt(s: string): (r: Option<Int32>)
    ensures r.Some? ==> ParseSigned(s) == Some(r.value as int)
    ensures ParseSigned(s).Some? && -0x8000_0000 <= ParseSigned(s).value < 0x8000_0000 ==> r.Some?
  {
    match ParseSigned(s)
    case Some(v) => if -0x8000_0000 <= v < 0x8000_0000 then Some(v) else None
    case None => None
  }

  /**
   * Java's decimal syntax, character by character: a digit or a sign with at
   * least one character after it, and only digits after the first character.
   */
  predicate SignedDigits(s: string)
  {
    && |s| > 0
    && (IsDigit(s[0]) || ((s[0] == '-' || s[0] == '+') && |s| > 1))
    && forall i :: 1 <= i < |s| ==> IsDigit(s[i])
  }

  /** The reader accepts exactly the texts of that syntax. */
  lemma ParseSignedSyntax(s: string)
    ensures ParseSigned(s).Some? <==> SignedDigits(s)
  {
  }

  /** A sign and a run of digits read as the digits' value, negated by a minus. */
  lemma ParseSignedValue(sign: string, digits: string)
    requires sign == "" || sign == "-" || sign == "+"
    requires |digits| > 0 && AllDigits(digits)
    ensures ParseSigned(sign + digits) == Some(if sign == "-" then -(DigitsValue(digits) as int) else DigitsValue(digits))
  {
    if sign == "" {
      assert sign + digits == digits;
      assert IsDigit(digits[0]);
    } else {
      assert (sign + digits)[1..] == digits;
    }
  }

  /** Texts Java refuses as malformed: a decimal point, a trailing letter, nothing, a bare sign. */
  lemma ParseIntRefuses()
    ensures ParseInt("1.5") == None && ParseInt("1a") == None
    ensures ParseInt("") == None && ParseInt("-") == None
  {
  }

  /** One past `Integer.MAX_VALUE` is well formed but refused. */
  lemma ParseIntRefusesOverflow()
    ensures ParseInt("2147483648") == None
  {
    ParseSignedValue("", "2147483648");
    OverflowDigits();
  }

  /** The digits of 2^31 have that value, one digit at a time. */
  lemma OverflowDigits()
    ensures DigitsValue("2147483648") == 2147483648
  {
    assert DigitsValue("21474") == 21474 by {
      assert DigitsValue("21") == 21 by { assert "21"[..1] == "2"; }
      assert DigitsValue("214") == 214 by { assert "214"[..2] == "21"; }
      assert DigitsValue("2147") == 2147 by { assert "2147"[..3] == "214"; }
      assert DigitsValue("21474") == 21474 by { assert "21474"[..4] == "2147"; }
    }
    assert DigitsValue("214748") == 214748 by { assert "214748"[..5] == "21474"; }
    assert DigitsValue("2147483") == 2147483 by { assert "2147483"[..6] == "214748"; }
    assert DigitsValue("21474836") == 21474836 by { assert "21474836"[..7] == "2147483"; }
    assert DigitsValue("214748364") == 214748364 by { assert "214748364"[..8] == "21474836"; }
    assert DigitsValue("2147483648") == 2147483648 by { assert "2147483648"[..9] == "214748364"; }
  }

  /** The printed digits read back as the number they were printed from. */
  lemma {:induction false} DigitsRoundTrip(n: nat)
    ensures |NatToDigits(n)| > 0 && AllDigits(NatToDigits(n))
    ensures DigitsValue(NatToDigits(n)) == n
  {
    if n >= 10 {
      DigitsRoundTrip(n / 10);
      var s := NatToDigits(n);
      var d := DigitChar(n % 10);
      assert s == NatToDigits(n / 10) + [d];
      assert s[..|s| - 1] == NatToDigits(n / 10);
    }
  }

  /** A printed integer holds only digits and a leading minus sign. */
  lemma IntToStringChars(n: int)
    ensures |IntToString(n)| > 0
    ensures forall c :: c in IntToString(n) ==> c == '-' || IsDigit(c)
    ensures ';' !in IntToString(n)
  {
    DigitsRoundTrip(if n < 0 then -n else n);
    var s := IntToString(n);
    forall c | c in s ensures c == '-' || IsDigit(c) {
      var i :| 0 <= i < |s| && s[i] == c;
    }
  }

  /** Both Java parsers read back what `Integer.toString` printed. */
  lemma {:induction false} ParseSignedRoundTrip(n: int)
    ensures ParseSigned(IntToString(n)) == Some(n)
  {
    var m := if n < 0 then -n else n;
    DigitsRoundTrip(m);
    var d := NatToDigits(m);
    if n < 0 {
      assert IntToString(n)[1..] == d;
    } else {
      assert IsDigit(d[0]);
    }
  }

  lemma ParseIntRoundTrip(n: Int32)
    ensures ParseInt(IntToString(n)) == Some(n)
  {
    ParseSignedRoundTrip(n);
  }
}
