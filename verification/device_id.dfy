/** `parseDeviceID`: the `device_id` query string read with `fmt.Sscanf(s, "%d", &id)`
    into a zero-initialised 64-bit `int`. Any scan error leaves `id` at 0, and
    whatever follows the number is ignored. */
module DeviceId {
  import opened Wrappers

  const MinInt: int := -0x8000_0000_0000_0000
  const MaxInt: int := 0x7fff_ffff_ffff_ffff

  predicate IsDigit(ch: char)
  {
    '0' <= ch <= '9'
  }

  predicate AllDigits(s: string)
  {
    forall i :: 0 <= i < |s| ==> IsDigit(s[i])
  }

  /** The white space the Go scanner skips before a number. */
  predicate IsSpace(ch: char)
  {
    || ('\t' <= ch <= '\r')
    || ch == ' '
    || ch == '\U{0085}'
    || ch == '\U{00A0}'
    || ch == '\U{1680}'
    || ('\U{2000}' <= ch <= '\U{200A}')
    || ch == '\U{2028}'
    || ch == '\U{2029}'
    || ch == '\U{202F}'
    || ch == '\U{205F}'
    || ch == '\U{3000}'
  }

  /** How many leading white-space characters the scanner skips; None when it
      meets a newline first, which `Sscanf` reports as an error. */
  function SkipSpace(s: string): (r: Option<nat>)
    ensures r.Some? ==> r.value <= |s|
    ensures r.Some? ==> forall i :: 0 <= i < r.value ==> IsSpace(s[i]) && s[i] != '\n'
    ensures r.Some? ==> r.value == |s| || !IsSpace(s[r.value])
    ensures r.None? ==> exists k :: 0 <= k < |s| && s[k] == '\n' && forall i :: 0 <= i < k ==> IsSpace(s[i]) && s[i] != '\n'
  {
    if |s| == 0 then Some(0)
    else if s[0] == '\n' then None
    else if IsSpace(s[0]) then
      match SkipSpace(s[1..])
      case None => None
      case Some(k) => Some(k + 1)
    else Some(0)
  }

  /** The maximal run of decimal digits at the start of `s`. */
  function LeadingDigits(s: string): (p: string)
    ensures p <= s
    ensures AllDigits(p)
    ensures |p| == |s| || !IsDigit(s[|p|])
  {
    if |s| > 0 && IsDigit(s[0]) then [s[0]] + LeadingDigits(s[1..]) else []
  }

  function DigitValue(ch: char): nat
    requires IsDigit(ch)
  {
    (ch - '0') as nat
  }

  function DigitChar(n: nat): (ch: char)
    requires n < 10
    ensures IsDigit(ch) && DigitValue(ch) == n
  {
    ('0' as int + n) as char
  }

  /** The value of a decimal numeral, most significant digit first. */
  function DecimalValue(p: string): nat
    requires AllDigits(p)
  {
    if |p| == 0 then 0 else DecimalValue(p[..|p| - 1]) * 10 + DigitValue(p[|p| - 1])
  }

  /** The signed value of a digit run. */
  function Signed(negative: bool, digits: string): int
    requires AllDigits(digits)
  {
    if negative then -(DecimalValue(digits) as int) else DecimalValue(digits)
  }

  /** The number itself, once spaces are skipped: one optional sign, then a
      maximal digit run of at least one digit whose value fits in 64 bits. */
  function ReadSigned(rest: string): (r: Option<int>)
    ensures r.Some? ==> MinInt <= r.value <= MaxInt
    ensures r.Some? ==> || (|rest| > 0 && IsDigit(rest[0]))
                        || (|rest| > 1 && (rest[0] == '+' || rest[0] == '-') && IsDigit(rest[1]))
  {
    if |rest| == 0 then None
    else
      var negative := rest[0] == '-';
      var body := if rest[0] == '+' || rest[0] == '-' then rest[1..] else rest;
      var digits := LeadingDigits(body);
      if |digits| == 0 then None
      else
        var v := Signed(negative, digits);
        if MinInt <= v <= MaxInt then Some(v) else None
  }

  /** The `%d` verb: skip spaces, then read a signed number; running out of
      input is an error like any other. */
  function ScanInt(s: string): (r: Option<int>)
    ensures r.Some? ==> MinInt <= r.value <= MaxInt
    ensures r.Some? ==> exists k :: 0 <= k < |s| && IsDigit(s[k])
    // the number starts where the spaces end: a digit there, or one sign and then a digit
    ensures r.Some? ==> && SkipSpace(s).Some?
                        && var k := SkipSpace(s).value;
                           || (k < |s| && IsDigit(s[k]))
                           || (k + 1 < |s| && (s[k] == '+' || s[k] == '-') && IsDigit(s[k + 1]))
  {
    match SkipSpace(s)
    case None => None
    case Some(k) => ReadSigned(s[k..])
  }

  /** The device key a session uses; 0 whenever the scan fails. */
  function ParseDeviceID(s: string): (id: int)
    ensures MinInt <= id <= MaxInt
    ensures ScanInt(s).None? ==> id == 0
  {
    match ScanInt(s)
    case Some(v) => v
    case None => 0
  }

  /** Canonical decimal rendering of a natural number (no leading zeros). */
  function FormatNat(n: nat): (s: string)
    ensures |s| > 0 && AllDigits(s)
  {
    if n < 10 then [DigitChar(n)] else FormatNat(n / 10) + [DigitChar(n % 10)]
  }

  /** Canonical decimal rendering of an integer, `-` for negatives. */
  function FormatInt(n: int): string
  {
    if n < 0 then "-" + FormatNat(-n) else FormatNat(n)
  }

  lemma {:induction false} DecimalValueOfFormat(n: nat)
    ensures DecimalValue(FormatNat(n)) == n
  {
    if n >= 10 {
      var s := FormatNat(n);
      assert s[..|s| - 1] == FormatNat(n / 10);
      DecimalValueOfFormat(n / 10);
    }
  }

  /** Digits followed by anything that is not a digit are read exactly. */
  lemma {:induction false} LeadingDigitsStopAtNonDigit(p: string, tail: string)
    requires AllDigits(p)
    requires |tail| == 0 || !IsDigit(tail[0])
    ensures LeadingDigits(p + tail) == p
  {
    if |p| > 0 {
      assert (p + tail)[1..] == p[1..] + tail;
      LeadingDigitsStopAtNonDigit(p[1..], tail);
    } else {
      assert p + tail == tail;
    }
  }

  /** A numeral preceded by at most one sign and followed by text that does
      not continue it scans to its value when that fits in 64 bits, else to 0. */
  lemma ParseNumeral(sign: string, digits: string, tail: string)
    requires sign == "" || sign == "+" || sign == "-"
    requires |digits| > 0 && AllDigits(digits)
    requires |tail| == 0 || !IsDigit(tail[0])
    ensures var v := Signed(sign == "-", digits);
            ParseDeviceID(sign + digits + tail) == if MinInt <= v <= MaxInt then v else 0
  {
    var s := sign + digits + tail;
    var v := Signed(sign == "-", digits);
    ReadSignedNumeral(sign, digits, tail);
    assert !IsSpace(s[0]);
    assert SkipSpace(s) == Some(0);
    assert s[0..] == s;
    assert ScanInt(s) == if MinInt <= v <= MaxInt then Some(v) else None;
  }

  /** The same numeral read once spaces are skipped. */
  lemma ReadSignedNumeral(sign: string, digits: string, tail: string)
    requires sign == "" || sign == "+" || sign == "-"
    requires |digits| > 0 && AllDigits(digits)
    requires |tail| == 0 || !IsDigit(tail[0])
    ensures var v := Signed(sign == "-", digits);
            ReadSigned(sign + digits + tail) == if MinInt <= v <= MaxInt then Some(v) else None
  {
    var s := sign + digits + tail;
    var body := if s[0] == '+' || s[0] == '-' then s[1..] else s;
    if sign == "" {
      assert s == digits + tail;
    } else {
      assert s[1..] == digits + tail;
    }
    assert body == digits + tail;
    LeadingDigitsStopAtNonDigit(digits, tail);
  }

  /** Reading back a rendered 64-bit integer gives it back, whatever
      non-digit text follows it. */
  lemma ParseFormatted(n: int, tail: string)
    requires MinInt <= n <= MaxInt
    requires |tail| == 0 || !IsDigit(tail[0])
    ensures ParseDeviceID(FormatInt(n) + tail) == n
  {
    var m: nat := if n < 0 then -n else n;
    var digits := FormatNat(m);
    DecimalValueOfFormat(m);
    assert Signed(n < 0, digits) == n;
    assert FormatInt(n) + tail == (if n < 0 then "-" else "") + digits + tail;
    ParseNumeral(if n < 0 then "-" else "", digits, tail);
  }

  /** A rendered integer outside the 64-bit range is a scan error, so it parses to 0. */
  lemma ParseOverflowIsZero(n: int)
    requires n < MinInt || n > MaxInt
    ensures ParseDeviceID(FormatInt(n)) == 0
  {
    var m: nat := if n < 0 then -n else n;
    var digits := FormatNat(m);
    DecimalValueOfFormat(m);
    assert Signed(n < 0, digits) == n;
    assert FormatInt(n) == (if n < 0 then "-" else "") + digits + [];
    ParseNumeral(if n < 0 then "-" else "", digits, []);
  }

  /** Input with no integer at its start (after optional spaces and sign),
      including the empty string, parses to 0. */
  lemma NoLeadingIntegerIsZero(s: string)
    requires |s| == 0 || (!IsDigit(s[0]) && !IsSpace(s[0]) && s[0] != '+' && s[0] != '-')
    ensures ParseDeviceID(s) == 0
  {
  }

  /** A sign with no digit after it is a scan error. */
  lemma BareSignIsZero(sign: char, rest: string)
    requires sign == '+' || sign == '-'
    requires |rest| == 0 || !IsDigit(rest[0])
    ensures ParseDeviceID([sign] + rest) == 0
  {
  }

  /** Leading spaces other than a newline do not change the result; a
      newline before the number makes it 0. */
  lemma LeadingSpaceSkipped(ch: char, s: string)
    requires IsSpace(ch)
    ensures ch != '\n' ==> ParseDeviceID([ch] + s) == ParseDeviceID(s)
    ensures ch == '\n' ==> ParseDeviceID([ch] + s) == 0
  {
    var full := [ch] + s;
    assert full[1..] == s;
    if ch != '\n' {
      match SkipSpace(s)
      case None =>
        assert SkipSpace(full).None?;
      case Some(k) =>
        assert SkipSpace(full) == Some(k + 1);
        assert full[k + 1..] == s[k..];
    }
  }

  lemma ParseExamples()
    ensures ParseDeviceID("abc") == 0
    ensures ParseDeviceID("") == 0
    ensures ParseDeviceID("2") == 2
    ensures ParseDeviceID("+5") == 5
    ensures ParseDeviceID("+-5") == 0
  {
    BareSignIsZero('+', "-5");
    assert ['+'] + "-5" == "+-5";
    ParseNumeral("+", "5", "");
    assert "+" + "5" + "" == "+5";
    NoLeadingIntegerIsZero("abc");
    ParseFormatted(2, "");
    assert FormatInt(2) + "" == "2";
  }
}
