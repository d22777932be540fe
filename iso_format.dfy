/** Python's `datetime.fromisoformat`, `datetime.isoformat` and `int(str)`,
    over a restricted grammar:
      timestamps  YYYY-MM-DD, YYYY-MM-DD?HH, YYYY-MM-DD?HH:MM, YYYY-MM-DD?HH:MM:SS
                  (any single separator character `?`);
      integers    an optional `+` or `-` followed by one or more ASCII digits.
    Every other string is rejected (`None`, i.e. ValueError). */
module IsoFormat {
  import opened Wrappers
  import opened Calendar

  predicate IsDigit(c: char) {
    '0' <= c <= '9'
  }

  predicate AllDigits(s: string) {
    forall i | 0 <= i < |s| :: IsDigit(s[i])
  }

  function DigitValue(c: char): int
    requires IsDigit(c)
  {
    c as int - '0' as int
  }

  function DigitChar(n: int): (c: char)
    requires 0 <= n < 10
    ensures IsDigit(c) && DigitValue(c) == n
  {
    ('0' as int + n) as char
  }

  /** The number a string of decimal digits spells, most significant first. */
  function DigitsValue(s: string): nat
    requires AllDigits(s)
  {
    if s == [] then 0 else DigitsValue(s[..|s| - 1]) * 10 + DigitValue(s[|s| - 1])
  }

  function Pow10(w: nat): nat {
    if w == 0 then 1 else 10 * Pow10(w - 1)
  }

  /** `"%0{w}d" % n` for 0 <= n < 10^w. */
  function Padded(n: nat, w: nat): (s: string)
    ensures |s| == w && AllDigits(s)
  {
    if w == 0 then [] else Padded(n / 10, w - 1) + [DigitChar(n % 10)]
  }

  /** `"%d" % n` for a natural number. */
  function ShowNat(n: nat): (s: string)
    ensures s != [] && AllDigits(s)
  {
    if n < 10 then [DigitChar(n)] else ShowNat(n / 10) + [DigitChar(n % 10)]
  }

  /** `str(n)`. */
  function ShowInt(n: int): string {
    if n < 0 then "-" + ShowNat(-n) else ShowNat(n)
  }

  /** CPython's default limit on the decimal digits `int()` reads from text
      and `str()` writes (`sys.get_int_max_str_digits()`): past it both
      raise ValueError. */
  const MaxIntDigits: nat := 4300

  /** `int(s)` on a string: `None` where Python raises ValueError, which
      includes more than MaxIntDigits digits (leading zeros count). */
  function ParseInt(s: string): Option<int> {
    if s != [] && (s[0] == '-' || s[0] == '+') then
      if 1 < |s| <= MaxIntDigits + 1 && AllDigits(s[1..]) then
        var magnitude: int := DigitsValue(s[1..]);
        Some(if s[0] == '-' then -magnitude else magnitude)
      else None
    else if s != [] && |s| <= MaxIntDigits && AllDigits(s) then
      Some(DigitsValue(s))
    else None
  }

  /** The digits s[lo..hi] as a number, or `None` if one is not a digit. */
  function Field(s: string, lo: nat, hi: nat): (r: Option<int>)
    requires lo <= hi <= |s|
    ensures r.Some? ==> 0 <= r.value < Pow10(hi - lo)
  {
    if AllDigits(s[lo..hi]) then DigitsBound(s[lo..hi]); Some(DigitsValue(s[lo..hi])) else None
  }

  /** `datetime.fromisoformat(s)`: `None` where Python raises ValueError. */
  function ParseIso(s: string): (r: Option<DateTime>)
    ensures r.Some? ==> Valid(r.value)
  {
    if !(|s| == 10 || |s| == 13 || |s| == 16 || |s| == 19) || s[4] != '-' || s[7] != '-' then None
    else
      var year := Field(s, 0, 4);
      var month := Field(s, 5, 7);
      var day := Field(s, 8, 10);
      var hour := if |s| >= 13 then Field(s, 11, 13) else Some(0);
      var minute := if |s| < 16 then Some(0) else if s[13] == ':' then Field(s, 14, 16) else None;
      var second := if |s| < 19 then Some(0) else if s[16] == ':' then Field(s, 17, 19) else None;
      if year.None? || month.None? || day.None? || hour.None? || minute.None? || second.None? then None
      else
        var t := DateTime(year.value, month.value, day.value, hour.value, minute.value, second.value);
        if Valid(t) then Some(t) else None
  }

  /** `t.isoformat()` for a datetime without microseconds. */
  function Iso(t: DateTime): (s: string)
    requires Valid(t)
    ensures |s| == 19
  {
    Padded(t.year, 4) + "-" + Padded(t.month, 2) + "-" + Padded(t.day, 2) + "T"
      + Padded(t.hour, 2) + ":" + Padded(t.minute, 2) + ":" + Padded(t.second, 2)
  }

  // ---------------------------------------------------------------------
  // Digits

  lemma {:induction false} DigitsBound(s: string)
    requires AllDigits(s)
    ensures DigitsValue(s) < Pow10(|s|)
  {
    if s != [] {
      DigitsBound(s[..|s| - 1]);
    }
  }

  lemma {:induction false} PaddedRoundTrip(n: nat, w: nat)
    requires n < Pow10(w)
    ensures DigitsValue(Padded(n, w)) == n
  {
    if w > 0 {
      PaddedRoundTrip(n / 10, w - 1);
      var s := Padded(n, w);
      assert s[..|s| - 1] == Padded(n / 10, w - 1);
    }
  }

  lemma {:induction false} DigitsRoundTrip(s: string)
    requires AllDigits(s)
    ensures Padded(DigitsValue(s), |s|) == s
  {
    if s != [] {
      var init := s[..|s| - 1];
      DigitsRoundTrip(init);
      DigitsBound(init);
      var n := DigitsValue(s);
      assert n / 10 == DigitsValue(init) && n % 10 == DigitValue(s[|s| - 1]);
      assert s == init + [s[|s| - 1]];
    }
  }

  lemma {:induction false} ShowNatRoundTrip(n: nat)
    ensures DigitsValue(ShowNat(n)) == n
  {
    if n >= 10 {
      ShowNatRoundTrip(n / 10);
      var s := ShowNat(n);
      assert s[..|s| - 1] == ShowNat(n / 10);
    }
  }

  /** A number's digits without leading zeros are no more than any digit
      string spelling it. */
  lemma {:induction false} ShowNatLength(s: string)
    requires s != [] && AllDigits(s)
    ensures |ShowNat(DigitsValue(s))| <= |s|
    decreases |s|
  {
    var n := DigitsValue(s);
    if n >= 10 {
      var init := s[..|s| - 1];
      assert n / 10 == DigitsValue(init) && n % 10 == DigitValue(s[|s| - 1]);
      assert init != [];
      ShowNatLength(init);
    }
  }

  // ---------------------------------------------------------------------
  /** `int()` accepts an optional sign followed by one to MaxIntDigits
      digits, and reads them as their decimal value, negated after `-`;
      anything else, a longer digit string included, is ValueError.
      Whatever it accepts, `str()` can print again, since its digits less
      any leading zeros are within the limit. */
  lemma ParseIntLimit(s: string)
    ensures var signed := s != [] && (s[0] == '-' || s[0] == '+');
            var digits := if signed then s[1..] else s;
            && (ParseInt(s).Some? <==> digits != [] && |digits| <= MaxIntDigits && AllDigits(digits))
            && (ParseInt(s).Some? ==>
                  var v: int := DigitsValue(digits);
                  ParseInt(s).value == if signed && s[0] == '-' then -v else v)
    ensures var r := ParseInt(s);
            r.Some? ==> |ShowNat(if r.value < 0 then -r.value else r.value)| <= MaxIntDigits
  {
    if ParseInt(s).Some? {
      if s[0] == '-' || s[0] == '+' {
        ShowNatLength(s[1..]);
      } else {
        ShowNatLength(s);
      }
    }
  }

  // Round trips

  /** `int(str(n)) == n` for every integer `str()` can print. */
  lemma ParseShowInt(n: int)
    requires |ShowNat(if n < 0 then -n else n)| <= MaxIntDigits
    ensures ParseInt(ShowInt(n)) == Some(n)
  {
    var digits := ShowNat(if n < 0 then -n else n);
    ShowNatRoundTrip(if n < 0 then -n else n);
    if n < 0 {
      assert ShowInt(n)[1..] == digits;
    } else {
      assert IsDigit(digits[0]);
    }
  }

  /** `datetime.fromisoformat(t.isoformat()) == t`. */
  lemma ParseIsoOfIso(t: DateTime)
    requires Valid(t)
    ensures ParseIso(Iso(t)) == Some(t)
  {
    var s := Iso(t);
    assert s[0..4] == Padded(t.year, 4);
    assert s[5..7] == Padded(t.month, 2);
    assert s[8..10] == Padded(t.day, 2);
    assert s[11..13] == Padded(t.hour, 2);
    assert s[14..16] == Padded(t.minute, 2);
    assert s[17..19] == Padded(t.second, 2);
    PaddedRoundTrip(t.year, 4);
    PaddedRoundTrip(t.month, 2);
    PaddedRoundTrip(t.day, 2);
    PaddedRoundTrip(t.hour, 2);
    PaddedRoundTrip(t.minute, 2);
    PaddedRoundTrip(t.second, 2);
  }

  /** Different datetimes have different `isoformat()` strings. */
  lemma IsoDiffers(a: DateTime, b: DateTime)
    requires Valid(a) && Valid(b) && a != b
    ensures Iso(a) != Iso(b)
  {
    ParseIsoOfIso(a);
    ParseIsoOfIso(b);
  }

  /** A full-length timestamp with the `T` separator is exactly the
      `isoformat()` of what it parses to. */
  lemma IsoOfParseIso(s: string)
    requires |s| == 19 && s[10] == 'T' && ParseIso(s).Some?
    ensures Iso(ParseIso(s).value) == s
  {
    var t := ParseIso(s).value;
    IsoOfFields(s, t);
  }

  /** A timestamp whose six digit fields spell the datetime's fields is
      that datetime's `isoformat()`. */
  lemma IsoOfFields(s: string, t: DateTime)
    requires Valid(t) && |s| == 19
    requires s[4] == '-' && s[7] == '-' && s[10] == 'T' && s[13] == ':' && s[16] == ':'
    requires AllDigits(s[0..4]) && t.year == DigitsValue(s[0..4])
    requires AllDigits(s[5..7]) && t.month == DigitsValue(s[5..7])
    requires AllDigits(s[8..10]) && t.day == DigitsValue(s[8..10])
    requires AllDigits(s[11..13]) && t.hour == DigitsValue(s[11..13])
    requires AllDigits(s[14..16]) && t.minute == DigitsValue(s[14..16])
    requires AllDigits(s[17..19]) && t.second == DigitsValue(s[17..19])
    ensures Iso(t) == s
  {
    DigitsRoundTrip(s[0..4]);
    DigitsRoundTrip(s[5..7]);
    DigitsRoundTrip(s[8..10]);
    DigitsRoundTrip(s[11..13]);
    DigitsRoundTrip(s[14..16]);
    DigitsRoundTrip(s[17..19]);
    assert s == s[0..4] + "-" + s[5..7] + "-" + s[8..10] + "T" + s[11..13] + ":" + s[14..16] + ":" + s[17..19];
  }
}
