/** `datetime.strptime` for the two formats the scripts use, `%Y-%m` and
    `%Y-%m-%d`: `%Y` is exactly four digits, `%m` is `1[0-2]|0[1-9]|[1-9]`, `%d` is
    `3[01]|[12][0-9]|0[1-9]|[1-9]| [1-9]`; the whole string must be consumed, and the
    result must be an existing date (year 0 and February 30th are errors). */
module DateParse {
  import opened Wrappers
  import opened Text
  import opened Calendar

  /** `%m`: `1[0-2]|0[1-9]|[1-9]`, one or two digits, 1 through 12. */
  function ParseMonth(s: string): (r: Option<nat>)
    ensures r.Some? ==> 1 <= r.value <= 12
  {
    if |s| == 1 && '1' <= s[0] <= '9' then Some(DigitValue(s[0]))
    else if |s| == 2 && s[0] == '0' && '1' <= s[1] <= '9' then Some(DigitValue(s[1]))
    else if |s| == 2 && s[0] == '1' && '0' <= s[1] <= '2' then Some(10 + DigitValue(s[1]))
    else None
  }

  /** `%Y-%m`: exactly four digits, a dash and a month; year 0 is out of range for a
      date. Anything else is a ValueError. */
  function ParseYm(s: string): (r: Result<Date, string>)
    ensures r.Ok? ==> ValidDate(r.value) && r.value.day == 1
  {
    if |s| < 6 || s[4] != '-' || !AllDigits(s[..4]) then Err("does not match format '%Y-%m'")
    else match ParseMonth(s[5..])
      case None => Err("does not match format '%Y-%m'")
      case Some(m) =>
        var y := DigitsValue(s[..4]);
        if y == 0 then Err("year 0 is out of range")
        else Ok(Date(y, m, 1))
  }

  /** Formatting a month as `YYYY-MM` and parsing it back gives the first of that
      month, for four-digit years. */
  lemma ParseYmRoundTrip(y: nat, m: nat)
    requires 1000 <= y <= 9999 && 1 <= m <= 12
    ensures ParseYm(NatToString(y) + "-" + Pad2(m)) == Ok(Date(y, m, 1))
  {
    var ys := NatToString(y);
    FourDigits(y);
    YmParts(ys + "-" + Pad2(m), ys, Pad2(m));
    MonthField(m);
  }

  /** The pieces of `a-b` with a four-character `a`. */
  lemma YmParts(s: string, a: string, b: string)
    requires s == a + "-" + b && |a| == 4
    ensures |s| == 5 + |b| && s[..4] == a && s[4] == '-' && s[5..] == b
  {
  }

  /** A zero-padded month is read back as itself. */
  lemma MonthField(m: nat)
    requires 1 <= m <= 12
    ensures ParseMonth(Pad2(m)) == Some(m)
  {
    Pad2Digits(m);
  }

  /** A one-digit month is accepted too: "2024-3" is March 2024. */
  lemma ParseYmShortMonth()
    ensures ParseYm("2024-3") == Ok(Date(2024, 3, 1))
  {
    assert "2024-3"[..4] == "2024";
    assert "2024"[..3] == "202" && "202"[..2] == "20" && "20"[..1] == "2" && "2"[..0] == "";
    assert "2024-3"[5..] == "3";
  }

  /** A month outside 1..12 is rejected: "2024-13" does not parse. */
  lemma ParseYmRejectsMonth13()
    ensures ParseYm("2024-13").Err?
  {
    assert "2024-13"[5..] == "13";
  }

  /** `%d`: one or two characters naming a day number 1 through 31. */
  function ParseDayField(s: string): (r: Option<nat>)
    ensures r.Some? ==> 1 <= r.value <= 31
  {
    if |s| == 1 && '1' <= s[0] <= '9' then Some(DigitValue(s[0]))
    else if |s| == 2 && s[0] == ' ' && '1' <= s[1] <= '9' then Some(DigitValue(s[1]))
    else if |s| == 2 && s[0] == '0' && '1' <= s[1] <= '9' then Some(DigitValue(s[1]))
    else if |s| == 2 && '1' <= s[0] <= '2' && '0' <= s[1] <= '9' then Some(10 * DigitValue(s[0]) + DigitValue(s[1]))
    else if |s| == 2 && s[0] == '3' && '0' <= s[1] <= '1' then Some(30 + DigitValue(s[1]))
    else None
  }

  /** `%Y-%m-%d`. The month field ends at the second dash, one or two characters
      after the first. */
  function ParseYmd(s: string): (r: Result<Date, string>)
    ensures r.Ok? ==> ValidDate(r.value)
  {
    if |s| < 7 || s[4] != '-' || !AllDigits(s[..4]) then Err("does not match format '%Y-%m-%d'")
    else
      var k := if s[6] == '-' then 6 else 7;
      if k == 7 && (|s| < 8 || s[7] != '-') then Err("does not match format '%Y-%m-%d'")
      else match (ParseMonth(s[5..k]), ParseDayField(s[k + 1..]))
        case (Some(m), Some(d)) =>
          var y := DigitsValue(s[..4]);
          if y == 0 then Err("year 0 is out of range")
          else if d > DaysInMonth(y, m) then Err("day is out of range for month")
          else Ok(Date(y, m, d))
        case _ => Err("does not match format '%Y-%m-%d'")
  }

  /** `date.isoformat()` for four-digit years. */
  function IsoFormat(d: Date): string
    requires d.year >= 0 && d.month >= 0 && d.day >= 0
  {
    NatToString(d.year) + "-" + Pad2(d.month) + "-" + Pad2(d.day)
  }

  lemma FourDigits(y: nat)
    requires 1000 <= y <= 9999
    ensures |NatToString(y)| == 4 && AllDigits(NatToString(y))
    ensures DigitsValue(NatToString(y)) == y
  {
    var ys := NatToString(y);
    assert ys == NatToString(y / 10) + [DigitChar(y % 10)];
    assert NatToString(y / 10) == NatToString(y / 100) + [DigitChar(y / 10 % 10)];
    assert NatToString(y / 100) == NatToString(y / 1000) + [DigitChar(y / 100 % 10)];
    ParseFormatNat(y);
  }

  lemma Pad2Digits(n: nat)
    requires 1 <= n <= 31
    ensures |Pad2(n)| == 2 && AllDigits(Pad2(n)) && Pad2(n)[0] <= '3'
    ensures Pad2(n) == [DigitChar(n / 10), DigitChar(n % 10)]
  {
    if n < 10 {
      assert Pad2(n) == "0" + NatToString(n) && NatToString(n) == [DigitChar(n)];
    } else {
      assert Pad2(n) == NatToString(n) && NatToString(n) == NatToString(n / 10) + [DigitChar(n % 10)];
    }
  }

  /** Every date with a four-digit year survives `isoformat` and parsing back. */
  lemma ParseYmdRoundTrip(d: Date)
    requires ValidDate(d) && 1000 <= d.year <= 9999
    ensures ParseYmd(IsoFormat(d)) == Ok(d)
  {
    var ys := NatToString(d.year);
    FourDigits(d.year);
    Pad2Digits(d.month);
    MonthField(d.month);
    DayField(d.day);
    YmdParts(IsoFormat(d), ys, Pad2(d.month), Pad2(d.day));
  }

  /** The pieces of `a-b-c` with a four-character `a` and a two-digit `b`. */
  lemma YmdParts(s: string, a: string, b: string, c: string)
    requires s == a + "-" + b + "-" + c && |a| == 4 && |b| == 2 && IsDigit(b[1])
    ensures |s| == 8 + |c| && s[..4] == a && s[4] == '-' && s[6] != '-' && s[7] == '-'
    ensures s[5..7] == b && s[8..] == c
  {
    assert s[6] == b[1];
  }

  /** A zero-padded day is read back as itself. */
  lemma DayField(d: nat)
    requires 1 <= d <= 31
    ensures ParseDayField(Pad2(d)) == Some(d)
  {
    Pad2Digits(d);
  }

  /** A day past the end of its month is an error: "2023-02-29" does not parse. */
  lemma ParseYmdNonLeapDay()
    ensures ParseYmd("2023-02-29") == Err("day is out of range for month")
  {
    assert "2023-02-29"[..4] == "2023" && "2023-02-29"[5..7] == "02" && "2023-02-29"[8..] == "29";
    assert "2023"[..3] == "202" && "202"[..2] == "20" && "20"[..1] == "2" && "2"[..0] == "";
  }

  /** The 29th of February of a leap year parses: "2024-02-29". */
  lemma ParseYmdLeapDay()
    ensures ParseYmd("2024-02-29") == Ok(Date(2024, 2, 29))
  {
    assert "2024-02-29"[..4] == "2024" && "2024-02-29"[5..7] == "02" && "2024-02-29"[8..] == "29";
    assert "2024"[..3] == "202" && "202"[..2] == "20" && "20"[..1] == "2" && "2"[..0] == "";
  }

  /** The 29th of February of a four-digit year parses iff the year is a leap year. */
  lemma LeapDayIn(y: nat)
    requires 1000 <= y <= 9999
    ensures ParseYmd(IsoFormat(Date(y, 2, 29))) == if IsLeapYear(y) then Ok(Date(y, 2, 29)) else Err("day is out of range for month")
  {
    var ys := NatToString(y);
    FourDigits(y);
    Pad2Digits(2);
    MonthField(2);
    DayField(29);
    YmdParts(IsoFormat(Date(y, 2, 29)), ys, Pad2(2), Pad2(29));
  }
}
