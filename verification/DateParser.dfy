/** `parse_date` and the YYYY-MM-DD printer. */
module DateParser {
  import opened Ledger
  import opened Calendar
  import opened Text

  datatype DateError = BadFormat | BadYear | BadMonth | BadDay | NotADate

  datatype Result = Ok(date: Date) | Err(error: DateError)

  // ----- Unsigned numerals, as the standard library parses them -----

  predicate IsDigit(c: char) { '0' <= c <= '9' }

  predicate AllDigits(s: string) { forall c | c in s :: IsDigit(c) }

  function DigitValue(c: char): (v: nat)
    requires IsDigit(c)
    ensures v <= 9
  {
    c as int - '0' as int
  }

  function Value(s: string): nat
    requires AllDigits(s)
  {
    if s == "" then 0 else 10 * Value(s[..|s| - 1]) + DigitValue(s[|s| - 1])
  }

  /** One optional plus sign, then at least one digit. */
  predicate IsNumeral(s: string) {
    s != "" && (if s[0] == '+' then |s| > 1 && AllDigits(s[1..]) else AllDigits(s))
  }

  function NumeralValue(s: string): nat
    requires IsNumeral(s)
  {
    if s[0] == '+' then Value(s[1..]) else Value(s)
  }

  const I32_MAX := 2147483647
  const U8_MAX := 255

  /** `str::parse` for a type with maximum `max`, on a text without a minus
      sign. Leading zeros are accepted; a value above the maximum is not. */
  function ParseNumber(s: string, max: nat): Option<nat> {
    if IsNumeral(s) && NumeralValue(s) <= max then Some(NumeralValue(s)) else None
  }

  // ----- Parser and printer -----

  function ParseDate(value: string): Result {
    var parts := SplitOn(value, '-');
    if |parts| != 3 then Err(BadFormat)
    else
      match ParseNumber(parts[0], I32_MAX)
      case None => Err(BadYear)
      case Some(year) =>
        match ParseNumber(parts[1], U8_MAX)
        case None => Err(BadMonth)
        case Some(month) =>
          match ParseNumber(parts[2], U8_MAX)
          case None => Err(BadDay)
          case Some(day) =>
            if !(1 <= month <= 12) then Err(BadMonth)
            else if !ValidDate(Date(year, month, day)) then Err(NotADate)
            else Ok(Date(year, month, day))
  }

  function DigitChar(d: nat): (c: char)
    requires d <= 9
    ensures IsDigit(c) && DigitValue(c) == d
  {
    ('0' as int + d) as char
  }

  /** `n` in exactly `width` digits. */
  function Padded(n: nat, width: nat): string {
    if width == 0 then "" else Padded(n / 10, width - 1) + [DigitChar(n % 10)]
  }

  function Pow10(width: nat): nat { if width == 0 then 1 else 10 * Pow10(width - 1) }

  /** A date with a year from 0 to 9999 in YYYY-MM-DD form. */
  function PrintDate(d: Date): string
    requires ValidDate(d) && d.year >= 0
  {
    Join([Padded(d.year, 4), Padded(d.month, 2), Padded(d.day, 2)], '-')
  }

  // ----- Digits -----

  lemma {:induction false} PaddedIsNumeral(n: nat, width: nat)
    requires n < Pow10(width)
    ensures |Padded(n, width)| == width && AllDigits(Padded(n, width)) && Value(Padded(n, width)) == n
  {
    if width > 0 {
      PaddedIsNumeral(n / 10, width - 1);
      assert Padded(n, width)[..width - 1] == Padded(n / 10, width - 1);
    }
  }

  lemma LastDigit(v: nat, d: nat)
    requires d <= 9
    ensures (10 * v + d) / 10 == v && (10 * v + d) % 10 == d
  {
  }

  lemma {:induction false} ValueIsPadded(s: string)
    requires AllDigits(s)
    ensures Value(s) < Pow10(|s|) && Padded(Value(s), |s|) == s
  {
    if s != "" {
      var front, last := s[..|s| - 1], s[|s| - 1];
      assert s == front + [last];
      ValueIsPadded(front);
      LastDigit(Value(front), DigitValue(last));
      assert Padded(Value(s), |s|) == Padded(Value(front), |front|) + [DigitChar(DigitValue(last))];
    }
  }

  lemma PaddedParses(n: nat, width: nat, max: nat)
    requires n < Pow10(width) && width > 0 && n <= max
    ensures ParseNumber(Padded(n, width), max) == Some(n)
    ensures '-' !in Padded(n, width)
  {
    PaddedIsNumeral(n, width);
    assert Padded(n, width)[0] in Padded(n, width);
  }

  // ----- Round trips -----

  /** Parsing what the printer writes gives the date back, for every valid date
      with a year from 0 to 9999. */
  lemma ParsePrint(d: Date)
    requires ValidDate(d) && d.year >= 0
    ensures ParseDate(PrintDate(d)) == Ok(d)
  {
    assert Pow10(2) == 100 && Pow10(4) == 10000 by {
      assert Pow10(1) == 10;
    }
    PaddedParses(d.year, 4, I32_MAX);
    PaddedParses(d.month, 2, U8_MAX);
    PaddedParses(d.day, 2, U8_MAX);
    SplitJoin([Padded(d.year, 4), Padded(d.month, 2), Padded(d.day, 2)], '-');
  }

  /** Exactly what is accepted: three unsigned numerals separated by minus
      signs whose values are a valid date. No accepted text has a negative
      year. */
  lemma AcceptedIff(value: string, d: Date)
    ensures ParseDate(value) == Ok(d) <==>
              && ValidDate(d) && d.year >= 0
              && exists y, m, a ::
                   && value == Join([y, m, a], '-')
                   && IsNumeral(y) && IsNumeral(m) && IsNumeral(a)
                   && NumeralValue(y) == d.year && NumeralValue(m) == d.month && NumeralValue(a) == d.day
  {
    if ParseDate(value) == Ok(d) {
      var parts := SplitOn(value, '-');
      JoinSplit(value, '-');
      assert parts == [parts[0], parts[1], parts[2]];
      assert value == Join([parts[0], parts[1], parts[2]], '-');
    }
    if ValidDate(d) && d.year >= 0 {
      forall y, m, a | && value == Join([y, m, a], '-')
                       && IsNumeral(y) && IsNumeral(m) && IsNumeral(a)
                       && NumeralValue(y) == d.year && NumeralValue(m) == d.month && NumeralValue(a) == d.day
        ensures ParseDate(value) == Ok(d)
      {
        NumeralHasNoMinus(y);
        NumeralHasNoMinus(m);
        NumeralHasNoMinus(a);
        SplitJoin([y, m, a], '-');
      }
    }
  }

  lemma NumeralHasNoMinus(s: string)
    requires IsNumeral(s)
    ensures '-' !in s
  {
    if s[0] == '+' {
      assert s == [s[0]] + s[1..];
    }
  }

  /** Parse, print and parse again: the same date. */
  lemma ParsePrintParse(value: string)
    requires ParseDate(value).Ok?
    ensures ValidDate(ParseDate(value).date) && ParseDate(value).date.year >= 0
    ensures ParseDate(PrintDate(ParseDate(value).date)) == ParseDate(value)
  {
    ParsePrint(ParseDate(value).date);
  }

  /** The error text promises YYYY-MM-DD, but signs and other widths are
      accepted too. An accepted text is the printed form of its date exactly
      when it has ten characters, its minus signs are where the form has them,
      and it has no plus sign. */
  lemma CanonicalIff(value: string)
    requires ParseDate(value).Ok?
    ensures ValidDate(ParseDate(value).date) && ParseDate(value).date.year >= 0
    ensures value == PrintDate(ParseDate(value).date) <==>
              |value| == 10 && value[4] == '-' && value[7] == '-' && '+' !in value
  {
    var d := ParseDate(value).date;
    PrintedShape(d);
    if |value| == 10 && value[4] == '-' && value[7] == '-' && '+' !in value {
      var parts := SplitOn(value, '-');
      JoinSplit(value, '-');
      PiecesHaveNoSeparator(value, '-');
      assert parts == [parts[0], parts[1], parts[2]];
      JoinThree(parts[0], parts[1], parts[2]);
      CutsAreFixed(value, parts[0], parts[1], parts[2]);
      ValueIsPadded(parts[0]);
      ValueIsPadded(parts[1]);
      ValueIsPadded(parts[2]);
    }
  }

  lemma JoinThree(y: string, m: string, a: string)
    ensures Join([y, m, a], '-') == y + "-" + m + "-" + a
  {
    assert [y, m, a][1..] == [m, a] && [m, a][1..] == [a];
    assert Join([m, a], '-') == m + ['-'] + a;
    assert y + ['-'] + (m + ['-'] + a) == y + "-" + m + "-" + a;
  }

  lemma PrintedShape(d: Date)
    requires ValidDate(d) && d.year >= 0
    ensures var s := PrintDate(d); |s| == 10 && s[4] == '-' && s[7] == '-' && '+' !in s
  {
    assert Pow10(2) == 100 && Pow10(4) == 10000 by {
      assert Pow10(1) == 10;
    }
    PaddedIsNumeral(d.year, 4);
    PaddedIsNumeral(d.month, 2);
    PaddedIsNumeral(d.day, 2);
    JoinThree(Padded(d.year, 4), Padded(d.month, 2), Padded(d.day, 2));
  }

  /** With no minus sign in any piece, the pieces are cut at positions 4 and 7. */
  lemma CutsAreFixed(value: string, y: string, m: string, a: string)
    requires value == y + "-" + m + "-" + a && '-' !in y && '-' !in m && '-' !in a
    requires |value| == 10 && value[4] == '-' && value[7] == '-' && '+' !in value
    requires IsNumeral(y) && IsNumeral(m) && IsNumeral(a)
    ensures |y| == 4 && |m| == 2 && |a| == 2 && AllDigits(y) && AllDigits(m) && AllDigits(a)
  {
    assert forall i | 0 <= i < |y| :: value[i] == y[i] && y[i] in y;
    assert value[|y|] == '-';
    assert forall i | 0 <= i < |m| :: value[|y| + 1 + i] == m[i] && m[i] in m;
    assert value[|y| + 1 + |m|] == '-';
    assert forall i | 0 <= i < |a| :: value[|y| + |m| + 2 + i] == a[i] && a[i] in a;
  }

  lemma NumeralExamples()
    ensures AllDigits("2026") && Value("2026") == 2026
    ensures AllDigits("1") && Value("1") == 1 && AllDigits("05") && Value("05") == 5
  {
    assert "2026"[..3] == "202" && "202"[..2] == "20" && "20"[..1] == "2" && "2"[..0] == "";
    assert Value("20") == 20;
    assert "1"[..0] == "" && "05"[..1] == "0" && "0"[..0] == "";
  }

  /** A sign and narrow fields are accepted. */
  lemma LooseFormIsAccepted()
    ensures ParseDate("+2026-1-05") == Ok(Date(2026, 1, 5))
  {
    NumeralExamples();
    JoinThree("+2026", "1", "05");
    assert "+2026"[1..] == "2026";
    AcceptedIff("+2026-1-05", Date(2026, 1, 5));
    assert "+2026-1-05" == Join(["+2026", "1", "05"], '-');
  }

  // ----- Refusals -----

  /** The piece is a numeral whose value does not exceed the maximum. */
  predicate FitsNumber(s: string, max: nat) { IsNumeral(s) && NumeralValue(s) <= max }

  /** Which error a refused text gets: not three pieces; a year, a month or a day
      that is no number of its type, or a month outside the year; and otherwise a
      day the month does not have, or a year the calendar does not reach. */
  lemma ErrorMeaning(value: string)
    requires ParseDate(value).Err?
    ensures var error := ParseDate(value).error;
            var parts := SplitOn(value, '-');
      && (error == BadFormat <==> |parts| != 3)
      && (|parts| == 3 ==>
            && (error == BadYear <==> !FitsNumber(parts[0], 2147483647))
            && (error == BadMonth <==>
                 && FitsNumber(parts[0], 2147483647)
                 && (!FitsNumber(parts[1], 255)
                     || (FitsNumber(parts[2], 255) && !(1 <= NumeralValue(parts[1]) <= 12))))
            && (error == BadDay <==>
                 FitsNumber(parts[0], 2147483647) && FitsNumber(parts[1], 255) && !FitsNumber(parts[2], 255)))
  {
  }

  /** A numeral is one or more digits after at most one plus sign. */
  lemma NumeralMeaning(s: string)
    ensures IsNumeral(s) <==>
              exists digits :: digits != "" && AllDigits(digits) && (s == digits || s == "+" + digits)
    ensures forall digits | digits != "" && AllDigits(digits) && (s == digits || s == "+" + digits) ::
              IsNumeral(s) && NumeralValue(s) == Value(digits)
  {
    if IsNumeral(s) {
      var digits := if s[0] == '+' then s[1..] else s;
      assert digits != "" && AllDigits(digits) && (s == digits || s == "+" + digits);
    }
    forall digits | digits != "" && AllDigits(digits) && (s == digits || s == "+" + digits)
      ensures IsNumeral(s) && NumeralValue(s) == Value(digits)
    {
      assert digits[0] in digits;
      assert s == "+" + digits ==> s[1..] == digits;
    }
  }
}
