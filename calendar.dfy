/**
 * Calendar dates as `datetime.strptime` reads them and `strftime` writes them.
 *
 * `strptime` turns each directive into a regular expression, matches it at the start of the
 * text and refuses the text if anything is left over or if the numbers do not name a real day:
 *   %Y  exactly four digits
 *   %m  `1[0-2]|0[1-9]|[1-9]`
 *   %d  `3[01]|[12]\d|0[1-9]|[1-9]| [1-9]`   (a day may be written with a leading blank)
 * The first alternative that matches is taken. Digits are ASCII here.
 */
module Calendar {

  import opened Wrappers

  /** A calendar day of the proleptic Gregorian calendar, as `datetime` holds it. */
  datatype Date = Date(year: int, month: int, day: int)

  predicate IsLeapYear(y: int)
  {
    y % 4 == 0 && (y % 100 != 0 || y % 400 == 0)
  }

  function DaysInMonth(y: int, m: int): (n: int)
    requires 1 <= m <= 12
    ensures 28 <= n <= 31
    ensures n == 29 <==> m == 2 && IsLeapYear(y)
    ensures m == 2 && !IsLeapYear(y) ==> n == 28
    ensures n == 30 <==> m == 4 || m == 6 || m == 9 || m == 11
  {
    if m == 2 then (if IsLeapYear(y) then 29 else 28)
    else if m == 4 || m == 6 || m == 9 || m == 11 then 30
    else 31
  }

  /**
   * `datetime` accepts years 1 to 9999 and only days that exist in their month: thirty days
   * hath April, June, September and November, February 28 days and 29 in a leap year.
   */
  predicate IsValidDate(d: Date)
    ensures IsValidDate(d) <==>
      1 <= d.year <= 9999 && 1 <= d.month <= 12 && 1 <= d.day <= 31
      && (d.month == 4 || d.month == 6 || d.month == 9 || d.month == 11 ==> d.day <= 30)
      && (d.month == 2 ==> d.day <= 28 || (d.day == 29 && IsLeapYear(d.year)))
  {
    1 <= d.year <= 9999 && 1 <= d.month <= 12 && 1 <= d.day <= DaysInMonth(d.year, d.month)
  }

  /** The number `yyyymmdd` a valid day is written as. */
  function DayNumber(d: Date): int
  {
    d.year * 10000 + d.month * 100 + d.day
  }

  /**
   * `a < b` on `datetime` values at midnight: the order of (year, month, day), which on valid
   * days is the order of their `yyyymmdd` numbers.
   */
  predicate Before(a: Date, b: Date)
    ensures IsValidDate(a) && IsValidDate(b) ==> (Before(a, b) <==> DayNumber(a) < DayNumber(b))
  {
    a.year < b.year
    || (a.year == b.year && a.month < b.month)
    || (a.year == b.year && a.month == b.month && a.day < b.day)
  }

  predicate IsDigit(c: char)
  {
    '0' <= c <= '9'
  }

  predicate AllDigits(s: string)
  {
    forall i :: 0 <= i < |s| ==> IsDigit(s[i])
  }

  function DigitValue(c: char): (n: nat)
    requires IsDigit(c)
    ensures n < 10
  {
    c as int - '0' as int
  }

  function DigitChar(n: nat): (c: char)
    requires n < 10
    ensures IsDigit(c) && DigitValue(c) == n
  {
    (n + '0' as int) as char
  }

  /** The number a string of decimal digits stands for. */
  function Numeral(s: string): (n: nat)
    requires AllDigits(s)
    ensures n < Pow10(|s|)
  {
    if s == [] then 0 else 10 * Numeral(s[..|s| - 1]) + DigitValue(s[|s| - 1])
  }

  function Pow10(w: nat): (p: nat)
    ensures p >= 1
  {
    if w == 0 then 1 else 10 * Pow10(w - 1)
  }

  /** The last `width` decimal digits of `n`, zero-padded: what `%0<width>d` prints. */
  function Padded(n: nat, width: nat): (s: string)
    ensures |s| == width && AllDigits(s)
  {
    if width == 0 then [] else Padded(n / 10, width - 1) + [DigitChar(n % 10)]
  }

  /** Reading back a zero-padded numeral gives the number, when it fits in the width. */
  lemma {:induction false} NumeralOfPadded(n: nat, width: nat)
    requires n < Pow10(width)
    ensures Numeral(Padded(n, width)) == n
  {
    if width > 0 {
      var s := Padded(n, width);
      assert s[..|s| - 1] == Padded(n / 10, width - 1);
      NumeralOfPadded(n / 10, width - 1);
    }
  }

  /** A number matched by one alternative of a directive, and how many characters it took. */
  datatype Token = Token(value: nat, width: nat)

  /** The `%m` directive: `1[0-2]|0[1-9]|[1-9]`, the first alternative that matches. */
  function MatchMonth(s: string): (t: Option<Token>)
    ensures t.Some? ==> 1 <= t.value.value <= 12 && 1 <= t.value.width <= 2
    ensures t.Some? ==> t.value.width <= |s| && AllDigits(s[..t.value.width])
    ensures t.Some? ==> t.value.value == Numeral(s[..t.value.width])
  {
    if |s| >= 2 && s[0] == '1' && '0' <= s[1] <= '2' then Some(Token(10 + DigitValue(s[1]), 2))
    else if |s| >= 2 && s[0] == '0' && '1' <= s[1] <= '9' then Some(Token(DigitValue(s[1]), 2))
    else if |s| >= 1 && '1' <= s[0] <= '9' then Some(Token(DigitValue(s[0]), 1))
    else None
  }

  /** The `%d` directive: `3[01]|[12]\d|0[1-9]|[1-9]| [1-9]`, the first alternative that matches. */
  function MatchDay(s: string): (t: Option<Token>)
    ensures t.Some? ==> 1 <= t.value.value <= 31 && 1 <= t.value.width <= 2
    ensures t.Some? ==> t.value.width <= |s|
    ensures t.Some? ==> forall i :: 0 <= i < t.value.width ==> IsDigit(s[i]) || s[i] == ' '
    ensures t.Some? && s[0] != ' ' ==> AllDigits(s[..t.value.width]) && t.value.value == Numeral(s[..t.value.width])
    ensures t.Some? && s[0] == ' ' ==> t.value.width == 2 && IsDigit(s[1]) && t.value.value == DigitValue(s[1])
  {
    if |s| >= 2 && s[0] == '3' && '0' <= s[1] <= '1' then Some(Token(30 + DigitValue(s[1]), 2))
    else if |s| >= 2 && '1' <= s[0] <= '2' && IsDigit(s[1]) then Some(Token(10 * DigitValue(s[0]) + DigitValue(s[1]), 2))
    else if |s| >= 2 && s[0] == '0' && '1' <= s[1] <= '9' then Some(Token(DigitValue(s[1]), 2))
    else if |s| >= 1 && '1' <= s[0] <= '9' then Some(Token(DigitValue(s[0]), 1))
    else if |s| >= 2 && s[0] == ' ' && '1' <= s[1] <= '9' then Some(Token(DigitValue(s[1]), 2))
    else None
  }

  /**
   * `datetime.strptime(s, "%Y<sep>%m<sep>%d")`: the day `s` names, or None where Python raises
   * ValueError (no match, unconverted data left over, or no such day).
   */
  function ParseDate(s: string, sep: char): (r: Option<Date>)
    ensures r.Some? ==> IsValidDate(r.value)
    ensures r.Some? ==> 8 <= |s| <= 10
  {
    if |s| < 5 || !AllDigits(s[..4]) || s[4] != sep then None
    else
      match MatchMonth(s[5..])
      case None => None
      case Some(month) =>
        var rest := s[5 + month.width..];
        if |rest| == 0 || rest[0] != sep then None
        else
          match MatchDay(rest[1..])
          case None => None
          case Some(day) =>
            var d := Date(Numeral(s[..4]), month.value, day.value);
            if day.width != |rest| - 1 || !IsValidDate(d) then None
            else Some(d)
  }

  /** A text `ParseDate` accepts consists of digits, the separator and blanks only. */
  lemma ParsedCharacters(s: string, sep: char)
    requires ParseDate(s, sep).Some?
    ensures forall i :: 0 <= i < |s| ==> IsDigit(s[i]) || s[i] == sep || s[i] == ' '
  {
    var month := MatchMonth(s[5..]).value;
    var rest := s[5 + month.width..];
    var day := MatchDay(rest[1..]).value;
    forall i | 0 <= i < |s|
      ensures IsDigit(s[i]) || s[i] == sep || s[i] == ' '
    {
      if i < 4 {
        assert s[..4][i] == s[i];
      } else if i == 4 {
      } else if i < 5 + month.width {
        assert s[5..][..month.width][i - 5] == s[i];
      } else if i == 5 + month.width {
        assert rest[0] == s[i];
      } else {
        assert rest[1..][i - 6 - month.width] == s[i];
      }
    }
  }

  /** `strftime("%Y<sep>%m<sep>%d")`: four-digit year, two-digit month and day. */
  function Format(d: Date, sep: char): (s: string)
    requires IsValidDate(d)
    ensures |s| == 10 && s[4] == sep && s[7] == sep
    ensures AllDigits(s[..4]) && AllDigits(s[5..7]) && AllDigits(s[8..])
  {
    Padded(d.year, 4) + [sep] + Padded(d.month, 2) + [sep] + Padded(d.day, 2)
  }

  /** The two characters of a zero-padded two-digit number. */
  lemma TwoDigits(n: nat)
    requires n < 100
    ensures Padded(n, 2) == [DigitChar(n / 10), DigitChar(n % 10)]
  {
  }

  /** Writing a valid day and reading it back with the same separator gives the same day. */
  lemma ParseFormat(d: Date, sep: char)
    requires IsValidDate(d)
    ensures ParseDate(Format(d, sep), sep) == Some(d)
  {
    var s := Format(d, sep);
    assert s[..4] == Padded(d.year, 4);
    NumeralOfPadded(d.year, 4);
    TwoDigits(d.month);
    TwoDigits(d.day);
    assert s[5..][..2] == Padded(d.month, 2);
    assert MatchMonth(s[5..]) == Some(Token(d.month, 2));
    assert s[7..][1..] == Padded(d.day, 2);
    assert MatchDay(s[8..]) == Some(Token(d.day, 2));
  }


  /** A string of ASCII digits is the zero-padded numeral of its own value. */
  lemma {:induction false} PaddedNumeral(s: string)
    requires AllDigits(s)
    ensures Padded(Numeral(s), |s|) == s
  {
    if s != [] {
      var init, last := s[..|s| - 1], s[|s| - 1];
      assert AllDigits(init);
      var a, b := Numeral(init), DigitValue(last);
      assert Numeral(s) == 10 * a + b;
      assert Numeral(s) / 10 == a && Numeral(s) % 10 == b;
      PaddedNumeral(init);
      assert DigitChar(b) == last;
      assert s == init + [last];
    }
  }

  /** How `%m` may spell month `m`: two digits, or one digit for January to September. */
  function MonthSpellings(m: nat): set<string>
    requires m < 100
  {
    if 1 <= m <= 9 then {Padded(m, 2), [DigitChar(m)]} else {Padded(m, 2)}
  }

  /** How `%d` may spell day `d`: two digits, or for days 1 to 9 one digit, bare or after a blank. */
  function DaySpellings(d: nat): set<string>
    requires d < 100
  {
    if 1 <= d <= 9 then {Padded(d, 2), [DigitChar(d)], [' ', DigitChar(d)]} else {Padded(d, 2)}
  }

  /** Every text that names `d` under `%Y<sep>%m<sep>%d`. */
  function Spellings(d: Date, sep: char): set<string>
    requires IsValidDate(d)
  {
    set m, t | m in MonthSpellings(d.month) && t in DaySpellings(d.day) :: Padded(d.year, 4) + [sep] + m + [sep] + t
  }

  /** The characters `%m` consumed spell the month it read. */
  lemma MonthSpelled(s: string)
    requires MatchMonth(s).Some?
    ensures s[..MatchMonth(s).value.width] in MonthSpellings(MatchMonth(s).value.value)
  {
    var t := MatchMonth(s).value;
    if t.width == 2 {
      TwoDigits(t.value);
      assert s[..2] == [s[0], s[1]];
    } else {
      assert s[..1] == [s[0]];
    }
  }

  /** The characters `%d` consumed spell the day it read. */
  lemma DaySpelled(s: string)
    requires MatchDay(s).Some?
    ensures s[..MatchDay(s).value.width] in DaySpellings(MatchDay(s).value.value)
  {
    var t := MatchDay(s).value;
    if t.width == 2 {
      TwoDigits(t.value);
      assert s[..2] == [s[0], s[1]];
    } else {
      assert s[..1] == [s[0]];
    }
  }

  /** Each spelling of a month is read back whole when a non-digit follows it. */
  lemma MonthMatched(m: nat, spelling: string, tail: string)
    requires 1 <= m <= 12 && spelling in MonthSpellings(m)
    requires tail != [] && !IsDigit(tail[0])
    ensures MatchMonth(spelling + tail) == Some(Token(m, |spelling|))
  {
    TwoDigits(m);
    var s := spelling + tail;
    if |spelling| == 2 {
      assert s[0] == spelling[0] && s[1] == spelling[1];
    } else {
      assert s[0] == spelling[0] && s[1] == tail[0];
    }
  }

  /** Each spelling of a day is read whole. */
  lemma DayMatched(d: nat, spelling: string)
    requires 1 <= d <= 31 && spelling in DaySpellings(d)
    ensures MatchDay(spelling) == Some(Token(d, |spelling|))
  {
    TwoDigits(d);
  }

  /** A text `ParseDate` accepts is one of the spellings of the day it returns. */
  lemma ParsedSpelling(s: string, sep: char)
    requires ParseDate(s, sep).Some?
    ensures s in Spellings(ParseDate(s, sep).value, sep)
  {
    var d := ParseDate(s, sep).value;
    var month := MatchMonth(s[5..]).value;
    var rest := s[5 + month.width..];
    var day := MatchDay(rest[1..]).value;
    MonthSpelled(s[5..]);
    DaySpelled(rest[1..]);
    PaddedNumeral(s[..4]);
    var m := s[5..][..month.width];
    var t := rest[1..];
    assert rest[1..][..day.width] == t;
    assert s == s[..4] + [sep] + m + [sep] + t;
    assert Padded(d.year, 4) + [sep] + m + [sep] + t in Spellings(d, sep);
  }

  /** The steps of `ParseDate` that accept a text, taken one by one. */
  lemma ParseDateAccepts(s: string, sep: char, month: Token, day: Token)
    requires |s| >= 5 && AllDigits(s[..4]) && s[4] == sep
    requires MatchMonth(s[5..]) == Some(month)
    requires 5 + month.width < |s| && s[5 + month.width] == sep
    requires MatchDay(s[6 + month.width..]) == Some(day) && day.width == |s| - 6 - month.width
    requires IsValidDate(Date(Numeral(s[..4]), month.value, day.value))
    ensures ParseDate(s, sep) == Some(Date(Numeral(s[..4]), month.value, day.value))
  {
    assert s[5 + month.width..][1..] == s[6 + month.width..];
  }

  /** Every spelling of a valid day is accepted and names that day. */
  lemma SpellingParsed(d: Date, sep: char, m: string, t: string)
    requires IsValidDate(d) && !IsDigit(sep) && sep != ' '
    requires m in MonthSpellings(d.month) && t in DaySpellings(d.day)
    ensures ParseDate(Padded(d.year, 4) + [sep] + m + [sep] + t, sep) == Some(d)
  {
    var s := Padded(d.year, 4) + [sep] + m + [sep] + t;
    assert s[..4] == Padded(d.year, 4) && s[4] == sep;
    assert Pow10(4) == 10000;
    NumeralOfPadded(d.year, 4);
    assert s[5..] == m + ([sep] + t);
    MonthMatched(d.month, m, [sep] + t);
    var rest := s[5 + |m|..];
    assert rest == [sep] + t;
    assert rest[1..] == t;
    DayMatched(d.day, t);
    assert Date(Numeral(s[..4]), d.month, d.day) == d;
    ParseDateAccepts(s, sep, Token(d.month, |m|), Token(d.day, |t|));
  }

  /**
   * `strptime(s, "%Y<sep>%m<sep>%d")` returns `d` exactly when `d` is a real day and `s` is
   * one of its spellings: the year in four digits, the month and the day each padded with a
   * zero or written in one digit, and the day also after a blank.
   */
  lemma ParseDateSpellings(s: string, sep: char, d: Date)
    requires !IsDigit(sep) && sep != ' '
    ensures ParseDate(s, sep) == Some(d) <==> IsValidDate(d) && s in Spellings(d, sep)
  {
    if ParseDate(s, sep) == Some(d) {
      ParsedSpelling(s, sep);
    }
    if IsValidDate(d) && s in Spellings(d, sep) {
      var m, t :| m in MonthSpellings(d.month) && t in DaySpellings(d.day)
        && s == Padded(d.year, 4) + [sep] + m + [sep] + t;
      SpellingParsed(d, sep, m, t);
    }
  }

}
