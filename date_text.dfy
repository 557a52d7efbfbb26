/**
 * The textual date forms the service uses: `strftime('%d-%m-%Y')`,
 * `strftime('%Y-%m-%d')` (ISO 8601 calendar date, extended format) and
 * `strptime(s, '%d-%m-%Y')`.
 *
 * CPython's `strptime` turns the format into a regular expression whose
 * directives are, in order of preference,
 *   %d : 3[01] | [12]digit | 0[1-9] | [1-9] | space[1-9]
 *   %m : 1[0-2] | 0[1-9] | [1-9]
 *   %Y : four digits
 * joined by the literal dashes; the match must consume the whole string, and
 * the matched numbers must then form a date `datetime` accepts.
 */
module DateText {
  import opened Wrappers
  import opened Calendar

  predicate IsDigit(c: char) {
    '0' <= c <= '9'
  }

  predicate IsNonZeroDigit(c: char) {
    '1' <= c <= '9'
  }

  function DigitValue(c: char): (v: int)
    requires IsDigit(c)
    ensures 0 <= v <= 9
  {
    c as int - '0' as int
  }

  function Digit(v: int): (c: char)
    requires 0 <= v <= 9
    ensures IsDigit(c) && DigitValue(c) == v
  {
    ('0' as int + v) as char
  }

  /** Two-digit zero-padded decimal, as `%d` and `%m` print. */
  function Pad2(n: int): (s: string)
    requires 0 <= n <= 99
    ensures |s| == 2 && IsDigit(s[0]) && IsDigit(s[1])
    ensures 10 * DigitValue(s[0]) + DigitValue(s[1]) == n
  {
    [Digit(n / 10), Digit(n % 10)]
  }

  predicate AllDigits(s: string) {
    forall i :: 0 <= i < |s| ==> IsDigit(s[i])
  }

  /** The number a four-digit string denotes. */
  function Value4(s: string): int
    requires |s| == 4 && AllDigits(s)
  {
    1000 * DigitValue(s[0]) + 100 * DigitValue(s[1]) + 10 * DigitValue(s[2]) + DigitValue(s[3])
  }

  /** Four-digit zero-padded decimal, as `%Y` prints. */
  function Pad4(n: int): (s: string)
    requires 0 <= n <= 9999
    ensures |s| == 4 && AllDigits(s) && Value4(s) == n
  {
    Pad2(n / 100) + Pad2(n % 100)
  }

  /** `strftime('%d-%m-%Y')`. */
  function FormatDMY(d: Date): (s: string)
    requires Valid(d)
    ensures |s| == 10 && s[2] == '-' && s[5] == '-'
  {
    Pad2(d.day) + "-" + Pad2(d.month) + "-" + Pad4(d.year)
  }

  /** `strftime('%Y-%m-%d')`. */
  function FormatISO(d: Date): (s: string)
    requires Valid(d)
    ensures |s| == 10 && s[4] == '-' && s[7] == '-'
  {
    Pad4(d.year) + "-" + Pad2(d.month) + "-" + Pad2(d.day)
  }

  /**
   * The `%d` directive at the start of `s`: the day and the number of
   * characters matched, taking the first alternative that matches.
   */
  function DayToken(s: string): (r: Option<(int, nat)>)
    ensures r.Some? ==> 1 <= r.value.0 <= 31 && 1 <= r.value.1 <= 2 && r.value.1 <= |s|
  {
    if |s| >= 2 && s[0] == '3' && (s[1] == '0' || s[1] == '1') then Some((30 + DigitValue(s[1]), 2))
    else if |s| >= 2 && (s[0] == '1' || s[0] == '2') && IsDigit(s[1]) then
      Some((10 * DigitValue(s[0]) + DigitValue(s[1]), 2))
    else if |s| >= 2 && s[0] == '0' && IsNonZeroDigit(s[1]) then Some((DigitValue(s[1]), 2))
    else if |s| >= 1 && IsNonZeroDigit(s[0]) then Some((DigitValue(s[0]), 1))
    else if |s| >= 2 && s[0] == ' ' && IsNonZeroDigit(s[1]) then Some((DigitValue(s[1]), 2))
    else None
  }

  /** The `%m` directive at the start of `s`, like `DayToken`. */
  function MonthToken(s: string): (r: Option<(int, nat)>)
    ensures r.Some? ==> 1 <= r.value.0 <= 12 && 1 <= r.value.1 <= 2 && r.value.1 <= |s|
  {
    if |s| >= 2 && s[0] == '1' && '0' <= s[1] <= '2' then Some((10 + DigitValue(s[1]), 2))
    else if |s| >= 2 && s[0] == '0' && IsNonZeroDigit(s[1]) then Some((DigitValue(s[1]), 2))
    else if |s| >= 1 && IsNonZeroDigit(s[0]) then Some((DigitValue(s[0]), 1))
    else None
  }

  /**
   * `strptime(s, '%d-%m-%Y')`: None where Python raises ValueError, either
   * because the text does not match or because the date does not exist.
   * Taking the first matching alternative of each directive is exact here,
   * because every alternative but the chosen one fails at the next dash
   * (`ParseExact` proves it against all spellings).
   */
  function Parse(s: string): (r: Option<Date>)
    ensures r.Some? ==> Valid(r.value)
  {
    match DayToken(s)
    case None => None
    case Some((day, k)) =>
      if k < |s| && s[k] == '-' then
        var rest := s[k + 1..];
        match MonthToken(rest)
        case None => None
        case Some((month, j)) =>
          if j < |rest| && rest[j] == '-' then
            var y := rest[j + 1..];
            if |y| == 4 && AllDigits(y) && Valid(Date(day, month, Value4(y))) then
              Some(Date(day, month, Value4(y)))
            else None
          else None
      else None
  }

  /** Parse and re-format, as `/predict` does with Arrival_Date. */
  function Normalize(s: string): (r: Option<string>)
    ensures r.Some? ==> |r.value| == 10 && r.value[2] == '-' && r.value[5] == '-'
    ensures r.Some? <==> Parse(s).Some?
  {
    match Parse(s)
    case None => None
    case Some(d) => Some(FormatDMY(d))
  }

  // ---------------------------------------------------------------------
  // Reference: every spelling the `%d-%m-%Y` pattern accepts

  /** The texts `%d` matches for day `n`. */
  function DaySpellings(n: int): set<string> {
    (if 1 <= n <= 9 then {[Digit(n)], [' ', Digit(n)]} else {})
    + (if 1 <= n <= 31 then {Pad2(n)} else {})
  }

  /** The texts `%m` matches for month `n`. */
  function MonthSpellings(n: int): set<string> {
    (if 1 <= n <= 9 then {[Digit(n)]} else {})
    + (if 1 <= n <= 12 then {Pad2(n)} else {})
  }

  /** `s` spells the existing date `d` under `%d-%m-%Y`, by any choice of alternatives. */
  ghost predicate Spells(s: string, d: Date) {
    && Valid(d)
    && exists ds, ms :: ds in DaySpellings(d.day) && ms in MonthSpellings(d.month)
                        && s == ds + "-" + ms + "-" + Pad4(d.year)
  }

  // ---------------------------------------------------------------------
  // Lemmas

  lemma Pad2OfDigits(s: string)
    requires |s| == 2 && IsDigit(s[0]) && IsDigit(s[1])
    ensures Pad2(10 * DigitValue(s[0]) + DigitValue(s[1])) == s
  {
    var n := 10 * DigitValue(s[0]) + DigitValue(s[1]);
    assert n / 10 == DigitValue(s[0]) && n % 10 == DigitValue(s[1]);
  }

  lemma Pad4OfDigits(s: string)
    requires |s| == 4 && AllDigits(s)
    ensures Pad4(Value4(s)) == s
  {
    assert IsDigit(s[0]) && IsDigit(s[1]) && IsDigit(s[2]) && IsDigit(s[3]);
    var hi, lo := 10 * DigitValue(s[0]) + DigitValue(s[1]), 10 * DigitValue(s[2]) + DigitValue(s[3]);
    assert Value4(s) == 100 * hi + lo && 0 <= lo < 100;
    assert Value4(s) / 100 == hi && Value4(s) % 100 == lo;
    Pad2OfDigits(s[..2]);
    Pad2OfDigits(s[2..]);
    assert s == s[..2] + s[2..];
  }

  /** What `DayToken` consumes is a spelling of the day it reports. */
  lemma DayTokenSpells(s: string)
    requires DayToken(s).Some?
    ensures s[..DayToken(s).value.1] in DaySpellings(DayToken(s).value.0)
  {
    var (n, k) := DayToken(s).value;
    if k == 2 && s[0] != ' ' {
      Pad2OfDigits(s[..2]);
    } else if k == 2 {
      assert s[..2] == [' ', Digit(n)];
    } else {
      assert s[..1] == [Digit(n)];
    }
  }

  /** A spelling of day `n` followed by a dash is read back as `n`. */
  lemma DayTokenOfSpelling(ds: string, rest: string, n: int)
    requires ds in DaySpellings(n) && |rest| > 0 && rest[0] == '-'
    ensures DayToken(ds + rest) == Some((n, |ds|))
  {
    var s := ds + rest;
    if ds == Pad2(n) {
      assert s[0] == ds[0] && s[1] == ds[1];
    } else {
      assert s[0] == ds[0] && s[1] == (if |ds| == 2 then ds[1] else '-');
    }
  }

  lemma MonthTokenSpells(s: string)
    requires MonthToken(s).Some?
    ensures s[..MonthToken(s).value.1] in MonthSpellings(MonthToken(s).value.0)
  {
    var (n, k) := MonthToken(s).value;
    if k == 2 {
      Pad2OfDigits(s[..2]);
    } else {
      assert s[..1] == [Digit(n)];
    }
  }

  lemma MonthTokenOfSpelling(ms: string, rest: string, n: int)
    requires ms in MonthSpellings(n) && |rest| > 0 && rest[0] == '-'
    ensures MonthToken(ms + rest) == Some((n, |ms|))
  {
    var s := ms + rest;
    assert s[0] == ms[0] && s[1] == (if |ms| == 2 then ms[1] else '-');
  }

  /** Where the two dashes of an accepted text are, and what each directive read. */
  lemma ParseParts(s: string) returns (k: nat, j: nat)
    requires Parse(s).Some?
    ensures k < |s| && s[k] == '-' && j < |s[k + 1..]| && s[k + 1..][j] == '-'
    ensures DayToken(s) == Some((Parse(s).value.day, k))
    ensures MonthToken(s[k + 1..]) == Some((Parse(s).value.month, j))
    ensures var y := s[k + 1..][j + 1..]; |y| == 4 && AllDigits(y) && Value4(y) == Parse(s).value.year
  {
    k := DayToken(s).value.1;
    j := MonthToken(s[k + 1..]).value.1;
  }

  lemma SplitDashes(s: string, k: nat, j: nat)
    requires k < |s| && s[k] == '-' && j < |s[k + 1..]| && s[k + 1..][j] == '-'
    ensures s == s[..k] + "-" + s[k + 1..][..j] + "-" + s[k + 1..][j + 1..]
  {
    var rest := s[k + 1..];
    assert rest == rest[..j] + "-" + rest[j + 1..];
    assert s == s[..k] + "-" + rest;
  }

  /** What `Parse` accepts is a spelling of the date it returns. */
  lemma ParseSpells(s: string)
    requires Parse(s).Some?
    ensures Spells(s, Parse(s).value)
  {
    var d := Parse(s).value;
    var k, j := ParseParts(s);
    var rest := s[k + 1..];
    var y := rest[j + 1..];
    DayTokenSpells(s);
    MonthTokenSpells(rest);
    Pad4OfDigits(y);
    SplitDashes(s, k, j);
    var ds, ms := s[..k], rest[..j];
    assert ds in DaySpellings(d.day) && ms in MonthSpellings(d.month) && s == ds + "-" + ms + "-" + Pad4(d.year);
  }

  /** `Parse` succeeds when each directive matches, in turn, up to its dash. */
  lemma ParseOf(s: string, k: nat, j: nat, d: Date)
    requires Valid(d) && DayToken(s) == Some((d.day, k)) && k < |s| && s[k] == '-'
    requires MonthToken(s[k + 1..]) == Some((d.month, j)) && j < |s[k + 1..]| && s[k + 1..][j] == '-'
    requires s[k + 1..][j + 1..] == Pad4(d.year)
    ensures Parse(s) == Some(d)
  {
  }

  /** Every spelling of an existing date is parsed back to that date. */
  lemma SpellingParses(ds: string, ms: string, d: Date)
    requires Valid(d) && ds in DaySpellings(d.day) && ms in MonthSpellings(d.month)
    ensures Parse(ds + "-" + ms + "-" + Pad4(d.year)) == Some(d)
  {
    var y := Pad4(d.year);
    var rest := ms + "-" + y;
    var s := ds + "-" + rest;
    assert s == ds + "-" + ms + "-" + y;
    assert DayToken(s) == Some((d.day, |ds|)) by {
      assert s == ds + ("-" + rest);
      DayTokenOfSpelling(ds, "-" + rest, d.day);
    }
    assert s[|ds| + 1..] == rest;
    assert MonthToken(rest) == Some((d.month, |ms|)) by {
      assert rest == ms + ("-" + y);
      MonthTokenOfSpelling(ms, "-" + y, d.month);
    }
    assert rest[|ms| + 1..] == y;
    ParseOf(s, |ds|, |ms|, d);
  }

  /**
   * `Parse` accepts exactly the spellings of existing dates: it returns `d`
   * if and only if `s` spells `d` by some choice of directive alternatives.
   */
  lemma ParseExact(s: string, d: Date)
    ensures Parse(s) == Some(d) <==> Spells(s, d)
  {
    if Parse(s) == Some(d) {
      ParseSpells(s);
    }
    if Spells(s, d) {
      var ds, ms :| ds in DaySpellings(d.day) && ms in MonthSpellings(d.month)
                    && s == ds + "-" + ms + "-" + Pad4(d.year);
      SpellingParses(ds, ms, d);
    }
  }

  /** Formatting then parsing gives the same date back. */
  lemma ParseFormatRoundTrip(d: Date)
    requires Valid(d)
    ensures Parse(FormatDMY(d)) == Some(d)
  {
    assert Spells(FormatDMY(d), d) by {
      assert Pad2(d.day) in DaySpellings(d.day) && Pad2(d.month) in MonthSpellings(d.month);
    }
    ParseExact(FormatDMY(d), d);
  }

  /** Different dates have different `%d-%m-%Y` texts. */
  lemma FormatDMYInjective(d: Date, e: Date)
    requires Valid(d) && Valid(e) && FormatDMY(d) == FormatDMY(e)
    ensures d == e
  {
    ParseFormatRoundTrip(d);
    ParseFormatRoundTrip(e);
  }

  /** Normalising is idempotent, and keeps the date the text denotes. */
  lemma NormalizeIdempotent(s: string)
    requires Normalize(s).Some?
    ensures Parse(Normalize(s).value) == Parse(s)
    ensures Normalize(Normalize(s).value) == Normalize(s)
  {
    ParseFormatRoundTrip(Parse(s).value);
  }

  /** An already-canonical text is left unchanged by normalising. */
  lemma NormalizeCanonical(d: Date)
    requires Valid(d)
    ensures Normalize(FormatDMY(d)) == Some(FormatDMY(d))
  {
    ParseFormatRoundTrip(d);
  }

  /** The ISO text is the `%d-%m-%Y` text with its three fields reversed. */
  lemma ISOIsReversedDMY(d: Date)
    requires Valid(d)
    ensures var dmy := FormatDMY(d);
            FormatISO(d) == dmy[6..10] + "-" + dmy[3..5] + "-" + dmy[0..2]
  {
    var dmy := FormatDMY(d);
    assert dmy[6..10] == Pad4(d.year);
    assert dmy[3..5] == Pad2(d.month);
    assert dmy[0..2] == Pad2(d.day);
  }

  /** Different dates have different ISO texts. */
  lemma FormatISOInjective(d: Date, e: Date)
    requires Valid(d) && Valid(e) && FormatISO(d) == FormatISO(e)
    ensures d == e
  {
    var a, b := FormatISO(d), FormatISO(e);
    assert Pad4(d.year) == a[0..4] == b[0..4] == Pad4(e.year);
    assert Pad2(d.month) == a[5..7] == b[5..7] == Pad2(e.month);
    assert Pad2(d.day) == a[8..10] == b[8..10] == Pad2(e.day);
  }

  // The pattern's rejections: an impossible month, 30 February, 29 February
  // of a common year, year 0, an impossible day, a two-digit year.

  lemma RejectsMonth13() ensures Parse("01-13-2024") == None {}
  lemma RejectsFebruary30() ensures Parse("30-02-2024") == None {}
  lemma RejectsFebruary29InCommonYear() ensures Parse("29-02-2023") == None {}
  lemma RejectsYearZero() ensures Parse("01-01-0000") == None {}
  lemma RejectsDay32() ensures Parse("32-01-2024") == None {}
  lemma RejectsTwoDigitYear() ensures Parse("1-1-24") == None {}

  // The pattern's tolerance: 29 February of a leap year, unpadded and
  // space-padded days and months, which normalising pads with zeros.

  lemma AcceptsFebruary29InLeapYear()
    ensures Parse("29-02-2024") == Some(Date(29, 2, 2024))
  {
    var s := "29-02-2024";
    assert DayToken(s) == Some((29, 2));
    assert s[3..] == "02-2024";
    assert MonthToken("02-2024") == Some((2, 2));
    assert "02-2024"[3..] == "2024";
    Pad4Of2024();
    ParseOf(s, 2, 2, Date(29, 2, 2024));
  }

  lemma AcceptsUnpadded()
    ensures Parse("5-3-2024") == Some(Date(5, 3, 2024))
  {
    var s := "5-3-2024";
    assert DayToken(s) == Some((5, 1));
    assert s[2..] == "3-2024";
    assert MonthToken("3-2024") == Some((3, 1));
    assert "3-2024"[2..] == "2024";
    Pad4Of2024();
    ParseOf(s, 1, 1, Date(5, 3, 2024));
  }

  lemma AcceptsSpacePaddedDay()
    ensures Parse(" 5-03-2024") == Some(Date(5, 3, 2024))
  {
    var s := " 5-03-2024";
    assert DayToken(s) == Some((5, 2));
    assert s[3..] == "03-2024";
    assert MonthToken("03-2024") == Some((3, 2));
    assert "03-2024"[3..] == "2024";
    Pad4Of2024();
    ParseOf(s, 2, 2, Date(5, 3, 2024));
  }

  lemma Pad4Of2024()
    ensures Pad4(2024) == "2024"
  {
    assert Pad2(20) == "20" && Pad2(24) == "24";
  }

  /** A day of January 2024 below the tenth prints with a leading zero. */
  lemma FormatsJanuary2024(n: int)
    requires 1 <= n <= 9
    ensures FormatDMY(Date(n, 1, 2024)) == ['0', Digit(n)] + "-01-2024"
  {
    assert Pad2(n) == ['0', Digit(n)] && Pad2(1) == "01";
    Pad4Of2024();
  }

  lemma FormatsMarchFifth()
    ensures FormatDMY(Date(5, 3, 2024)) == "05-03-2024"
  {
    assert Pad2(5) == "05" && Pad2(3) == "03";
    Pad4Of2024();
    assert FormatDMY(Date(5, 3, 2024)) == "05" + "-" + "03" + "-" + "2024";
  }

  lemma NormalizePadsWithZeros()
    ensures Normalize("5-3-2024") == Some("05-03-2024")
  {
    AcceptsUnpadded();
    FormatsMarchFifth();
  }
}
