/**
 Period keys. A billing period is keyed by the ISO date of its first day,
 `YYYY-MM-01`; a month input holds `YYYY-MM`. This module converts between
 the two, falling back to the current month (read from a clock passed in)
 when the month text is missing or malformed.
 */
module Period {
  import opened JsString

  type MonthIndex = m: int | 0 <= m < 12

  /** A reading of the local wall clock: `getFullYear()` and the zero-based `getMonth()`. */
  datatype LocalDate = LocalDate(year: int, monthIndex: MonthIndex)

  /** A month value: four year characters, a dash, two month characters, no other dash. */
  predicate IsMonthValue(m: string)
  {
    |m| == 7 && m[4] == '-' && '-' !in m[..4] && '-' !in m[5..]
  }

  /** A period key: a month value followed by `-01`. */
  predicate IsPeriodKey(k: string)
  {
    |k| == 10 && IsMonthValue(k[..7]) && k[7..] == "-01"
  }

  /**
   The year of `new Date(year, month, 1)`: the Date constructor reads a year
   from 0 to 99 as 1900 to 1999 and keeps every other year.
   */
  function ConstructedYear(year: int): (y: int)
    ensures y == year || 1900 <= y <= 1999
    ensures y < 0 <==> year < 0
    ensures 0 <= year ==> 100 <= y
    ensures y != year <==> 0 <= year <= 99
  {
    if 0 <= year <= 99 then 1900 + year else year
  }

  /** The two-character month of the period that contains `now`. */
  function MonthDigits(now: LocalDate): (mm: string)
    ensures |mm| == 2 && IsDigits(mm) && '-' !in mm
    ensures DigitsValue(mm) == now.monthIndex + 1
  {
    var digits := NatToString(now.monthIndex + 1);
    var mm := PadStart(digits, 2, '0');
    if |digits| == 1 then
      assert mm == ['0'] + digits;
      assert mm[..1] == "0";
      mm
    else
      assert mm == digits;
      mm
  }

  /** Where the pieces of `year + "-" + mm + "-01"` sit, for a two-character month. */
  lemma KeyLayout(year: string, mm: string)
    requires |mm| == 2
    ensures var r := year + "-" + mm + "-01";
      && |r| == |year| + 6
      && r[|r| - 3..] == "-01" && r[|r| - 6] == '-'
      && r[..|r| - 6] == year && r[|r| - 5..|r| - 3] == mm
  {
  }

  /** A four-character dash-free year and a dash-free two-character month make a period key. */
  lemma KeyOfFourDigitYear(year: string, mm: string)
    requires |year| == 4 && |mm| == 2 && '-' !in year && '-' !in mm
    ensures IsPeriodKey(year + "-" + mm + "-01")
  {
    var r := year + "-" + mm + "-01";
    assert r[..7] == year + "-" + mm;
    assert r[..7][..4] == year && r[..7][5..] == mm;
    assert r[7..] == "-01";
  }

  /** `currentPeriodISO()`: the first day of the month of `now`, as `yyyy-mm-01`. */
  function CurrentPeriodISO(now: LocalDate): string
  {
    IntToString(ConstructedYear(now.year)) + "-" + MonthDigits(now) + "-01"
  }

  /**
   The current key is the year as `String` writes it, a dash, the month as
   two digits from 01 to 12, and `-01`.
   */
  lemma CurrentPeriodShape(now: LocalDate)
    ensures var r := CurrentPeriodISO(now);
      && |r| >= 7 && r[|r| - 3..] == "-01" && r[|r| - 6] == '-'
      && r[..|r| - 6] == IntToString(ConstructedYear(now.year))
      && IsDigits(r[|r| - 5..|r| - 3]) && 1 <= DigitsValue(r[|r| - 5..|r| - 3]) <= 12
      && DigitsValue(r[|r| - 5..|r| - 3]) == now.monthIndex + 1
  {
    var year := IntToString(ConstructedYear(now.year));
    var mm := MonthDigits(now);
    var r := CurrentPeriodISO(now);
    assert r == year + "-" + mm + "-01";
    KeyLayout(year, mm);
    assert |year| >= 1;
    assert r[|r| - 5..|r| - 3] == mm;
  }

  /** For a year from 1000 to 9999 the current key is a well-formed period key. */
  lemma CurrentPeriodIsKey(now: LocalDate)
    requires 1000 <= ConstructedYear(now.year) <= 9999
    ensures IsPeriodKey(CurrentPeriodISO(now))
  {
    var digits := NatToString(ConstructedYear(now.year));
    FourDigits(ConstructedYear(now.year));
    DigitsExclude(digits, '-');
    KeyOfFourDigitYear(digits, MonthDigits(now));
  }

  /** `monthToISOFirst(value)`: the period key of a `YYYY-MM` month text. */
  function MonthToISOFirst(value: string, now: LocalDate): (r: string)
    ensures value == "" ==> r == CurrentPeriodISO(now)
    ensures var pieces := Split(value, '-');
      if |pieces| >= 2 && pieces[0] != "" && pieces[1] != ""
      then Split(r, '-') == [pieces[0], pieces[1], "01"]
      else r == CurrentPeriodISO(now)
  {
    if value == "" then CurrentPeriodISO(now)
    else
      var pieces := Split(value, '-');
      var yyyy := pieces[0];
      // Destructuring a one-piece split leaves the month undefined, which is falsy like "".
      var mm := if |pieces| > 1 then pieces[1] else "";
      if yyyy == "" || mm == "" then CurrentPeriodISO(now)
      else
        ThreePieces(yyyy, mm, "01");
        assert yyyy + "-" + mm + "-01" == yyyy + "-" + mm + "-" + "01";
        yyyy + "-" + mm + "-01"
  }

  /** `isoToMonth(value)`: the first seven characters of the text, or all of it when shorter. */
  function IsoToMonth(value: string): (r: string)
    ensures |r| == if |value| < 7 then |value| else 7
    ensures r == value[..|r|]
  {
    if value == "" then "" else value[..if |value| < 7 then |value| else 7]
  }

  /** Three separator-free pieces joined with dashes split back into those pieces. */
  lemma ThreePieces(a: string, b: string, c: string)
    requires '-' !in a && '-' !in b && '-' !in c
    ensures Split(a + "-" + b + "-" + c, '-') == [a, b, c]
  {
    SplitAfterPiece(a, '-', b + "-" + c);
    assert a + "-" + b + "-" + c == a + ['-'] + (b + "-" + c);
    SplitAfterPiece(b, '-', c);
    assert b + "-" + c == b + ['-'] + c;
    SplitWithoutSeparator(c, '-');
  }

  /** The current period is a fixed point of the normalisation. */
  lemma CurrentPeriodIsNormal(now: LocalDate)
    ensures MonthToISOFirst(CurrentPeriodISO(now), now) == CurrentPeriodISO(now)
  {
    var c := CurrentPeriodISO(now);
    var year := ConstructedYear(now.year);
    var mm := MonthDigits(now);
    if year >= 0 {
      var digits := NatToString(year);
      DigitsExclude(digits, '-');
      KeepsYearAndMonth(digits, mm, "-01", now);
    } else {
      // A negative year starts the key with a dash, so its year piece is empty.
      assert c[0] == '-';
      SplitLeadingSeparator(c, '-');
    }
  }

  /** `monthToISOFirst` normalises: applying it to its own result changes nothing. */
  lemma Idempotent(value: string, now: LocalDate)
    ensures MonthToISOFirst(MonthToISOFirst(value, now), now) == MonthToISOFirst(value, now)
  {
    var r := MonthToISOFirst(value, now);
    var pieces := Split(value, '-');
    if |pieces| >= 2 && pieces[0] != "" && pieces[1] != "" {
      assert Split(r, '-') == [pieces[0], pieces[1], "01"];
      JoinSplit(r, '-');
      JoinSplit(MonthToISOFirst(r, now), '-');
    } else {
      CurrentPeriodIsNormal(now);
    }
  }

  /**
   A day or any further dash-separated text after the month is discarded:
   only the year and month pieces are kept.
   */
  lemma KeepsYearAndMonth(year: string, month: string, rest: string, now: LocalDate)
    requires year != "" && month != "" && '-' !in year && '-' !in month
    requires rest == "" || rest[0] == '-'
    ensures MonthToISOFirst(year + "-" + month + rest, now) == year + "-" + month + "-01"
  {
    var value := year + "-" + month + rest;
    assert value == year + ['-'] + (month + rest);
    SplitAfterPiece(year, '-', month + rest);
    if rest == "" {
      assert month + rest == month;
      SplitWithoutSeparator(month, '-');
    } else {
      assert month + rest == month + ['-'] + rest[1..];
      SplitAfterPiece(month, '-', rest[1..]);
    }
    var pieces := Split(value, '-');
    assert |pieces| >= 2 && pieces[0] == year && pieces[1] == month;
  }

  /** A month value becomes its period key by appending `-01`. */
  lemma MonthValueToKey(m: string, now: LocalDate)
    requires IsMonthValue(m)
    ensures MonthToISOFirst(m, now) == m + "-01"
    ensures IsPeriodKey(MonthToISOFirst(m, now))
  {
    var year, month := m[..4], m[5..];
    assert m == year + "-" + month;
    assert m + "" == m;
    KeepsYearAndMonth(year, month, "", now);
    var k := m + "-01";
    assert k[..7] == m && k[7..] == "-01";
  }

  /** Round trip from the month input: the month of the period key of a month value is that month value. */
  lemma MonthRoundTrip(m: string, now: LocalDate)
    requires IsMonthValue(m)
    ensures IsoToMonth(MonthToISOFirst(m, now)) == m
  {
    MonthValueToKey(m, now);
  }

  /** Round trip from the period key: normalising the month of a period key gives the key back. */
  lemma KeyRoundTrip(k: string, now: LocalDate)
    requires IsPeriodKey(k)
    ensures MonthToISOFirst(IsoToMonth(k), now) == k
  {
    MonthValueToKey(k[..7], now);
    assert k == k[..7] + "-01";
  }
}
