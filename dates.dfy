/** Capture dates and the dated destination folder a file is copied into. */
module Dates {
  import opened Options
  import opened Paths

  /** A calendar date as the importer reads it from a file's modification time. */
  datatype Date = Date(year: int, month: int, day: int)

  predicate IsLeapYear(y: int) {
    y % 4 == 0 && (y % 100 != 0 || y % 400 == 0)
  }

  function DaysInMonth(y: int, m: int): int
    requires 1 <= m <= 12
  {
    if m == 2 then (if IsLeapYear(y) then 29 else 28)
    else if m == 4 || m == 6 || m == 9 || m == 11 then 30
    else 31
  }

  /** A real date whose year has four digits. */
  predicate ValidDate(d: Date) {
    1000 <= d.year <= 9999 && 1 <= d.month <= 12 && 1 <= d.day <= DaysInMonth(d.year, d.month)
  }

  type CalendarDate = d: Date | ValidDate(d) witness Date(1970, 1, 1)

  /**
   * The quarter as the importer computes it, `month / 4 + 1`. This is not
   * the calendar quarter: April to July fall in the second, August to
   * November in the third, and only December in the fourth.
   */
  function Quarter(month: int): (q: int)
    requires 1 <= month <= 12
    ensures 1 <= q <= 4
    ensures q == 1 <==> 1 <= month <= 3
    ensures q == 2 <==> 4 <= month <= 7
    ensures q == 3 <==> 8 <= month <= 11
    ensures q == 4 <==> month == 12
  {
    month / 4 + 1
  }

  // Writing numbers as zero-padded decimal digits, as strftime does.

  function DigitChar(n: int): char
    requires 0 <= n <= 9
  {
    ('0' as int + n) as char
  }

  function Pad2(n: int): string
    requires 0 <= n <= 99
  {
    [DigitChar(n / 10), DigitChar(n % 10)]
  }

  function Pad4(n: int): string
    requires 0 <= n <= 9999
  {
    [DigitChar(n / 1000), DigitChar(n / 100 % 10), DigitChar(n / 10 % 10), DigitChar(n % 10)]
  }

  /** `strftime('%Y')` */
  function YearText(d: CalendarDate): string {
    Pad4(d.year)
  }

  /** `f'{year}-Q{quarter}'` */
  function QuarterText(d: CalendarDate): string {
    YearText(d) + "-Q" + [DigitChar(Quarter(d.month))]
  }

  /** `strftime('%Y-%m-%d')` */
  function DayText(d: CalendarDate): string {
    Pad4(d.year) + "-" + Pad2(d.month) + "-" + Pad2(d.day)
  }

  // Reading the folder names back, to state what they say.

  predicate IsDigit(c: char) {
    '0' <= c <= '9'
  }

  predicate AllDigits(s: string) {
    forall i :: 0 <= i < |s| ==> IsDigit(s[i])
  }

  /** The value of a string of decimal digits. */
  function Number(s: string): int
    requires AllDigits(s)
  {
    if s == [] then 0 else Number(s[..|s| - 1]) * 10 + (s[|s| - 1] as int - '0' as int)
  }

  function ParseNumber(s: string, width: nat): Option<int> {
    if |s| == width && AllDigits(s) then Some(Number(s)) else None
  }

  /** The year a `yyyy` folder name stands for. */
  function ParseYear(s: string): Option<int> {
    ParseNumber(s, 4)
  }

  /** The year and quarter a `yyyy-Qq` folder name stands for. */
  function ParseQuarterText(s: string): Option<(int, int)> {
    if |s| == 7 && s[4..6] == "-Q" then
      match (ParseNumber(s[..4], 4), ParseNumber(s[6..], 1))
      case (Some(y), Some(q)) => Some((y, q))
      case _ => None
    else None
  }

  /** The date a `yyyy-mm-dd` folder name stands for. */
  function ParseDayText(s: string): Option<Date> {
    if |s| == 10 && s[4] == '-' && s[7] == '-' then
      match (ParseNumber(s[..4], 4), ParseNumber(s[5..7], 2), ParseNumber(s[8..], 2))
      case (Some(y), Some(m), Some(d)) => Some(Date(y, m, d))
      case _ => None
    else None
  }

  lemma Pad2Reads(n: int)
    requires 0 <= n <= 99
    ensures ParseNumber(Pad2(n), 2) == Some(n)
  {
    var s := Pad2(n);
    assert s[..1] == [s[0]];
    assert s[..1][..0] == [];
    assert Number(s[..1]) == n / 10;
  }

  lemma Pad4Reads(n: int)
    requires 0 <= n <= 9999
    ensures ParseNumber(Pad4(n), 4) == Some(n)
  {
    var s := Pad4(n);
    assert s[..3][..2] == s[..2];
    assert s[..2][..1] == s[..1];
    assert s[..1] == [s[0]];
    assert s[..1][..0] == [];
    assert Number(s[..1]) == n / 1000;
    assert Number(s[..2]) == n / 100;
    assert Number(s[..3]) == n / 10;
  }

  /**
   * The destination folder of lines 125-127: four segments below the output
   * root, the label, then folders naming the year, the year and quarter, and
   * the day.
   */
  function Destination(outDir: Path, fileType: string, d: CalendarDate): (dest: Path)
    ensures |dest| == |outDir| + 4 && dest[..|outDir|] == outDir && dest[|outDir|] == fileType
  {
    outDir + [fileType, YearText(d), QuarterText(d), DayText(d)]
  }

  /** The dated folders of a destination read back as the date it was built from. */
  lemma DestinationReadsBack(outDir: Path, fileType: string, d: CalendarDate)
    ensures var dest := Destination(outDir, fileType, d);
      && ParseYear(dest[|outDir| + 1]) == Some(d.year)
      && ParseQuarterText(dest[|outDir| + 2]) == Some((d.year, Quarter(d.month)))
      && ParseDayText(dest[|outDir| + 3]) == Some(d)
  {
    var year, quarter, day := YearText(d), QuarterText(d), DayText(d);
    Pad4Reads(d.year);
    Pad2Reads(d.month);
    Pad2Reads(d.day);
    assert quarter[..4] == year && quarter[6..] == [DigitChar(Quarter(d.month))];
    assert day[..4] == year && day[5..7] == Pad2(d.month) && day[8..] == Pad2(d.day);
  }

  /** Two files land in the same folder only when they have the same label and date. */
  lemma DestinationDetermines(outDir: Path, t1: string, t2: string, d1: CalendarDate, d2: CalendarDate)
    requires Destination(outDir, t1, d1) == Destination(outDir, t2, d2)
    ensures t1 == t2 && d1 == d2
  {
    var k := |outDir|;
    DestinationReadsBack(outDir, t1, d1);
    DestinationReadsBack(outDir, t2, d2);
    assert Destination(outDir, t1, d1)[k] == t1;
    assert ParseDayText(Destination(outDir, t1, d1)[k + 3]) == Some(d1);
  }
}
