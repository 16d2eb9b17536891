/** Calendar months as text, as window bounds in a business time zone, and the month before today. */
module Months {
  import opened Wrappers
  import opened Timestamps

  datatype MonthError = BadMonth | YearOutOfRange

  /** Four digits, a hyphen and a month from 01 to 12; the pattern's end anchor also accepts one final newline. */
  function ParseMonth(text: string): Result<(int, int), MonthError> {
    var body := if |text| == 8 && text[7] == '\n' then text[..7] else text;
    if |body| != 7 || body[4] != '-' then Err(BadMonth)
    else match (ParseDigits(body[..4]), ParseDigits(body[5..]))
      case (Some(year), Some(month)) => if 1 <= month <= 12 then Ok((year, month)) else Err(BadMonth)
      case _ => Err(BadMonth)
  }

  /** Months counted from January of year 0. */
  function Index(year: int, month: int): int {
    12 * year + month - 1
  }

  /** The first instant of each month, by index, on the wall clock of one time zone. */
  type Zone = int -> int

  ghost predicate Increasing(zone: Zone) {
    forall m, n :: m < n ==> zone(m) < zone(n)
  }

  /** The first instant of a month, for the years a datetime can hold. */
  function FirstOf(zone: Zone, year: int, month: int): Result<int, MonthError> {
    if 1 <= year <= 9999 then Ok(zone(Index(year, month))) else Err(YearOutOfRange)
  }

  /** `[start, end)` of the month, December wrapping into the next year. */
  function Window(zone: Zone, text: string): Result<(int, int), MonthError> {
    match ParseMonth(text)
    case Err(e) => Err(e)
    case Ok((year, month)) =>
      var endYear := year + if month == 12 then 1 else 0;
      var endMonth := if month == 12 then 1 else month + 1;
      match (FirstOf(zone, year, month), FirstOf(zone, endYear, endMonth))
      case (Ok(start), Ok(end)) => Ok((start, end))
      case _ => Err(YearOutOfRange)
  }

  function MonthText(index: int): string
    requires 0 <= index
  {
    Pad(index / 12, 4) + ("-" + Pad(index % 12 + 1, 2))
  }

  /** Every month from January of year 1 to November 9999 has the window from its start to the next month's. */
  lemma WindowOfMonth(zone: Zone, index: int)
    requires 0 <= index < 120_000
    ensures ParseMonth(MonthText(index)) == Ok((index / 12, index % 12 + 1))
    ensures ParseMonth(MonthText(index) + "\n") == ParseMonth(MonthText(index))
    ensures Window(zone, MonthText(index)) ==
            if 12 <= index < 119_999 then Ok((zone(index), zone(index + 1))) else Err(YearOutOfRange)
  {
    var (text, year, month) := (MonthText(index), index / 12, index % 12 + 1);
    assert Pow10(4) == 10_000 && Pow10(2) == 100;
    ParsePad(year, 4);
    ParsePad(month, 2);
    assert text[..4] == Pad(year, 4) && text[5..] == Pad(month, 2);
    assert (text + "\n")[..7] == text;
    assert Index(year, month) == index;
    assert Index(if month == 12 then year + 1 else year, if month == 12 then 1 else month + 1) == index + 1;
  }

  lemma {:induction false} PadOfDigits(s: string)
    ensures ParseDigits(s).Some? ==> ParseDigits(s).value < Pow10(|s|) && Pad(ParseDigits(s).value, |s|) == s
  {
    if s != "" {
      var front := s[..|s| - 1];
      PadOfDigits(front);
      if ParseDigits(s).Some? {
        var n := ParseDigits(s).value;
        assert n / 10 == ParseDigits(front).value && Digit(n % 10) == s[|s| - 1];
        assert s == front + [s[|s| - 1]];
      }
    }
  }

  lemma TextOfFields(body: string, year: nat, month: nat)
    requires |body| == 7 && body[4] == '-' && 1 <= month <= 12
    requires ParseDigits(body[..4]) == Some(year) && ParseDigits(body[5..]) == Some(month)
    ensures 0 <= Index(year, month) < 120_000 && body == MonthText(Index(year, month))
  {
    PadOfDigits(body[..4]);
    PadOfDigits(body[5..]);
    assert Pow10(4) == 10_000;
    hide ParseDigits, Pad, Pow10;
    assert body == body[..4] + ("-" + body[5..]);
    assert Index(year, month) / 12 == year && Index(year, month) % 12 + 1 == month;
  }

  /** Nothing else is read as a month: the accepted texts are the months' own, with or without a final newline. */
  lemma OnlyMonthTextsParse(text: string)
    requires ParseMonth(text).Ok?
    ensures var (year, month) := ParseMonth(text).value;
      && 0 <= Index(year, month) < 120_000
      && (text == MonthText(Index(year, month)) || text == MonthText(Index(year, month)) + "\n")
  {
    hide ParseDigits, MonthText, Index;
    var body := if |text| == 8 && text[7] == '\n' then text[..7] else text;
    var (year, month) := ParseMonth(text).value;
    TextOfFields(body, year, month);
    assert text != body ==> text == body + "\n";
  }

  // ---------- The month before today ----------

  /** A number as `str` writes it: no padding. */
  function Decimal(n: int): string
    requires 0 <= n
  {
    if n < 10 then Pad(n, 1) else Decimal(n / 10) + [Digit(n % 10)]
  }

  function PreviousMonth(year: int, month: int): string
    requires 1 <= year && 1 <= month <= 12
  {
    if month == 1 then Decimal(year - 1) + ("-" + "12") else Decimal(year) + ("-" + Pad(month - 1, 2))
  }

  lemma DecimalOfYear(year: int)
    requires 0 <= year <= 9999
    ensures 1000 <= year ==> Decimal(year) == Pad(year, 4)
    ensures year < 1000 ==> |Decimal(year)| < 4
  {
    assert Decimal(year / 1000) == Pad(year / 1000, 1);
    assert year / 10 / 10 == year / 100 && year / 100 / 10 == year / 1000;
    if 1000 <= year {
      assert Decimal(year / 100) == Pad(year / 100, 2);
      assert Decimal(year / 10) == Pad(year / 10, 3);
    }
  }

  /** The month before today covers exactly the time from its own start to the start of today's month. The name it
      is given is readable only from the year 1000 on, because the year is not padded. */
  lemma PreviousMonthEndsWhereTodayStarts(zone: Zone, year: int, month: int)
    requires 1 <= year <= 9999 && 1 <= month <= 12
    ensures Window(zone, PreviousMonth(year, month)) ==
            if 12_000 <= Index(year, month) - 1 then Ok((zone(Index(year, month) - 1), zone(Index(year, month))))
            else Err(BadMonth)
  {
    var index := Index(year, month) - 1;
    DecimalOfYear(index / 12);
    assert Pad(12, 2) == "12" by {
      assert Pad(12, 2) == Pad(1, 1) + [Digit(2)];
      assert Pad(1, 1) == Pad(0, 0) + [Digit(1)];
    }
    if 12_000 <= index {
      assert PreviousMonth(year, month) == MonthText(index);
      WindowOfMonth(zone, index);
    } else {
      assert |PreviousMonth(year, month)| < 7;
    }
  }

  // ---------- Months tile time ----------

  predicate InMonth(zone: Zone, m: int, t: int) {
    zone(m) <= t < zone(m + 1)
  }

  lemma {:induction false} SomeMonth(zone: Zone, lo: int, hi: int, t: int)
    requires zone(lo) <= t < zone(hi) && lo < hi
    ensures exists m :: lo <= m < hi && InMonth(zone, m, t)
    decreases hi - lo
  {
    if t < zone(lo + 1) {
      assert InMonth(zone, lo, t);
    } else {
      SomeMonth(zone, lo + 1, hi, t);
    }
  }

  /** Every instant of a span of months lies in exactly one of them. */
  lemma ExactlyOneMonth(zone: Zone, lo: int, hi: int, t: int)
    requires Increasing(zone) && lo <= hi && zone(lo) <= t < zone(hi)
    ensures exists m :: lo <= m < hi && InMonth(zone, m, t)
    ensures forall m, n :: InMonth(zone, m, t) && InMonth(zone, n, t) ==> m == n
  {
    SomeMonth(zone, lo, hi, t);
    forall m, n | InMonth(zone, m, t) && InMonth(zone, n, t)
      ensures m == n
    {
      assert m + 1 < n ==> zone(m + 1) < zone(n);
      assert n + 1 < m ==> zone(n + 1) < zone(m);
    }
  }
}
