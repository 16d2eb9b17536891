/** UTC instants, the text `datetime.isoformat()` gives them, and the order of both.

    A stored timestamp is `YYYY-MM-DDTHH:MM:SS`, then `.ffffff` only when the microsecond
    is not zero, then `+00:00`. SQLite compares these texts byte by byte. */
module Timestamps {
  import opened Wrappers
  import opened TextOrder

  datatype Utc = Utc(year: int, month: int, day: int, hour: int, minute: int, second: int, micro: int)

  predicate IsLeap(year: int) {
    year % 4 == 0 && (year % 100 != 0 || year % 400 == 0)
  }

  function DaysInMonth(year: int, month: int): int {
    if month == 2 then (if IsLeap(year) then 29 else 28)
    else if month in {4, 6, 9, 11} then 30
    else 31
  }

  predicate Valid(t: Utc) {
    && 1 <= t.year <= 9999 && 1 <= t.month <= 12 && 1 <= t.day <= DaysInMonth(t.year, t.month)
    && 0 <= t.hour < 24 && 0 <= t.minute < 60 && 0 <= t.second < 60 && 0 <= t.micro < 1_000_000
  }

  // ---------- Instants as microseconds of the proleptic Gregorian calendar ----------

  function DaysBeforeYear(year: int): int
    requires 1 <= year
    decreases year
  {
    if year == 1 then 0 else DaysBeforeYear(year - 1) + (if IsLeap(year - 1) then 366 else 365)
  }

  function DaysBeforeMonth(year: int, month: int): int
    requires 1 <= month
    decreases month
  {
    if month == 1 then 0 else DaysBeforeMonth(year, month - 1) + DaysInMonth(year, month - 1)
  }

  function Micros(t: Utc): int
    requires Valid(t)
  {
    var days := DaysBeforeYear(t.year) + DaysBeforeMonth(t.year, t.month) + t.day;
    (((days * 24 + t.hour) * 60 + t.minute) * 60 + t.second) * 1_000_000 + t.micro
  }

  /** Earlier by the calendar fields, most significant first. */
  predicate Before(a: Utc, b: Utc) {
    a.year < b.year || (a.year == b.year &&
    (a.month < b.month || (a.month == b.month &&
    (a.day < b.day || (a.day == b.day &&
    (a.hour < b.hour || (a.hour == b.hour &&
    (a.minute < b.minute || (a.minute == b.minute &&
    (a.second < b.second || (a.second == b.second &&
    a.micro < b.micro)))))))))))
  }

  lemma {:induction false} YearsGrow(y: int, z: int)
    requires 1 <= y < z
    ensures DaysBeforeYear(y) + (if IsLeap(y) then 366 else 365) <= DaysBeforeYear(z)
    decreases z
  {
    if y + 1 < z {
      YearsGrow(y, z - 1);
    }
  }

  lemma {:induction false} MonthsGrow(year: int, m: int, n: int)
    requires 1 <= m < n
    ensures DaysBeforeMonth(year, m) + DaysInMonth(year, m) <= DaysBeforeMonth(year, n)
    decreases n
  {
    if m + 1 < n {
      MonthsGrow(year, m, n - 1);
    }
  }

  /** Twelve months make a year of 365 or 366 days. */
  lemma MonthsFillYear(year: int)
    ensures DaysBeforeMonth(year, 13) == if IsLeap(year) then 366 else 365
  {
    assert DaysBeforeMonth(year, 4) == 59 + (if IsLeap(year) then 1 else 0) + 31;
    assert DaysBeforeMonth(year, 7) == DaysBeforeMonth(year, 4) + 91;
    assert DaysBeforeMonth(year, 10) == DaysBeforeMonth(year, 7) + 92;
    assert DaysBeforeMonth(year, 13) == DaysBeforeMonth(year, 10) + 92;
  }

  lemma DayInYear(t: Utc)
    requires Valid(t)
    ensures 1 <= DaysBeforeMonth(t.year, t.month) + t.day <= if IsLeap(t.year) then 366 else 365
  {
    MonthsFillYear(t.year);
    MonthsGrow(t.year, t.month, 13);
    if t.month > 1 {
      MonthsGrow(t.year, 1, t.month);
    }
  }

  lemma BeforeIsSmaller(a: Utc, b: Utc)
    requires Valid(a) && Valid(b) && Before(a, b)
    ensures Micros(a) < Micros(b)
  {
    DayInYear(a);
    DayInYear(b);
    if a.year < b.year {
      YearsGrow(a.year, b.year);
    } else if a.month < b.month {
      MonthsGrow(a.year, a.month, b.month);
    }
  }

  /** The calendar order is the order of instants, and the fields determine the instant uniquely. */
  lemma BeforeIffEarlier(a: Utc, b: Utc)
    requires Valid(a) && Valid(b)
    ensures Before(a, b) <==> Micros(a) < Micros(b)
    ensures Micros(a) == Micros(b) ==> a == b
  {
    if Before(a, b) {
      BeforeIsSmaller(a, b);
    } else if a != b {
      BeforeIsSmaller(b, a);
    }
  }

  // ---------- isoformat ----------

  function Digit(d: int): char
    requires 0 <= d < 10
  {
    (d + 48) as char
  }

  /** `n` in decimal with exactly `width` digits. */
  function Pad(n: int, width: nat): (s: string)
    requires 0 <= n
    ensures |s| == width
  {
    if width == 0 then "" else Pad(n / 10, width - 1) + [Digit(n % 10)]
  }

  function Fraction(micro: int): string
    requires 0 <= micro
  {
    if micro == 0 then "" else "." + Pad(micro, 6)
  }

  function IsoFormat(t: Utc): string
    requires Valid(t)
  {
    Pad(t.year, 4) + ("-" + (Pad(t.month, 2) + ("-" + (Pad(t.day, 2) + ("T" + (Pad(t.hour, 2) +
    (":" + (Pad(t.minute, 2) + (":" + (Pad(t.second, 2) + (Fraction(t.micro) + "+00:00")))))))))))
  }

  function Pow10(n: nat): nat {
    if n == 0 then 1 else 10 * Pow10(n - 1)
  }

  /** Fixed-width decimals sort as numbers and lose nothing. */
  lemma {:induction false} PadOrder(a: int, b: int, width: nat)
    requires 0 <= a < Pow10(width) && 0 <= b < Pow10(width)
    ensures Less(Pad(a, width), Pad(b, width)) <==> a < b
    ensures Pad(a, width) == Pad(b, width) ==> a == b
  {
    if width > 0 {
      PadOrder(a / 10, b / 10, width - 1);
      var (p, q, x, y) := (Pad(a / 10, width - 1), Pad(b / 10, width - 1), [Digit(a % 10)], [Digit(b % 10)]);
      LessByPrefix(p, q, x, y);
      assert Less(x, y) <==> a % 10 < b % 10;
      if Pad(a, width) == Pad(b, width) {
        assert (p + x)[..width - 1] == p && (q + y)[..width - 1] == q;
        assert (p + x)[width - 1] == x[0] && (q + y)[width - 1] == y[0];
      }
    }
  }

  /** One field in front of the rest decides first. */
  lemma FieldOrder(a: int, b: int, width: nat, sep: string, x: string, y: string)
    requires 0 <= a < Pow10(width) && 0 <= b < Pow10(width) && |sep| <= 1
    ensures Less(Pad(a, width) + (sep + x), Pad(b, width) + (sep + y)) <==> a < b || (a == b && Less(x, y))
  {
    PadOrder(a, b, width);
    LessByPrefix(Pad(a, width), Pad(b, width), sep + x, sep + y);
    LessByPrefix(sep, sep, x, y);
    LessIsTotal(sep, sep);
  }

  /** The optional fraction keeps the order because '+' sorts before '.'. */
  lemma FractionOrder(a: int, b: int)
    requires 0 <= a < 1_000_000 && 0 <= b < 1_000_000
    ensures Less(Fraction(a) + "+00:00", Fraction(b) + "+00:00") <==> a < b
  {
    var tail := "+00:00";
    assert Pow10(6) == 1_000_000;
    LessIsTotal(tail, tail);
    if a > 0 && b > 0 {
      PadOrder(a, b, 6);
      LessByPrefix("." + Pad(a, 6), "." + Pad(b, 6), tail, tail);
      LessByPrefix(".", ".", Pad(a, 6), Pad(b, 6));
      assert ("." + Pad(a, 6))[1..] == Pad(a, 6) && ("." + Pad(b, 6))[1..] == Pad(b, 6);
    } else if a > 0 {
      assert (Fraction(a) + tail)[0] == '.' && (Fraction(b) + tail)[0] == '+';
    } else if b > 0 {
      assert (Fraction(a) + tail)[0] == '+' && (Fraction(b) + tail)[0] == '.';
    } else {
      assert Fraction(a) + tail == tail;
    }
  }

  lemma IsoFormatBefore(a: Utc, b: Utc)
    requires Valid(a) && Valid(b)
    ensures Less(IsoFormat(a), IsoFormat(b)) <==> Before(a, b)
  {
    var (a6, b6) := (Fraction(a.micro) + "+00:00", Fraction(b.micro) + "+00:00");
    var (a5, b5) := (Pad(a.second, 2) + a6, Pad(b.second, 2) + b6);
    var (a4, b4) := (Pad(a.minute, 2) + (":" + a5), Pad(b.minute, 2) + (":" + b5));
    var (a3, b3) := (Pad(a.hour, 2) + (":" + a4), Pad(b.hour, 2) + (":" + b4));
    var (a2, b2) := (Pad(a.day, 2) + ("T" + a3), Pad(b.day, 2) + ("T" + b3));
    var (a1, b1) := (Pad(a.month, 2) + ("-" + a2), Pad(b.month, 2) + ("-" + b2));
    assert Pow10(2) == 100 && Pow10(4) == 10_000;
    FractionOrder(a.micro, b.micro);
    assert "" + a6 == a6 && "" + b6 == b6;
    FieldOrder(a.second, b.second, 2, "", a6, b6);
    FieldOrder(a.minute, b.minute, 2, ":", a5, b5);
    FieldOrder(a.hour, b.hour, 2, ":", a4, b4);
    FieldOrder(a.day, b.day, 2, "T", a3, b3);
    FieldOrder(a.month, b.month, 2, "-", a2, b2);
    FieldOrder(a.year, b.year, 4, "-", a1, b1);
  }

  /** Text order is time order: the encoding embeds instants into strings. */
  lemma TextOrderIsTimeOrder(a: Utc, b: Utc)
    requires Valid(a) && Valid(b)
    ensures Less(IsoFormat(a), IsoFormat(b)) <==> Micros(a) < Micros(b)
    ensures IsoFormat(a) == IsoFormat(b) <==> Micros(a) == Micros(b)
  {
    IsoFormatBefore(a, b);
    IsoFormatBefore(b, a);
    BeforeIffEarlier(a, b);
    BeforeIffEarlier(b, a);
    LessIsTotal(IsoFormat(a), IsoFormat(b));
  }

  // ---------- fromisoformat ----------

  predicate IsDigit(c: char) {
    '0' <= c <= '9'
  }

  function ParseDigits(s: string): (n: Option<nat>) {
    if s == "" then Some(0)
    else if !IsDigit(s[|s| - 1]) then None
    else match ParseDigits(s[..|s| - 1])
      case None => None
      case Some(high) => Some(10 * high + (s[|s| - 1] as int - 48))
  }

  /** A two- or more-digit field at a fixed position. */
  function Field(s: string, from: nat, width: nat): Option<nat> {
    if from + width <= |s| then ParseDigits(s[from..from + width]) else None
  }

  /** The microseconds after the seconds: none, or a point and six digits. */
  function ParseFraction(s: string): Option<nat> {
    if s == "+00:00" then Some(0)
    else if |s| == 13 && s[0] == '.' && s[7..] == "+00:00" then ParseDigits(s[1..7])
    else None
  }

  /** `datetime.fromisoformat` on the one layout the stores write. */
  function FromIsoFormat(s: string): Option<Utc> {
    if |s| < 25 || s[4] != '-' || s[7] != '-' || s[10] != 'T' || s[13] != ':' || s[16] != ':' then None
    else
      match (Field(s, 0, 4), Field(s, 5, 2), Field(s, 8, 2), Field(s, 11, 2), Field(s, 14, 2), Field(s, 17, 2),
             ParseFraction(s[19..]))
      case (Some(y), Some(mo), Some(d), Some(h), Some(mi), Some(sec), Some(us)) =>
        var t := Utc(y, mo, d, h, mi, sec, us);
        if Valid(t) then Some(t) else None
      case _ => None
  }

  lemma {:induction false} ParsePad(n: int, width: nat)
    requires 0 <= n < Pow10(width)
    ensures ParseDigits(Pad(n, width)) == Some(n)
  {
    if width > 0 {
      ParsePad(n / 10, width - 1);
      var s := Pad(n, width);
      assert s[..|s| - 1] == Pad(n / 10, width - 1);
    }
  }

  ghost predicate EndsWith(s: string, from: nat, rest: string) {
    from + |rest| == |s| && s[from..] == rest
  }

  /** A field of known width and its separator, inside a longer text. */
  lemma CutField(s: string, from: nat, field: string, width: nat, sep: char, rest: string)
    requires EndsWith(s, from, field + ([sep] + rest)) && |field| == width
    ensures from + width < |s| && s[from..from + width] == field && s[from + width] == sep
    ensures EndsWith(s, from + width + 1, rest)
  {
    var tail := s[from..];
    assert tail[..width] == field && tail[width..] == [sep] + rest && tail[width] == sep;
    assert ([sep] + rest)[1..] == rest && tail[width + 1..] == rest;
  }

  lemma CutLast(s: string, from: nat, field: string, width: nat, rest: string)
    requires EndsWith(s, from, field + rest) && |field| == width
    ensures from + width + |rest| == |s| && s[from..from + width] == field && s[from + width..] == rest
  {
    var tail := s[from..];
    assert tail[..width] == field && tail[width..] == rest;
  }

  lemma ParseFractionInverse(micro: int)
    requires 0 <= micro < 1_000_000
    ensures ParseFraction(Fraction(micro) + "+00:00") == Some(micro)
  {
    assert Pow10(6) == 1_000_000;
    if micro == 0 {
      assert Fraction(micro) + "+00:00" == "+00:00";
    } else {
      ParsePad(micro, 6);
      var (digits, tail) := (Pad(micro, 6), "+00:00");
      var s := Fraction(micro) + tail;
      assert s == ['.'] + (digits + tail) && s[0] == '.';
      assert EndsWith(s, 1, digits + tail);
      CutLast(s, 1, digits, 6, tail);
    }
  }

  /** Where the fields of a written timestamp stand. */
  lemma FieldsOfIsoFormat(t: Utc)
    requires Valid(t)
    ensures var s := IsoFormat(t);
      && 25 <= |s| && s[4] == '-' && s[7] == '-' && s[10] == 'T' && s[13] == ':' && s[16] == ':'
      && s[0..4] == Pad(t.year, 4) && s[5..7] == Pad(t.month, 2) && s[8..10] == Pad(t.day, 2)
      && s[11..13] == Pad(t.hour, 2) && s[14..16] == Pad(t.minute, 2) && s[17..19] == Pad(t.second, 2)
      && s[19..] == Fraction(t.micro) + "+00:00"
  {
    var (y, mo, d) := (Pad(t.year, 4), Pad(t.month, 2), Pad(t.day, 2));
    var (h, mi, sec) := (Pad(t.hour, 2), Pad(t.minute, 2), Pad(t.second, 2));
    var r6 := Fraction(t.micro) + "+00:00";
    var r5 := sec + r6;
    var r4 := mi + (":" + r5);
    var r3 := h + (":" + r4);
    var r2 := d + ("T" + r3);
    var r1 := mo + ("-" + r2);
    var s := IsoFormat(t);
    assert s == y + ("-" + r1);
    assert |y| == 4 && |mo| == 2 && |d| == 2 && |h| == 2 && |mi| == 2 && |sec| == 2 && 6 <= |r6|;
    hide Fraction, IsoFormat, Pad;
    assert EndsWith(s, 0, y + ("-" + r1));
    hide EndsWith;
    CutField(s, 0, y, 4, '-', r1);
    CutField(s, 5, mo, 2, '-', r2);
    CutField(s, 8, d, 2, 'T', r3);
    CutField(s, 11, h, 2, ':', r4);
    CutField(s, 14, mi, 2, ':', r5);
    CutLast(s, 17, sec, 2, r6);
  }

  /** Reading a written timestamp gives it back. */
  lemma FromIsoFormatInverse(t: Utc)
    requires Valid(t)
    ensures FromIsoFormat(IsoFormat(t)) == Some(t)
  {
    assert Pow10(2) == 100 && Pow10(4) == 10_000;
    FieldsOfIsoFormat(t);
    ParsePad(t.year, 4);
    ParsePad(t.month, 2);
    ParsePad(t.day, 2);
    ParsePad(t.hour, 2);
    ParsePad(t.minute, 2);
    ParsePad(t.second, 2);
    ParseFractionInverse(t.micro);
    hide IsoFormat, Pad, ParseDigits, ParseFraction, Fraction, Pow10;
  }
}
