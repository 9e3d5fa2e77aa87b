/**
 Reading a timestamp back by its columns, from the format alone (section 5.6 of RFC 3339):
 digits and separators at fixed places, the date counted from the epoch by the calendar's
 own year and month lengths.
 */
module StampReader {
  import opened Common
  import opened Timestamps
  import Civil

  // ---------------------------------------------------------------------------
  // Counting days
  // ---------------------------------------------------------------------------

  function YearLength(year: int): int {
    if Civil.IsLeap(year) then 366 else 365
  }

  /** Days from 1970-01-01 to the first of January of `year`. */
  function DaysBeforeYear(year: int): int
    decreases year
  {
    if year <= 1970 then 0 else DaysBeforeYear(year - 1) + YearLength(year - 1)
  }

  function DaysBeforeMonth(year: int, month: int): int
    decreases month
  {
    if month <= 1 then 0 else DaysBeforeMonth(year, month - 1) + Civil.DaysInMonth(year, month - 1)
  }

  /** Days from 1970-01-01 to a date in 1970 or later. */
  function DaysOf(d: Civil.Date): int {
    DaysBeforeYear(d.year) + DaysBeforeMonth(d.year, d.month) + d.day - 1
  }

  lemma {:induction false} MonthsOfYear(year: int)
    ensures DaysBeforeMonth(year, 12) + 31 == YearLength(year)
  {
    hide Civil.IsLeap;
    assert DaysBeforeMonth(year, 3) == 31 + Civil.DaysInMonth(year, 2);
    assert DaysBeforeMonth(year, 6) == DaysBeforeMonth(year, 3) + 92;
    assert DaysBeforeMonth(year, 9) == DaysBeforeMonth(year, 6) + 92;
    assert DaysBeforeMonth(year, 12) == DaysBeforeMonth(year, 9) + 91;
  }

  lemma {:induction false} NextDayIsOneMore(d: Civil.Date)
    requires Civil.ValidDate(d) && d.year >= 1970
    ensures DaysOf(Civil.NextDay(d)) == DaysOf(d) + 1
  {
    hide Civil.IsLeap;
    MonthsOfYear(d.year);
  }

  /** Counting undoes stepping. */
  lemma {:induction false} DaysOfWalk(z: nat)
    ensures DaysOf(Civil.Walk(z)) == z && Civil.ValidDate(Civil.Walk(z)) && Civil.Walk(z).year >= 1970
  {
    hide DaysOf, Civil.WideCivil;
    Civil.WideCivilIsTheCalendar(z);
    Civil.CivilSteps(z);
    if z == 0 {
      EpochIsDayZero();
    } else {
      DaysOfWalk(z - 1);
      NextDayIsOneMore(Civil.Walk(z - 1));
    }
  }

  lemma EpochIsDayZero()
    ensures DaysOf(Civil.Date(1970, 1, 1)) == 0
  {
  }

  // ---------------------------------------------------------------------------
  // Columns
  // ---------------------------------------------------------------------------

  predicate IsDigit(c: char) {
    '0' <= c <= '9'
  }

  predicate Digits(s: string) {
    forall i :: 0 <= i < |s| ==> IsDigit(s[i])
  }

  function Number(s: string): nat
    requires Digits(s)
  {
    if s == "" then 0 else Number(s[..|s| - 1]) * 10 + (s[|s| - 1] - '0') as int
  }

  lemma {:induction false} NumberAppend(front: string, d: nat)
    requires Digits(front) && d < 10
    ensures var s := front + [Digit(d)]; Digits(s) && Number(s) == Number(front) * 10 + d
  {
    var s := front + [Digit(d)];
    assert s[|s| - 1] == Digit(d) && s[..|s| - 1] == front;
  }

  lemma {:induction false} PaddedUnfolds(n: nat, width: nat)
    requires width > 0 && n < Pow10(width)
    ensures width == 1 ==> n < 10 && Padded(n, width) == "" + [Digit(n)]
    ensures width > 1 ==> n / 10 < Pow10(width - 1) && Padded(n, width) == Padded(n / 10, width - 1) + [Digit(n % 10)]
  {
    assert width == 1 ==> Pow10(1) == 10 * Pow10(0) && Pow10(0) == 1;
  }

  lemma {:induction false} PaddedReads(n: nat, width: nat)
    requires width > 0 && n < Pow10(width)
    ensures Digits(Padded(n, width)) && Number(Padded(n, width)) == n
  {
    PaddedUnfolds(n, width);
    hide Padded, Pow10, Digit;
    if width == 1 {
      NumberAppend("", n);
    } else {
      PaddedReads(n / 10, width - 1);
      NumberAppend(Padded(n / 10, width - 1), n % 10);
    }
  }

  /** Where field `k` starts in the joined string. */
  function Column(fs: seq<Field>, k: nat): nat
    requires k <= |fs|
  {
    if k == 0 then 0 else Column(fs, k - 1) + fs[k - 1].width + 1
  }

  lemma {:induction false} ColumnShift(fs: seq<Field>, k: nat)
    requires 0 < k <= |fs|
    ensures Column(fs, k) == fs[0].width + 1 + Column(fs[1..], k - 1)
  {
    if k > 1 {
      ColumnShift(fs, k - 1);
    }
  }

  /** Each field stands at its column, followed by its separator. */
  lemma {:induction false} FieldAtColumn(fs: seq<Field>, k: nat)
    requires k < |fs| && forall i :: 0 <= i < |fs| ==> Fits(fs[i]) && |fs[i].suffix| == 1
    ensures var at, w, s := Column(fs, k), fs[k].width, Join(fs);
            && at + w < |s|
            && s[at..at + w] == Padded(fs[k].value, w)
            && s[at + w] == fs[k].suffix[0]
  {
    hide Padded;
    var s, rest := Join(fs), Join(fs[1..]);
    var head := Padded(fs[0].value, fs[0].width) + fs[0].suffix;
    PaddedWidth(fs[0].value, fs[0].width);
    assert s == head + rest;
    if k > 0 {
      FieldAtColumn(fs[1..], k - 1);
      ColumnShift(fs, k);
      var at, w := Column(fs[1..], k - 1), fs[k].width;
      assert s[|head| + at..|head| + at + w] == rest[at..at + w];
    }
  }

  // ---------------------------------------------------------------------------
  // The stamp
  // ---------------------------------------------------------------------------

  /** Twenty-four characters `dddd-dd-ddTdd:dd:dd.dddZ`. */
  predicate IsStamp(s: string) {
    && |s| == 24
    && s[4] == '-' && s[7] == '-' && s[10] == 'T' && s[13] == ':' && s[16] == ':' && s[19] == '.' && s[23] == 'Z'
    && Digits(s[0..4]) && Digits(s[5..7]) && Digits(s[8..10]) && Digits(s[11..13]) && Digits(s[14..16])
    && Digits(s[17..19]) && Digits(s[20..23])
  }

  datatype Reading = Reading(date: Civil.Date, hour: nat, minute: nat, second: nat, milli: nat)

  function Read(s: string): Reading
    requires IsStamp(s)
  {
    Reading(Civil.Date(Number(s[0..4]), Number(s[5..7]), Number(s[8..10])),
            Number(s[11..13]), Number(s[14..16]), Number(s[17..19]), Number(s[20..23]))
  }

  /** Milliseconds from the epoch to what the columns show. */
  function MillisOf(r: Reading): int {
    (DaysOf(r.date) * 86_400 + r.hour * 3600 + r.minute * 60 + r.second) * 1000 + r.milli
  }

  lemma {:induction false} ColumnsOfStamp(t: Instant)
    ensures var fs := Fields(t);
            && |fs| == 7 && Column(fs, 0) == 0 && Column(fs, 1) == 5 && Column(fs, 2) == 8 && Column(fs, 3) == 11
            && Column(fs, 4) == 14 && Column(fs, 5) == 17 && Column(fs, 6) == 20
            && fs[0].suffix == "-" && fs[1].suffix == "-" && fs[2].suffix == "T" && fs[3].suffix == ":"
            && fs[4].suffix == ":" && fs[5].suffix == "." && fs[6].suffix == "Z"
            && fs[0].width == 4 && fs[6].width == 3
            && forall i :: 1 <= i < 6 ==> fs[i].width == 2
  {
    hide Civil.CivilFromDays;
  }

  /** The characters from `at` are `w` digits of value `n`, and then the separator. */
  predicate Shows(s: string, at: nat, w: nat, n: nat, separator: char) {
    at + w < |s| && Digits(s[at..at + w]) && Number(s[at..at + w]) == n && s[at + w] == separator
  }

  /** One column of a stamp: the digits of its field and then its separator. */
  lemma {:induction false} ReadColumn(t: Instant, k: nat, at: nat, w: nat)
    requires InRange(t) && k < 7 && |Fields(t)| == 7 && at == Column(Fields(t), k) && w == Fields(t)[k].width
    requires forall i :: 0 <= i < 7 ==> |Fields(t)[i].suffix| == 1
    ensures Shows(Render(t), at, w, Fields(t)[k].value, Fields(t)[k].suffix[0])
  {
    hide Fields, Column, Join, Padded, Number, Digits, Pow10;
    FieldsFit(t);
    FieldAtColumn(Fields(t), k);
    assert Fits(Fields(t)[k]);
    PaddedReads(Fields(t)[k].value, w);
  }

  lemma {:induction false} StampShows(t: Instant)
    requires InRange(t)
    ensures var s, fs := Render(t), Fields(t);
            && |s| == 24 && |fs| == 7
            && Shows(s, 0, 4, fs[0].value, '-') && Shows(s, 5, 2, fs[1].value, '-') && Shows(s, 8, 2, fs[2].value, 'T')
            && Shows(s, 11, 2, fs[3].value, ':') && Shows(s, 14, 2, fs[4].value, ':')
            && Shows(s, 17, 2, fs[5].value, '.') && Shows(s, 20, 3, fs[6].value, 'Z')
  {
    ColumnsOfStamp(t);
    StampWidth(t);
    hide Fields, Column, Render, Shows;
    ReadColumn(t, 0, 0, 4);
    ReadColumn(t, 1, 5, 2);
    ReadColumn(t, 2, 8, 2);
    ReadColumn(t, 3, 11, 2);
    ReadColumn(t, 4, 14, 2);
    ReadColumn(t, 5, 17, 2);
    ReadColumn(t, 6, 20, 3);
  }

  lemma {:induction false} StampColumns(t: Instant)
    requires InRange(t)
    ensures IsStamp(Render(t))
    ensures var fs := Fields(t);
            |fs| == 7 && Read(Render(t)) == Reading(Civil.Date(fs[0].value, fs[1].value, fs[2].value),
                                                    fs[3].value, fs[4].value, fs[5].value, fs[6].value)
  {
    hide Fields, Render, Digits, Number;
    StampShows(t);
  }

  /**
   Every instant through the end of 9999 is shown by a stamp whose columns read back to it:
   a valid date and clock, and exactly the instant's milliseconds.
   */
  lemma {:induction false} StampReadsBack(t: Instant)
    requires InRange(t)
    ensures IsStamp(Render(t))
    ensures var r := Read(Render(t));
            && Civil.ValidDate(r.date) && r.hour < 24 && r.minute < 60 && r.second < 60 && r.milli < 1000
            && r.date == Civil.Walk(t.secs / 86_400)
            && MillisOf(r) == Millis(t)
  {
    hide Fields, Render, Read, IsStamp, DaysOf, MillisOf, Civil.Walk, Civil.ValidDate;
    StampColumns(t);
    ClockOfFields(t);
    DateOfFields(t);
    DaysOfWalk(t.secs / 86_400);
    PartsAddUp(t, Read(Render(t)));
  }

  lemma {:induction false} PartsAddUp(t: Instant, r: Reading)
    requires DaysOf(r.date) == t.secs / 86_400 && r.hour * 3600 + r.minute * 60 + r.second == t.secs % 86_400
    requires r.milli == t.millis
    ensures MillisOf(r) == Millis(t)
  {
    hide DaysOf;
    assert t.secs == t.secs / 86_400 * 86_400 + t.secs % 86_400;
  }

  lemma {:induction false} ClockOfFields(t: Instant)
    requires InRange(t)
    ensures var fs := Fields(t);
            && |fs| == 7 && fs[3].value < 24 && fs[4].value < 60 && fs[5].value < 60 && fs[6].value == t.millis
            && fs[3].value * 3600 + fs[4].value * 60 + fs[5].value == t.secs % 86_400
  {
    hide Civil.CivilFromDays;
    ClockParts(t.secs % 86_400);
  }

  lemma {:induction false} DateOfFields(t: Instant)
    requires InRange(t)
    ensures var fs := Fields(t);
            |fs| == 7 && Civil.Date(fs[0].value, fs[1].value, fs[2].value) == Civil.Walk(t.secs / 86_400)
  {
    hide Civil.CivilFromDays, Civil.WideCivil, Fields;
    DateFields(t);
    DateFits(t.secs / 86_400);
    Civil.WideCivilIsTheCalendar(t.secs / 86_400);
  }

  /** An offset from now, for every 64-bit offset: the sum, cut at the epoch below and at the
      largest signed second above. */
  lemma {:induction false} OffsetIsTheSum(now: Instant, offsetSecs: int)
    requires now.secs <= I64_MAX && I64_MIN <= offsetSecs <= I64_MAX
    ensures var t := Offset(now, offsetSecs);
            if now.secs + offsetSecs < 0 then t == Instant(0, 0)
            else t.secs == Min(I64_MAX, now.secs + offsetSecs) && t.millis == now.millis
  {
  }
}
