/**
 RFC 3339 timestamps in the fixed shape `YYYY-MM-DDTHH:MM:SS.mmmZ`, and why comparing them as
 strings compares the instants (section 5.1 of RFC 3339).
 */
module Timestamps {
  import opened Common
  import Civil

  /** Byte-wise string order, as the standard library compares strings. */
  predicate Less(a: string, b: string) {
    if b == "" then false
    else if a == "" then true
    else a[0] < b[0] || (a[0] == b[0] && Less(a[1..], b[1..]))
  }

  function Digit(n: nat): char
    requires n < 10
  {
    '0' + n as char
  }

  /** Decimal digits of `n`, padded with zeros to at least `width`; wider values are not cut. */
  function Padded(n: nat, width: nat): string
    decreases n + width
  {
    (if n < 10 && width <= 1 then "" else Padded(n / 10, if width > 0 then width - 1 else 0)) + [Digit(n % 10)]
  }

  datatype Field = Field(value: nat, width: nat, suffix: string)

  function Join(fields: seq<Field>): string {
    if fields == [] then ""
    else Padded(fields[0].value, fields[0].width) + fields[0].suffix + Join(fields[1..])
  }

  datatype Instant = Instant(secs: nat, millis: nat)

  function Millis(t: Instant): nat {
    t.secs * 1000 + t.millis
  }

  function Fields(t: Instant): seq<Field> {
    var date := Civil.CivilFromDays(t.secs / 86_400);
    var ofDay := t.secs % 86_400;
    [Field(Max(0, date.year), 4, "-"), Field(Max(0, date.month), 2, "-"), Field(Max(0, date.day), 2, "T"),
     Field(ofDay / 3600, 2, ":"), Field(ofDay % 3600 / 60, 2, ":"), Field(ofDay % 60, 2, "."),
     Field(t.millis, 3, "Z")]
  }

  function Render(t: Instant): string {
    Join(Fields(t))
  }

  /** Years up to 9999, where the shape has fixed width; the clock gives whole milliseconds. */
  predicate InRange(t: Instant) {
    t.secs < 253_402_300_800 && t.millis < 1000
  }

  function SaturatingAdd(a: int, b: int): int {
    if a + b > I64_MAX then I64_MAX else if a + b < I64_MIN then I64_MIN else a + b
  }

  /** The instant an offset from `now` denotes: saturating, and clamped to the epoch. */
  function Offset(now: Instant, offsetSecs: int): Instant {
    var signed := SaturatingAdd(now.secs, offsetSecs);
    if signed < 0 then Instant(0, 0) else Instant(signed, now.millis)
  }

  function Rfc3339Offset(now: Instant, offsetSecs: int): string {
    Render(Offset(now, offsetSecs))
  }

  // ---------------------------------------------------------------------------
  // String order of padded fields
  // ---------------------------------------------------------------------------

  function Pow10(width: nat): nat {
    if width == 0 then 1 else 10 * Pow10(width - 1)
  }

  lemma {:induction false} LessConcat(a1: string, b1: string, a2: string, b2: string)
    requires |a1| == |b1|
    ensures Less(a1 + a2, b1 + b2) <==> Less(a1, b1) || (a1 == b1 && Less(a2, b2))
  {
    if a1 == "" {
      assert a1 + a2 == a2 && b1 + b2 == b2;
    } else {
      LessConcat(a1[1..], b1[1..], a2, b2);
      assert (a1 + a2)[1..] == a1[1..] + a2;
      assert (b1 + b2)[1..] == b1[1..] + b2;
      assert a1[0] == b1[0] && a1[1..] == b1[1..] ==> a1 == b1;
    }
  }

  lemma {:induction false} PaddedWidth(n: nat, width: nat)
    requires width > 0 && n < Pow10(width)
    ensures |Padded(n, width)| == width
  {
    if width > 1 {
      PaddedWidth(n / 10, width - 1);
    }
  }

  lemma {:induction false} PaddedOrder(m: nat, n: nat, width: nat)
    requires width > 0 && m < Pow10(width) && n < Pow10(width)
    ensures Less(Padded(m, width), Padded(n, width)) <==> m < n
    ensures Padded(m, width) == Padded(n, width) <==> m == n
  {
    if width > 1 {
      PaddedWidth(m / 10, width - 1);
      PaddedWidth(n / 10, width - 1);
      PaddedOrder(m / 10, n / 10, width - 1);
      LessConcat(Padded(m / 10, width - 1), Padded(n / 10, width - 1), [Digit(m % 10)], [Digit(n % 10)]);
      assert |Padded(m, width)| == width == |Padded(n, width)|;
      assert Padded(m, width)[..width - 1] == Padded(m / 10, width - 1);
      assert Padded(n, width)[..width - 1] == Padded(n / 10, width - 1);
    }
  }

  /** Order of the field values, most significant first. */
  predicate Before(fs: seq<Field>, gs: seq<Field>)
    requires |fs| == |gs|
  {
    fs != [] && (fs[0].value < gs[0].value || (fs[0].value == gs[0].value && Before(fs[1..], gs[1..])))
  }

  predicate Fits(f: Field) {
    f.width > 0 && f.value < Pow10(f.width)
  }

  predicate SameShape(fs: seq<Field>, gs: seq<Field>) {
    && |fs| == |gs|
    && (forall i :: 0 <= i < |fs| ==> Fits(fs[i]) && Fits(gs[i]))
    && (forall i :: 0 <= i < |fs| ==> fs[i].width == gs[i].width && fs[i].suffix == gs[i].suffix)
  }

  lemma {:induction false} JoinOrder(fs: seq<Field>, gs: seq<Field>)
    requires SameShape(fs, gs)
    ensures |Join(fs)| == |Join(gs)|
    ensures Less(Join(fs), Join(gs)) <==> Before(fs, gs)
  {
    hide Less, Padded, Pow10;
    if fs == [] {
      LessIrreflexive("");
    } else {
      var f, g := fs[0], gs[0];
      var pf, pg := Padded(f.value, f.width), Padded(g.value, g.width);
      assert Fits(f) && Fits(g);
      PaddedWidth(f.value, f.width);
      PaddedWidth(g.value, g.width);
      PaddedOrder(f.value, g.value, f.width);
      JoinOrder(fs[1..], gs[1..]);
      LessConcat(pf, pg, f.suffix + Join(fs[1..]), g.suffix + Join(gs[1..]));
      LessConcat(f.suffix, g.suffix, Join(fs[1..]), Join(gs[1..]));
      LessIrreflexive(f.suffix);
      assert Join(fs) == pf + (f.suffix + Join(fs[1..]));
      assert Join(gs) == pg + (g.suffix + Join(gs[1..]));
    }
  }

  lemma {:induction false} LessIrreflexive(a: string)
    ensures !Less(a, a)
  {
    if a != "" {
      LessIrreflexive(a[1..]);
    }
  }

  // ---------------------------------------------------------------------------
  // Instants
  // ---------------------------------------------------------------------------

  lemma {:induction false} LastDay()
    ensures Civil.WideCivil(2_932_896) == Civil.Date(9999, 12, 31)
  {
    assert Civil.DayOfEra(3_652_364) == 146_036 && Civil.Era(3_652_364) == 24;
    assert Civil.Corrected(146_036) / 365 == 399 && Civil.YearStart(399) == 145_731;
  }

  /** Days from the epoch to the end of 9999 have four-digit years and two-digit parts. */
  lemma {:induction false} DateFits(z: nat)
    requires z <= 2_932_896
    ensures Civil.CivilFromDays(z) == Civil.WideCivil(z)
    ensures var d := Civil.CivilFromDays(z); 1970 <= d.year <= 9999 && 1 <= d.month <= 12 && 1 <= d.day <= 31
  {
    hide Civil.WideCivil;
    Civil.WideCivilIsTheCalendar(z);
    Civil.WalkStartsAtTheEpoch(z);
    Civil.CivilSteps(z);
    LastDay();
    if z < 2_932_896 {
      Civil.CivilIncreases(z, 2_932_896);
    }
  }

  /** One unrolling of `Before` at a time, for the seven fields of a timestamp. */
  lemma {:induction false} BeforeFrom(fs: seq<Field>, gs: seq<Field>, k: nat)
    requires |fs| == |gs| && k < |fs|
    ensures Before(fs[k..], gs[k..])
       <==> fs[k].value < gs[k].value || (fs[k].value == gs[k].value && Before(fs[k + 1..], gs[k + 1..]))
  {
    assert fs[k..][1..] == fs[k + 1..] && gs[k..][1..] == gs[k + 1..];
  }

  /** The time-of-day fields order as the milliseconds of the day. */
  lemma {:induction false} TimeOfDayOrder(t: Instant, u: Instant)
    requires t.millis < 1000 && u.millis < 1000
    ensures Before(Fields(t)[3..], Fields(u)[3..])
       <==> t.secs % 86_400 * 1000 + t.millis < u.secs % 86_400 * 1000 + u.millis
  {
    hide Civil.CivilFromDays;
    var fs, gs := Fields(t), Fields(u);
    BeforeFrom(fs, gs, 3);
    BeforeFrom(fs, gs, 4);
    BeforeFrom(fs, gs, 5);
    BeforeFrom(fs, gs, 6);
    assert !Before(fs[7..], gs[7..]);
    ClockParts(t.secs % 86_400);
    ClockParts(u.secs % 86_400);
  }

  lemma {:induction false} ClockParts(ofDay: nat)
    requires ofDay < 86_400
    ensures ofDay == ofDay / 3600 * 3600 + ofDay % 3600 / 60 * 60 + ofDay % 60
    ensures ofDay / 3600 < 24 && ofDay % 3600 / 60 < 60
  {
  }

  lemma {:induction false} DateFields(t: Instant)
    requires InRange(t)
    ensures |Fields(t)| == 7
    ensures var d := Civil.CivilFromDays(t.secs / 86_400);
            Fields(t)[0].value == d.year && Fields(t)[1].value == d.month && Fields(t)[2].value == d.day
  {
    hide Civil.CivilFromDays;
    DateFits(t.secs / 86_400);
  }

  lemma {:induction false} DateOrder(t: Instant, u: Instant)
    requires InRange(t) && InRange(u)
    ensures t.secs / 86_400 < u.secs / 86_400 ==> Before(Fields(t), Fields(u))
    ensures t.secs / 86_400 == u.secs / 86_400 ==>
              (Before(Fields(t), Fields(u)) <==> Before(Fields(t)[3..], Fields(u)[3..]))
    ensures t.secs / 86_400 > u.secs / 86_400 ==> !Before(Fields(t), Fields(u))
  {
    hide Civil.CivilFromDays, Before, Fields;
    var zt, zu := t.secs / 86_400, u.secs / 86_400;
    DateFields(t);
    DateFields(u);
    var fs, gs := Fields(t), Fields(u);
    assert fs[0..] == fs && gs[0..] == gs;
    BeforeFrom(fs, gs, 0);
    BeforeFrom(fs, gs, 1);
    BeforeFrom(fs, gs, 2);
    if zt < zu {
      DatesIncrease(zt, zu);
    } else if zu < zt {
      DatesIncrease(zu, zt);
    }
  }

  lemma {:induction false} DatesIncrease(y: nat, z: nat)
    requires y < z <= 2_932_896
    ensures Civil.Earlier(Civil.CivilFromDays(y), Civil.CivilFromDays(z))
  {
    hide Civil.WideCivil;
    DateFits(y);
    DateFits(z);
    Civil.CivilIncreases(y, z);
  }

  lemma {:induction false} FieldsFit(t: Instant)
    requires InRange(t)
    ensures forall i :: 0 <= i < 7 ==> Fits(Fields(t)[i])
  {
    hide Civil.CivilFromDays;
    DateFits(t.secs / 86_400);
    ClockParts(t.secs % 86_400);
    assert Pow10(2) == 100 && Pow10(3) == 1000 && Pow10(4) == 10_000;
  }

  lemma {:induction false} JoinWidth(fs: seq<Field>, k: nat)
    requires k <= |fs| && forall i :: 0 <= i < |fs| ==> Fits(fs[i]) && |fs[i].suffix| == 1
    ensures k < |fs| ==> |Join(fs[k..])| == fs[k].width + 1 + |Join(fs[k + 1..])|
    ensures k == |fs| ==> |Join(fs[k..])| == 0
  {
    if k < |fs| {
      PaddedWidth(fs[k].value, fs[k].width);
      assert fs[k..][1..] == fs[k + 1..];
    }
  }

  /** The rendered form has 24 characters, always. */
  lemma {:induction false} StampWidth(t: Instant)
    requires InRange(t)
    ensures |Render(t)| == 24
  {
    hide Join, Fits, Civil.CivilFromDays;
    FieldsFit(t);
    var fs := Fields(t);
    assert fs[0..] == fs;
    forall k | 0 <= k <= 7 {
      JoinWidth(fs, k);
    }
  }

  /** Comparing two timestamps as strings compares the instants they show. */
  lemma {:induction false} StampOrder(t: Instant, u: Instant)
    requires InRange(t) && InRange(u)
    ensures Less(Render(t), Render(u)) <==> Millis(t) < Millis(u)
    ensures Render(t) == Render(u) <==> t == u
  {
    hide Fields, Less, Before;
    FieldsFit(t);
    FieldsFit(u);
    ShapeIsFixed(t, u);
    JoinOrder(Fields(t), Fields(u));
    JoinOrder(Fields(u), Fields(t));
    DateOrder(t, u);
    DateOrder(u, t);
    TimeOfDayOrder(t, u);
    TimeOfDayOrder(u, t);
    LessIrreflexive(Render(t));
    assert t.secs == t.secs / 86_400 * 86_400 + t.secs % 86_400;
    assert u.secs == u.secs / 86_400 * 86_400 + u.secs % 86_400;
  }

  lemma {:induction false} ShapeIsFixed(t: Instant, u: Instant)
    ensures |Fields(t)| == |Fields(u)| == 7
    ensures forall i :: 0 <= i < 7 ==>
                          Fields(t)[i].width == Fields(u)[i].width && Fields(t)[i].suffix == Fields(u)[i].suffix
  {
    hide Civil.CivilFromDays;
  }
}
