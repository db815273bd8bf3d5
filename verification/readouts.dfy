/** The text readouts the engine draws: the usage reading, the uptime
    counters and the speed button, each zero-padded to a fixed width. */
module Readouts {
  import opened Wrappers
  import opened JavaArith
  import opened Decimal

  /** Uptime beyond this many seconds overflows the `int` day counter. */
  const DayLimit: int := 86400 * Two31

  /** Two-digit field for the uptime counters: "0" before a value under 10,
      the plain text otherwise. */
  function PadTwo(v: Int32): (r: string)
    ensures 0 <= v ==> IsDigits(r) && DigitsValue(r) == v
    ensures 0 <= v < 100 ==> |r| == 2
    ensures 0 <= v < 10 ==> r[0] == '0'
    ensures v >= 10 ==> |r| >= 2 && r[0] != '0'
    ensures v < 0 ==> ValueOf(r) == None
  {
    IntToStringSmallWidths(v);
    if v < 10 then
      var r := "0" + IntToString(v);
      if v >= 0 then LeadingZero(IntToString(v)); r
      else assert r[1] == '-'; r
    else IntToString(v)
  }

  /** Usage percentage: three digits, and every reading of 100 or more shows
      as "100". */
  function PadUsage(reading: Int32): (r: string)
    ensures reading >= 100 ==> r == "100"
    ensures 0 <= reading ==> |r| == 3 && IsDigits(r) && DigitsValue(r) == Min(reading, 100)
    ensures reading < 0 ==> ValueOf(r) == None
  {
    IntToStringSmallWidths(reading);
    if reading < 10 then
      var r := "00" + IntToString(reading);
      if reading >= 0 then
        LeadingZero(IntToString(reading));
        LeadingZero("0" + IntToString(reading));
        assert r == "0" + ("0" + IntToString(reading));
        r
      else assert r[2] == '-'; r
    else if reading < 100 then
      LeadingZero(IntToString(reading));
      "0" + IntToString(reading)
    else
      assert DigitsValue("100") == 100 by {
        assert "100"[..2] == "10" && "10"[..1] == "1" && "1"[..0] == [];
      }
      "100"
  }

  function Min(a: int, b: int): int {
    if a < b then a else b
  }

  /** Speed button: four digits for values under 10000; values of 1000 and
      more are shown unpadded. */
  function PadSpeed(speed: Int32): (r: string)
    ensures 0 <= speed ==> IsDigits(r) && DigitsValue(r) == speed
    ensures 0 <= speed < 10000 ==> |r| == 4
    ensures speed >= 1000 ==> r[0] != '0'
    ensures speed < 0 ==> ValueOf(r) == None
  {
    IntToStringSmallWidths(speed);
    var t := IntToString(speed);
    if speed < 10 then
      var r := "000" + t;
      if speed >= 0 then
        LeadingZero(t);
        LeadingZero("0" + t);
        LeadingZero("0" + ("0" + t));
        assert r == "0" + ("0" + ("0" + t));
        r
      else assert r[3] == '-'; r
    else if speed < 100 then
      LeadingZero(t);
      LeadingZero("0" + t);
      assert "00" + t == "0" + ("0" + t);
      "00" + t
    else if speed < 1000 then
      LeadingZero(t);
      "0" + t
    else t
  }

  /** Uptime counters as drawn: days, then hours, minutes and seconds of the
      current day. */
  datatype Uptime = Uptime(days: Int32, hours: Int32, minutes: Int32, seconds: Int32)

  function Total(u: Uptime): int {
    u.days * 86400 + u.hours * 3600 + u.minutes * 60 + u.seconds
  }

  /** Split of a `long` uptime in seconds, with Java's truncating `/` and `%`
      and the narrowing `(int)` casts. */
  function SplitUptime(up: Int64): (u: Uptime)
    ensures -DayLimit < up < DayLimit ==> Total(u) == up
    ensures 0 <= up ==> 0 <= u.hours < 24 && 0 <= u.minutes < 60 && 0 <= u.seconds < 60
    ensures 0 <= up < DayLimit ==> u.days >= 0
    ensures up <= 0 ==> -24 < u.hours <= 0 && -60 < u.minutes <= 0 && -60 < u.seconds <= 0
  {
    var dayRem := Rem(up, 86400);
    var hourRem := Rem(dayRem, 3600);
    Uptime(ToInt(Div(up, 86400)), ToInt(Div(dayRem, 3600)),
           ToInt(Div(hourRem, 60)), ToInt(Rem(hourRem, 60)))
  }

  /** For a non-negative uptime the split is the only one with hours under
      24 and minutes and seconds under 60 that adds back up to `up`. */
  lemma SplitUptimeUnique(up: Int64, u: Uptime)
    requires 0 <= up < DayLimit
    requires 0 <= u.hours < 24 && 0 <= u.minutes < 60 && 0 <= u.seconds < 60
    requires Total(u) == up
    ensures u == SplitUptime(up)
  {
    var v := SplitUptime(up);
    QuotientUnique(u.days, u.hours * 3600 + u.minutes * 60 + u.seconds,
                   v.days, v.hours * 3600 + v.minutes * 60 + v.seconds, 86400);
    QuotientUnique(u.hours, u.minutes * 60 + u.seconds, v.hours, v.minutes * 60 + v.seconds, 3600);
    QuotientUnique(u.minutes, u.seconds, v.minutes, v.seconds, 60);
  }

  /** Quotient and remainder by `d` are determined by the value they make. */
  lemma QuotientUnique(q1: int, r1: int, q2: int, r2: int, d: int)
    requires d > 0 && 0 <= r1 < d && 0 <= r2 < d
    requires q1 * d + r1 == q2 * d + r2
    ensures q1 == q2 && r1 == r2
  {
    if q1 < q2 {
      MultipleGap(q1, q2, d);
      assert false;
    } else if q2 < q1 {
      MultipleGap(q2, q1, d);
      assert false;
    }
  }

  /** Distinct multiples of `d` are at least `d` apart. */
  lemma {:induction false} MultipleGap(a: int, b: int, d: int)
    requires a < b && d > 0
    ensures a * d + d <= b * d
    decreases b - a
  {
    if a + 1 < b {
      MultipleGap(a, b - 1, d);
      assert b * d == (b - 1) * d + d;
    } else {
      assert b * d == a * d + d;
    }
  }

  /** The usage readout as drawn, with its percent sign. */
  function UsageText(reading: Int32): (r: string)
    ensures |r| >= 1 && r[|r| - 1] == '%'
    ensures 0 <= reading ==> |r| == 4 && IsDigits(r[..3]) && DigitsValue(r[..3]) == Min(reading, 100)
    ensures reading < 0 ==> ValueOf(r[..|r| - 1]) == None
  {
    var r := PadUsage(reading) + "%";
    assert r[..|r| - 1] == PadUsage(reading);
    r
  }

  /** The two uptime texts `drawText` draws: the day count, and the time of
      day as "hh:mm:ss". */
  function UptimeTexts(up: Int64): (r: (string, string))
    ensures 0 <= up < DayLimit ==> ValueOf(r.0) == Some(SplitUptime(up).days as int)
    ensures 0 <= up ==> |r.1| == 8 && r.1[2] == ':' && r.1[5] == ':'
  {
    var u := SplitUptime(up);
    var day := PadTwo(u.days);
    assert 0 <= u.days ==> |day| >= 1 && IsDigit(day[0]);
    (day, Clock(u))
  }

  /** "hh:mm:ss", the time-of-day part of the uptime readout: with every
      field in 0..99, two digits per field, each denoting its counter. */
  function Clock(u: Uptime): (r: string)
    ensures 0 <= u.hours < 100 && 0 <= u.minutes < 100 && 0 <= u.seconds < 100 ==>
      && |r| == 8 && r[2] == ':' && r[5] == ':'
      && IsDigits(r[0..2]) && DigitsValue(r[0..2]) == u.hours
      && IsDigits(r[3..5]) && DigitsValue(r[3..5]) == u.minutes
      && IsDigits(r[6..8]) && DigitsValue(r[6..8]) == u.seconds
  {
    var r := PadTwo(u.hours) + ":" + PadTwo(u.minutes) + ":" + PadTwo(u.seconds);
    if 0 <= u.hours < 100 && 0 <= u.minutes < 100 && 0 <= u.seconds < 100 then
      assert r[0..2] == PadTwo(u.hours);
      assert r[3..5] == PadTwo(u.minutes);
      assert r[6..8] == PadTwo(u.seconds);
      r
    else r
  }

  /** For a non-negative uptime the clock is eight characters, two digits per
      field, and each field denotes its counter. */
  lemma ClockLayout(up: Int64)
    requires 0 <= up
    ensures var u := SplitUptime(up); var c := Clock(u);
      |c| == 8 && c[2] == ':' && c[5] == ':'
      && IsDigits(c[0..2]) && DigitsValue(c[0..2]) == u.hours
      && IsDigits(c[3..5]) && DigitsValue(c[3..5]) == u.minutes
      && IsDigits(c[6..8]) && DigitsValue(c[6..8]) == u.seconds
  {
    var u := SplitUptime(up);
    var c := Clock(u);
    assert c[0..2] == PadTwo(u.hours);
    assert c[3..5] == PadTwo(u.minutes);
    assert c[6..8] == PadTwo(u.seconds);
  }
}
