/** The clock line, the chart's time label and the uptime text of the dashboard page. */
module TimeFormat {
  import opened Decimal

  /** The values the page reads from a JavaScript `Date` through its getters. */
  datatype DateTime = DateTime(
    year: int,      // getFullYear()
    month: nat,     // getMonth(), 0 for January
    date: nat,      // getDate()
    weekday: nat,   // getDay(), 0 for Sunday
    hour: nat,      // getHours()
    minute: nat,    // getMinutes()
    second: nat)    // getSeconds()
  {
    /** The ranges the `Date` getters always return. */
    predicate Valid() {
      month < 12 && 1 <= date <= 31 && weekday < 7 && hour < 24 && minute < 60 && second < 60
    }
  }

  const DayNames: seq<string> :=
    ["Sunday", "Monday", "Tuesday", "Wednesday", "Thursday", "Friday", "Saturday"]

  /** The hour on a 12-hour dial: midnight and noon read 12. */
  function Hour12(hour: nat): (r: nat)
    requires hour < 24
    ensures 1 <= r <= 12
    ensures r % 12 == hour % 12
  {
    var h := hour % 12;
    if h != 0 then h else 12
  }

  /** The suffix shown after the 12-hour time. */
  function Meridiem(hour: nat): (r: string)
    requires hour < 24
    ensures r == "AM" || r == "PM"
    ensures r == "PM" <==> hour >= 12
  {
    if hour >= 12 then "PM" else "AM"
  }

  /** Reading a 12-hour dial and its suffix back as a 24-hour hour. */
  function Hour24(h12: nat, pm: bool): (r: nat)
    requires 1 <= h12 <= 12
    ensures r < 24
    ensures (r >= 12) == pm
  {
    h12 % 12 + (if pm then 12 else 0)
  }

  /** The 12-hour conversion loses nothing: the dial and the suffix give the hour back. */
  lemma TwelveHourRoundTrip(hour: nat)
    requires hour < 24
    ensures Hour24(Hour12(hour), Meridiem(hour) == "PM") == hour
  {
  }

  /** Every dial position and suffix is shown for exactly one 24-hour hour. */
  lemma TwelveHourOnto(h12: nat, pm: bool)
    requires 1 <= h12 <= 12
    ensures Hour12(Hour24(h12, pm)) == h12
    ensures (Meridiem(Hour24(h12, pm)) == "PM") == pm
  {
  }

  /** The time part of the clock line (`timeStr`): `h:mm:ss AM`. */
  function TimeText(now: DateTime): (s: string)
    requires now.Valid()
  {
    NatToString(Hour12(now.hour)) + ":" + Pad2(now.minute) + ":" + Pad2(now.second) + " "
      + Meridiem(now.hour)
  }

  /** The date part of the clock line (`dateStr`): `dd/mm/yyyy`, the month counted from 1. */
  function DateText(now: DateTime): (s: string)
    requires now.Valid()
  {
    Pad2(now.date) + "/" + Pad2(now.month + 1) + "/" + IntToString(now.year)
  }

  /** The text of the clock line: `h:mm:ss AM · dd/mm/yyyy · Weekday`. */
  function ClockText(now: DateTime): (s: string)
    requires now.Valid()
    ensures NatToString(Hour12(now.hour)) + ":" <= s
    ensures |DayNames[now.weekday]| <= |s| && s[|s| - |DayNames[now.weekday]|..] == DayNames[now.weekday]
    ensures s == TimeText(now) + " · " + DateText(now) + " · " + DayNames[now.weekday]
  {
    var dial := NatToString(Hour12(now.hour)) + ":";
    var day := DayNames[now.weekday];
    var s := TimeText(now) + " · " + DateText(now) + " · " + day;
    assert s[..|dial|] == dial;
    assert s[|s| - |day|..] == day;
    s
  }

  /** The chart's label for a point: hours unpadded, minutes padded to two digits. */
  function ChartLabel(now: DateTime): (s: string)
    ensures exists m ::
      s == NatToString(now.hour) + ":" + m && |m| >= 2 && IsDigits(m) && DigitsValue(m) == now.minute
      && (now.minute < 60 ==> |m| == 2)
  {
    NatToString(now.hour) + ":" + Pad2(now.minute)
  }

  /** Days, hours, minutes and seconds of an uptime. */
  datatype Uptime = Uptime(days: int, hours: int, minutes: int, seconds: int)

  /** `Math.trunc(a / b)`: the quotient rounded toward zero. */
  function TruncDiv(a: int, b: int): int
    requires b > 0
  {
    if a >= 0 then a / b else -((-a) / b)
  }

  /** JavaScript's `%`: what is left of the dividend after taking away the quotient rounded
      toward zero, so the remainder takes the sign of the dividend. */
  function JsRem(a: int, b: int): (r: int)
    requires b > 0
    ensures a >= 0 ==> r == a % b
    ensures a < 0 ==> -b < r <= 0
    ensures a == b * TruncDiv(a, b) + r
  {
    if a >= 0 then a % b else -((-a) % b)
  }

  /** The split `formatUptime` makes: `Math.floor` for each quotient, `%=` for what remains. */
  function UptimeParts(total: int): (u: Uptime)
    ensures total >= 0 ==>
      u.days >= 0 && 0 <= u.hours < 24 && 0 <= u.minutes < 60 && 0 <= u.seconds < 60 &&
      u.days * 86400 + u.hours * 3600 + u.minutes * 60 + u.seconds == total
  {
    var d := total / 86400;           // Dafny's `/` by a positive divisor rounds down, as Math.floor does
    var afterDays := JsRem(total, 86400);
    var h := afterDays / 3600;
    var afterHours := JsRem(afterDays, 3600);
    var m := afterHours / 60;
    Uptime(d, h, m, JsRem(afterHours, 60))
  }

  /** `formatUptime(seconds)`: `"<d>d <h>h <m>m <s>s"`. A non-negative uptime shows the four
      fields of its split; a negative one starts with a minus sign. */
  function FormatUptime(total: int): (s: string)
    ensures total < 0 ==> |s| > 0 && s[0] == '-'
    ensures total >= 0 ==> var u := UptimeParts(total);
      s == Field(u.days, 'd', " " + Field(u.hours, 'h', " " + Field(u.minutes, 'm',
        " " + Field(u.seconds, 's', ""))))
  {
    var u := UptimeParts(total);
    IntToString(u.days) + "d " + IntToString(u.hours) + "h " + IntToString(u.minutes) + "m "
      + IntToString(u.seconds) + "s"
  }

  /** For a non-negative uptime there is only one split with hours < 24, minutes < 60 and
      seconds < 60, and `formatUptime` shows that one. */
  lemma {:induction false} UptimePartsUnique(total: nat, d: nat, h: nat, m: nat, s: nat)
    requires h < 24 && m < 60 && s < 60
    requires d * 86400 + h * 3600 + m * 60 + s == total
    ensures UptimeParts(total) == Uptime(d, h, m, s)
  {
    var below := h * 3600 + m * 60 + s;
    assert total / 86400 == d && total % 86400 == below;
    assert below / 3600 == h && below % 3600 == m * 60 + s;
    assert (m * 60 + s) / 60 == m && (m * 60 + s) % 60 == s;
  }

  /** Text split at the first occurrence of a marker character splits only one way. */
  lemma SplitAtMarker(a: string, b: string, r1: string, r2: string, c: char)
    requires c !in a && c !in b
    requires a + [c] + r1 == b + [c] + r2
    ensures a == b && r1 == r2
  {
    var s := a + [c] + r1;
    assert s[|a|] == c && s[|b|] == c;
    assert forall i :: 0 <= i < |a| ==> s[i] == a[i];
    assert forall i :: 0 <= i < |b| ==> s[i] == b[i];
    assert |a| == |b|;
    assert a == s[..|a|] && b == s[..|b|];
    assert r1 == s[|a| + 1..] && r2 == s[|b| + 1..];
  }

  /** One field of the uptime line: a number followed by its unit letter and what comes after. */
  function Field(n: nat, unit: char, rest: string): string {
    NatToString(n) + [unit] + rest
  }

  /** A field's number and what follows are read back from the field's text. */
  lemma FieldInjective(a: nat, b: nat, unit: char, r1: string, r2: string)
    requires !IsDigit(unit)
    requires Field(a, unit, r1) == Field(b, unit, r2)
    ensures a == b && r1 == r2
  {
    var x, y := NatToString(a), NatToString(b);
    assert unit !in x && unit !in y;
    SplitAtMarker(x, y, r1, r2, unit);
    NatToStringInjective(a, b);
  }

  /** The uptime line of a non-negative uptime tells the uptime apart from every other one. */
  lemma FormatUptimeInjective(t1: nat, t2: nat)
    requires FormatUptime(t1) == FormatUptime(t2)
    ensures t1 == t2
  {
    var u, v := UptimeParts(t1), UptimeParts(t2);
    var mu, mv := " " + Field(u.seconds, 's', ""), " " + Field(v.seconds, 's', "");
    var hu, hv := " " + Field(u.minutes, 'm', mu), " " + Field(v.minutes, 'm', mv);
    var du, dv := " " + Field(u.hours, 'h', hu), " " + Field(v.hours, 'h', hv);
    FieldInjective(u.days, v.days, 'd', du, dv);
    assert du[1..] == Field(u.hours, 'h', hu) && dv[1..] == Field(v.hours, 'h', hv);
    FieldInjective(u.hours, v.hours, 'h', hu, hv);
    assert hu[1..] == Field(u.minutes, 'm', mu) && hv[1..] == Field(v.minutes, 'm', mv);
    FieldInjective(u.minutes, v.minutes, 'm', mu, mv);
    assert mu[1..] == Field(u.seconds, 's', "") && mv[1..] == Field(v.seconds, 's', "");
    FieldInjective(u.seconds, v.seconds, 's', "", "");
  }

  /** Two chart labels are equal only for the same hour and minute. */
  lemma ChartLabelInjective(a: DateTime, b: DateTime)
    requires a.minute < 60 && b.minute < 60
    ensures ChartLabel(a) == ChartLabel(b) ==> a.hour == b.hour && a.minute == b.minute
  {
    if ChartLabel(a) == ChartLabel(b) {
      FieldInjective(a.hour, b.hour, ':', Pad2(a.minute), Pad2(b.minute));
    }
  }

  /** A negative uptime is split with JavaScript's signed remainder, so every part is negative. */
  lemma UptimeOfMinusOne()
    ensures UptimeParts(-1) == Uptime(-1, -1, -1, -1)
    ensures FormatUptime(-1) == "-1d -1h -1m -1s"
  {
  }

  /** The seven day names differ from each other. */
  lemma DayNamesDistinct(i: nat, j: nat)
    requires i < 7 && j < 7 && DayNames[i] == DayNames[j]
    ensures i == j
  {
    assert DayNames[i][..2] == DayNames[j][..2];
  }

  /** Text ending in a separator ` · ` and a part without `·` splits only one way there. */
  lemma SplitAtLastDot(p1: string, p2: string, d1: string, d2: string)
    requires '·' !in d1 && '·' !in d2
    requires p1 + " · " + d1 == p2 + " · " + d2
    ensures p1 == p2 && d1 == d2
  {
    var s := p1 + " · " + d1;
    assert s[|p1| + 1] == '·' && s[|p2| + 1] == '·';
    assert s[|p1|] == ' ' && s[|p1| + 2] == ' ' && s[|p2|] == ' ' && s[|p2| + 2] == ' ';
    assert forall j :: 0 <= j < |d1| ==> s[|p1| + 3 + j] == d1[j];
    assert forall j :: 0 <= j < |d2| ==> s[|p2| + 3 + j] == d2[j];
    assert |p1| == |p2|;
    assert p1 == s[..|p1|] && p2 == s[..|p2|];
    assert d1 == s[|p1| + 3..] && d2 == s[|p2| + 3..];
  }

  /** `h:mm:ss AM` with two-character fields is read back field by field. */
  lemma TimePieces(h1: string, m1: string, c1: string, a1: string,
                   h2: string, m2: string, c2: string, a2: string)
    requires |m1| == |c1| == |a1| == |m2| == |c2| == |a2| == 2
    requires h1 + ":" + m1 + ":" + c1 + " " + a1 == h2 + ":" + m2 + ":" + c2 + " " + a2
    ensures h1 == h2 && m1 == m2 && c1 == c2 && a1 == a2
  {
    var s := h1 + ":" + m1 + ":" + c1 + " " + a1;
    var n := |h1|;
    assert n == |h2|;
    assert h1 == s[..n] && h2 == s[..n];
    assert m1 == s[n + 1..n + 3] && m2 == s[n + 1..n + 3];
    assert c1 == s[n + 4..n + 6] && c2 == s[n + 4..n + 6];
    assert a1 == s[n + 7..] && a2 == s[n + 7..];
  }

  /** `dd/mm/yyyy` with two-character day and month is read back field by field. */
  lemma DatePieces(d1: string, m1: string, y1: string, d2: string, m2: string, y2: string)
    requires |d1| == |m1| == |d2| == |m2| == 2
    requires d1 + "/" + m1 + "/" + y1 == d2 + "/" + m2 + "/" + y2
    ensures d1 == d2 && m1 == m2 && y1 == y2
  {
    var s := d1 + "/" + m1 + "/" + y1;
    assert d1 == s[..2] && d2 == s[..2];
    assert m1 == s[3..5] && m2 == s[3..5];
    assert y1 == s[6..] && y2 == s[6..];
  }

  /** The date part and the day names hold no `·`. */
  lemma NoDotIn(now: DateTime)
    requires now.Valid()
    ensures '·' !in DateText(now) && '·' !in DayNames[now.weekday]
  {
  }

  /** The clock line loses nothing: equal lines come from the same date and time. */
  lemma ClockTextReadsBack(a: DateTime, b: DateTime)
    requires a.Valid() && b.Valid() && ClockText(a) == ClockText(b)
    ensures a == b
  {
    NoDotIn(a);
    NoDotIn(b);
    SplitAtLastDot(TimeText(a) + " · " + DateText(a), TimeText(b) + " · " + DateText(b),
      DayNames[a.weekday], DayNames[b.weekday]);
    DayNamesDistinct(a.weekday, b.weekday);
    SplitAtLastDot(TimeText(a), TimeText(b), DateText(a), DateText(b));
    TimePieces(NatToString(Hour12(a.hour)), Pad2(a.minute), Pad2(a.second), Meridiem(a.hour),
      NatToString(Hour12(b.hour)), Pad2(b.minute), Pad2(b.second), Meridiem(b.hour));
    NatToStringInjective(Hour12(a.hour), Hour12(b.hour));
    TwelveHourRoundTrip(a.hour);
    TwelveHourRoundTrip(b.hour);
    DatePieces(Pad2(a.date), Pad2(a.month + 1), IntToString(a.year),
      Pad2(b.date), Pad2(b.month + 1), IntToString(b.year));
    IntToStringInjective(a.year, b.year);
  }
}
