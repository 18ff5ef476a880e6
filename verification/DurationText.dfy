/** The text Ticket.Duration prints (knox-proxy/jit/models.go), with whole-number arithmetic. */
module DurationText {
  import opened Options
  import opened Tickets
  import opened Validation

  const MINUTE: int := 60_000_000_000
  const HOUR: int := 3_600_000_000_000

  function Digit(d: nat): char
    requires d < 10
  {
    '0' + d as char
  }

  predicate IsDigit(c: char) {
    '0' <= c <= '9'
  }

  /** Printf's %d on a natural number. */
  function Decimal(n: nat): string {
    if n < 10 then [Digit(n)] else Decimal(n / 10) + [Digit(n % 10)]
  }

  function Text(d: Duration): string {
    if d < 0 then "0m" else TextOf(d / HOUR, d / MINUTE)
  }

  function TextOf(wholeHours: nat, wholeMinutes: nat): string {
    var days, hours, minutes := wholeHours / 24, wholeHours % 24, wholeMinutes % 60;
    if days > 0 then DaysText(days, hours, minutes)
    else if hours > 0 then HoursText(hours, minutes)
    else MinutesText(minutes)
  }

  function MinutesText(minutes: nat): string {
    Decimal(minutes) + "m"
  }

  function HoursText(hours: nat, minutes: nat): string {
    Decimal(hours) + ("h " + MinutesText(minutes))
  }

  function DaysText(days: nat, hours: nat, minutes: nat): string {
    Decimal(days) + ("d " + HoursText(hours, minutes))
  }

  function TicketDuration(start: Instant, end: Instant): string {
    Text(Sub(end, start))
  }

  /** A reader of such texts: the digits in front, and the rest. */
  function ReadDigits(s: string, acc: nat): (r: (nat, string))
    ensures |r.1| <= |s|
    decreases |s|
  {
    if s != "" && IsDigit(s[0]) then ReadDigits(s[1..], 10 * acc + (s[0] as int - '0' as int)) else (acc, s)
  }

  function SkipSpace(s: string): string {
    if s != "" && s[0] == ' ' then s[1..] else s
  }

  /** So many of the unit a letter stands for, in minutes. */
  function Amount(n: nat, unit: char): Option<nat> {
    if unit == 'd' then Some(n * 1440) else if unit == 'h' then Some(n * 60) else if unit == 'm' then Some(n) else None
  }

  /** The number of minutes a text names. */
  function Minutes(s: string): Option<nat>
    decreases |s|
  {
    if s == "" then Some(0)
    else
      var (n, rest) := ReadDigits(s, 0);
      if rest == "" || Amount(n, rest[0]).None? then None
      else
        match Minutes(SkipSpace(rest[1..]))
        case None => None
        case Some(m) => Some(Amount(n, rest[0]).value + m)
  }

  lemma {:induction false} DecimalReads(n: nat, t: string)
    ensures ReadDigits(Decimal(n) + t, 0) == ReadDigits(t, n)
  {
    if n < 10 {
      assert ([Digit(n)] + t)[1..] == t;
    } else {
      var last := [Digit(n % 10)];
      assert Decimal(n) + t == Decimal(n / 10) + (last + t);
      DecimalReads(n / 10, last + t);
      assert (last + t)[1..] == t;
    }
  }

  /** One number and its unit in front of a text add what they say. */
  lemma UnitReads(s: string, n: nat, rest: string, t: string)
    requires s != "" && ReadDigits(s, 0) == (n, rest) && rest != "" && Amount(n, rest[0]).Some?
    requires SkipSpace(rest[1..]) == t && Minutes(t).Some?
    ensures Minutes(s) == Some(Amount(n, rest[0]).value + Minutes(t).value)
  {
  }

  lemma NumberStops(n: nat, rest: string)
    requires rest != "" && !IsDigit(rest[0])
    ensures Decimal(n) + rest != "" && ReadDigits(Decimal(n) + rest, 0) == (n, rest)
  {
    DecimalReads(n, rest);
  }

  lemma MinutesRead(m: nat)
    ensures Minutes(MinutesText(m)) == Some(m)
  {
    NumberStops(m, "m");
    UnitReads(MinutesText(m), m, "m", "");
  }

  lemma HoursRead(h: nat, m: nat)
    ensures Minutes(HoursText(h, m)) == Some(h * 60 + m)
  {
    var t := MinutesText(m);
    MinutesRead(m);
    assert ("h " + t)[1..] == " " + t && (" " + t)[1..] == t;
    NumberStops(h, "h " + t);
    UnitReads(HoursText(h, m), h, "h " + t, t);
  }

  lemma DaysRead(d: nat, h: nat, m: nat)
    ensures Minutes(DaysText(d, h, m)) == Some(d * 1440 + h * 60 + m)
  {
    var t := HoursText(h, m);
    HoursRead(h, m);
    assert ("d " + t)[1..] == " " + t && (" " + t)[1..] == t;
    NumberStops(d, "d " + t);
    UnitReads(DaysText(d, h, m), d, "d " + t, t);
  }

  lemma HoursOf(d: nat)
    ensures d / HOUR == d / MINUTE / 60
  {
    var h, r := d / HOUR, d % HOUR;
    assert d / MINUTE == h * 60 + r / MINUTE && 0 <= r / MINUTE < 60;
  }

  /** The printed text leaves out leading zero parts only. */
  lemma PartsRead(wholeHours: nat, wholeMinutes: nat)
    ensures Minutes(TextOf(wholeHours, wholeMinutes)) ==
            Some(wholeHours / 24 * 1440 + wholeHours % 24 * 60 + wholeMinutes % 60)
  {
    var days, hours, minutes := wholeHours / 24, wholeHours % 24, wholeMinutes % 60;
    if days > 0 { DaysRead(days, hours, minutes); }
    else if hours > 0 { HoursRead(hours, minutes); }
    else { MinutesRead(minutes); }
  }

  lemma TextOfReads(wholeMinutes: nat)
    ensures Minutes(TextOf(wholeMinutes / 60, wholeMinutes)) == Some(wholeMinutes)
  {
    PartsRead(wholeMinutes / 60, wholeMinutes);
  }

  /** The text reads back as the whole minutes, of nothing for a negative duration. */
  lemma TextReads(d: Duration)
    ensures Minutes(Text(d)) == Some(Max(0, d) / MINUTE)
  {
    if d >= 0 {
      HoursOf(d);
      TextOfReads(d / MINUTE);
    } else {
      MinutesRead(0);
      assert "0m" == MinutesText(0);
    }
  }

  lemma SameText(c: Duration, d: Duration)
    ensures Text(c) == Text(d) <==> Max(0, c) / MINUTE == Max(0, d) / MINUTE
  {
    TextReads(c);
    TextReads(d);
    HoursOf(Max(0, c));
    HoursOf(Max(0, d));
    assert Text(c) == TextOf(Max(0, c) / HOUR, Max(0, c) / MINUTE) by { NegativeText(c); }
    assert Text(d) == TextOf(Max(0, d) / HOUR, Max(0, d) / MINUTE) by { NegativeText(d); }
  }

  lemma NegativeText(d: Duration)
    ensures d < 0 ==> Text(d) == TextOf(0, 0)
  {
    assert MinutesText(0) == "0m";
  }

  lemma PartsOf(days: nat, hours: nat, minutes: nat)
    requires hours < 24 && minutes < 60
    ensures var all := (days * 24 + hours) * 60 + minutes;
            all / 60 / 24 == days && all / 60 % 24 == hours && all % 60 == minutes
  {
    var all := (days * 24 + hours) * 60 + minutes;
    assert all / 60 == days * 24 + hours && all % 60 == minutes;
    assert (days * 24 + hours) / 24 == days;
  }

  lemma TextsJoined(days: nat, hours: nat, minutes: nat)
    ensures DaysText(days, hours, minutes) == Decimal(days) + "d " + Decimal(hours) + "h " + Decimal(minutes) + "m"
    ensures HoursText(hours, minutes) == Decimal(hours) + "h " + Decimal(minutes) + "m"
  {
    var d, h, m := Decimal(days), Decimal(hours), Decimal(minutes);
    var hd, hh, mm := "d ", "h ", "m";
    assert h + (hh + (m + mm)) == h + hh + m + mm;
    assert d + (hd + (h + hh + m + mm)) == d + hd + h + hh + m + mm;
  }

  lemma TextOfMinutes(m: nat, d: Duration)
    requires d >= 0 && m == d / MINUTE
    ensures Text(d) == TextOf(m / 60, m)
  {
    HoursOf(d);
  }

  lemma TextOfWhole(days: nat, hours: nat, minutes: nat, m: nat)
    requires hours < 24 && minutes < 60 && m == (days * 24 + hours) * 60 + minutes
    ensures TextOf(m / 60, m) == if days > 0 then DaysText(days, hours, minutes)
                                 else if hours > 0 then HoursText(hours, minutes) else MinutesText(minutes)
  {
    PartsOf(days, hours, minutes);
  }

  /** Days, hours and minutes are printed from the first that is not zero, or the minutes; parts of a minute are dropped. */
  lemma TextOfParts(days: nat, hours: nat, minutes: nat, d: Duration)
    requires d >= 0 && hours < 24 && minutes < 60 && d / 60_000_000_000 == (days * 24 + hours) * 60 + minutes
    ensures Text(d) == if days > 0 then Decimal(days) + "d " + Decimal(hours) + "h " + Decimal(minutes) + "m"
                       else if hours > 0 then Decimal(hours) + "h " + Decimal(minutes) + "m"
                       else Decimal(minutes) + "m"
  {
    var m: nat := d / 60_000_000_000;
    TextOfMinutes(m, d);
    TextOfWhole(days, hours, minutes, m);
    TextsJoined(days, hours, minutes);
  }

  /** Any two periods print alike iff they have the same whole minutes, as far as a Duration can hold them. */
  lemma SameTextSameMinutes(s1: Instant, e1: Instant, s2: Instant, e2: Instant)
    ensures TicketDuration(s1, e1) == TicketDuration(s2, e2) <==> Max(0, Sub(e1, s1)) / MINUTE == Max(0, Sub(e2, s2)) / MINUTE
  {
    SameText(Sub(e1, s1), Sub(e2, s2));
  }

  /** What is printed is the period's true length iff it does not end before it starts and fits the minutes of a Duration. */
  lemma PrintedTrulyIff(start: Instant, end: Instant)
    ensures Minutes(TicketDuration(start, end)).Some?
    ensures Minutes(TicketDuration(start, end)).value == (end - start) / MINUTE <==>
            0 <= end - start && (end - start) / MINUTE <= MAX_INT64 / MINUTE
  {
    TextReads(Sub(end, start));
  }
}
