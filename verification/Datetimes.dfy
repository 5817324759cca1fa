/**
 Naive datetime texts: which are accepted, what they are normalised to, and why
 comparing the normalised texts as strings compares instants.
 */
module Datetimes {
  import opened Options
  import opened Strings

  // ---- Digits and strings -----------------------------------------------------------------

  predicate IsDigit(c: char) { '0' <= c <= '9' }

  predicate AllDigits(s: string) { forall i :: 0 <= i < |s| ==> IsDigit(s[i]) }

  function Value(s: string): nat
    requires AllDigits(s)
    decreases |s|
  {
    if s == "" then 0 else Value(s[..|s| - 1]) * 10 + (s[|s| - 1] as int - '0' as int)
  }

  /** String comparison, the order of `<` on strings. */
  predicate Less(a: string, b: string)
    decreases |a|
  {
    b != "" && (a == "" || a[0] < b[0] || (a[0] == b[0] && Less(a[1..], b[1..])))
  }

  lemma {:induction false} LessConcat(a: string, b: string, c: string, d: string)
    requires |a| == |c|
    ensures Less(a + b, c + d) <==> Less(a, c) || (a == c && Less(b, d))
    decreases |a|
  {
    if a == "" {
      assert a + b == b && c + d == d;
    } else {
      LessConcat(a[1..], b, c[1..], d);
      assert (a + b)[1..] == a[1..] + b && (c + d)[1..] == c[1..] + d;
      assert a == [a[0]] + a[1..] && c == [c[0]] + c[1..];
    }
  }

  /** On digit strings of one length the order of strings is the order of numbers. */
  lemma {:induction false} DigitsOrder(a: string, b: string)
    requires |a| == |b| && AllDigits(a) && AllDigits(b)
    ensures Less(a, b) <==> Value(a) < Value(b)
    ensures a == b <==> Value(a) == Value(b)
    decreases |a|
  {
    if a != "" {
      var n := |a| - 1;
      DigitsOrder(a[..n], b[..n]);
      LessConcat(a[..n], [a[n]], b[..n], [b[n]]);
      assert a == a[..n] + [a[n]] && b == b[..n] + [b[n]];
      assert Less([a[n]], [b[n]]) <==> a[n] < b[n];
    }
  }

  lemma FieldOrder(a: string, b: string, separator: string, c: string, d: string)
    requires |a| == |b| && AllDigits(a) && AllDigits(b)
    ensures Less(a + separator + c, b + separator + d) <==> Value(a) < Value(b) || (Value(a) == Value(b) && Less(c, d))
  {
    DigitsOrder(a, b);
    assert a + separator + c == a + (separator + c) && b + separator + d == b + (separator + d);
    LessConcat(a, separator + c, b, separator + d);
    LessConcat(separator, c, separator, d);
    SelfNotLess(separator);
  }

  lemma {:induction false} SelfNotLess(s: string)
    ensures !Less(s, s)
    decreases |s|
  {
    if s != "" { SelfNotLess(s[1..]); }
  }

  // ---- The accepted texts -------------------------------------------------------------------

  /** The groups of the pattern; a missing fraction is empty. */
  datatype Parts = Parts(year: string, month: string, day: string, hour: string, minute: string, second: string, fraction: string)

  predicate WellFormed(p: Parts) {
    && |p.year| == 4 && |p.month| == 2 && |p.day| == 2 && |p.hour| == 2 && |p.minute| == 2 && |p.second| == 2
    && AllDigits(p.year) && AllDigits(p.month) && AllDigits(p.day) && AllDigits(p.hour) && AllDigits(p.minute)
    && AllDigits(p.second) && AllDigits(p.fraction) && |p.fraction| <= 6
  }

  /** YYYY-MM-DD, a space or T, HH:MM:SS at the start of the text. */
  predicate HasDateAndTime(t: string) {
    && |t| >= 19
    && AllDigits(t[..4]) && t[4] == '-' && AllDigits(t[5..7]) && t[7] == '-' && AllDigits(t[8..10])
    && (t[10] == ' ' || t[10] == 'T')
    && AllDigits(t[11..13]) && t[13] == ':' && AllDigits(t[14..16]) && t[16] == ':' && AllDigits(t[17..19])
  }

  /** The anchored pattern: after the seconds, nothing or a point and one to six digits. */
  function Match(t: string): (r: Option<Parts>)
    ensures r.Some? ==> WellFormed(r.value)
  {
    if !HasDateAndTime(t) then None
    else if |t| == 19 then Some(Parts(t[..4], t[5..7], t[8..10], t[11..13], t[14..16], t[17..19], ""))
    else if t[19] == '.' && 21 <= |t| <= 26 && AllDigits(t[20..])
    then Some(Parts(t[..4], t[5..7], t[8..10], t[11..13], t[14..16], t[17..19], t[20..]))
    else None
  }

  function PadEnd(s: string): string
    decreases 6 - |s|
  {
    if |s| >= 6 then s else PadEnd(s + "0")
  }

  function Text(p: Parts): string {
    p.year + "-" + (p.month + "-" + (p.day + " " + (p.hour + ":" + (p.minute + ":" + (p.second + "." + PadEnd(p.fraction))))))
  }

  predicate Leap(year: int) { (year % 4 == 0 && year % 100 != 0) || year % 400 == 0 }

  function DaysInMonth(year: int, month: int): int {
    if month == 2 then (if Leap(year) then 29 else 28)
    else if month == 4 || month == 6 || month == 9 || month == 11 then 30
    else 31
  }

  datatype Moment = Moment(year: int, month: int, day: int, hour: int, minute: int, second: int, micro: int)

  function MomentOf(p: Parts): Moment
    requires WellFormed(p)
  {
    PadEndDigits(p.fraction);
    Moment(Value(p.year), Value(p.month), Value(p.day), Value(p.hour), Value(p.minute), Value(p.second), Value(PadEnd(p.fraction)))
  }

  predicate Real(m: Moment) {
    && m.year >= 1 && 1 <= m.month <= 12 && 1 <= m.day <= DaysInMonth(m.year, m.month)
    && 0 <= m.hour <= 23 && 0 <= m.minute <= 59 && 0 <= m.second <= 59 && 0 <= m.micro < 1000000
  }

  /** `requireNaiveDatetime`; None stands for the error it throws. */
  function RequireNaiveDatetime(value: string): Option<string> {
    var parts := Match(Trim(value));
    if parts.None? then None
    else
      var p := parts.value;
      if Value(p.year) < 1 then None
      else if Value(p.month) < 1 || Value(p.month) > 12 then None
      else if Value(p.day) < 1 || Value(p.day) > DaysInMonth(Value(p.year), Value(p.month)) then None
      else if Value(p.hour) > 23 then None
      else if Value(p.minute) > 59 then None
      else if Value(p.second) > 59 then None
      else Some(Text(p))
  }

  /** How many of the first six characters are digits, which is what the greedy group takes. */
  function DigitRun(t: string): nat
    decreases |t|
  {
    if t == "" || !IsDigit(t[0]) then 0 else 1 + DigitRun(t[1..])
  }

  /** `readDatetime` of a stored text: the pattern without an end anchor, and the text itself when it fails. */
  function ReadDatetime(t: string): string {
    if !HasDateAndTime(t) then t
    else
      var digits := if |t| > 19 && t[19] == '.' then DigitRun(t[20..]) else 0;
      DigitRunWithin(if |t| > 20 then t[20..] else "");
      var taken := if digits > 6 then 6 else digits;
      t[..10] + " " + t[11..19] + "." + PadEnd(if taken == 0 then "" else t[20..20 + taken])
  }

  lemma {:induction false} DigitRunWithin(t: string)
    ensures DigitRun(t) <= |t|
    ensures AllDigits(t) ==> DigitRun(t) == |t|
    decreases |t|
  {
    if t != "" { DigitRunWithin(t[1..]); }
  }

  lemma {:induction false} PadEndDigits(s: string)
    requires AllDigits(s)
    ensures AllDigits(PadEnd(s)) && (|s| <= 6 ==> |PadEnd(s)| == 6) && s <= PadEnd(s)
    decreases 6 - |s|
  {
    if |s| < 6 {
      PadEndDigits(s + "0");
      assert s <= s + "0";
    }
  }

  // ---- Order --------------------------------------------------------------------------------

  predicate Earlier(x: Moment, y: Moment) {
    || x.year < y.year
    || (x.year == y.year && (x.month < y.month
       || (x.month == y.month && (x.day < y.day
          || (x.day == y.day && (x.hour < y.hour
             || (x.hour == y.hour && (x.minute < y.minute
                || (x.minute == y.minute && (x.second < y.second
                   || (x.second == y.second && x.micro < y.micro)))))))))))
  }

  /** The fields of a text are compared in order of significance. */
  lemma TextOrder(p: Parts, q: Parts)
    requires WellFormed(p) && WellFormed(q)
    ensures Less(Text(p), Text(q)) <==> Earlier(MomentOf(p), MomentOf(q))
  {
    var f, g := PadEnd(p.fraction), PadEnd(q.fraction);
    PadEndDigits(p.fraction);
    PadEndDigits(q.fraction);
    DigitsOrder(f, g);
    var s1, s2 := p.second + "." + f, q.second + "." + g;
    FieldOrder(p.second, q.second, ".", f, g);
    var m1, m2 := p.minute + ":" + s1, q.minute + ":" + s2;
    FieldOrder(p.minute, q.minute, ":", s1, s2);
    var h1, h2 := p.hour + ":" + m1, q.hour + ":" + m2;
    FieldOrder(p.hour, q.hour, ":", m1, m2);
    var d1, d2 := p.day + " " + h1, q.day + " " + h2;
    FieldOrder(p.day, q.day, " ", h1, h2);
    FieldOrder(p.month, q.month, "-", d1, d2);
    FieldOrder(p.year, q.year, "-", p.month + "-" + d1, q.month + "-" + d2);
  }

  // ---- Instants ------------------------------------------------------------------------------

  function DaysInYear(year: int): int { if Leap(year) then 366 else 365 }

  function DaysBeforeYear(year: int): int
    requires year >= 1
    decreases year
  {
    if year == 1 then 0 else DaysBeforeYear(year - 1) + DaysInYear(year - 1)
  }

  function DaysBeforeMonth(year: int, month: int): int
    requires 1 <= month <= 13
    decreases month
  {
    if month == 1 then 0 else DaysBeforeMonth(year, month - 1) + DaysInMonth(year, month - 1)
  }

  /** Days since the first day of year one. */
  function Day(m: Moment): int
    requires Real(m)
  {
    DaysBeforeYear(m.year) + DaysBeforeMonth(m.year, m.month) + m.day - 1
  }

  /** Microseconds since the start of year one. */
  function Instant(m: Moment): int
    requires Real(m)
  {
    (((Day(m) * 24 + m.hour) * 60 + m.minute) * 60 + m.second) * 1000000 + m.micro
  }

  lemma {:induction false} YearsAdvance(x: int, y: int)
    requires 1 <= x < y
    ensures DaysBeforeYear(x) + DaysInYear(x) <= DaysBeforeYear(y)
    decreases y
  {
    if x < y - 1 { YearsAdvance(x, y - 1); }
  }

  lemma {:induction false} MonthsAdvance(year: int, x: int, y: int)
    requires 1 <= x < y <= 13
    ensures DaysBeforeMonth(year, x) + DaysInMonth(year, x) <= DaysBeforeMonth(year, y)
    decreases y
  {
    if x < y - 1 { MonthsAdvance(year, x, y - 1); }
  }

  lemma MonthsFillYear(year: int)
    ensures DaysBeforeMonth(year, 13) == DaysInYear(year)
  {
    var jan := DaysBeforeMonth(year, 2);
    var feb := DaysBeforeMonth(year, 3);
    var mar := DaysBeforeMonth(year, 4);
    var apr := DaysBeforeMonth(year, 5);
    var may := DaysBeforeMonth(year, 6);
    var jun := DaysBeforeMonth(year, 7);
    var jul := DaysBeforeMonth(year, 8);
    var aug := DaysBeforeMonth(year, 9);
    var sep := DaysBeforeMonth(year, 10);
    var oct := DaysBeforeMonth(year, 11);
    var nov := DaysBeforeMonth(year, 12);
    assert jan == 31 && feb == 31 + DaysInMonth(year, 2) && mar == feb + 31 && apr == feb + 61;
    assert may == feb + 92 && jun == feb + 122 && jul == feb + 153 && aug == feb + 184;
    assert sep == feb + 214 && oct == feb + 245 && nov == feb + 275;
  }

  lemma {:induction false} MonthsBefore(year: int, month: int)
    requires 1 <= month <= 13
    ensures DaysBeforeMonth(year, month) >= 0
    decreases month
  {
    if month > 1 { MonthsBefore(year, month - 1); }
  }

  /** An earlier calendar date is an earlier day. */
  lemma EarlierDate(x: Moment, y: Moment)
    requires Real(x) && Real(y)
    requires x.year < y.year || (x.year == y.year && (x.month < y.month || (x.month == y.month && x.day < y.day)))
    ensures Day(x) < Day(y)
  {
    if x.year < y.year {
      YearsAdvance(x.year, y.year);
      MonthsAdvance(x.year, x.month, 13);
      MonthsFillYear(x.year);
      MonthsBefore(y.year, y.month);
    } else if x.month < y.month {
      MonthsAdvance(x.year, x.month, y.month);
    }
  }

  lemma EarlierIsSooner(x: Moment, y: Moment)
    requires Real(x) && Real(y) && Earlier(x, y)
    ensures Instant(x) < Instant(y)
  {
    if (x.year, x.month, x.day) != (y.year, y.month, y.day) {
      EarlierDate(x, y);
    }
    var hx, hy := Day(x) * 24 + x.hour, Day(y) * 24 + y.hour;
    var mx, my := hx * 60 + x.minute, hy * 60 + y.minute;
    var sx, sy := mx * 60 + x.second, my * 60 + y.second;
    assert hx < hy || (hx == hy && (mx < my || (mx == my && (sx < sy || (sx == sy && x.micro < y.micro)))));
  }

  /** Calendar order of real moments is the order of instants. */
  lemma EarlierIffSooner(x: Moment, y: Moment)
    requires Real(x) && Real(y)
    ensures Earlier(x, y) <==> Instant(x) < Instant(y)
  {
    if Earlier(x, y) {
      EarlierIsSooner(x, y);
    } else if x != y {
      EarlierIsSooner(y, x);
    }
  }

  // ---- Normalisation --------------------------------------------------------------------------

  /** The normalised text read as the moment it names. */
  function Named(text: string): Moment
    requires Match(text).Some?
  {
    MomentOf(Match(text).value)
  }

  lemma {:induction false} PadEndFull(s: string)
    requires |s| == 6
    ensures PadEnd(s) == s
  {
  }

  lemma SixDigits(s: string)
    requires AllDigits(s) && |s| == 6
    ensures Value(s) < 1000000
  {
    assert Value(s[..1]) <= 9;
    assert s[..2][..1] == s[..1] && Value(s[..2]) <= 99;
    assert s[..3][..2] == s[..2] && Value(s[..3]) <= 999;
    assert s[..4][..3] == s[..3] && Value(s[..4]) <= 9999;
    assert s[..5][..4] == s[..4] && Value(s[..5]) <= 99999;
  }

  /** A normalised text has 26 characters at fixed places and is matched as its own parts. */
  lemma TextMatches(p: Parts)
    requires WellFormed(p) && |p.fraction| == 6
    ensures |Text(p)| == 26 && Match(Text(p)) == Some(p)
    ensures Text(p)[..10] + " " + Text(p)[11..19] + "." + Text(p)[20..] == Text(p)
  {
    PadEndFull(p.fraction);
    var t := Text(p);
    assert t[..4] == p.year && t[5..7] == p.month && t[8..10] == p.day;
    assert t[11..13] == p.hour && t[14..16] == p.minute && t[17..19] == p.second && t[20..] == p.fraction;
    assert t[4] == '-' && t[7] == '-' && t[10] == ' ' && t[13] == ':' && t[16] == ':' && t[19] == '.';
  }

  /** What an accepted value becomes: the padded text of a real moment. */
  lemma Accepted(value: string)
    requires RequireNaiveDatetime(value).Some?
    ensures var p := Match(Trim(value)).value;
      var q := p.(fraction := PadEnd(p.fraction));
      && WellFormed(q) && |q.fraction| == 6 && RequireNaiveDatetime(value).value == Text(q)
      && MomentOf(q) == MomentOf(p) && Real(MomentOf(q))
  {
    var p := Match(Trim(value)).value;
    PadEndDigits(p.fraction);
    PadEndFull(PadEnd(p.fraction));
    SixDigits(PadEnd(p.fraction));
  }

  /** The parts written out, with a space or a T between date and time, and the fraction only if there is one. */
  function Spelled(p: Parts, separator: char): string {
    p.year + (['-'] + (p.month + (['-'] + (p.day + ([separator] + (p.hour + ([':'] + (p.minute + ([':'] + (p.second
    + if p.fraction == "" then "" else ['.'] + p.fraction))))))))))
  }

  /** Every such text is matched, as the parts it was written from. */
  lemma SpelledMatches(p: Parts, separator: char)
    requires WellFormed(p) && (separator == ' ' || separator == 'T')
    ensures Match(Spelled(p, separator)) == Some(p)
  {
    var t := Spelled(p, separator);
    assert t[..4] == p.year && t[4] == '-' && t[5..7] == p.month && t[7] == '-' && t[8..10] == p.day && t[10] == separator;
    assert t[11..13] == p.hour && t[13] == ':' && t[14..16] == p.minute && t[16] == ':';
    var tail := if p.fraction == "" then "" else ['.'] + p.fraction;
    assert t[17..] == p.second + tail;
    assert t[17..19] == t[17..][..2] == p.second && t[19..] == t[17..][2..] == tail;
    if p.fraction != "" {
      assert t[19] == t[19..][0] == '.' && t[20..] == t[19..][1..] == p.fraction;
    }
  }

  /** Every accepted value names a real Gregorian moment; every value that names one is accepted. */
  lemma AcceptsExactlyRealMoments(value: string)
    ensures RequireNaiveDatetime(value).Some? <==>
      Match(Trim(value)).Some? && Real(MomentOf(Match(Trim(value)).value))
  {
    if Match(Trim(value)).Some? {
      var p := Match(Trim(value)).value;
      PadEndDigits(p.fraction);
      SixDigits(PadEnd(p.fraction));
    }
  }

  lemma NormalForm(value: string)
    requires RequireNaiveDatetime(value).Some?
    ensures var x := RequireNaiveDatetime(value).value;
      && Trim(x) == x && HasDateAndTime(x) && |x| == 26 && ReadDatetime(x) == x
      && Match(x).Some? && Text(Match(x).value) == x
      && Match(Trim(value)).Some? && Named(x) == Named(Trim(value)) && Real(Named(x))
  {
    Accepted(value);
    var p := Match(Trim(value)).value;
    var q := p.(fraction := PadEnd(p.fraction));
    var x := Text(q);
    TextMatches(q);
    assert x[0] == q.year[0] && x[25] == q.fraction[5];
    TrimIdentity(x);
    PadEndFull(q.fraction);
    DigitRunWithin(x[20..]);
    assert x[20..26] == x[20..];
  }

  /** Normalising is idempotent and a fixed point of reading back from storage, and keeps the moment. */
  lemma NormalisedIsFixed(value: string)
    requires RequireNaiveDatetime(value).Some?
    ensures var x := RequireNaiveDatetime(value).value;
      && RequireNaiveDatetime(x) == Some(x) && ReadDatetime(x) == x
      && Match(x).Some? && Match(Trim(value)).Some? && Named(x) == Named(Trim(value)) && Real(Named(x))
  {
    NormalForm(value);
    AcceptsExactlyRealMoments(RequireNaiveDatetime(value).value);
  }

  lemma NormalOrder(x: string, y: string)
    requires Match(x).Some? && Match(y).Some? && Text(Match(x).value) == x && Text(Match(y).value) == y
    requires Real(Named(x)) && Real(Named(y))
    ensures Less(x, y) <==> Instant(Named(x)) < Instant(Named(y))
  {
    TextOrder(Match(x).value, Match(y).value);
    EarlierIffSooner(Named(x), Named(y));
  }

  /** Comparing normalised texts as strings compares the instants they name. */
  lemma NormalisedOrderIsChronological(v: string, w: string)
    requires RequireNaiveDatetime(v).Some? && RequireNaiveDatetime(w).Some?
    ensures var x, y := RequireNaiveDatetime(v).value, RequireNaiveDatetime(w).value;
      && Match(x).Some? && Match(y).Some? && Real(Named(x)) && Real(Named(y))
      && (Less(x, y) <==> Instant(Named(x)) < Instant(Named(y)))
      && (x == y <==> Instant(Named(x)) == Instant(Named(y)))
  {
    NormalForm(v);
    NormalForm(w);
    var x, y := RequireNaiveDatetime(v).value, RequireNaiveDatetime(w).value;
    NormalOrder(x, y);
    NormalOrder(y, x);
    Trichotomy(x, y);
  }

  lemma {:induction false} Trichotomy(x: string, y: string)
    ensures x == y <==> !Less(x, y) && !Less(y, x)
    decreases |x|
  {
    if x != "" && y != "" && x[0] == y[0] {
      Trichotomy(x[1..], y[1..]);
      assert x == [x[0]] + x[1..] && y == [y[0]] + y[1..];
    }
  }

  /** The period a run is created for: both ends accepted and the end strictly after the start. */
  function ValidatePeriod(start: string, endExclusive: string): Option<(string, string)> {
    var x, y := RequireNaiveDatetime(start), RequireNaiveDatetime(endExclusive);
    if x.None? || y.None? then None
    else if !Less(x.value, y.value) then None
    else Some((x.value, y.value))
  }

  /** A period is accepted exactly when some instant lies in it. */
  lemma PeriodsAreNonEmpty(start: string, endExclusive: string)
    ensures ValidatePeriod(start, endExclusive).Some? <==>
      && RequireNaiveDatetime(start).Some? && RequireNaiveDatetime(endExclusive).Some?
      && Match(RequireNaiveDatetime(start).value).Some? && Match(RequireNaiveDatetime(endExclusive).value).Some?
      && Real(Named(RequireNaiveDatetime(start).value)) && Real(Named(RequireNaiveDatetime(endExclusive).value))
      && Instant(Named(RequireNaiveDatetime(start).value)) < Instant(Named(RequireNaiveDatetime(endExclusive).value))
  {
    if RequireNaiveDatetime(start).Some? && RequireNaiveDatetime(endExclusive).Some? {
      NormalisedOrderIsChronological(start, endExclusive);
    }
  }
}
