/**
 The monthly usage import: the timestamps it accepts, the rows it refuses before
 writing anything, and the chunked writes.
 */
module UsageDatetimes {
  import opened Options
  import opened Strings
  import opened Datetimes

  /** The groups of either pattern and what is left of the text behind them; a missing second reads as "00". */
  datatype Scanned = Scanned(
    year: string, month: string, day: string, hour: string, minute: string, second: string, rest: string)

  predicate ScanOk(s: Scanned) {
    && AllDigits(s.year) && AllDigits(s.month) && AllDigits(s.day) && AllDigits(s.hour) && AllDigits(s.minute) && AllDigits(s.second)
    && |s.year| == 4 && 1 <= |s.month| <= 2 && 1 <= |s.day| <= 2 && 1 <= |s.hour| <= 2 && |s.minute| == 2 && |s.second| == 2
  }

  /** The optional ":SS" group. */
  function Seconds(t: string): (string, string) {
    if |t| >= 3 && t[0] == ':' && AllDigits(t[1..3]) then (t[1..3], t[3..]) else ("00", t)
  }

  /** YYYY-MM-DD, a space or T, HH:MM, optional seconds. */
  function ScanIso(t: string): (r: Option<Scanned>)
    ensures r.Some? ==> ScanOk(r.value)
  {
    if |t| >= 16 && AllDigits(t[..4]) && t[4] == '-' && AllDigits(t[5..7]) && t[7] == '-' && AllDigits(t[8..10])
       && (t[10] == ' ' || t[10] == 'T') && AllDigits(t[11..13]) && t[13] == ':' && AllDigits(t[14..16])
    then
      var (second, rest) := Seconds(t[16..]);
      Some(Scanned(t[..4], t[5..7], t[8..10], t[11..13], t[14..16], second, rest))
    else None
  }

  /** A run of one or two digits and the separator behind it: the field and the text after the separator. */
  function ShortField(t: string, separator: char): Option<(string, string)> {
    if |t| >= 2 && IsDigit(t[0]) && t[1] == separator then Some((t[..1], t[2..]))
    else if |t| >= 3 && IsDigit(t[0]) && IsDigit(t[1]) && t[2] == separator then Some((t[..2], t[3..]))
    else None
  }

  /** DD/MM/YYYY, a space or T, HH:MM, optional seconds; day, month and hour may have one digit. */
  function ScanIndian(t: string): (r: Option<Scanned>)
    ensures r.Some? ==> ScanOk(r.value)
  {
    var day := ShortField(t, '/');
    if day.None? then None
    else
      var month := ShortField(day.value.1, '/');
      if month.None? then None
      else
        var u := month.value.1;
        if |u| < 5 || !AllDigits(u[..4]) || !(u[4] == ' ' || u[4] == 'T') then None
        else
          var hour := ShortField(u[5..], ':');
          if hour.None? then None
          else
            var v := hour.value.1;
            if |v| < 2 || !AllDigits(v[..2]) then None
            else
              var (second, rest) := Seconds(v[2..]);
              Some(Scanned(u[..4], month.value.0, day.value.0, hour.value.0, v[..2], second, rest))
  }

  lemma ShortFieldReads(f: string, separator: char, rest: string)
    requires 1 <= |f| <= 2 && AllDigits(f) && !IsDigit(separator)
    ensures ShortField(f + ([separator] + rest), separator) == Some((f, rest))
  {
    var t := f + ([separator] + rest);
    assert t[|f|] == separator && t[..|f|] == f && t[|f| + 1..] == rest;
    assert |f| == 2 ==> t[1] == f[1];
    assert t[0] == f[0];
  }

  /** The time of day behind the date. */
  function TimeText(hour: string, minute: string, second: Option<string>): string {
    hour + ([':'] + (minute + if second.Some? then [':'] + second.value else ""))
  }

  lemma MinuteReads(minute: string, second: Option<string>)
    requires |minute| == 2 && AllDigits(minute) && (second.Some? ==> |second.value| == 2 && AllDigits(second.value))
    ensures var v := minute + if second.Some? then [':'] + second.value else "";
      |v| >= 2 && v[..2] == minute && Seconds(v[2..]) == (if second.Some? then second.value else "00", "")
  {
    var tail := if second.Some? then [':'] + second.value else "";
    var v := minute + tail;
    assert v[..2] == minute && v[2..] == tail;
    if second.Some? {
      assert tail[1..3] == second.value && tail[3..] == "" && tail[0] == ':';
    }
  }

  /** DD/MM/YYYY is read day first, with a space or a T before the time. */
  lemma IndianReads(day: string, month: string, year: string, hour: string, minute: string, second: Option<string>, mark: char)
    requires mark == ' ' || mark == 'T'
    requires 1 <= |day| <= 2 && 1 <= |month| <= 2 && |year| == 4 && 1 <= |hour| <= 2 && |minute| == 2
    requires AllDigits(day) && AllDigits(month) && AllDigits(year) && AllDigits(hour) && AllDigits(minute)
    requires second.Some? ==> |second.value| == 2 && AllDigits(second.value)
    ensures ScanIndian(day + (['/'] + (month + (['/'] + (year + ([mark] + TimeText(hour, minute, second)))))))
         == Some(Scanned(year, month, day, hour, minute, if second.Some? then second.value else "00", ""))
  {
    var v := minute + if second.Some? then [':'] + second.value else "";
    var u := year + ([mark] + TimeText(hour, minute, second));
    ShortFieldReads(day, '/', month + (['/'] + u));
    ShortFieldReads(month, '/', u);
    ShortFieldReads(hour, ':', v);
    MinuteReads(minute, second);
    assert u[..4] == year && u[4] == mark && u[5..] == TimeText(hour, minute, second);
  }

  /** YYYY-MM-DD is read year first, with a space or a T before the time. */
  lemma IsoReads(year: string, month: string, day: string, hour: string, minute: string, second: Option<string>, mark: char)
    requires mark == ' ' || mark == 'T'
    requires |year| == 4 && |month| == 2 && |day| == 2 && |hour| == 2 && |minute| == 2
    requires AllDigits(year) && AllDigits(month) && AllDigits(day) && AllDigits(hour) && AllDigits(minute)
    requires second.Some? ==> |second.value| == 2 && AllDigits(second.value)
    ensures ScanIso(year + (['-'] + (month + (['-'] + (day + ([mark] + TimeText(hour, minute, second)))))))
         == Some(Scanned(year, month, day, hour, minute, if second.Some? then second.value else "00", ""))
  {
    var v := minute + if second.Some? then [':'] + second.value else "";
    var t := year + (['-'] + (month + (['-'] + (day + ([mark] + TimeText(hour, minute, second))))));
    MinuteReads(minute, second);
    assert t[..4] == year && t[4] == '-' && t[5..7] == month && t[7] == '-' && t[8..10] == day && t[10] == mark;
    assert t[11..13] == hour && t[13] == ':' && t[14..] == v;
    assert t[14..16] == v[..2] && t[16..] == v[2..];
  }

  function MonthLengths(leap: bool): seq<int> {
    [31, if leap then 29 else 28, 31, 30, 31, 30, 31, 31, 30, 31, 30, 31]
  }

  predicate IsRealDateParts(s: Scanned)
    requires ScanOk(s)
  {
    var year, month := Value(s.year), Value(s.month);
    && 1000 <= year <= 9999 && 1 <= month <= 12 && Value(s.hour) <= 23 && Value(s.minute) <= 59 && Value(s.second) <= 59
    && var leap := year % 4 == 0 && (year % 100 != 0 || year % 400 == 0);
       1 <= Value(s.day) <= MonthLengths(leap)[month - 1]
  }

  /** Both patterns are anchored at the end here. */
  predicate IsRealUsageDateTime(t: string) {
    var iso, indian := ScanIso(t), ScanIndian(t);
    if iso.Some? && iso.value.rest == "" then IsRealDateParts(iso.value)
    else indian.Some? && indian.value.rest == "" && IsRealDateParts(indian.value)
  }

  function PadStart(s: string): string { if |s| == 1 then "0" + s else s }

  function Printed(s: Scanned): string {
    s.year + "-" + PadStart(s.month) + "-" + PadStart(s.day) + " " + PadStart(s.hour) + ":" + s.minute + ":" + s.second
  }

  datatype SqlText = Absent | Text(text: string) | Invalid

  /** `sqlDateTime`: neither pattern is anchored, and the ISO one is tried first. */
  function SqlDateTime(value: string): SqlText {
    var t := Trim(value);
    if t == "" then Absent
    else if ScanIso(t).Some? then Text(Printed(ScanIso(t).value))
    else if ScanIndian(t).Some? then Text(Printed(ScanIndian(t).value))
    else Invalid
  }

  /** What the row check asks of one timestamp cell. */
  predicate CellOk(value: string) { Trim(value) == "" || IsRealUsageDateTime(Trim(value)) }

  lemma CalendarsAgree(year: int, month: int)
    requires 1 <= month <= 12
    ensures DaysInMonth(year, month) == MonthLengths(year % 4 == 0 && (year % 100 != 0 || year % 400 == 0))[month - 1]
  {
  }

  lemma PadStartValue(s: string)
    requires AllDigits(s) && 1 <= |s| <= 2
    ensures AllDigits(PadStart(s)) && |PadStart(s)| == 2 && Value(PadStart(s)) == Value(s)
  {
    if |s| == 1 {
      assert ("0" + s)[..1] == "0" && s[..0] == "";
      assert Value("0") == 0;
    }
  }

  /** The moment a scan names, to the second. */
  function ScanMoment(s: Scanned): Moment
    requires ScanOk(s)
  {
    Moment(Value(s.year), Value(s.month), Value(s.day), Value(s.hour), Value(s.minute), Value(s.second), 0)
  }

  lemma PrintedMatches(s: Scanned)
    requires ScanOk(s)
    ensures |Printed(s)| == 19
    ensures Match(Printed(s))
         == Some(Parts(s.year, PadStart(s.month), PadStart(s.day), PadStart(s.hour), s.minute, s.second, ""))
  {
    PadStartValue(s.month);
    PadStartValue(s.day);
    PadStartValue(s.hour);
    var t := Printed(s);
    assert |t| == 19;
    assert t[..4] == s.year && t[5..7] == PadStart(s.month) && t[8..10] == PadStart(s.day);
    assert t[11..13] == PadStart(s.hour) && t[14..16] == s.minute && t[17..19] == s.second;
    assert t[4] == '-' && t[7] == '-' && t[10] == ' ' && t[13] == ':' && t[16] == ':';
  }

  predicate AllZeros(s: string) { forall i :: 0 <= i < |s| ==> s[i] == '0' }

  lemma {:induction false} ZerosAreZero(s: string)
    requires AllZeros(s)
    ensures AllDigits(s) && Value(s) == 0
    decreases |s|
  {
    if s != "" { ZerosAreZero(s[..|s| - 1]); }
  }

  lemma {:induction false} PadEndZeros(s: string)
    requires AllZeros(s)
    ensures AllZeros(PadEnd(s))
    decreases 6 - |s|
  {
    if |s| < 6 { PadEndZeros(s + "0"); }
  }

  lemma NoFraction()
    ensures AllDigits(PadEnd("")) && Value(PadEnd("")) == 0
  {
    PadEndZeros("");
    ZerosAreZero(PadEnd(""));
  }

  lemma PrintedMoment(s: Scanned)
    requires ScanOk(s) && IsRealDateParts(s)
    ensures RequireNaiveDatetime(Printed(s)).Some? && Trim(Printed(s)) == Printed(s)
    ensures Match(Printed(s)).Some? && Named(Printed(s)) == ScanMoment(s) && Real(ScanMoment(s))
  {
    PrintedMatches(s);
    PadStartValue(s.month);
    PadStartValue(s.day);
    PadStartValue(s.hour);
    NoFraction();
    CalendarsAgree(Value(s.year), Value(s.month));
    var t := Printed(s);
    assert t[0] == s.year[0] && t[18] == s.second[1];
    TrimIdentity(t);
    AcceptsExactlyRealMoments(t);
  }

  /**
   A cell that passes the row check never makes the preparation throw: an empty one
   becomes NULL, any other becomes the text of the same real moment.
   */
  lemma CheckedCellsConvert(value: string)
    requires CellOk(value)
    ensures SqlDateTime(value) != Invalid
    ensures SqlDateTime(value) == Absent <==> Trim(value) == ""
    ensures Trim(value) != "" ==>
      exists s :: ScanOk(s) && (ScanIso(Trim(value)) == Some(s) || ScanIndian(Trim(value)) == Some(s)) && s.rest == ""
        && SqlDateTime(value) == Text(Printed(s))
        && Match(Printed(s)).Some? && Named(Printed(s)) == ScanMoment(s) && Real(ScanMoment(s))
  {
    var t := Trim(value);
    if t != "" {
      IsoIsNotIndian(t);
      var s := if ScanIso(t).Some? then ScanIso(t).value else ScanIndian(t).value;
      PrintedMoment(s);
    }
  }

  /** Four leading digits and a dash leave no room for the other pattern. */
  lemma IsoIsNotIndian(t: string)
    ensures ScanIso(t).Some? ==> ScanIndian(t).None?
  {
    if ScanIso(t).Some? {
      assert t[1] == t[..4][1] && t[2] == t[..4][2];
    }
  }
}

module CycleImport {
  import opened Options
  import opened UsageDatetimes
  import Datetimes
  import Charges

  const BATCH_SIZE: nat := 500

  /** The cells of one CSV row; an empty amount or URL is absent. */
  datatype UsageRow = UsageRow(
    taskId: string, start: string, connected: string, end: string, secondsRinging: string, secondsTalking: string,
    billedMinutes: string, billedAmount: string, recordingUrl: string)

  datatype Prepared = Prepared(taskId: string, startedAt: SqlText, connectedAt: SqlText, endedAt: SqlText, sourceUrl: Option<string>)

  // ---- Numbers -------------------------------------------------------------------------------

  /** Where the decimal point is, or the length of the text. */
  function Point(s: string): (p: nat)
    ensures p <= |s|
    decreases |s|
  {
    if s == "" || s[0] == '.' then 0 else 1 + Point(s[1..])
  }

  function Fraction(s: string): string { if Point(s) < |s| then s[Point(s) + 1..] else "" }

  /** Digits, and after a point at least one and at most `places` further digits. */
  predicate IsDecimal(s: string, places: Option<nat>) {
    && Point(s) > 0 && Datetimes.AllDigits(s[..Point(s)])
    && (Point(s) < |s| ==>
          Fraction(s) != "" && Datetimes.AllDigits(Fraction(s)) && (places.Some? ==> |Fraction(s)| <= places.value))
  }

  function Pow10(n: nat): (r: nat)
    ensures r >= 1
  {
    if n == 0 then 1 else 10 * Pow10(n - 1)
  }

  function Over(n: nat, p: nat): real
    requires p >= 1
  {
    n as real / p as real
  }

  function Scaled(digits: string): (r: real)
    requires Datetimes.AllDigits(digits)
    ensures r >= 0.0
  {
    Over(Datetimes.Value(digits), Pow10(|digits|))
  }

  function DecimalValue(s: string): (r: real)
    requires IsDecimal(s, None)
    ensures r >= 0.0
  {
    Datetimes.Value(s[..Point(s)]) as real + Scaled(Fraction(s))
  }

  /** The duration and amount checks of the scan. */
  predicate NumbersOk(row: UsageRow) {
    && IsDecimal(row.secondsRinging, None) && IsDecimal(row.secondsTalking, None) && IsDecimal(row.billedMinutes, None)
    && (row.billedAmount != "" ==> IsDecimal(row.billedAmount, Some(8)))
  }

  function Complaint(ok: bool, field: string, code: string): seq<(string, string)> { if ok then [] else [(field, code)] }

  /** One complaint for each cell that is not a number, in the order of the scan. */
  function NumberIssues(row: UsageRow): seq<(string, string)> {
    Complaint(IsDecimal(row.secondsRinging, None), "durationWithRingingSec", "DURATION_INVALID")
    + Complaint(IsDecimal(row.secondsTalking, None), "durationWithoutRingingSec", "DURATION_INVALID")
    + Complaint(IsDecimal(row.billedMinutes, None), "durationMinutes", "DURATION_INVALID")
    + Complaint(row.billedAmount == "" || IsDecimal(row.billedAmount, Some(8)), "billedAmount", "AMOUNT_INVALID")
  }

  /** The amount may be left out; if it is given it has at most eight decimal places. */
  lemma NumberIssuesIff(row: UsageRow)
    ensures NumberIssues(row) == [] <==> NumbersOk(row)
    ensures NumbersOk(row) <==>
      && IsDecimal(row.secondsRinging, None) && IsDecimal(row.secondsTalking, None) && IsDecimal(row.billedMinutes, None)
      && (row.billedAmount == "" || (IsDecimal(row.billedAmount, None) && |Fraction(row.billedAmount)| <= 8))
  {
  }

  /** The vendor assertions stored for a row that passed the checks. */
  function Asserted(row: UsageRow): Charges.Vendor
    requires NumbersOk(row)
  {
    Charges.Vendor(if row.billedAmount == "" then None else Some(DecimalValue(row.billedAmount)), Some(DecimalValue(row.billedMinutes)))
  }

  /** The import stores a vendor charge for every call, and never a credit. */
  lemma ImportedChargesCarryNoCredit(row: UsageRow)
    requires NumbersOk(row)
    ensures Charges.VendorCharge(Asserted(row)).Some? && Charges.NoCredit(Asserted(row))
  {
  }

  lemma TenTimes(x: nat, p: nat)
    ensures x * (10 * p) == 10 * (x * p)
  {
  }

  lemma {:induction false} ValueConcat(a: string, b: string)
    requires Datetimes.AllDigits(a) && Datetimes.AllDigits(b)
    ensures Datetimes.AllDigits(a + b)
    ensures Datetimes.Value(a + b) == Datetimes.Value(a) * Pow10(|b|) + Datetimes.Value(b)
    decreases |b|
  {
    if b == "" {
      assert a + b == a;
    } else {
      var n := |b| - 1;
      ValueConcat(a, b[..n]);
      assert (a + b)[..|a + b| - 1] == a + b[..n];
      TenTimes(Datetimes.Value(a), Pow10(n));
    }
  }

  lemma Unscaled(x: real, v: real, p: real)
    requires p > 0.0
    ensures (x + v / p) * p == x * p + v
  {
    assert v / p * p == v;
  }

  lemma WholeProduct(x: nat, p: nat, y: nat)
    requires y == x * p
    ensures x as real * p as real == y as real
  {
  }

  lemma Worth(whole: nat, fraction: nat, p: nat, digits: nat)
    requires p >= 1 && digits == whole * p + fraction
    ensures whole as real + Over(fraction, p) == Over(digits, p)
  {
    Unscaled(whole as real, fraction as real, p as real);
    WholeProduct(whole, p, whole * p);
    assert (whole as real + Over(fraction, p)) * p as real == digits as real;
    Quotient(whole as real + Over(fraction, p), digits as real, p as real);
  }

  lemma Quotient(x: real, y: real, p: real)
    requires p > 0.0 && x * p == y
    ensures x == y / p
  {
    assert (y / p) * p == y;
    assert (x - y / p) * p == 0.0;
  }

  /** A decimal text is worth its digits, read without the point, over the power of ten of its places. */
  lemma DecimalReadsBack(s: string, whole: string, fraction: string)
    requires IsDecimal(s, None) && whole == s[..Point(s)] && fraction == Fraction(s)
    ensures Datetimes.AllDigits(whole + fraction)
    ensures DecimalValue(s) == Over(Datetimes.Value(whole + fraction), Pow10(|fraction|))
  {
    ValueConcat(whole, fraction);
    Worth(Datetimes.Value(whole), Datetimes.Value(fraction), Pow10(|fraction|), Datetimes.Value(whole + fraction));
  }

  /** The charge of an imported call is the amount the vendor billed, and 9.5 a minute only where it billed none. */
  lemma ImportedCharge(row: UsageRow)
    requires NumbersOk(row)
    ensures Charges.VendorCharge(Asserted(row))
         == Some(if row.billedAmount != "" then DecimalValue(row.billedAmount) else 9.5 * DecimalValue(row.billedMinutes))
  {
    Charges.VendorChargeIs(Asserted(row));
  }

  /** So over imported calls, whatever was audited, the auditor total never exceeds the vendor total. */
  lemma ImportedMonthWithinVendor(calls: seq<Charges.Row>, from: seq<UsageRow>, category: string)
    requires |calls| == |from|
    requires forall i :: 0 <= i < |from| ==> NumbersOk(from[i]) && calls[i].vendor == Asserted(from[i])
    ensures Charges.CategoryTotals(calls, category).auditorCharge <= Charges.CategoryTotals(calls, category).vendorCharge
    ensures Charges.MonthTotals(calls).auditorCharge <= Charges.MonthTotals(calls).vendorCharge
  {
    forall i | 0 <= i < |calls| ensures Charges.VendorCharge(calls[i].vendor).Some? && Charges.NoCredit(calls[i].vendor) {
      ImportedChargesCarryNoCredit(from[i]);
    }
    Charges.AuditorWithinVendor(calls, category);
  }

  // ---- The check before any write ----------------------------------------------------------

  datatype Issue = Issue(rowIndex: nat, field: string, code: string)

  /** Nothing `prepareUsageRows` would throw on. */
  predicate RowOk(row: UsageRow, normalize: string -> Option<string>) {
    && CellOk(row.start) && CellOk(row.connected) && CellOk(row.end)
    && (row.recordingUrl != "" ==> normalize(row.recordingUrl).Some?)
  }

  function DeepIssue(row: UsageRow, normalize: string -> Option<string>): (r: Option<(string, string)>)
    ensures r.None? <==> RowOk(row, normalize)
  {
    if !CellOk(row.start) then Some(("callStartTime", "DATETIME_INVALID"))
    else if !CellOk(row.connected) then Some(("callConnectedTime", "DATETIME_INVALID"))
    else if !CellOk(row.end) then Some(("callEndTime", "DATETIME_INVALID"))
    else if row.recordingUrl != "" && normalize(row.recordingUrl).None? then Some(("recordingUrl", "RECORDING_URL_INVALID"))
    else None
  }

  ghost predicate TasksOk(rows: seq<UsageRow>, n: nat)
    requires n <= |rows|
  {
    && (forall j, k :: 0 <= j < k < n ==> rows[j].taskId != rows[k].taskId)
    && forall j :: 0 <= j < n ==> rows[j].taskId != ""
  }

  ghost predicate Seen(rows: seq<UsageRow>, n: nat, id: string)
    requires n <= |rows|
  {
    exists j :: 0 <= j < n && rows[j].taskId == id
  }

  /** A task id that is missing or repeated spoils the rows up to it, and nothing else does. */
  lemma TaskChecked(rows: seq<UsageRow>, n: nat)
    requires n < |rows|
    ensures TasksOk(rows, n + 1) <==> TasksOk(rows, n) && rows[n].taskId != "" && !Seen(rows, n, rows[n].taskId)
    ensures forall id :: Seen(rows, n + 1, id) <==> Seen(rows, n, id) || rows[n].taskId == id
  {
    forall id ensures Seen(rows, n + 1, id) <==> Seen(rows, n, id) || rows[n].taskId == id {
      if Seen(rows, n, id) {
        var j :| 0 <= j < n && rows[j].taskId == id;
      }
    }
    if !Seen(rows, n, rows[n].taskId) {
      assert forall j :: 0 <= j < n ==> rows[j].taskId != rows[n].taskId;
    }
  }

  /** One issue per complaint about a row. */
  function AsIssues(rowIndex: nat, complaints: seq<(string, string)>): seq<Issue> {
    seq(|complaints|, k requires 0 <= k < |complaints| => Issue(rowIndex, complaints[k].0, complaints[k].1))
  }

  /** `scanUsageCsv` behind the parser: task ids and numbers; a row with an issue is not looked at again. */
  method ScanUsageRows(rows: seq<UsageRow>, numbers: UsageRow -> seq<(string, string)>) returns (issues: seq<Issue>, flawed: set<nat>)
    ensures issues == [] <==> TasksOk(rows, |rows|) && forall i :: 0 <= i < |rows| ==> numbers(rows[i]) == []
    ensures issues == [] <==> flawed == {}
    ensures forall k :: 0 <= k < |issues| ==> issues[k].rowIndex < |rows|
  {
    issues, flawed := [], {};
    var seen: set<string> := {};
    for i := 0 to |rows|
      invariant forall x :: x in seen <==> x != "" && Seen(rows, i, x)
      invariant issues == [] <==> TasksOk(rows, i) && forall j :: 0 <= j < i ==> numbers(rows[j]) == []
      invariant issues == [] <==> flawed == {}
      invariant forall k :: 0 <= k < |issues| ==> issues[k].rowIndex < |rows|
    {
      TaskChecked(rows, i);
      var found: seq<Issue> := [];
      if rows[i].taskId == "" {
        found := [Issue(i, "taskId", "TASK_ID_REQUIRED")];
      } else if rows[i].taskId in seen {
        found := [Issue(i, "taskId", "TASK_ID_DUPLICATE")];
      } else {
        seen := seen + {rows[i].taskId};
      }
      found := found + AsIssues(i, numbers(rows[i]));
      if found != [] {
        issues, flawed := issues + found, flawed + {i};
      }
    }
  }

  /** The checks on one file: the scan's, then what `check` finds in every row the scan passed. */
  method PrevalidateUsageRows(rows: seq<UsageRow>, numbers: UsageRow -> seq<(string, string)>,
                              check: UsageRow -> Option<(string, string)>)
    returns (issues: seq<Issue>)
    ensures issues == [] <==>
      TasksOk(rows, |rows|) && forall i :: 0 <= i < |rows| ==> numbers(rows[i]) == [] && check(rows[i]).None?
    ensures forall k :: 0 <= k < |issues| ==> issues[k].rowIndex < |rows|
  {
    var flawed;
    issues, flawed := ScanUsageRows(rows, numbers);
    for i := 0 to |rows|
      invariant issues == [] <==> flawed == {} && forall j :: 0 <= j < i ==> check(rows[j]).None?
      invariant forall k :: 0 <= k < |issues| ==> issues[k].rowIndex < |rows|
    {
      if i !in flawed {
        var issue := check(rows[i]);
        if issue.Some? {
          issues := issues + [Issue(i, issue.value.0, issue.value.1)];
        }
      }
    }
  }

  /** `prepareUsageRows` on one row; None stands for the error it throws. */
  function Prepare(row: UsageRow, normalize: string -> Option<string>): Option<Prepared> {
    var url := if row.recordingUrl != "" then normalize(row.recordingUrl) else None;
    var start, connected, end := SqlDateTime(row.start), SqlDateTime(row.connected), SqlDateTime(row.end);
    if row.recordingUrl != "" && url.None? then None
    else if start.Invalid? || connected.Invalid? || end.Invalid? then None
    else Some(Prepared(row.taskId, start, connected, end, url))
  }

  /** The rows as they are handed to the import; None as soon as one of them throws. */
  function PrepareAll(rows: seq<UsageRow>, prepare: UsageRow -> Option<Prepared>): Option<seq<Prepared>>
    decreases |rows|
  {
    if rows == [] then Some([])
    else
      var before, last := PrepareAll(rows[..|rows| - 1], prepare), prepare(rows[|rows| - 1]);
      if before.None? || last.None? then None else Some(before.value + [last.value])
  }

  /** A row that passes the check is prepared, under its own task id, with a source exactly when it names one. */
  lemma CheckedRowsPrepare(row: UsageRow, normalize: string -> Option<string>)
    requires RowOk(row, normalize)
    ensures var p := Prepare(row, normalize);
      && p.Some? && p.value.taskId == row.taskId && (p.value.sourceUrl.Some? <==> row.recordingUrl != "")
      && (row.recordingUrl != "" ==> p.value.sourceUrl == normalize(row.recordingUrl))
      && p.value.startedAt == SqlDateTime(row.start) && p.value.connectedAt == SqlDateTime(row.connected)
      && p.value.endedAt == SqlDateTime(row.end)
  {
    CheckedCellsConvert(row.start);
    CheckedCellsConvert(row.connected);
    CheckedCellsConvert(row.end);
  }

  lemma {:induction false} AllPrepared(rows: seq<UsageRow>, prepare: UsageRow -> Option<Prepared>)
    requires forall i :: 0 <= i < |rows| ==> prepare(rows[i]).Some? && prepare(rows[i]).value.taskId == rows[i].taskId
    ensures PrepareAll(rows, prepare).Some? && |PrepareAll(rows, prepare).value| == |rows|
    ensures forall i :: 0 <= i < |rows| ==> PrepareAll(rows, prepare).value[i].taskId == rows[i].taskId
    decreases |rows|
  {
    if rows != [] {
      var n := |rows| - 1;
      assert forall i :: 0 <= i < n ==> rows[..n][i] == rows[i];
      AllPrepared(rows[..n], prepare);
    }
  }

  /** A file that passes the check is prepared whole, row for row, with distinct task ids. */
  lemma CheckedFilesPrepare(rows: seq<UsageRow>, normalize: string -> Option<string>, prepare: UsageRow -> Option<Prepared>)
    requires TasksOk(rows, |rows|) && forall i :: 0 <= i < |rows| ==> RowOk(rows[i], normalize)
    requires forall i :: 0 <= i < |rows| ==> prepare(rows[i]) == Prepare(rows[i], normalize)
    ensures var prepared := PrepareAll(rows, prepare);
      prepared.Some? && |prepared.value| == |rows| && Distinct(prepared.value)
      && forall i :: 0 <= i < |rows| ==> prepared.value[i].taskId == rows[i].taskId
  {
    forall i | 0 <= i < |rows| ensures prepare(rows[i]).Some? && prepare(rows[i]).value.taskId == rows[i].taskId {
      CheckedRowsPrepare(rows[i], normalize);
    }
    AllPrepared(rows, prepare);
  }

  // ---- The tables ------------------------------------------------------------------------------

  /** A call's generated id is its place in `calls`; the other rows carry that id. */
  datatype Store = Store(
    calls: seq<string>, references: seq<(nat, string)>, artifacts: seq<(nat, Option<string>)>, outbox: seq<nat>,
    envelopes: set<string>)

  function TaskIds(references: seq<(nat, string)>): set<string> { set i | 0 <= i < |references| :: references[i].1 }

  ghost predicate Distinct(rows: seq<Prepared>) {
    forall i, j :: 0 <= i < j < |rows| ==> rows[i].taskId != rows[j].taskId
  }

  function Pending(known: set<string>, rows: seq<Prepared>): seq<Prepared>
    decreases |rows|
  {
    if rows == [] then []
    else
      var last := rows[|rows| - 1];
      Pending(known, rows[..|rows| - 1]) + if last.taskId in known then [] else [last]
  }

  function CallRows(rows: seq<Prepared>): seq<string> { seq(|rows|, i requires 0 <= i < |rows| => rows[i].taskId) }

  function ReferenceRows(first: nat, rows: seq<Prepared>): seq<(nat, string)> {
    seq(|rows|, i requires 0 <= i < |rows| => (first + i, rows[i].taskId))
  }

  function ArtifactRows(first: nat, rows: seq<Prepared>): seq<(nat, Option<string>)> {
    seq(|rows|, i requires 0 <= i < |rows| => (first + i, rows[i].sourceUrl))
  }

  function OutboxRows(first: nat, rows: seq<Prepared>): seq<nat>
    decreases |rows|
  {
    if rows == [] then []
    else OutboxRows(first, rows[..|rows| - 1]) + if rows[|rows| - 1].sourceUrl.Some? then [first + |rows| - 1] else []
  }

  /** One multi-row INSERT per table. */
  function BulkInsert(s: Store, pending: seq<Prepared>): Store {
    var first := |s.calls|;
    Store(s.calls + CallRows(pending), s.references + ReferenceRows(first, pending), s.artifacts + ArtifactRows(first, pending),
          s.outbox + OutboxRows(first, pending), s.envelopes)
  }

  /** One row, imported alone: nothing if its task id is known. */
  function ImportRow(s: Store, row: Prepared): Store {
    if row.taskId in TaskIds(s.references) then s
    else
      var id := |s.calls|;
      Store(s.calls + [row.taskId], s.references + [(id, row.taskId)], s.artifacts + [(id, row.sourceUrl)],
            s.outbox + (if row.sourceUrl.Some? then [id] else []), s.envelopes)
  }

  function RowByRow(s: Store, rows: seq<Prepared>): Store
    decreases |rows|
  {
    if rows == [] then s else ImportRow(RowByRow(s, rows[..|rows| - 1]), rows[|rows| - 1])
  }

  // ---- Chunked equals row by row -----------------------------------------------------------------

  lemma {:induction false} PendingRows(known: set<string>, rows: seq<Prepared>)
    ensures forall p :: p in Pending(known, rows) <==> p in rows && p.taskId !in known
    ensures |Pending(known, rows)| <= |rows|
    decreases |rows|
  {
    if rows != [] {
      PendingRows(known, rows[..|rows| - 1]);
      assert rows == rows[..|rows| - 1] + [rows[|rows| - 1]];
    }
  }

  lemma RowsAppend(first: nat, pending: seq<Prepared>, last: Prepared)
    ensures CallRows(pending + [last]) == CallRows(pending) + [last.taskId]
    ensures ReferenceRows(first, pending + [last]) == ReferenceRows(first, pending) + [(first + |pending|, last.taskId)]
    ensures ArtifactRows(first, pending + [last]) == ArtifactRows(first, pending) + [(first + |pending|, last.sourceUrl)]
  {
  }

  lemma OutboxAppend(first: nat, pending: seq<Prepared>, last: Prepared)
    ensures OutboxRows(first, pending + [last])
         == OutboxRows(first, pending) + if last.sourceUrl.Some? then [first + |pending|] else []
  {
    assert (pending + [last])[..|pending|] == pending;
  }

  lemma BulkAppend(s: Store, pending: seq<Prepared>, last: Prepared)
    requires last.taskId !in TaskIds(BulkInsert(s, pending).references)
    ensures BulkInsert(s, pending + [last]) == ImportRow(BulkInsert(s, pending), last)
  {
    var first, bulk := |s.calls|, BulkInsert(s, pending);
    var more, one := BulkInsert(s, pending + [last]), ImportRow(bulk, last);
    RowsAppend(first, pending, last);
    OutboxAppend(first, pending, last);
    assert |bulk.calls| == first + |pending|;
    assert more.calls == one.calls;
    assert more.references == one.references;
    assert more.artifacts == one.artifacts;
    assert more.outbox == one.outbox;
  }

  lemma BulkTaskIds(s: Store, pending: seq<Prepared>, id: string)
    ensures id in TaskIds(BulkInsert(s, pending).references) <==>
      id in TaskIds(s.references) || exists i :: 0 <= i < |pending| && pending[i].taskId == id
  {
    var references, added := BulkInsert(s, pending).references, ReferenceRows(|s.calls|, pending);
    if id in TaskIds(references) {
      var i :| 0 <= i < |references| && references[i].1 == id;
      if i >= |s.references| {
        assert added[i - |s.references|] == references[i];
        assert pending[i - |s.references|].taskId == id;
      }
    }
    if id in TaskIds(s.references) {
      var i :| 0 <= i < |s.references| && s.references[i].1 == id;
      assert references[i] == s.references[i];
    }
    if exists i :: 0 <= i < |pending| && pending[i].taskId == id {
      var i :| 0 <= i < |pending| && pending[i].taskId == id;
      assert references[|s.references| + i] == added[i];
    }
  }

  /** Deciding a whole chunk against the ids stored before it is deciding its rows one at a time. */
  lemma {:induction false} ChunkIsRowByRow(s: Store, chunk: seq<Prepared>)
    requires Distinct(chunk)
    ensures BulkInsert(s, Pending(TaskIds(s.references), chunk)) == RowByRow(s, chunk)
    decreases |chunk|
  {
    var known := TaskIds(s.references);
    if chunk == [] {
      assert BulkInsert(s, []) == s;
    } else {
      var shorter, last := chunk[..|chunk| - 1], chunk[|chunk| - 1];
      ChunkIsRowByRow(s, shorter);
      var pending := Pending(known, shorter);
      PendingRows(known, shorter);
      BulkTaskIds(s, pending, last.taskId);
      if last.taskId in known {
        assert Pending(known, chunk) == pending;
      } else {
        forall i | 0 <= i < |pending| ensures pending[i].taskId != last.taskId {
          assert pending[i] in shorter;
        }
        BulkAppend(s, pending, last);
      }
    }
  }

  lemma {:induction false} RowByRowConcat(s: Store, a: seq<Prepared>, b: seq<Prepared>)
    ensures RowByRow(s, a + b) == RowByRow(RowByRow(s, a), b)
    decreases |b|
  {
    if b == [] {
      assert a + b == a;
    } else {
      RowByRowConcat(s, a, b[..|b| - 1]);
      assert (a + b)[..|a + b| - 1] == a + b[..|b| - 1];
    }
  }

  // ---- What an import leaves behind ---------------------------------------------------------------

  lemma ImportRowIds(s: Store, row: Prepared, id: string)
    ensures id in TaskIds(ImportRow(s, row).references) <==> id in TaskIds(s.references) || id == row.taskId
  {
    var references := ImportRow(s, row).references;
    if id in TaskIds(references) {
      var i :| 0 <= i < |references| && references[i].1 == id;
      if i < |s.references| { assert s.references[i].1 == id; }
    }
    if id in TaskIds(s.references) {
      var i :| 0 <= i < |s.references| && s.references[i].1 == id;
      assert references[i] == s.references[i];
    }
    if row.taskId !in TaskIds(s.references) {
      assert references[|s.references|].1 == row.taskId;
    }
  }

  /** The stored task ids become the old ones together with the file's. */
  lemma {:induction false} IdsAreUnion(s: Store, rows: seq<Prepared>, id: string)
    ensures id in TaskIds(RowByRow(s, rows).references) <==>
      id in TaskIds(s.references) || exists i :: 0 <= i < |rows| && rows[i].taskId == id
    decreases |rows|
  {
    if rows != [] {
      var n := |rows| - 1;
      IdsAreUnion(s, rows[..n], id);
      ImportRowIds(RowByRow(s, rows[..n]), rows[n], id);
      if exists i :: 0 <= i < n && rows[..n][i].taskId == id {
        var i :| 0 <= i < n && rows[..n][i].taskId == id;
        assert rows[i].taskId == id;
      }
      if exists i :: 0 <= i < |rows| && rows[i].taskId == id {
        var i :| 0 <= i < |rows| && rows[i].taskId == id;
        assert i < n ==> rows[..n][i].taskId == id;
      }
    }
  }

  /** Each call has its reference and its artifact, no task id has two calls, and the calls with a source are queued once each. */
  ghost predicate Sound(s: Store) {
    && |s.calls| == |s.references| == |s.artifacts|
    && (forall i :: 0 <= i < |s.calls| ==> s.references[i] == (i, s.calls[i]) && s.artifacts[i].0 == i)
    && (forall i, j :: 0 <= i < j < |s.calls| ==> s.calls[i] != s.calls[j])
    && (forall i, j :: 0 <= i < j < |s.outbox| ==> s.outbox[i] < s.outbox[j])
    && (forall i :: i in s.outbox <==> 0 <= i < |s.calls| && s.artifacts[i].1.Some?)
  }

  lemma ImportRowSound(s: Store, row: Prepared)
    requires Sound(s)
    ensures Sound(ImportRow(s, row))
  {
    if row.taskId !in TaskIds(s.references) {
      forall i | 0 <= i < |s.calls| ensures s.calls[i] != row.taskId {
        assert s.references[i].1 == s.calls[i];
      }
      forall i | 0 <= i < |s.outbox| ensures s.outbox[i] < |s.calls| {
        assert s.outbox[i] in s.outbox;
      }
      var t := ImportRow(s, row);
      forall i ensures i in t.outbox <==> 0 <= i < |t.calls| && t.artifacts[i].1.Some? {
        assert i in s.outbox <==> 0 <= i < |s.calls| && s.artifacts[i].1.Some?;
      }
    }
  }

  lemma {:induction false} ImportKeepsSound(s: Store, rows: seq<Prepared>)
    requires Sound(s)
    ensures Sound(RowByRow(s, rows))
    decreases |rows|
  {
    if rows != [] {
      ImportKeepsSound(s, rows[..|rows| - 1]);
      ImportRowSound(RowByRow(s, rows[..|rows| - 1]), rows[|rows| - 1]);
    }
  }

  /** Calls that are there stay as they are. */
  lemma {:induction false} OldCallsKept(s: Store, rows: seq<Prepared>)
    ensures var t := RowByRow(s, rows);
      s.calls <= t.calls && s.references <= t.references && s.artifacts <= t.artifacts && s.outbox <= t.outbox
    decreases |rows|
  {
    if rows != [] { OldCallsKept(s, rows[..|rows| - 1]); }
  }

  /** Every new call carries the task id and the recording source of one row of the file. */
  lemma {:induction false} NewCallsFromFile(s: Store, rows: seq<Prepared>, i: nat)
    requires Sound(s) && |s.calls| <= i < |RowByRow(s, rows).calls|
    ensures var t := RowByRow(s, rows);
      i < |t.artifacts| && i < |t.references|
      && exists k :: 0 <= k < |rows| && t.calls[i] == rows[k].taskId && t.references[i] == (i, rows[k].taskId)
           && t.artifacts[i] == (i, rows[k].sourceUrl)
    decreases |rows|
  {
    if rows != [] {
      var n := |rows| - 1;
      var before := RowByRow(s, rows[..n]);
      ImportKeepsSound(s, rows[..n]);
      if i < |before.calls| {
        NewCallsFromFile(s, rows[..n], i);
        var k :| 0 <= k < n && before.calls[i] == rows[..n][k].taskId && before.references[i] == (i, rows[..n][k].taskId)
                 && before.artifacts[i] == (i, rows[..n][k].sourceUrl);
        assert rows[k] == rows[..n][k];
      } else {
        assert RowByRow(s, rows).calls[i] == rows[n].taskId;
      }
    }
  }

  lemma {:induction false} KnownRowsAddNothing(s: Store, rows: seq<Prepared>)
    requires forall i :: 0 <= i < |rows| ==> rows[i].taskId in TaskIds(s.references)
    ensures RowByRow(s, rows) == s
    decreases |rows|
  {
    if rows != [] { KnownRowsAddNothing(s, rows[..|rows| - 1]); }
  }

  /** Importing the same rows again, in any file and any order, changes nothing. */
  lemma ReimportAddsNothing(s: Store, rows: seq<Prepared>, again: seq<Prepared>)
    requires forall i :: 0 <= i < |again| ==> exists j :: 0 <= j < |rows| && rows[j].taskId == again[i].taskId
    ensures RowByRow(RowByRow(s, rows), again) == RowByRow(s, rows)
  {
    forall i | 0 <= i < |again| ensures again[i].taskId in TaskIds(RowByRow(s, rows).references) {
      IdsAreUnion(s, rows, again[i].taskId);
    }
    KnownRowsAddNothing(RowByRow(s, rows), again);
  }

  // ---- Counters ------------------------------------------------------------------------------------

  function Sources(rows: seq<Prepared>): nat
    decreases |rows|
  {
    if rows == [] then 0 else Sources(rows[..|rows| - 1]) + if rows[|rows| - 1].sourceUrl.Some? then 1 else 0
  }

  lemma {:induction false} OutboxCount(first: nat, rows: seq<Prepared>)
    ensures |OutboxRows(first, rows)| == Sources(rows) <= |rows|
    decreases |rows|
  {
    if rows != [] { OutboxCount(first, rows[..|rows| - 1]); }
  }

  // ---- The loops --------------------------------------------------------------------------------------

  function Flat<T>(chunks: seq<seq<T>>): seq<T>
    decreases |chunks|
  {
    if chunks == [] then [] else Flat(chunks[..|chunks| - 1]) + chunks[|chunks| - 1]
  }

  /** `values.slice(from, to)`. */
  function Sliced<T>(values: seq<T>, from: nat, to: nat): seq<T>
    requires from <= to
  {
    if from >= |values| then [] else if to >= |values| then values[from..] else values[from..to]
  }

  /** `chunks`: the values in order, cut into pieces of the given size, the last one possibly shorter. */
  method Chunks<T>(values: seq<T>, size: nat) returns (result: seq<seq<T>>)
    requires size > 0
    ensures Flat(result) == values
    ensures forall k :: 0 <= k < |result| ==> 0 < |result[k]| <= size
    ensures forall k :: 0 <= k < |result| - 1 ==> |result[k]| == size
  {
    result := [];
    var index: nat := 0;
    while index < |values|
      invariant Flat(result) == Sliced(values, 0, index)
      invariant forall k :: 0 <= k < |result| ==> 0 < |result[k]| <= size
      invariant forall k :: 0 <= k < |result| ==> |result[k]| == size || (k == |result| - 1 && index >= |values|)
      decreases |values| - index
    {
      var piece := Sliced(values, index, index + size);
      assert (result + [piece])[..|result|] == result;
      result := result + [piece];
      index := index + size;
    }
  }

  datatype Outcome = Outcome(
    duplicateFile: bool, received: nat, accepted: nat, duplicates: nat, queued: nat, missingRecordings: nat)

  lemma {:induction false} FlatPrefix<T>(chunks: seq<seq<T>>, k: nat)
    requires k <= |chunks|
    ensures Flat(chunks[..k]) <= Flat(chunks)
    ensures k < |chunks| ==> Flat(chunks[..k + 1]) == Flat(chunks[..k]) + chunks[k]
    decreases |chunks| - k
  {
    if k == |chunks| {
      assert chunks[..k] == chunks;
    } else {
      FlatPrefix(chunks, k + 1);
      assert chunks[..k + 1][..k] == chunks[..k];
    }
  }

  lemma DistinctPiece(rows: seq<Prepared>, before: seq<Prepared>, piece: seq<Prepared>)
    requires Distinct(rows) && before + piece <= rows
    ensures Distinct(piece)
  {
    forall i, j | 0 <= i < j < |piece| ensures piece[i].taskId != piece[j].taskId {
      assert piece[i] == rows[|before| + i] && piece[j] == rows[|before| + j];
    }
  }

  class ImportTables {
    var store: Store

    constructor ()
      ensures store == Store([], [], [], [], {})
    {
      store := Store([], [], [], [], {});
    }

    /**
     `importUsage` behind the check, for a file with the given content hash: a file
     seen before is counted as duplicates whole; any other is imported chunk by chunk.
     */
    method ImportUsage(hash: string, rows: seq<Prepared>) returns (o: Outcome)
      requires Distinct(rows)
      modifies this
      ensures o.received == |rows| && o.accepted + o.duplicates == |rows| && o.queued + o.missingRecordings == o.accepted
      ensures o.accepted == |store.calls| - |old(store).calls| && o.queued == |store.outbox| - |old(store).outbox|
      ensures o.duplicateFile <==> hash in old(store).envelopes
      ensures hash in old(store).envelopes ==> store == old(store)
      ensures hash !in old(store).envelopes ==>
        store == RowByRow(old(store), rows).(envelopes := old(store).envelopes + {hash})
    {
      if hash in store.envelopes {
        return Outcome(true, |rows|, 0, |rows|, 0, 0);
      }
      var accepted: nat, duplicates: nat, queued: nat, missing: nat := 0, 0, 0, 0;
      var batches := Chunks(rows, BATCH_SIZE);
      for k := 0 to |batches|
        invariant store == RowByRow(old(store), Flat(batches[..k]))
        invariant accepted + duplicates == |Flat(batches[..k])| && queued + missing == accepted
        invariant accepted == |store.calls| - |old(store).calls| && queued == |store.outbox| - |old(store).outbox|
        invariant store.envelopes == old(store).envelopes
      {
        var batch := batches[k];
        FlatPrefix(batches, k);
        FlatPrefix(batches, k + 1);
        DistinctPiece(rows, Flat(batches[..k]), batch);
        var known := TaskIds(store.references);
        var pending := Pending(known, batch);
        PendingRows(known, batch);
        ChunkIsRowByRow(store, batch);
        RowByRowConcat(old(store), Flat(batches[..k]), batch);
        OutboxCount(|store.calls|, pending);
        duplicates := duplicates + (|batch| - |pending|);
        accepted := accepted + |pending|;
        queued := queued + Sources(pending);
        missing := missing + (|pending| - Sources(pending));
        store := BulkInsert(store, pending);
      }
      assert batches[..|batches|] == batches;
      store := store.(envelopes := store.envelopes + {hash});
      return Outcome(false, |rows|, accepted, duplicates, queued, missing);
    }
  }
}
