/**
 The money columns of the category analysis: the audited duration, the
 projected and the capped auditor charge, and the totals per category.

 NULL is `None`. DECIMAL values are reals: none of these expressions rounds.
 */
module Charges {
  import opened Options

  const RATE_PER_MINUTE: real := 9.5
  const RATE_PAISE: int := 950
  const SHORT_CALL_CUTOFF_MS: int := 30000
  const MINUTE_MS: int := 60000
  const DEFAULT_GRACE_MS: int := 60000

  datatype Media = Media(
    decodedMs: Option<int>, conversationEndMs: Option<int>, chargeableEndMs: Option<int>, appliedGraceMs: Option<int>)

  function ServiceEnd(m: Media): Option<int> { if m.chargeableEndMs.Some? then m.chargeableEndMs else m.conversationEndMs }

  function Grace(m: Media): int { Coalesce(m.appliedGraceMs, DEFAULT_GRACE_MS) }

  /** The CASE form of the category analysis. */
  function AuditedDuration(m: Media): Option<int> {
    var end := ServiceEnd(m);
    if end.None? then None
    else if m.decodedMs.Some? && m.decodedMs.value < end.value + Grace(m) then m.decodedMs
    else Some(end.value + Grace(m))
  }

  function Least(x: int, y: int): int { if x <= y then x else y }

  /** The LEAST form of the audit monitor. */
  function MonitorDuration(m: Media): Option<int> {
    var end := ServiceEnd(m);
    if end.None? then None
    else Some(Least(Coalesce(m.decodedMs, end.value + Grace(m)), end.value + Grace(m)))
  }

  /** Both forms are the greatest duration within the recording and within the grace after the service end. */
  lemma DurationFormsAgree(m: Media, d: int)
    ensures AuditedDuration(m) == MonitorDuration(m)
    ensures AuditedDuration(m).None? <==> m.chargeableEndMs.None? && m.conversationEndMs.None?
    ensures AuditedDuration(m).Some? ==>
      (d <= AuditedDuration(m).value <==> d <= ServiceEnd(m).value + Grace(m) && (m.decodedMs.Some? ==> d <= m.decodedMs.value))
  {
  }

  // ---- The projected charge -------------------------------------------------------------

  function Ceil(x: real): int { -((-x).Floor) }

  function Projected(d: int): real {
    if d == 0 then 0.0
    else if d < SHORT_CALL_CUTOFF_MS then RATE_PER_MINUTE / 2.0
    else Ceil(d as real / MINUTE_MS as real) as real * RATE_PER_MINUTE
  }

  /** The billing engine's half-minutes and paise for a non-negative duration. */
  function HalfMinutes(d: nat): nat {
    if d == 0 then 0
    else if d < SHORT_CALL_CUTOFF_MS then 1
    else (d + MINUTE_MS - 1) / MINUTE_MS * 2
  }

  function Paise(d: nat): nat { HalfMinutes(d) * RATE_PAISE / 2 }

  lemma CeilIsLeast(x: real, n: int)
    ensures Ceil(x) <= n <==> x <= n as real
  {
    assert (-x).Floor >= -n <==> -x >= (-n) as real;
  }

  lemma CeilOfMinutes(d: nat)
    ensures Ceil(d as real / MINUTE_MS as real) == (d + MINUTE_MS - 1) / MINUTE_MS
  {
    var q := (d + MINUTE_MS - 1) / MINUTE_MS;
    assert (q - 1) * MINUTE_MS < d <= q * MINUTE_MS;
    assert (q - 1) as real * MINUTE_MS as real < d as real <= q as real * MINUTE_MS as real;
    CeilIsLeast(d as real / MINUTE_MS as real, q);
    CeilIsLeast(d as real / MINUTE_MS as real, q - 1);
  }

  /** The statement prices a duration exactly as the billing engine does, in rupees instead of paise. */
  lemma ProjectedIsEngineCharge(d: nat)
    ensures Projected(d) * 100.0 == Paise(d) as real
  {
    if d >= SHORT_CALL_CUTOFF_MS {
      CeilOfMinutes(d);
      var q := (d + MINUTE_MS - 1) / MINUTE_MS;
      assert HalfMinutes(d) * RATE_PAISE / 2 == q * RATE_PAISE;
      assert Projected(d) == q as real * RATE_PER_MINUTE;
    }
  }

  /** The rate card, band by band: nothing for zero, half a minute below thirty seconds, then whole minutes begun. */
  lemma ProjectedBands(d: int, n: int)
    ensures d == 0 ==> Projected(d) == 0.0
    ensures 0 < d < 30_000 ==> Projected(d) == 4.75
    ensures d >= 30_000 && (n - 1) * 60_000 < d <= n * 60_000 ==> Projected(d) == n as real * 9.5
  {
    if d >= 30_000 && (n - 1) * 60_000 < d <= n * 60_000 {
      CeilOfMinutes(d);
      assert (d + MINUTE_MS - 1) / MINUTE_MS == n;
    }
  }

  /** The audited duration of an older audit, which stored neither a service end nor a grace: one minute past the customer's end. */
  lemma LegacyDuration(decodedMs: Option<int>, conversationEndMs: int)
    ensures var d := AuditedDuration(Media(decodedMs, Some(conversationEndMs), None, None));
      d == Some(if decodedMs.Some? && decodedMs.value < conversationEndMs + 60_000 then decodedMs.value else conversationEndMs + 60_000)
  {
  }

  lemma MinutesMonotone(d1: nat, d2: nat)
    requires d1 <= d2
    ensures (d1 + MINUTE_MS - 1) / MINUTE_MS <= (d2 + MINUTE_MS - 1) / MINUTE_MS
  {
  }

  /**
   A longer audited duration never costs less, except that a negative duration is
   priced as a short call and zero as nothing.
   */
  lemma ProjectedMonotoneIff(d1: int, d2: int)
    requires d1 <= d2
    ensures Projected(d1) <= Projected(d2) <==> !(d1 < 0 && d2 == 0)
  {
    if d2 >= SHORT_CALL_CUTOFF_MS {
      CeilOfMinutes(d2);
      var m2 := (d2 + MINUTE_MS - 1) / MINUTE_MS;
      assert Projected(d2) == m2 as real * RATE_PER_MINUTE;
      if d1 >= SHORT_CALL_CUTOFF_MS {
        CeilOfMinutes(d1);
        MinutesMonotone(d1, d2);
        var m1 := (d1 + MINUTE_MS - 1) / MINUTE_MS;
        assert Projected(d1) == m1 as real * RATE_PER_MINUTE;
      } else {
        assert m2 >= 1;
      }
    }
  }

  lemma NegativeDurationCostsMore()
    ensures -1 <= 0 && Projected(-1) > Projected(0)
  {
  }

  // ---- What the audit stores ------------------------------------------------------------

  /** The service end the charge policy stores: within the recording, never before its start. */
  function BoundedEnd(value: Option<int>, recordedMs: int): int {
    if value.None? then 0 else Least(recordedMs, if value.value > 0 then value.value else 0)
  }

  /** The measured columns of an audit: the recording, the policy's service end and its grace. */
  function Stored(recordedMs: nat, rawEndMs: Option<int>, graceMs: nat, conversationEndMs: Option<int>): Media {
    Media(Some(recordedMs), conversationEndMs, Some(BoundedEnd(rawEndMs, recordedMs)), Some(graceMs))
  }

  /**
   The audited duration read back from a stored audit is the adjusted chargeable
   duration the policy decided on, so no stored audit has a negative one.
   */
  lemma StoredDurationIsPolicy(recordedMs: nat, rawEndMs: Option<int>, graceMs: nat, conversationEndMs: Option<int>)
    ensures AuditedDuration(Stored(recordedMs, rawEndMs, graceMs, conversationEndMs))
         == Some(Least(recordedMs, BoundedEnd(rawEndMs, recordedMs) + graceMs))
    ensures 0 <= Least(recordedMs, BoundedEnd(rawEndMs, recordedMs) + graceMs) <= recordedMs
    ensures BoundedEnd(rawEndMs, recordedMs)
         == if rawEndMs == None || rawEndMs.value < 0 then 0 else if rawEndMs.value > recordedMs then recordedMs else rawEndMs.value
  {
  }

  // ---- The capped charge ------------------------------------------------------------------

  datatype Vendor = Vendor(amount: Option<real>, minutes: Option<real>)

  function VendorCharge(v: Vendor): Option<real> {
    if v.amount.Some? then v.amount
    else if v.minutes.Some? then Some(v.minutes.value * RATE_PER_MINUTE)
    else None
  }

  function ProjectedCharge(m: Media): Option<real> {
    var d := AuditedDuration(m);
    if d.None? then None else Some(Projected(d.value))
  }

  function CappedCharge(m: Media, v: Vendor): Option<real> {
    var projected, vendor := ProjectedCharge(m), VendorCharge(v);
    if projected.None? then None
    else if vendor.None? then projected
    else if projected.value <= vendor.value then projected
    else vendor
  }

  /** What the vendor supplied wins; the rate of 9.5 a minute is only for calls without an amount. */
  lemma VendorChargeIs(v: Vendor)
    ensures v.amount.Some? ==> VendorCharge(v) == Some(v.amount.value)
    ensures v.amount == None && v.minutes.Some? ==> VendorCharge(v) == Some(9.5 * v.minutes.value)
    ensures VendorCharge(v) == None <==> v.amount == None && v.minutes == None
  {
  }

  /** The cap is exact: the greatest amount within the projection and within a present vendor charge. */
  lemma CapIsExact(m: Media, v: Vendor, x: real)
    ensures CappedCharge(m, v).Some? <==> AuditedDuration(m).Some?
    ensures CappedCharge(m, v).Some? ==>
      (x <= CappedCharge(m, v).value <==>
         x <= Projected(AuditedDuration(m).value) && (VendorCharge(v).Some? ==> x <= VendorCharge(v).value))
  {
  }

  /** A longer audit of the same call never lowers its charge when the durations are not negative. */
  lemma CappedMonotone(m: Media, n: Media, v: Vendor)
    requires AuditedDuration(m).Some? && AuditedDuration(n).Some?
    requires 0 <= AuditedDuration(m).value <= AuditedDuration(n).value
    ensures CappedCharge(m, v).value <= CappedCharge(n, v).value
  {
    ProjectedMonotoneIff(AuditedDuration(m).value, AuditedDuration(n).value);
  }

  // ---- Totals ------------------------------------------------------------------------------

  /** One audited call: its category and the columns its totals are taken over. */
  datatype Row = Row(category: string, media: Media, vendor: Vendor)

  /** ROUND(minutes * 60000): halves away from zero. */
  function BilledMs(v: Vendor): Option<int> {
    if v.minutes.None? then None
    else
      var x := v.minutes.value * MINUTE_MS as real;
      Some(if x >= 0.0 then (x + 0.5).Floor else -((0.5 - x).Floor))
  }

  /** The billed duration is the nearest millisecond to the billed minutes. */
  lemma BilledMsIsNearest(v: Vendor)
    ensures v.minutes == None <==> BilledMs(v) == None
    ensures v.minutes.Some? ==>
      var x := v.minutes.value * 60_000.0; x - 0.5 <= BilledMs(v).value as real <= x + 0.5
  {
  }

  /** Counts and COALESCE(SUM(...), 0) columns of one group. */
  datatype Totals = Totals(
    calls: int, issues: int, clean: int, billed: int, vendorCharge: real, priced: int, unfinalized: int,
    auditorCharge: real, billedMs: int, audited: int, auditedMs: int, comparable: int)

  function Zero(): Totals { Totals(0, 0, 0, 0, 0.0, 0, 0, 0.0, 0, 0, 0, 0) }

  function One(b: bool): int { if b then 1 else 0 }

  function Share(r: Row): Totals {
    var billed, audited := BilledMs(r.vendor), AuditedDuration(r.media);
    var capped := CappedCharge(r.media, r.vendor);
    Totals(1, One(r.category != "OK"), One(r.category == "OK"), One(billed.Some?), Coalesce(VendorCharge(r.vendor), 0.0),
           One(capped.Some?), One(capped.None?), Coalesce(capped, 0.0), Coalesce(billed, 0), One(audited.Some?),
           Coalesce(audited, 0), One(billed.Some? && audited.Some?))
  }

  function Plus(a: Totals, b: Totals): Totals {
    Totals(a.calls + b.calls, a.issues + b.issues, a.clean + b.clean, a.billed + b.billed, a.vendorCharge + b.vendorCharge,
           a.priced + b.priced, a.unfinalized + b.unfinalized, a.auditorCharge + b.auditorCharge, a.billedMs + b.billedMs,
           a.audited + b.audited, a.auditedMs + b.auditedMs, a.comparable + b.comparable)
  }

  /** SUM over the rows of one category. */
  function CategoryTotals(rows: seq<Row>, category: string): Totals
    decreases |rows|
  {
    if rows == [] then Zero()
    else
      var before, last := CategoryTotals(rows[..|rows| - 1], category), rows[|rows| - 1];
      if last.category == category then Plus(before, Share(last)) else before
  }

  function MonthTotals(rows: seq<Row>): Totals
    decreases |rows|
  {
    if rows == [] then Zero() else Plus(MonthTotals(rows[..|rows| - 1]), Share(rows[|rows| - 1]))
  }

  /** The groups of GROUP BY category. */
  function Categories(rows: seq<Row>): seq<string>
    decreases |rows|
  {
    if rows == [] then []
    else
      var before, last := Categories(rows[..|rows| - 1]), rows[|rows| - 1].category;
      if last in before then before else before + [last]
  }

  function SumOver(rows: seq<Row>, categories: seq<string>): Totals
    decreases |categories|
  {
    if categories == [] then Zero()
    else Plus(SumOver(rows, categories[..|categories| - 1]), CategoryTotals(rows, categories[|categories| - 1]))
  }

  predicate Distinct(categories: seq<string>) {
    forall i, j :: 0 <= i < j < |categories| ==> categories[i] != categories[j]
  }

  lemma {:induction false} CategoriesCover(rows: seq<Row>)
    ensures Distinct(Categories(rows))
    ensures forall c :: c in Categories(rows) <==> exists i :: 0 <= i < |rows| && rows[i].category == c
    decreases |rows|
  {
    if rows != [] {
      var n := |rows| - 1;
      CategoriesCover(rows[..n]);
      forall c ensures c in Categories(rows) <==> exists i :: 0 <= i < |rows| && rows[i].category == c {
        if c in Categories(rows[..n]) {
          var i :| 0 <= i < n && rows[..n][i].category == c;
          assert rows[i].category == c;
        }
        if exists i :: 0 <= i < |rows| && rows[i].category == c {
          var i :| 0 <= i < |rows| && rows[i].category == c;
          assert i < n ==> rows[..n][i].category == c;
        }
      }
    }
  }

  lemma PlusMoves(a: Totals, b: Totals, c: Totals)
    ensures Plus(Plus(a, b), c) == Plus(Plus(a, c), b)
    ensures Plus(a, Plus(b, c)) == Plus(Plus(a, b), c)
  {
  }

  /** One more row changes the total of its own category and of no other. */
  lemma {:induction false} SumOverStep(rows: seq<Row>, last: Row, share: Totals, categories: seq<string>)
    requires share == Share(last) && Distinct(categories)
    ensures last.category !in categories ==> SumOver(rows + [last], categories) == SumOver(rows, categories)
    ensures last.category in categories ==> SumOver(rows + [last], categories) == Plus(SumOver(rows, categories), share)
    decreases |categories|
  {
    if categories != [] {
      var n := |categories| - 1;
      assert categories == categories[..n] + [categories[n]];
      SumOverStep(rows, last, share, categories[..n]);
      assert categories[n] !in categories[..n];
      CategoryStep(rows, last, categories[n]);
      var before, here := SumOver(rows, categories[..n]), CategoryTotals(rows, categories[n]);
      PlusMoves(before, share, here);
      PlusMoves(before, here, share);
    }
  }

  lemma CategoryStep(rows: seq<Row>, last: Row, category: string)
    ensures CategoryTotals(rows + [last], category)
         == if last.category == category then Plus(CategoryTotals(rows, category), Share(last)) else CategoryTotals(rows, category)
  {
    assert (rows + [last])[..|rows|] == rows;
  }

  lemma {:induction false} AbsentCategory(rows: seq<Row>, category: string)
    requires forall i :: 0 <= i < |rows| ==> rows[i].category != category
    ensures CategoryTotals(rows, category) == Zero()
    decreases |rows|
  {
    if rows != [] { AbsentCategory(rows[..|rows| - 1], category); }
  }

  lemma SumOverAppend(rows: seq<Row>, known: seq<string>, category: string)
    ensures SumOver(rows, known + [category]) == Plus(SumOver(rows, known), CategoryTotals(rows, category))
  {
    assert (known + [category])[..|known|] == known;
  }

  lemma PlusZero(a: Totals)
    ensures Plus(a, Zero()) == a
  {
  }

  lemma PlusZeroLeft(a: Totals)
    ensures Plus(Zero(), a) == a
  {
  }

  lemma NewCategory(rows: seq<Row>, known: seq<string>, category: string)
    requires CategoryTotals(rows, category) == Zero()
    ensures SumOver(rows, known + [category]) == SumOver(rows, known)
  {
    SumOverAppend(rows, known, category);
    PlusZero(SumOver(rows, known));
  }

  /** The sum over the known categories of the earlier rows is not changed by listing the last row's category too. */
  lemma KnownOrNew(shorter: seq<Row>, last: Row)
    ensures SumOver(shorter, Categories(shorter + [last])) == SumOver(shorter, Categories(shorter))
    ensures last.category in Categories(shorter + [last]) && Distinct(Categories(shorter + [last]))
  {
    assert (shorter + [last])[..|shorter|] == shorter;
    CategoriesCover(shorter);
    CategoriesCover(shorter + [last]);
    if last.category !in Categories(shorter) {
      AbsentCategory(shorter, last.category);
      NewCategory(shorter, Categories(shorter), last.category);
    }
  }

  /** Conservation: every column of the month is the sum of the same column over the categories shown. */
  lemma {:induction false} CategoriesPartitionMonth(rows: seq<Row>)
    ensures SumOver(rows, Categories(rows)) == MonthTotals(rows)
    decreases |rows|
  {
    if rows != [] {
      var shorter, last := rows[..|rows| - 1], rows[|rows| - 1];
      CategoriesPartitionMonth(shorter);
      assert rows == shorter + [last];
      KnownOrNew(shorter, last);
      SumOverStep(shorter, last, Share(last), Categories(rows));
    }
  }

  /** How many rows of a selection meet each of the four combinations of durations. */
  function CountDurations(rows: seq<Row>, billed: bool, audited: bool): int
    decreases |rows|
  {
    if rows == [] then 0
    else
      var last := rows[|rows| - 1];
      CountDurations(rows[..|rows| - 1], billed, audited)
      + if (BilledMs(last.vendor) != None) == billed && (AuditedDuration(last.media) != None) == audited then 1 else 0
  }

  lemma {:induction false} CountersCount(rows: seq<Row>)
    ensures var t := MonthTotals(rows);
      && t.comparable == CountDurations(rows, true, true)
      && t.billed == CountDurations(rows, true, true) + CountDurations(rows, true, false)
      && t.audited == CountDurations(rows, true, true) + CountDurations(rows, false, true)
    decreases |rows|
  {
    if rows != [] { CountersCount(rows[..|rows| - 1]); }
  }

  /** The category OK counts no issue and every other category counts nothing else. */
  lemma {:induction false} IssuesByCategory(rows: seq<Row>, category: string)
    ensures var t := CategoryTotals(rows, category);
      && t.calls == |OfCategory(rows, category)|
      && (category == "OK" ==> t.issues == 0 && t.clean == t.calls)
      && (category != "OK" ==> t.issues == t.calls && t.clean == 0)
    decreases |rows|
  {
    if rows != [] { IssuesByCategory(rows[..|rows| - 1], category); }
  }

  /** What KServe charged above the auditor's projection, call by call. */
  function Savings(rows: seq<Row>): real
    decreases |rows|
  {
    if rows == [] then 0.0
    else
      var last := rows[|rows| - 1];
      var projected, vendor := ProjectedCharge(last.media), VendorCharge(last.vendor);
      Savings(rows[..|rows| - 1])
      + if projected.Some? && vendor.Some? && vendor.value > projected.value then vendor.value - projected.value else 0.0
  }

  /** Vendor charges of calls without an auditor amount. */
  function Unfinalized(rows: seq<Row>): real
    decreases |rows|
  {
    if rows == [] then 0.0
    else
      var last := rows[|rows| - 1];
      Unfinalized(rows[..|rows| - 1])
      + if AuditedDuration(last.media).None? then Coalesce(VendorCharge(last.vendor), 0.0) else 0.0
  }

  /** Auditor amounts of calls the vendor did not charge. */
  function Unbilled(rows: seq<Row>): real
    decreases |rows|
  {
    if rows == [] then 0.0
    else
      var last := rows[|rows| - 1];
      Unbilled(rows[..|rows| - 1])
      + if VendorCharge(last.vendor).None? then Coalesce(ProjectedCharge(last.media), 0.0) else 0.0
  }

  function OfCategory(rows: seq<Row>, category: string): seq<Row>
    decreases |rows|
  {
    if rows == [] then []
    else OfCategory(rows[..|rows| - 1], category) + if rows[|rows| - 1].category == category then [rows[|rows| - 1]] else []
  }

  lemma {:induction false} CategoryIsMonthOfCategory(rows: seq<Row>, category: string)
    ensures CategoryTotals(rows, category) == MonthTotals(OfCategory(rows, category))
    ensures forall i :: 0 <= i < |OfCategory(rows, category)| ==> OfCategory(rows, category)[i] in rows
    decreases |rows|
  {
    if rows != [] {
      var n := |rows| - 1;
      CategoryIsMonthOfCategory(rows[..n], category);
      var before, after := OfCategory(rows[..n], category), OfCategory(rows, category);
      assert rows == rows[..n] + [rows[n]];
      if rows[n].category == category {
        assert after[..|before|] == before;
      } else {
        assert after == before;
      }
    }
  }

  /** Every rupee between the two totals is explained, whatever the signs of the stored amounts. */
  lemma {:induction false} DifferenceExplained(rows: seq<Row>)
    ensures MonthTotals(rows).vendorCharge - MonthTotals(rows).auditorCharge
         == Savings(rows) + Unfinalized(rows) - Unbilled(rows)
    ensures Savings(rows) >= 0.0
    decreases |rows|
  {
    if rows != [] { DifferenceExplained(rows[..|rows| - 1]); }
  }

  lemma {:induction false} ChargedRows(rows: seq<Row>)
    requires forall i :: 0 <= i < |rows| ==> VendorCharge(rows[i].vendor).Some?
    ensures Unbilled(rows) == 0.0
    ensures (forall i :: 0 <= i < |rows| && AuditedDuration(rows[i].media).None? ==> VendorCharge(rows[i].vendor).value >= 0.0)
      ==> Unfinalized(rows) >= 0.0
    decreases |rows|
  {
    if rows != [] {
      var n := |rows| - 1;
      ChargedRows(rows[..n]);
      assert forall i :: 0 <= i < n ==> rows[..n][i] == rows[i];
    }
  }

  /** Over vendor-charged calls the difference is what was saved and what was never audited. */
  lemma ChargedDifference(rows: seq<Row>)
    requires forall i :: 0 <= i < |rows| ==> VendorCharge(rows[i].vendor).Some?
    ensures MonthTotals(rows).vendorCharge - MonthTotals(rows).auditorCharge == Savings(rows) + Unfinalized(rows)
  {
    DifferenceExplained(rows);
    ChargedRows(rows);
  }

  /** What can be checked of one vendor-charged call: it was audited, or its charge is not a credit. */
  predicate AuditedOrNoCredit(r: Row) {
    AuditedDuration(r.media).Some? || Coalesce(VendorCharge(r.vendor), 0.0) >= 0.0
  }

  lemma CallWithinVendorIff(r: Row)
    requires VendorCharge(r.vendor).Some?
    ensures Share(r).auditorCharge <= Share(r).vendorCharge <==> AuditedOrNoCredit(r)
  {
  }

  lemma {:induction false} SelectionWithinVendor(rows: seq<Row>)
    requires forall i :: 0 <= i < |rows| ==> VendorCharge(rows[i].vendor).Some? && AuditedOrNoCredit(rows[i])
    ensures MonthTotals(rows).auditorCharge <= MonthTotals(rows).vendorCharge
    decreases |rows|
  {
    if rows != [] {
      var n := |rows| - 1;
      assert forall i :: 0 <= i < n ==> rows[..n][i] == rows[i];
      SelectionWithinVendor(rows[..n]);
      CallWithinVendorIff(rows[n]);
    }
  }

  ghost predicate DrawnFrom(part: seq<Row>, rows: seq<Row>) { forall k :: 0 <= k < |part| ==> part[k] in rows }

  /**
   However vendor-charged calls are selected, by category, month or page, the auditor total
   stays within the vendor total, exactly when each call was audited or carries no credit.
   */
  lemma AuditorWithinVendorIff(rows: seq<Row>)
    requires forall i :: 0 <= i < |rows| ==> VendorCharge(rows[i].vendor).Some?
    ensures (forall part :: DrawnFrom(part, rows) ==> MonthTotals(part).auditorCharge <= MonthTotals(part).vendorCharge)
       <==> (forall i :: 0 <= i < |rows| ==> AuditedOrNoCredit(rows[i]))
  {
    if forall part :: DrawnFrom(part, rows) ==> MonthTotals(part).auditorCharge <= MonthTotals(part).vendorCharge {
      forall i | 0 <= i < |rows| ensures AuditedOrNoCredit(rows[i]) {
        var part := [rows[i]];
        assert DrawnFrom(part, rows);
        SingleTotals(rows[i]);
        CallWithinVendorIff(rows[i]);
      }
    }
    if forall i :: 0 <= i < |rows| ==> AuditedOrNoCredit(rows[i]) {
      forall part | DrawnFrom(part, rows) ensures MonthTotals(part).auditorCharge <= MonthTotals(part).vendorCharge {
        DrawnRows(part, rows);
        SelectionWithinVendor(part);
      }
    }
  }

  lemma DrawnRows(part: seq<Row>, rows: seq<Row>)
    requires DrawnFrom(part, rows)
    requires forall i :: 0 <= i < |rows| ==> VendorCharge(rows[i].vendor).Some? && AuditedOrNoCredit(rows[i])
    ensures forall k :: 0 <= k < |part| ==> VendorCharge(part[k].vendor).Some? && AuditedOrNoCredit(part[k])
  {
    forall k | 0 <= k < |part| ensures VendorCharge(part[k].vendor).Some? && AuditedOrNoCredit(part[k]) {
      var i :| 0 <= i < |rows| && rows[i] == part[k];
    }
  }

  lemma SingleTotals(r: Row)
    ensures MonthTotals([r]) == Share(r)
  {
    assert [r][..0] == [];
    PlusZeroLeft(Share(r));
  }

  /** What the usage import stores: neither assertion is negative. */
  predicate NoCredit(v: Vendor) {
    (v.amount.Some? ==> v.amount.value >= 0.0) && (v.minutes.Some? ==> v.minutes.value >= 0.0)
  }

  /** With the assertions the import stores, no category's auditor total exceeds its vendor total, nor does the month's. */
  lemma AuditorWithinVendor(rows: seq<Row>, category: string)
    requires forall i :: 0 <= i < |rows| ==> VendorCharge(rows[i].vendor).Some? && NoCredit(rows[i].vendor)
    ensures CategoryTotals(rows, category).auditorCharge <= CategoryTotals(rows, category).vendorCharge
    ensures MonthTotals(rows).auditorCharge <= MonthTotals(rows).vendorCharge
  {
    forall i | 0 <= i < |rows| ensures AuditedOrNoCredit(rows[i]) {
      NoCreditCharge(rows[i].vendor);
    }
    CategoryIsMonthOfCategory(rows, category);
    DrawnRows(OfCategory(rows, category), rows);
    SelectionWithinVendor(OfCategory(rows, category));
    SelectionWithinVendor(rows);
  }

  lemma NoCreditCharge(v: Vendor)
    requires NoCredit(v)
    ensures Coalesce(VendorCharge(v), 0.0) >= 0.0
  {
    if v.amount.None? && v.minutes.Some? {
      assert v.minutes.value * RATE_PER_MINUTE >= 0.0;
    }
  }

  /** A credited call that was never audited would take the vendor total below the auditor's. */
  lemma CreditBreaksTheBound() returns (r: Row)
    ensures VendorCharge(r.vendor).Some? && !AuditedOrNoCredit(r)
    ensures CategoryTotals([r], r.category).auditorCharge > CategoryTotals([r], r.category).vendorCharge
  {
    r := Row("OK", Media(None, None, None, None), Vendor(Some(-1.0), None));
    CreditedTotals(r);
  }

  lemma CreditedTotals(r: Row)
    requires VendorCharge(r.vendor).Some? && !AuditedOrNoCredit(r)
    ensures CategoryTotals([r], r.category).auditorCharge > CategoryTotals([r], r.category).vendorCharge
  {
    CallWithinVendorIff(r);
    CategoryStep([], r, r.category);
    assert [] + [r] == [r];
    PlusZeroLeft(Share(r));
  }

  // ---- The gap -----------------------------------------------------------------------------

  /** The gap of a row is unknown unless both durations exist. */
  function RowGap(r: Row): Option<int> {
    var billed, audited := BilledMs(r.vendor), AuditedDuration(r.media);
    if billed.None? || audited.None? then None else Some(billed.value - audited.value)
  }

  /** The gap of a group is unknown only when no row has either duration. */
  function GroupGap(t: Totals): Option<int> {
    if t.billed == 0 && t.audited == 0 then None else Some(t.billedMs - t.auditedMs)
  }

  function RowGaps(rows: seq<Row>): int
    decreases |rows|
  {
    if rows == [] then 0 else RowGaps(rows[..|rows| - 1]) + Coalesce(RowGap(rows[|rows| - 1]), 0)
  }

  /** Durations that have no counterpart on the same call, billed ones positive and audited ones negative. */
  function Unpaired(rows: seq<Row>): int
    decreases |rows|
  {
    if rows == [] then 0
    else
      var last := rows[|rows| - 1];
      var billed, audited := BilledMs(last.vendor), AuditedDuration(last.media);
      Unpaired(rows[..|rows| - 1])
      + if billed.Some? && audited.None? then billed.value
        else if billed.None? && audited.Some? then -audited.value else 0
  }

  lemma {:induction false} GapCounts(rows: seq<Row>)
    ensures var t := MonthTotals(rows);
      && 0 <= t.comparable <= t.billed && t.comparable <= t.audited && t.billed + t.audited - t.comparable <= t.calls == |rows|
      && t.issues + t.clean == t.calls && t.priced + t.unfinalized == t.calls && t.priced == t.audited
      && t.billedMs - t.auditedMs == RowGaps(rows) + Unpaired(rows)
    decreases |rows|
  {
    if rows != [] { GapCounts(rows[..|rows| - 1]); }
  }

  /**
   The gap shown for a category is the sum of the gaps shown on its rows and of the
   unpaired durations; rows that show no gap still count in it.
   */
  lemma GroupGapExplained(rows: seq<Row>, category: string)
    ensures var mine := OfCategory(rows, category);
      && (GroupGap(CategoryTotals(rows, category)).Some? ==>
            GroupGap(CategoryTotals(rows, category)).value == RowGaps(mine) + Unpaired(mine))
      && (GroupGap(CategoryTotals(rows, category)).None? ==> RowGaps(mine) == 0 && Unpaired(mine) == 0)
  {
    var mine := OfCategory(rows, category);
    CategoryIsMonthOfCategory(rows, category);
    GapCounts(mine);
    if GroupGap(MonthTotals(mine)).None? {
      NothingMeasured(mine);
    }
  }

  /** What can be checked of one row: both durations are there, neither is, or the lone one is zero. */
  predicate Paired(r: Row) {
    var billed, audited := BilledMs(r.vendor), AuditedDuration(r.media);
    (billed.Some? && audited.Some?) || (Coalesce(billed, 0) == 0 && Coalesce(audited, 0) == 0)
  }

  /** A row counts in a total gap as it is shown exactly when it is paired. */
  lemma RowCountsAsShownIff(r: Row)
    ensures Share(r).billedMs - Share(r).auditedMs == Coalesce(RowGap(r), 0) <==> Paired(r)
  {
  }

  /**
   However calls are selected, the total gap is the sum of the gaps shown on the rows,
   exactly when every call is paired.
   */
  lemma GapsAddUpIff(rows: seq<Row>)
    ensures (forall part :: DrawnFrom(part, rows) ==> MonthTotals(part).billedMs - MonthTotals(part).auditedMs == RowGaps(part))
       <==> (forall i :: 0 <= i < |rows| ==> Paired(rows[i]))
  {
    if forall part :: DrawnFrom(part, rows) ==> MonthTotals(part).billedMs - MonthTotals(part).auditedMs == RowGaps(part) {
      forall i | 0 <= i < |rows| ensures Paired(rows[i]) {
        var part := [rows[i]];
        assert DrawnFrom(part, rows);
        SingleTotals(rows[i]);
        assert part[..0] == [] && RowGaps(part) == RowGaps([]) + Coalesce(RowGap(rows[i]), 0);
        RowCountsAsShownIff(rows[i]);
      }
    }
    if forall i :: 0 <= i < |rows| ==> Paired(rows[i]) {
      forall part | DrawnFrom(part, rows) ensures MonthTotals(part).billedMs - MonthTotals(part).auditedMs == RowGaps(part) {
        forall k | 0 <= k < |part| ensures Paired(part[k]) {
          var i :| 0 <= i < |rows| && rows[i] == part[k];
        }
        PairedGaps(part);
      }
    }
  }

  lemma {:induction false} PairedGaps(rows: seq<Row>)
    requires forall i :: 0 <= i < |rows| ==> Paired(rows[i])
    ensures MonthTotals(rows).billedMs - MonthTotals(rows).auditedMs == RowGaps(rows)
    decreases |rows|
  {
    if rows != [] {
      var n := |rows| - 1;
      assert forall i :: 0 <= i < n ==> rows[..n][i] == rows[i];
      PairedGaps(rows[..n]);
      RowCountsAsShownIff(rows[n]);
    }
  }

  lemma UnauditedShare(r: Row)
    requires AuditedDuration(r.media).None? && BilledMs(r.vendor).Some?
    ensures Share(r).billed == 1 && Share(r).billedMs == BilledMs(r.vendor).value
    ensures Share(r).audited == 0 && Share(r).auditedMs == 0
  {
  }

  /** A billed call without an audited duration shows no gap of its own and still widens its category's. */
  lemma UnpairedWidensGap(r: Row)
    requires AuditedDuration(r.media).None? && BilledMs(r.vendor).Some?
    ensures RowGap(r).None? && GroupGap(CategoryTotals([r], r.category)) == BilledMs(r.vendor)
  {
    UnauditedShare(r);
    CategoryStep([], r, r.category);
    assert [] + [r] == [r];
    PlusZeroLeft(Share(r));
  }

  lemma {:induction false} NothingMeasured(rows: seq<Row>)
    requires MonthTotals(rows).billed == 0 && MonthTotals(rows).audited == 0
    ensures RowGaps(rows) == 0 && Unpaired(rows) == 0
    decreases |rows|
  {
    if rows != [] {
      GapCounts(rows[..|rows| - 1]);
      NothingMeasured(rows[..|rows| - 1]);
    }
  }
}
