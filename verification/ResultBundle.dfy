/**
 The shape of a result bundle and the comparison of its metric rows with the
 stored ones. Both are loops over a set or a map; both decide an exact property.
 */
module ResultBundle {
  import opened Options

  datatype Metric = Metric(id: string, result: string, code: string, score: Option<int>, notApplicable: bool)

  /** A stored metric row; every column may read as NULL. */
  datatype Stored = Stored(
    id: Option<string>, result: Option<string>, code: Option<string>, score: Option<int>, notApplicable: Option<bool>)

  datatype Bundle = Bundle(result: string, succeeded: bool, contentAuditable: bool, metrics: seq<Metric>)

  const RUBRIC: seq<string> := [
    "PRODUCT_SERVICE_KNOWLEDGE", "CUSTOMER_UNDERSTANDING", "COMMUNICATION_CLARITY", "OBJECTION_CALLBACK_HANDLING",
    "CLOSING_NEXT_STEP", "PROFESSIONALISM", "QUALIFICATION_COMPLETENESS", "COMPLIANCE_PRIVACY"]

  function AsStored(m: Metric): Stored { Stored(Some(m.id), Some(m.result), Some(m.code), m.score, Some(m.notApplicable)) }

  ghost predicate DistinctCodes(metrics: seq<Metric>) {
    forall i, j :: 0 <= i < j < |metrics| ==> metrics[i].code != metrics[j].code
  }

  // ---- The pigeonhole ----------------------------------------------------------------------

  ghost function Elements<T>(s: seq<T>): set<T> { set i | 0 <= i < |s| :: s[i] }

  ghost predicate NoRepeat<T>(s: seq<T>) { forall i, j :: 0 <= i < j < |s| ==> s[i] != s[j] }

  /** A sequence has as many elements as positions exactly when nothing repeats. */
  lemma {:induction false} ElementCount<T>(s: seq<T>)
    ensures |Elements(s)| <= |s|
    ensures |Elements(s)| == |s| <==> NoRepeat(s)
    decreases |s|
  {
    if s != [] {
      var n := |s| - 1;
      ElementCount(s[..n]);
      assert Elements(s) == Elements(s[..n]) + {s[n]} by {
        assert s == s[..n] + [s[n]];
        forall x ensures x in Elements(s) <==> x in Elements(s[..n]) || x == s[n] {
          if x in Elements(s[..n]) {
            var i :| 0 <= i < n && s[..n][i] == x;
            assert s[i] == x;
          }
          if x in Elements(s) {
            var i :| 0 <= i < |s| && s[i] == x;
            assert i < n ==> s[..n][i] == x;
          }
        }
      }
      if s[n] in Elements(s[..n]) {
        var i :| 0 <= i < n && s[..n][i] == s[n];
        assert s[i] == s[n];
        assert Elements(s) == Elements(s[..n]);
      }
    }
  }

  lemma SubsetFills<T>(a: set<T>, b: set<T>)
    requires a <= b && |a| >= |b|
    ensures a == b
  {
    assert b == a + (b - a);
    assert |b - a| == 0;
  }

  // ---- The bundle's shape --------------------------------------------------------------------

  ghost function Codes(metrics: seq<Metric>): seq<string> { seq(|metrics|, i requires 0 <= i < |metrics| => metrics[i].code) }

  /** Exactly the rubric, once each, of this result; nothing for any other result. */
  ghost predicate WellShaped(b: Bundle) {
    if b.succeeded && b.contentAuditable then
      && (forall i :: 0 <= i < |b.metrics| ==> b.metrics[i].result == b.result)
      && NoRepeat(Codes(b.metrics)) && Elements(Codes(b.metrics)) == Elements(RUBRIC)
    else b.metrics == []
  }

  lemma RubricHasEight()
    ensures |Elements(RUBRIC)| == 8 && |RUBRIC| == 8
  {
    assert forall i, j :: 0 <= i < j < 8 ==> |RUBRIC[i]| != |RUBRIC[j]| || RUBRIC[i][0] != RUBRIC[j][0];
    ElementCount(RUBRIC);
  }

  /** Eight distinct codes that cover the rubric are the rubric. */
  lemma CoverIsExact(metrics: seq<Metric>)
    requires NoRepeat(Codes(metrics))
    ensures Elements(Codes(metrics)) == Elements(RUBRIC) <==>
            |metrics| == |RUBRIC| && forall k :: 0 <= k < |RUBRIC| ==> RUBRIC[k] in Elements(Codes(metrics))
  {
    RubricHasEight();
    ElementCount(Codes(metrics));
    assert forall k :: 0 <= k < |RUBRIC| ==> RUBRIC[k] in Elements(RUBRIC);
    if |metrics| == |RUBRIC| && forall k :: 0 <= k < |RUBRIC| ==> RUBRIC[k] in Elements(Codes(metrics)) {
      SubsetFills(Elements(RUBRIC), Elements(Codes(metrics)));
    }
  }

  /** `assertBundleShape`: false stands for the error it throws. */
  method AssertBundleShape(b: Bundle) returns (ok: bool)
    ensures ok <==> WellShaped(b)
  {
    if !(b.succeeded && b.contentAuditable) {
      return |b.metrics| == 0;
    }
    ghost var codes := Codes(b.metrics);
    if |b.metrics| != |RUBRIC| {
      if NoRepeat(codes) { CoverIsExact(b.metrics); }
      return false;
    }
    var seen: set<string> := {};
    for i := 0 to |b.metrics|
      invariant forall x :: x in seen <==> exists j :: 0 <= j < i && codes[j] == x
      invariant forall j :: 0 <= j < i ==> b.metrics[j].result == b.result
      invariant forall j, k :: 0 <= j < k < i ==> codes[j] != codes[k]
    {
      if b.metrics[i].result != b.result {
        return false;
      }
      if b.metrics[i].code in seen {
        ghost var j :| 0 <= j < i && codes[j] == b.metrics[i].code;
        assert codes[j] == codes[i];
        return false;
      }
      seen := seen + {b.metrics[i].code};
      assert codes[i] == b.metrics[i].code;
    }
    assert NoRepeat(codes);
    assert seen == Elements(codes);
    CoverIsExact(b.metrics);
    for k := 0 to |RUBRIC|
      invariant forall j :: 0 <= j < k ==> RUBRIC[j] in seen
    {
      if RUBRIC[k] !in seen {
        return false;
      }
    }
    return true;
  }

  // ---- Stored rows against incoming rows --------------------------------------------------------

  datatype Field = RowCount | MetricCode | Id | ResultId | ScoreValue | IsNotApplicable

  ghost predicate HasRow(existing: seq<Stored>, row: Stored) { exists i :: 0 <= i < |existing| && existing[i] == row }

  /** What the comparison passes on: as many rows, their codes known and distinct, and each record stored as submitted. */
  ghost predicate Matches(existing: seq<Stored>, records: seq<Metric>) {
    && |existing| == |records|
    && (forall i :: 0 <= i < |existing| ==> existing[i].code.Some?)
    && (forall i, j :: 0 <= i < j < |existing| ==> existing[i].code != existing[j].code)
    && (forall k :: 0 <= k < |records| ==> HasRow(existing, AsStored(records[k])))
  }

  function Difference(row: Stored, record: Metric): Option<Field> {
    if row.id != Some(record.id) then Some(Id)
    else if row.result != Some(record.result) then Some(ResultId)
    else if row.score != record.score then Some(ScoreValue)
    else if row.notApplicable != Some(record.notApplicable) then Some(IsNotApplicable)
    else None
  }

  /** `metricScoresConflictField`: None when the stored rows are the incoming ones. */
  method MetricScoresConflictField(existing: seq<Stored>, records: seq<Metric>) returns (field: Option<Field>)
    ensures field.None? <==> Matches(existing, records)
    ensures field == Some(RowCount) <==> |existing| != |records|
  {
    if |existing| != |records| {
      return Some(RowCount);
    }
    var byCode: map<string, Stored> := map[];
    for i := 0 to |existing|
      invariant forall j :: 0 <= j < i ==> existing[j].code.Some? && existing[j].code.value in byCode
      invariant forall j :: 0 <= j < i ==> byCode[existing[j].code.value] == existing[j]
      invariant forall c :: c in byCode ==> exists j :: 0 <= j < i && existing[j].code == Some(c)
      invariant forall j, k :: 0 <= j < k < i ==> existing[j].code != existing[k].code
    {
      var code := existing[i].code;
      if code.None? || code.value in byCode {
        return Some(MetricCode);
      }
      byCode := byCode[code.value := existing[i]];
    }
    for k := 0 to |records|
      invariant forall m :: 0 <= m < k ==> HasRow(existing, AsStored(records[m]))
    {
      if records[k].code !in byCode {
        return Some(MetricCode);
      }
      var row := byCode[records[k].code];
      var difference := Difference(row, records[k]);
      if difference.Some? {
        DifferingRow(existing, records, k, row);
        return difference;
      }
      ghost var i :| 0 <= i < |existing| && existing[i].code == Some(records[k].code);
      assert existing[i] == AsStored(records[k]);
      assert HasRow(existing, AsStored(records[k]));
    }
    return None;
  }

  /** Codes are distinct, so a row of the record's code that differs leaves the record unstored. */
  lemma DifferingRow(existing: seq<Stored>, records: seq<Metric>, k: nat, row: Stored)
    requires k < |records| && row in existing && row.code == Some(records[k].code) && row != AsStored(records[k])
    ensures !Matches(existing, records)
  {
    if HasRow(existing, AsStored(records[k])) {
      var i :| 0 <= i < |existing| && existing[i] == AsStored(records[k]);
      var j :| 0 <= j < |existing| && existing[j] == row;
      assert i != j;
    }
  }

  ghost function StoredForms(records: seq<Metric>): seq<Stored> {
    seq(|records|, i requires 0 <= i < |records| => AsStored(records[i]))
  }

  /**
   For records with distinct codes, which a well-shaped bundle has, the comparison
   passes exactly when the stored rows are the submitted rows in some order.
   */
  lemma MatchesIffSameRows(existing: seq<Stored>, records: seq<Metric>)
    requires DistinctCodes(records)
    ensures Matches(existing, records) <==> |existing| == |records| && Elements(existing) == Elements(StoredForms(records))
  {
    var forms := StoredForms(records);
    assert NoRepeat(forms) by {
      forall i, j | 0 <= i < j < |forms| ensures forms[i] != forms[j] {
        assert records[i].code != records[j].code;
      }
    }
    ElementCount(forms);
    ElementCount(existing);
    if Matches(existing, records) {
      forall x | x in Elements(forms) ensures x in Elements(existing) {
        var k :| 0 <= k < |forms| && forms[k] == x;
        assert HasRow(existing, AsStored(records[k]));
      }
      SubsetFills(Elements(forms), Elements(existing));
    }
    if |existing| == |records| && Elements(existing) == Elements(forms) {
      assert NoRepeat(existing);
      SameElementsMatch(existing, records);
    }
  }

  lemma SameElementsMatch(existing: seq<Stored>, records: seq<Metric>)
    requires DistinctCodes(records) && NoRepeat(existing)
    requires |existing| == |records| && Elements(existing) == Elements(StoredForms(records))
    ensures Matches(existing, records)
  {
    var forms := StoredForms(records);
    forall i | 0 <= i < |existing| ensures existing[i].code.Some? {
      var k := FormOf(existing, records, i);
    }
    forall i, j | 0 <= i < j < |existing| ensures existing[i].code != existing[j].code {
      var k := FormOf(existing, records, i);
      var m := FormOf(existing, records, j);
      assert existing[i] != existing[j];
      assert k != m;
      assert records[k].code != records[m].code;
    }
    forall k | 0 <= k < |records| ensures HasRow(existing, AsStored(records[k])) {
      assert forms[k] in Elements(forms);
      assert forms[k] in Elements(existing);
    }
  }

  lemma FormOf(existing: seq<Stored>, records: seq<Metric>, i: nat) returns (k: nat)
    requires i < |existing| && Elements(existing) == Elements(StoredForms(records))
    ensures k < |records| && existing[i] == AsStored(records[k])
  {
    assert existing[i] in Elements(existing);
    k :| 0 <= k < |records| && StoredForms(records)[k] == existing[i];
  }

  /** A well-shaped bundle meets the condition under which the comparison is exact. */
  lemma WellShapedCodesDistinct(b: Bundle)
    requires WellShaped(b)
    ensures DistinctCodes(b.metrics)
    ensures b.succeeded && b.contentAuditable ==> |b.metrics| == 8
  {
    if b.succeeded && b.contentAuditable {
      RubricHasEight();
      ElementCount(Codes(b.metrics));
      forall i, j | 0 <= i < j < |b.metrics| ensures b.metrics[i].code != b.metrics[j].code {
        assert Codes(b.metrics)[i] != Codes(b.metrics)[j];
      }
    }
  }
}
