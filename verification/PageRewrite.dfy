/**
 The category page query in its two forms.

 The legacy statement enriches every call of the month and cuts the page last.
 The statement in use decides the page on the calls alone, cuts it, and then
 enriches only the calls on the page. Both are modelled as the relations they
 compute, and proved to return the same rows in the same order for every table
 contents, filter, collation, limit and offset.

 A table is a sequence of rows in storage order. A join on a primary key
 matches at most one row and is written as a lookup; every other join is a
 relation whose rows are counted.
 */
module PageRewrite {
  import opened Options

  datatype Call = Call(
    id: nat, key: string, category: Option<string>, period: Option<int>, startedAt: Option<int>, endedAt: Option<int>,
    latestRun: Option<nat>)
  /** `recording` is a final artifact of type recording. */
  datatype Artifact = Artifact(id: nat, call: nat, recording: bool, hasUrl: bool)
  /** `done` is a completed, classified analysis. */
  datatype Analysis = Analysis(id: nat, artifact: nat, done: bool, createdAt: int, decodedMs: Option<int>, metrics: string)
  datatype Reference = Reference(id: nat, call: nat, isTask: bool, external: string)
  datatype Finding = Finding(id: nat, call: nat, run: nat, code: string, createdAt: int, confidence: string, remark: string)
  datatype Sku = BilledMinutes | BilledAmount | OtherSku
  datatype Cost = Cost(call: nat, sku: Sku, isFinal: bool, minutes: Option<int>, amount: Option<int>)

  datatype Database = Database(
    calls: seq<Call>, artifacts: seq<Artifact>, analyses: seq<Analysis>,
    transcripts: set<(nat, nat)>, references: seq<Reference>, findings: seq<Finding>, costs: seq<Cost>)

  /** The primary keys the statements rely on. */
  ghost predicate KeysUnique(db: Database) {
    && (forall i, j :: 0 <= i < j < |db.calls| ==> db.calls[i].id != db.calls[j].id)
    && (forall i, j :: 0 <= i < j < |db.analyses| ==> db.analyses[i].id != db.analyses[j].id)
    && (forall i, j :: 0 <= i < j < |db.references| ==> db.references[i].id != db.references[j].id)
    && (forall i, j :: 0 <= i < j < |db.findings| ==> db.findings[i].id != db.findings[j].id)
  }

  // ---- Ranking: ROW_NUMBER() = 1 against ORDER BY ... LIMIT 1 ------------------------

  /** A row of a relation ranked per call; the greatest (first, second) pair comes first. */
  datatype Entry<T> = Entry(call: nat, first: int, second: int, value: T)

  predicate Ahead<T>(x: Entry<T>, y: Entry<T>) {
    x.first > y.first || (x.first == y.first && x.second > y.second)
  }

  function OfCall<T>(rows: seq<Entry<T>>, call: nat): seq<Entry<T>>
    decreases |rows|
  {
    if rows == [] then []
    else OfCall(rows[..|rows| - 1], call) + if rows[|rows| - 1].call == call then [rows[|rows| - 1]] else []
  }

  /** How many rows of the partition come before x, which is its ROW_NUMBER less one. */
  function CountAhead<T>(partition: seq<Entry<T>>, x: Entry<T>): nat
    decreases |partition|
  {
    if partition == [] then 0
    else CountAhead(partition[..|partition| - 1], x) + if Ahead(partition[|partition| - 1], x) then 1 else 0
  }

  function RankedFirst<T>(rows: seq<Entry<T>>, partition: seq<Entry<T>>): seq<Entry<T>>
    decreases |rows|
  {
    if rows == [] then []
    else
      var last := rows[|rows| - 1];
      RankedFirst(rows[..|rows| - 1], partition) + if 1 + CountAhead(partition, last) == 1 then [last] else []
  }

  function First<T>(rows: seq<Entry<T>>): Option<Entry<T>>
    decreases |rows|
  {
    if rows == [] then None
    else
      var before, last := First(rows[..|rows| - 1]), rows[|rows| - 1];
      if before.None? || Ahead(last, before.value) then Some(last) else before
  }

  predicate DistinctRanks<T>(rows: seq<Entry<T>>) {
    forall i, j :: 0 <= i < j < |rows| ==> Ahead(rows[i], rows[j]) || Ahead(rows[j], rows[i])
  }

  lemma {:induction false} FirstIsAhead<T>(rows: seq<Entry<T>>)
    requires rows != []
    ensures First(rows).Some?
    ensures exists i :: 0 <= i < |rows| && rows[i] == First(rows).value
    ensures forall i :: 0 <= i < |rows| ==> !Ahead(rows[i], First(rows).value)
    decreases |rows|
  {
    var n := |rows| - 1;
    if n > 0 {
      FirstIsAhead(rows[..n]);
      if First(rows) != Some(rows[n]) {
        var i :| 0 <= i < n && rows[..n][i] == First(rows[..n]).value;
        assert rows[i] == First(rows).value;
      }
    }
  }

  lemma {:induction false} NoneAhead<T>(partition: seq<Entry<T>>, x: Entry<T>)
    ensures CountAhead(partition, x) == 0 <==> forall i :: 0 <= i < |partition| ==> !Ahead(partition[i], x)
    decreases |partition|
  {
    if partition != [] {
      NoneAhead(partition[..|partition| - 1], x);
    }
  }

  lemma {:induction false} OneRanked<T>(rows: seq<Entry<T>>, partition: seq<Entry<T>>, k: nat, n: nat)
    requires n <= |rows| && k < |rows| && CountAhead(partition, rows[k]) == 0
    requires forall i :: 0 <= i < |rows| && i != k ==> CountAhead(partition, rows[i]) > 0
    ensures RankedFirst(rows[..n], partition) == if k < n then [rows[k]] else []
    decreases n
  {
    if n > 0 {
      assert rows[..n][..n - 1] == rows[..n - 1];
      OneRanked(rows, partition, k, n - 1);
    }
  }

  /** The ranked relation keeps exactly the row the scalar subquery selects. */
  lemma RankedIsFirst<T>(rows: seq<Entry<T>>)
    requires DistinctRanks(rows)
    ensures RankedFirst(rows, rows) == if rows == [] then [] else [First(rows).value]
    ensures rows != [] ==> First(rows).Some?
  {
    if rows != [] {
      FirstIsAhead(rows);
      var k :| 0 <= k < |rows| && rows[k] == First(rows).value;
      NoneAhead(rows, rows[k]);
      forall i | 0 <= i < |rows| && i != k ensures CountAhead(rows, rows[i]) > 0 {
        NoneAhead(rows, rows[i]);
        assert Ahead(rows[k], rows[i]);
      }
      assert rows[..|rows|] == rows;
      OneRanked(rows, rows, k, |rows|);
    }
  }

  /** The derived relation: rank every row inside its own call's partition and keep rank one. */
  function RankedRelation<T>(rows: seq<Entry<T>>, relation: seq<Entry<T>>): seq<Entry<T>>
    decreases |rows|
  {
    if rows == [] then []
    else
      var last := rows[|rows| - 1];
      RankedRelation(rows[..|rows| - 1], relation)
      + if 1 + CountAhead(OfCall(relation, last.call), last) == 1 then [last] else []
  }

  lemma {:induction false} RankedPerCall<T>(rows: seq<Entry<T>>, relation: seq<Entry<T>>, call: nat)
    ensures OfCall(RankedRelation(rows, relation), call) == RankedFirst(OfCall(rows, call), OfCall(relation, call))
    decreases |rows|
  {
    if rows != [] {
      var shorter, last := rows[..|rows| - 1], rows[|rows| - 1];
      RankedPerCall(shorter, relation, call);
      OfCallAppend(RankedRelation(shorter, relation), last, call);
      assert RankedRelation(rows, relation)
          == RankedRelation(shorter, relation) + if CountAhead(OfCall(relation, last.call), last) == 0 then [last] else [];
      if last.call == call {
        assert OfCall(rows, call) == OfCall(shorter, call) + [last];
        RankedFirstAppend(OfCall(shorter, call), last, OfCall(relation, call));
      } else {
        assert OfCall(rows, call) == OfCall(shorter, call);
        assert OfCall(RankedRelation(shorter, relation) + [last], call) == OfCall(RankedRelation(shorter, relation), call);
      }
    }
  }

  lemma RankedFirstAppend<T>(rows: seq<Entry<T>>, last: Entry<T>, partition: seq<Entry<T>>)
    ensures RankedFirst(rows + [last], partition)
         == RankedFirst(rows, partition) + if CountAhead(partition, last) == 0 then [last] else []
  {
    assert (rows + [last])[..|rows|] == rows;
  }

  lemma OfCallAppend<T>(rows: seq<Entry<T>>, last: Entry<T>, call: nat)
    ensures OfCall(rows + [last], call) == OfCall(rows, call) + if last.call == call then [last] else []
    ensures OfCall(rows + [], call) == OfCall(rows, call)
  {
    assert (rows + [last])[..|rows|] == rows;
    assert rows + [] == rows;
  }

  // ---- Lookups by primary key -----------------------------------------------------------

  function FindCall(calls: seq<Call>, id: nat): Option<Call>
    decreases |calls|
  {
    if calls == [] then None
    else if calls[|calls| - 1].id == id then Some(calls[|calls| - 1])
    else FindCall(calls[..|calls| - 1], id)
  }

  function FindArtifact(artifacts: seq<Artifact>, id: nat): Option<Artifact>
    decreases |artifacts|
  {
    if artifacts == [] then None
    else if artifacts[|artifacts| - 1].id == id then Some(artifacts[|artifacts| - 1])
    else FindArtifact(artifacts[..|artifacts| - 1], id)
  }

  function FindAnalysis(analyses: seq<Analysis>, id: nat): Option<Analysis>
    decreases |analyses|
  {
    if analyses == [] then None
    else if analyses[|analyses| - 1].id == id then Some(analyses[|analyses| - 1])
    else FindAnalysis(analyses[..|analyses| - 1], id)
  }

  function FindFinding(findings: seq<Finding>, id: nat): Option<Finding>
    decreases |findings|
  {
    if findings == [] then None
    else if findings[|findings| - 1].id == id then Some(findings[|findings| - 1])
    else FindFinding(findings[..|findings| - 1], id)
  }

  lemma {:induction false} CallFound(calls: seq<Call>, i: nat)
    requires i < |calls|
    ensures FindCall(calls, calls[i].id).Some?
    ensures DistinctIds(calls) ==> FindCall(calls, calls[i].id) == Some(calls[i])
    decreases |calls|
  {
    if i < |calls| - 1 { CallFound(calls[..|calls| - 1], i); }
  }

  lemma {:induction false} AnalysisFound(analyses: seq<Analysis>, i: nat)
    requires i < |analyses| && forall i, j :: 0 <= i < j < |analyses| ==> analyses[i].id != analyses[j].id
    ensures FindAnalysis(analyses, analyses[i].id) == Some(analyses[i])
    decreases |analyses|
  {
    if i < |analyses| - 1 { AnalysisFound(analyses[..|analyses| - 1], i); }
  }

  lemma {:induction false} FindingFound(findings: seq<Finding>, i: nat)
    requires i < |findings| && forall i, j :: 0 <= i < j < |findings| ==> findings[i].id != findings[j].id
    ensures FindFinding(findings, findings[i].id) == Some(findings[i])
    decreases |findings|
  {
    if i < |findings| - 1 { FindingFound(findings[..|findings| - 1], i); }
  }

  // ---- The derived relations over a scope, and the per-call candidates -------------------

  /** Audited evidence over a scope of calls: the call must own the artifact and its completed transcript. */
  function MediaRelation(analyses: seq<Analysis>, db: Database, scope: seq<Call>): seq<Entry<Analysis>>
    decreases |analyses|
  {
    if analyses == [] then []
    else
      var last := analyses[|analyses| - 1];
      var artifact := FindArtifact(db.artifacts, last.artifact);
      MediaRelation(analyses[..|analyses| - 1], db, scope)
      + if artifact.Some? && FindCall(scope, artifact.value.call).Some? && artifact.value.recording && last.done
           && (artifact.value.call, artifact.value.id) in db.transcripts
        then [Entry(artifact.value.call, last.createdAt, last.id, last)] else []
  }

  function MediaCandidates(analyses: seq<Analysis>, db: Database, call: nat): seq<Entry<Analysis>>
    decreases |analyses|
  {
    if analyses == [] then []
    else
      var last := analyses[|analyses| - 1];
      var artifact := FindArtifact(db.artifacts, last.artifact);
      MediaCandidates(analyses[..|analyses| - 1], db, call)
      + if artifact.Some? && last.done && artifact.value.call == call && artifact.value.recording
           && (call, artifact.value.id) in db.transcripts
        then [Entry(call, last.createdAt, last.id, last)] else []
  }

  /** Task references; the lowest id ranks first. */
  function ReferenceRelation(references: seq<Reference>, scope: seq<Call>): seq<Entry<Reference>>
    decreases |references|
  {
    if references == [] then []
    else
      var last := references[|references| - 1];
      ReferenceRelation(references[..|references| - 1], scope)
      + if FindCall(scope, last.call).Some? && last.isTask then [Entry(last.call, 0 - last.id, 0, last)] else []
  }

  function ReferenceCandidates(references: seq<Reference>, call: nat): seq<Entry<Reference>>
    decreases |references|
  {
    if references == [] then []
    else
      var last := references[|references| - 1];
      ReferenceCandidates(references[..|references| - 1], call)
      + if last.call == call && last.isTask then [Entry(call, 0 - last.id, 0, last)] else []
  }

  /** Findings of the call's latest audit run that carry the call's own category. */
  function FindingRelation(findings: seq<Finding>, scope: seq<Call>): seq<Entry<Finding>>
    decreases |findings|
  {
    if findings == [] then []
    else
      var last := findings[|findings| - 1];
      var owner := FindCall(scope, last.call);
      FindingRelation(findings[..|findings| - 1], scope)
      + if owner.Some? && owner.value.latestRun == Some(last.run) && owner.value.category == Some(last.code)
        then [Entry(last.call, last.createdAt, last.id, last)] else []
  }

  function FindingCandidates(findings: seq<Finding>, call: Call): seq<Entry<Finding>>
    decreases |findings|
  {
    if findings == [] then []
    else
      var last := findings[|findings| - 1];
      FindingCandidates(findings[..|findings| - 1], call)
      + if last.call == call.id && call.latestRun == Some(last.run) && call.category == Some(last.code)
        then [Entry(call.id, last.createdAt, last.id, last)] else []
  }

  lemma {:induction false} MediaAgrees(analyses: seq<Analysis>, db: Database, scope: seq<Call>, call: nat)
    requires FindCall(scope, call).Some?
    ensures OfCall(MediaRelation(analyses, db, scope), call) == MediaCandidates(analyses, db, call)
    decreases |analyses|
  {
    if analyses != [] {
      var n := |analyses| - 1;
      MediaAgrees(analyses[..n], db, scope, call);
      var artifact := FindArtifact(db.artifacts, analyses[n].artifact);
      if artifact.Some? {
        OfCallAppend(MediaRelation(analyses[..n], db, scope),
                     Entry(artifact.value.call, analyses[n].createdAt, analyses[n].id, analyses[n]), call);
      } else {
        assert MediaRelation(analyses, db, scope) == MediaRelation(analyses[..n], db, scope);
      }
    }
  }

  lemma {:induction false} ReferenceAgrees(references: seq<Reference>, scope: seq<Call>, call: nat)
    requires FindCall(scope, call).Some?
    ensures OfCall(ReferenceRelation(references, scope), call) == ReferenceCandidates(references, call)
    decreases |references|
  {
    if references != [] {
      var n := |references| - 1;
      ReferenceAgrees(references[..n], scope, call);
      OfCallAppend(ReferenceRelation(references[..n], scope), Entry(references[n].call, 0 - references[n].id, 0, references[n]), call);
    }
  }

  lemma {:induction false} FindingAgrees(findings: seq<Finding>, scope: seq<Call>, call: Call)
    requires FindCall(scope, call.id) == Some(call)
    ensures OfCall(FindingRelation(findings, scope), call.id) == FindingCandidates(findings, call)
    decreases |findings|
  {
    if findings != [] {
      var n := |findings| - 1;
      FindingAgrees(findings[..n], scope, call);
      OfCallAppend(FindingRelation(findings[..n], scope), Entry(findings[n].call, findings[n].createdAt, findings[n].id, findings[n]), call.id);
    }
  }

  /** Candidates of one call are table rows whose ranks differ because ids do. */
  lemma {:induction false} MediaRanks(analyses: seq<Analysis>, db: Database, call: nat)
    requires forall i, j :: 0 <= i < j < |analyses| ==> analyses[i].id != analyses[j].id
    ensures DistinctRanks(MediaCandidates(analyses, db, call))
    ensures forall k | 0 <= k < |MediaCandidates(analyses, db, call)| ::
      var e := MediaCandidates(analyses, db, call)[k]; e.second == e.value.id && e.value in analyses
    decreases |analyses|
  {
    if analyses != [] {
      var n := |analyses| - 1;
      MediaRanks(analyses[..n], db, call);
      forall k | 0 <= k < |MediaCandidates(analyses[..n], db, call)|
        ensures MediaCandidates(analyses[..n], db, call)[k].second != analyses[n].id
      {
        var e := MediaCandidates(analyses[..n], db, call)[k];
        assert e.value in analyses[..n];
      }
    }
  }

  lemma {:induction false} ReferenceRanks(references: seq<Reference>, call: nat)
    requires forall i, j :: 0 <= i < j < |references| ==> references[i].id != references[j].id
    ensures DistinctRanks(ReferenceCandidates(references, call))
    ensures forall k | 0 <= k < |ReferenceCandidates(references, call)| ::
      var e := ReferenceCandidates(references, call)[k]; e.first == 0 - e.value.id && e.value in references
    decreases |references|
  {
    if references != [] {
      var n := |references| - 1;
      ReferenceRanks(references[..n], call);
      forall k | 0 <= k < |ReferenceCandidates(references[..n], call)|
        ensures ReferenceCandidates(references[..n], call)[k].first != 0 - references[n].id
      {
        var e := ReferenceCandidates(references[..n], call)[k];
        assert e.value in references[..n];
      }
    }
  }

  lemma {:induction false} FindingRanks(findings: seq<Finding>, call: Call)
    requires forall i, j :: 0 <= i < j < |findings| ==> findings[i].id != findings[j].id
    ensures DistinctRanks(FindingCandidates(findings, call))
    ensures forall k | 0 <= k < |FindingCandidates(findings, call)| ::
      var e := FindingCandidates(findings, call)[k]; e.second == e.value.id && e.value in findings
    decreases |findings|
  {
    if findings != [] {
      var n := |findings| - 1;
      FindingRanks(findings[..n], call);
      forall k | 0 <= k < |FindingCandidates(findings[..n], call)|
        ensures FindingCandidates(findings[..n], call)[k].second != findings[n].id
      {
        var e := FindingCandidates(findings[..n], call)[k];
        assert e.value in findings[..n];
      }
    }
  }

  // ---- GROUP BY -------------------------------------------------------------------------

  /** The two vendor assertions of one call; MAX ignores NULL. */
  datatype Vendor = Vendor(minutes: Option<int>, amount: Option<int>)

  function MaxOf(x: Option<int>, y: Option<int>): Option<int> {
    if x.None? then y else if y.None? then x else if x.value < y.value then y else x
  }

  function Asserted(cost: Cost): Vendor {
    Vendor(if cost.sku.BilledMinutes? then cost.minutes else None, if cost.sku.BilledAmount? then cost.amount else None)
  }

  predicate Counted(cost: Cost) { !cost.sku.OtherSku? && cost.isFinal }

  function Merged(group: Option<Vendor>, cost: Cost): Vendor {
    if group.None? then Asserted(cost)
    else Vendor(MaxOf(group.value.minutes, Asserted(cost).minutes), MaxOf(group.value.amount, Asserted(cost).amount))
  }

  function Group<T>(groups: map<nat, T>, call: nat): Option<T> {
    if call in groups then Some(groups[call]) else None
  }

  function VendorRelation(costs: seq<Cost>, scope: seq<Call>): map<nat, Vendor>
    decreases |costs|
  {
    if costs == [] then map[]
    else
      var before, last := VendorRelation(costs[..|costs| - 1], scope), costs[|costs| - 1];
      if FindCall(scope, last.call).Some? && Counted(last)
      then before[last.call := Merged(Group(before, last.call), last)] else before
  }

  /** What the vendor asserts of one call, from that call's rows alone. */
  function VendorOf(costs: seq<Cost>, call: nat): Option<Vendor>
    decreases |costs|
  {
    if costs == [] then None
    else
      var before, last := VendorOf(costs[..|costs| - 1], call), costs[|costs| - 1];
      if last.call == call && Counted(last) then Some(Merged(before, last)) else before
  }

  lemma {:induction false} VendorAgrees(costs: seq<Cost>, scope: seq<Call>, call: nat)
    requires FindCall(scope, call).Some?
    ensures Group(VendorRelation(costs, scope), call) == VendorOf(costs, call)
    decreases |costs|
  {
    if costs != [] { VendorAgrees(costs[..|costs| - 1], scope, call); }
  }

  /** Legacy: MAX(source_url IS NOT NULL) over the final recordings of each call in scope. */
  function RecordingRelation(artifacts: seq<Artifact>, scope: seq<Call>): map<nat, bool>
    decreases |artifacts|
  {
    if artifacts == [] then map[]
    else
      var before, last := RecordingRelation(artifacts[..|artifacts| - 1], scope), artifacts[|artifacts| - 1];
      if FindCall(scope, last.call).Some? && last.recording
      then before[last.call := Group(before, last.call) == Some(true) || last.hasUrl] else before
  }

  /** Page: EXISTS a final recording with a source. */
  predicate RecordingExists(artifacts: seq<Artifact>, call: nat) {
    exists i :: 0 <= i < |artifacts| && artifacts[i].call == call && artifacts[i].recording && artifacts[i].hasUrl
  }

  lemma {:induction false} RecordingAgrees(artifacts: seq<Artifact>, scope: seq<Call>, call: nat)
    requires FindCall(scope, call).Some?
    ensures RecordingExists(artifacts, call) <==> Group(RecordingRelation(artifacts, scope), call) == Some(true)
    decreases |artifacts|
  {
    if artifacts != [] {
      var n := |artifacts| - 1;
      RecordingAgrees(artifacts[..n], scope, call);
      if RecordingExists(artifacts, call) {
        var i :| 0 <= i < |artifacts| && artifacts[i].call == call && artifacts[i].recording && artifacts[i].hasUrl;
        if i < n {
          assert artifacts[..n][i] == artifacts[i];
        }
      }
      if RecordingExists(artifacts[..n], call) {
        var i :| 0 <= i < n && artifacts[..n][i].call == call && artifacts[..n][i].recording && artifacts[..n][i].hasUrl;
        assert artifacts[i] == artifacts[..n][i];
      }
    }
  }

  // ---- Rows, order and the page window ---------------------------------------------------

  /** Every column of a result row, or the stored values it is computed from. */
  datatype Row = Row(
    reference: string, startedAt: Option<int>, endedAt: Option<int>, period: Option<int>, category: Option<string>, recording: bool,
    vendor: Option<Vendor>, media: Analysis, finding: Option<Finding>)

  /** The sort key beside a value: start, reference and the call id that breaks ties. */
  datatype Keyed<T> = Keyed(startedAt: Option<int>, reference: string, id: nat, value: T)

  /** Newest start first with NULL last, then the collation's weight of the reference, then the id. */
  predicate Before<T, U>(x: Keyed<T>, y: Keyed<U>, weight: string -> real) {
    if x.startedAt != y.startedAt then
      x.startedAt.Some? && (y.startedAt.Some? ==> x.startedAt.value > y.startedAt.value)
    else if weight(x.reference) != weight(y.reference) then weight(x.reference) < weight(y.reference)
    else x.id < y.id
  }

  function Insert<T>(x: Keyed<T>, rows: seq<Keyed<T>>, weight: string -> real): seq<Keyed<T>>
    decreases |rows|
  {
    if rows == [] then [x]
    else if Before(x, rows[0], weight) then [x] + rows
    else [rows[0]] + Insert(x, rows[1..], weight)
  }

  function Sort<T>(rows: seq<Keyed<T>>, weight: string -> real): seq<Keyed<T>>
    decreases |rows|
  {
    if rows == [] then [] else Insert(rows[0], Sort(rows[1..], weight), weight)
  }

  predicate Sorted<T>(rows: seq<Keyed<T>>, weight: string -> real) {
    forall i, j :: 0 <= i < j < |rows| ==> Before(rows[i], rows[j], weight)
  }

  /** LIMIT and OFFSET. */
  function Cut<T>(rows: seq<T>, limit: nat, offset: nat): seq<T> {
    if offset >= |rows| then [] else if offset + limit >= |rows| then rows[offset..] else rows[offset..offset + limit]
  }

  function Values<T>(rows: seq<Keyed<T>>): seq<T> { seq(|rows|, i requires 0 <= i < |rows| => rows[i].value) }

  // ---- The two statements ---------------------------------------------------------------

  function Scope(calls: seq<Call>, filter: Call -> bool): seq<Call>
    decreases |calls|
  {
    if calls == [] then []
    else Scope(calls[..|calls| - 1], filter) + if filter(calls[|calls| - 1]) then [calls[|calls| - 1]] else []
  }

  function Outer<T>(rows: seq<Entry<T>>): seq<Option<Entry<T>>> {
    if rows == [] then [None] else seq(|rows|, i requires 0 <= i < |rows| => Some(rows[i]))
  }

  function JoinFinding(c: Call, media: Analysis, vendor: Option<Vendor>, recording: Option<bool>,
                       task: Option<Entry<Reference>>, findings: seq<Option<Entry<Finding>>>): seq<Keyed<Row>>
    decreases |findings|
  {
    if findings == [] then []
    else
      var reference := if task.Some? then task.value.value.external else c.key;
      var finding := if findings[0].Some? then Some(findings[0].value.value) else None;
      [Keyed(c.startedAt, reference, c.id,
             Row(reference, c.startedAt, c.endedAt, c.period, c.category, recording == Some(true), vendor, media, finding))]
      + JoinFinding(c, media, vendor, recording, task, findings[1..])
  }

  function JoinTask(c: Call, media: Analysis, vendor: Option<Vendor>, recording: Option<bool>,
                    tasks: seq<Option<Entry<Reference>>>, findings: seq<Option<Entry<Finding>>>): seq<Keyed<Row>>
    decreases |tasks|
  {
    if tasks == [] then []
    else JoinFinding(c, media, vendor, recording, tasks[0], findings)
         + JoinTask(c, media, vendor, recording, tasks[1..], findings)
  }

  function JoinMedia(c: Call, media: seq<Entry<Analysis>>, vendor: Option<Vendor>, recording: Option<bool>,
                     tasks: seq<Option<Entry<Reference>>>, findings: seq<Option<Entry<Finding>>>): seq<Keyed<Row>>
    decreases |media|
  {
    if media == [] then []
    else JoinTask(c, media[0].value, vendor, recording, tasks, findings)
         + JoinMedia(c, media[1..], vendor, recording, tasks, findings)
  }

  /** The rows the legacy join yields for one call: inner on the evidence, left on everything else. */
  function LegacyJoin(c: Call, db: Database, scope: seq<Call>): seq<Keyed<Row>> {
    var media := MediaRelation(db.analyses, db, scope);
    var tasks := ReferenceRelation(db.references, scope);
    var findings := FindingRelation(db.findings, scope);
    JoinMedia(c, OfCall(RankedRelation(media, media), c.id),
              Group(VendorRelation(db.costs, scope), c.id), Group(RecordingRelation(db.artifacts, scope), c.id),
              Outer(OfCall(RankedRelation(tasks, tasks), c.id)), Outer(OfCall(RankedRelation(findings, findings), c.id)))
  }

  function LegacyRows(calls: seq<Call>, db: Database, scope: seq<Call>): seq<Keyed<Row>>
    decreases |calls|
  {
    if calls == [] then [] else LegacyJoin(calls[0], db, scope) + LegacyRows(calls[1..], db, scope)
  }

  /** Enrich every call in scope, order, cut. */
  function LegacyPage(db: Database, filter: Call -> bool, weight: string -> real, limit: nat, offset: nat): seq<Row> {
    var scope := Scope(db.calls, filter);
    Values(Cut(Sort(LegacyRows(scope, db, scope), weight), limit, offset))
  }

  function TaskReference(c: Call, db: Database): string {
    var first := First(ReferenceCandidates(db.references, c.id));
    if first.Some? then first.value.value.external else c.key
  }

  /** The calls that pass the filter and own evidence, with the key the page is ordered by. */
  function PageCalls(calls: seq<Call>, db: Database): seq<Keyed<Call>>
    decreases |calls|
  {
    if calls == [] then []
    else
      (if MediaCandidates(db.analyses, db, calls[0].id) != []
       then [Keyed(calls[0].startedAt, TaskReference(calls[0], db), calls[0].id, calls[0])] else [])
      + PageCalls(calls[1..], db)
  }

  /** The lookups run for one call of the page; an inner join that finds no analysis would drop the call. */
  function Enriched(k: Keyed<Call>, db: Database, page: seq<Call>): seq<Keyed<Row>> {
    var c := k.value;
    var chosen := First(MediaCandidates(db.analyses, db, c.id));
    var media := if chosen.Some? then FindAnalysis(db.analyses, chosen.value.value.id) else None;
    var latest := First(FindingCandidates(db.findings, c));
    var finding := if latest.Some? then FindFinding(db.findings, latest.value.value.id) else None;
    if media.None? then []
    else
      [Keyed(k.startedAt, k.reference, k.id,
             Row(k.reference, c.startedAt, c.endedAt, c.period, c.category, RecordingExists(db.artifacts, c.id),
                 Group(VendorRelation(db.costs, page), c.id), media.value, finding))]
  }

  function EnrichedRows(rows: seq<Keyed<Call>>, db: Database, page: seq<Call>): seq<Keyed<Row>>
    decreases |rows|
  {
    if rows == [] then [] else Enriched(rows[0], db, page) + EnrichedRows(rows[1..], db, page)
  }

  /** Order and cut the calls, enrich the page, order it again. */
  function CategoryPage(db: Database, filter: Call -> bool, weight: string -> real, limit: nat, offset: nat): seq<Row> {
    var page := Cut(Sort(PageCalls(Scope(db.calls, filter), db), weight), limit, offset);
    Values(Sort(EnrichedRows(page, db, Values(page)), weight))
  }

  // ---- Each relation yields one row per call ------------------------------------------------

  /** The row of a call by definition: the latest evidence, the first reference, the latest finding. */
  function RowOf(c: Call, db: Database): Keyed<Row>
    requires First(MediaCandidates(db.analyses, db, c.id)).Some?
  {
    var latest := First(FindingCandidates(db.findings, c));
    var reference := TaskReference(c, db);
    Keyed(c.startedAt, reference, c.id,
          Row(reference, c.startedAt, c.endedAt, c.period, c.category, RecordingExists(db.artifacts, c.id), VendorOf(db.costs, c.id),
              First(MediaCandidates(db.analyses, db, c.id)).value.value,
              if latest.Some? then Some(latest.value.value) else None))
  }

  lemma FirstSome<T>(rows: seq<Entry<T>>)
    ensures First(rows).Some? <==> rows != []
    ensures rows != [] ==> First(rows).value in rows
  {
    if rows != [] { FirstIsAhead(rows); }
  }

  /** The ranked relation joined to one call is that call's first candidate, or nothing. */
  lemma RankedJoin<T>(relation: seq<Entry<T>>, candidates: seq<Entry<T>>, call: nat)
    requires OfCall(relation, call) == candidates && DistinctRanks(candidates)
    ensures OfCall(RankedRelation(relation, relation), call)
         == if First(candidates).None? then [] else [First(candidates).value]
  {
    RankedPerCall(relation, relation, call);
    RankedIsFirst(candidates);
    FirstSome(candidates);
  }

  lemma SingleJoin(c: Call, media: Analysis, vendor: Option<Vendor>, recording: Option<bool>,
                   task: Option<Entry<Reference>>, finding: Option<Entry<Finding>>, entry: Entry<Analysis>)
    requires entry.value == media
    ensures |JoinMedia(c, [entry], vendor, recording, [task], [finding])| == 1
    ensures JoinMedia(c, [entry], vendor, recording, [task], [finding])[0]
         == var reference := if task.Some? then task.value.value.external else c.key;
            Keyed(c.startedAt, reference, c.id,
                  Row(reference, c.startedAt, c.endedAt, c.period, c.category, recording == Some(true), vendor, media,
                      if finding.Some? then Some(finding.value.value) else None))
  {
    assert [entry][1..] == [] && [task][1..] == [] && [finding][1..] == [];
    assert JoinFinding(c, media, vendor, recording, task, []) == [];
    assert JoinTask(c, media, vendor, recording, [], [finding]) == [];
    assert JoinMedia(c, [], vendor, recording, [task], [finding]) == [];
  }

  lemma OuterSingle<T>(first: Option<Entry<T>>)
    ensures Outer(if first.None? then [] else [first.value]) == [first]
  {
  }

  /** The legacy join neither multiplies nor blends rows: one row for a call with evidence, none without. */
  lemma LegacyJoinIsRowOf(c: Call, db: Database, scope: seq<Call>)
    requires KeysUnique(db) && FindCall(scope, c.id) == Some(c)
    ensures First(MediaCandidates(db.analyses, db, c.id)).None? ==> LegacyJoin(c, db, scope) == []
    ensures First(MediaCandidates(db.analyses, db, c.id)).Some? ==> LegacyJoin(c, db, scope) == [RowOf(c, db)]
  {
    var media := MediaRelation(db.analyses, db, scope);
    var tasks := ReferenceRelation(db.references, scope);
    var findings := FindingRelation(db.findings, scope);
    var m := First(MediaCandidates(db.analyses, db, c.id));
    var t := First(ReferenceCandidates(db.references, c.id));
    var f := First(FindingCandidates(db.findings, c));
    MediaAgrees(db.analyses, db, scope, c.id);
    MediaRanks(db.analyses, db, c.id);
    RankedJoin(media, MediaCandidates(db.analyses, db, c.id), c.id);
    ReferenceAgrees(db.references, scope, c.id);
    ReferenceRanks(db.references, c.id);
    RankedJoin(tasks, ReferenceCandidates(db.references, c.id), c.id);
    FindingAgrees(db.findings, scope, c);
    FindingRanks(db.findings, c);
    RankedJoin(findings, FindingCandidates(db.findings, c), c.id);
    VendorAgrees(db.costs, scope, c.id);
    RecordingAgrees(db.artifacts, scope, c.id);
    OuterSingle(t);
    OuterSingle(f);
    if m.Some? {
      SingleJoin(c, m.value.value, VendorOf(db.costs, c.id), Group(RecordingRelation(db.artifacts, scope), c.id), t, f, m.value);
    }
  }

  /** The page lookups of one call give the same row, whatever else is on the page. */
  lemma EnrichedIsRowOf(k: Keyed<Call>, db: Database, page: seq<Call>)
    requires KeysUnique(db) && FindCall(page, k.value.id).Some?
    requires First(MediaCandidates(db.analyses, db, k.value.id)).Some?
    requires k == Keyed(k.value.startedAt, TaskReference(k.value, db), k.value.id, k.value)
    ensures Enriched(k, db, page) == [RowOf(k.value, db)]
  {
    var c := k.value;
    VendorAgrees(db.costs, page, c.id);
    FirstSome(MediaCandidates(db.analyses, db, c.id));
    MediaRanks(db.analyses, db, c.id);
    var media := First(MediaCandidates(db.analyses, db, c.id)).value.value;
    var i :| 0 <= i < |db.analyses| && db.analyses[i] == media;
    AnalysisFound(db.analyses, i);
    FirstSome(FindingCandidates(db.findings, c));
    FindingRanks(db.findings, c);
    var latest := First(FindingCandidates(db.findings, c));
    if latest.Some? {
      var j :| 0 <= j < |db.findings| && db.findings[j] == latest.value.value;
      FindingFound(db.findings, j);
    }
  }

  // ---- The calls in scope and the rows they become ---------------------------------------

  ghost predicate Mirrors(k: Keyed<Call>, row: Keyed<Row>, db: Database) {
    && First(MediaCandidates(db.analyses, db, k.value.id)).Some?
    && k == Keyed(k.value.startedAt, TaskReference(k.value, db), k.value.id, k.value)
    && row == RowOf(k.value, db)
  }

  ghost predicate AllMirror(calls: seq<Keyed<Call>>, rows: seq<Keyed<Row>>, db: Database) {
    |calls| == |rows| && forall i :: 0 <= i < |calls| ==> Mirrors(calls[i], rows[i], db)
  }

  ghost predicate DistinctIds(calls: seq<Call>) {
    forall i, j :: 0 <= i < j < |calls| ==> calls[i].id != calls[j].id
  }

  lemma {:induction false} ScopeKeepsKeys(calls: seq<Call>, filter: Call -> bool)
    requires DistinctIds(calls)
    ensures DistinctIds(Scope(calls, filter))
    ensures forall c :: c in Scope(calls, filter) <==> c in calls && filter(c)
    decreases |calls|
  {
    if calls != [] {
      var n := |calls| - 1;
      ScopeKeepsKeys(calls[..n], filter);
      assert calls == calls[..n] + [calls[n]];
      forall i | 0 <= i < |Scope(calls[..n], filter)| ensures Scope(calls[..n], filter)[i].id != calls[n].id {
        assert Scope(calls[..n], filter)[i] in calls[..n];
      }
    }
  }

  lemma {:induction false} EligibleMirrorLegacy(calls: seq<Call>, db: Database, scope: seq<Call>)
    requires KeysUnique(db) && forall c :: c in calls ==> FindCall(scope, c.id) == Some(c)
    ensures AllMirror(PageCalls(calls, db), LegacyRows(calls, db, scope), db)
    decreases |calls|
  {
    if calls != [] {
      var c := calls[0];
      EligibleMirrorLegacy(calls[1..], db, scope);
      LegacyJoinIsRowOf(c, db, scope);
      FirstSome(MediaCandidates(db.analyses, db, c.id));
      var rest, rows := PageCalls(calls[1..], db), LegacyRows(calls[1..], db, scope);
      if MediaCandidates(db.analyses, db, c.id) == [] {
        assert PageCalls(calls, db) == rest && LegacyRows(calls, db, scope) == rows;
      } else {
        var k := Keyed(c.startedAt, TaskReference(c, db), c.id, c);
        assert PageCalls(calls, db) == [k] + rest && LegacyRows(calls, db, scope) == [RowOf(c, db)] + rows;
        MirrorCons(k, RowOf(c, db), rest, rows, db);
      }
    }
  }

  lemma {:induction false} EnrichedMirror(page: seq<Keyed<Call>>, rows: seq<Keyed<Row>>, db: Database, scope: seq<Call>)
    requires KeysUnique(db) && AllMirror(page, rows, db)
    requires forall k :: 0 <= k < |page| ==> FindCall(scope, page[k].value.id).Some?
    ensures EnrichedRows(page, db, scope) == rows
    decreases |page|
  {
    if page != [] {
      EnrichedMirror(page[1..], rows[1..], db, scope);
      assert Mirrors(page[0], rows[0], db);
      EnrichedIsRowOf(page[0], db, scope);
      assert rows == [rows[0]] + rows[1..];
    }
  }

  // ---- Ordering --------------------------------------------------------------------------

  lemma MirrorKeys(k: Keyed<Call>, row: Keyed<Row>, db: Database)
    requires Mirrors(k, row, db)
    ensures k.startedAt == row.startedAt && k.reference == row.reference && k.id == row.id
  {
  }

  lemma MirrorCons(k: Keyed<Call>, row: Keyed<Row>, calls: seq<Keyed<Call>>, rows: seq<Keyed<Row>>, db: Database)
    requires Mirrors(k, row, db) && AllMirror(calls, rows, db)
    ensures AllMirror([k] + calls, [row] + rows, db)
  {
    forall i | 0 <= i < |calls| + 1 ensures Mirrors(([k] + calls)[i], ([row] + rows)[i], db) {
      if i > 0 {
        assert Mirrors(calls[i - 1], rows[i - 1], db);
      }
    }
  }

  lemma MirrorTail(calls: seq<Keyed<Call>>, rows: seq<Keyed<Row>>, db: Database)
    requires AllMirror(calls, rows, db) && calls != []
    ensures rows != [] && AllMirror(calls[1..], rows[1..], db) && Mirrors(calls[0], rows[0], db)
  {
    forall i | 0 <= i < |calls| - 1 ensures Mirrors(calls[1..][i], rows[1..][i], db) {
      assert Mirrors(calls[i + 1], rows[i + 1], db);
    }
  }

  lemma {:induction false} InsertMirrors(k: Keyed<Call>, row: Keyed<Row>, calls: seq<Keyed<Call>>, rows: seq<Keyed<Row>>,
                                         weight: string -> real, db: Database)
    requires Mirrors(k, row, db) && AllMirror(calls, rows, db)
    ensures AllMirror(Insert(k, calls, weight), Insert(row, rows, weight), db)
    decreases |calls|
  {
    MirrorCons(k, row, calls, rows, db);
    if calls == [] {
      assert [k] + calls == Insert(k, calls, weight) && [row] + rows == Insert(row, rows, weight);
    } else {
      MirrorTail(calls, rows, db);
      MirrorKeys(k, row, db);
      MirrorKeys(calls[0], rows[0], db);
      if !Before(k, calls[0], weight) {
        InsertMirrors(k, row, calls[1..], rows[1..], weight, db);
        MirrorCons(calls[0], rows[0], Insert(k, calls[1..], weight), Insert(row, rows[1..], weight), db);
      }
    }
  }

  /** The order looks at the key alone, so ordering calls and ordering their rows commute. */
  lemma {:induction false} SortMirrors(calls: seq<Keyed<Call>>, rows: seq<Keyed<Row>>, weight: string -> real, db: Database)
    requires AllMirror(calls, rows, db)
    ensures AllMirror(Sort(calls, weight), Sort(rows, weight), db)
    decreases |calls|
  {
    if calls != [] {
      MirrorTail(calls, rows, db);
      SortMirrors(calls[1..], rows[1..], weight, db);
      InsertMirrors(calls[0], rows[0], Sort(calls[1..], weight), Sort(rows[1..], weight), weight, db);
    }
  }

  ghost predicate DistinctKeys<T>(rows: seq<Keyed<T>>) {
    forall i, j :: 0 <= i < j < |rows| ==> rows[i].id != rows[j].id
  }

  lemma SortedCons<T>(x: Keyed<T>, rows: seq<Keyed<T>>, weight: string -> real)
    requires Sorted(rows, weight) && forall y :: y in rows ==> Before(x, y, weight)
    ensures Sorted([x] + rows, weight)
  {
    var all := [x] + rows;
    forall i, j | 0 <= i < j < |all| ensures Before(all[i], all[j], weight) {
      assert all[j] == rows[j - 1] && rows[j - 1] in rows;
      assert i > 0 ==> all[i] == rows[i - 1];
    }
  }

  lemma SortedTail<T>(rows: seq<Keyed<T>>, weight: string -> real)
    requires Sorted(rows, weight) && rows != []
    ensures Sorted(rows[1..], weight) && forall y :: y in rows[1..] ==> Before(rows[0], y, weight)
    ensures rows == [rows[0]] + rows[1..]
  {
    forall y | y in rows[1..] ensures Before(rows[0], y, weight) {
      var i :| 0 <= i < |rows| - 1 && rows[1..][i] == y;
      assert rows[i + 1] == y;
    }
  }

  lemma BeforeChains<T>(x: Keyed<T>, y: Keyed<T>, z: Keyed<T>, weight: string -> real)
    ensures Before(x, y, weight) && Before(y, z, weight) ==> Before(x, z, weight)
    ensures x.id != y.id ==> Before(x, y, weight) || Before(y, x, weight)
    ensures !(Before(x, y, weight) && Before(y, x, weight))
  {
  }

  lemma {:induction false} InsertRows<T>(x: Keyed<T>, rows: seq<Keyed<T>>, weight: string -> real)
    ensures multiset(Insert(x, rows, weight)) == multiset(rows) + multiset{x}
    decreases |rows|
  {
    if rows != [] && !Before(x, rows[0], weight) {
      InsertRows(x, rows[1..], weight);
      assert rows == [rows[0]] + rows[1..];
    }
  }

  lemma {:induction false} InsertSorts<T>(x: Keyed<T>, rows: seq<Keyed<T>>, weight: string -> real)
    requires Sorted(rows, weight) && forall y :: y in rows ==> y.id != x.id
    ensures Sorted(Insert(x, rows, weight), weight)
    decreases |rows|
  {
    if rows != [] {
      SortedTail(rows, weight);
      if Before(x, rows[0], weight) {
        forall y | y in rows ensures Before(x, y, weight) {
          BeforeChains(x, rows[0], y, weight);
        }
        SortedCons(x, rows, weight);
      } else {
        assert rows[0] in rows;
        InsertSorts(x, rows[1..], weight);
        InsertRows(x, rows[1..], weight);
        var rest := Insert(x, rows[1..], weight);
        forall y | y in rest ensures Before(rows[0], y, weight) {
          assert y in multiset(rest);
          BeforeChains(x, rows[0], x, weight);
        }
        SortedCons(rows[0], rest, weight);
      }
    }
  }

  lemma {:induction false} SortSorts<T>(rows: seq<Keyed<T>>, weight: string -> real)
    requires DistinctKeys(rows)
    ensures Sorted(Sort(rows, weight), weight) && multiset(Sort(rows, weight)) == multiset(rows)
    decreases |rows|
  {
    if rows != [] {
      SortSorts(rows[1..], weight);
      var rest := Sort(rows[1..], weight);
      forall y | y in rest ensures y.id != rows[0].id {
        assert y in multiset(rest);
        assert y in multiset(rows[1..]);
      }
      InsertSorts(rows[0], rest, weight);
      InsertRows(rows[0], rest, weight);
      assert rows == [rows[0]] + rows[1..];
    }
  }

  /** Nothing of a sorted sequence comes before its head. */
  lemma HeadFirst<T>(xs: seq<Keyed<T>>, y: Keyed<T>, weight: string -> real)
    requires Sorted(xs, weight) && xs != [] && y in xs
    ensures y == xs[0] || Before(xs[0], y, weight)
  {
    var i :| 0 <= i < |xs| && xs[i] == y;
    assert i > 0 ==> Before(xs[0], xs[i], weight);
  }

  lemma SameHead<T>(xs: seq<Keyed<T>>, ys: seq<Keyed<T>>, weight: string -> real)
    requires Sorted(xs, weight) && Sorted(ys, weight) && multiset(xs) == multiset(ys) && xs != [] && ys != []
    ensures xs[0] == ys[0]
  {
    assert xs[0] in multiset(ys) && ys[0] in multiset(xs);
    HeadFirst(xs, ys[0], weight);
    HeadFirst(ys, xs[0], weight);
    BeforeChains(xs[0], ys[0], xs[0], weight);
  }

  lemma TailMultiset<T>(xs: seq<T>)
    requires xs != []
    ensures multiset(xs[1..]) == multiset(xs) - multiset{xs[0]}
  {
    assert xs == [xs[0]] + xs[1..];
  }

  lemma {:induction false} SortedIsUnique<T>(xs: seq<Keyed<T>>, ys: seq<Keyed<T>>, weight: string -> real)
    requires Sorted(xs, weight) && Sorted(ys, weight) && multiset(xs) == multiset(ys)
    ensures xs == ys
    decreases |xs|
  {
    assert |multiset(xs)| == |xs| && |multiset(ys)| == |ys|;
    if xs != [] {
      SameHead(xs, ys, weight);
      TailMultiset(xs);
      TailMultiset(ys);
      SortedIsUnique(xs[1..], ys[1..], weight);
      assert xs == [xs[0]] + xs[1..] && ys == [ys[0]] + ys[1..];
    }
  }

  /** The order is total: whichever way the rows are ordered, there is one answer. */
  lemma OrderIsForced<T>(rows: seq<Keyed<T>>, answer: seq<Keyed<T>>, weight: string -> real)
    requires DistinctKeys(rows)
    ensures answer == Sort(rows, weight) <==> Sorted(answer, weight) && multiset(answer) == multiset(rows)
  {
    SortSorts(rows, weight);
    if Sorted(answer, weight) && multiset(answer) == multiset(rows) {
      SortedIsUnique(answer, Sort(rows, weight), weight);
    }
  }

  lemma {:induction false} SortOfSorted<T>(rows: seq<Keyed<T>>, weight: string -> real)
    requires Sorted(rows, weight)
    ensures Sort(rows, weight) == rows
    decreases |rows|
  {
    if rows != [] {
      SortOfSorted(rows[1..], weight);
      assert rows == [rows[0]] + rows[1..];
    }
  }

  // ---- The rewrite -------------------------------------------------------------------------

  lemma {:induction false} PageCallsKeys(calls: seq<Call>, db: Database)
    requires DistinctIds(calls)
    ensures DistinctKeys(PageCalls(calls, db))
    ensures forall k :: k in PageCalls(calls, db) ==> k.value in calls && k.id == k.value.id
    decreases |calls|
  {
    if calls != [] {
      PageCallsKeys(calls[1..], db);
      assert calls == [calls[0]] + calls[1..];
    }
  }

  lemma CutMirrors(calls: seq<Keyed<Call>>, rows: seq<Keyed<Row>>, limit: nat, offset: nat, weight: string -> real, db: Database)
    requires AllMirror(calls, rows, db) && Sorted(rows, weight)
    ensures AllMirror(Cut(calls, limit, offset), Cut(rows, limit, offset), db)
    ensures Sorted(Cut(rows, limit, offset), weight)
  {
    var page, answer := Cut(calls, limit, offset), Cut(rows, limit, offset);
    assert |page| == |answer|;
    forall i | 0 <= i < |page| ensures Mirrors(page[i], answer[i], db) {
      assert page[i] == calls[offset + i] && answer[i] == rows[offset + i];
    }
    forall i, j | 0 <= i < j < |answer| ensures Before(answer[i], answer[j], weight) {
      assert answer[i] == rows[offset + i] && answer[j] == rows[offset + j];
    }
  }

  lemma PageHasItsCalls(page: seq<Keyed<Call>>)
    ensures forall k :: 0 <= k < |page| ==> FindCall(Values(page), page[k].value.id).Some?
  {
    var calls := Values(page);
    forall k | 0 <= k < |page| ensures FindCall(calls, page[k].value.id).Some? {
      assert calls[k] == page[k].value;
      CallFound(calls, k);
    }
  }

  lemma MirroredKeys(calls: seq<Keyed<Call>>, rows: seq<Keyed<Row>>, db: Database)
    requires AllMirror(calls, rows, db) && DistinctKeys(calls)
    ensures DistinctKeys(rows)
  {
    forall i, j | 0 <= i < j < |rows| ensures rows[i].id != rows[j].id {
      assert Mirrors(calls[i], rows[i], db) && Mirrors(calls[j], rows[j], db);
    }
  }

  /** Cut then enrich and order again, against order the enriched rows then cut. */
  lemma CutThenEnrich(calls: seq<Keyed<Call>>, rows: seq<Keyed<Row>>, weight: string -> real, limit: nat, offset: nat, db: Database)
    requires KeysUnique(db) && AllMirror(calls, rows, db) && DistinctKeys(rows)
    ensures var page := Cut(Sort(calls, weight), limit, offset);
      Sort(EnrichedRows(page, db, Values(page)), weight) == Cut(Sort(rows, weight), limit, offset)
  {
    SortMirrors(calls, rows, weight, db);
    SortSorts(rows, weight);
    CutMirrors(Sort(calls, weight), Sort(rows, weight), limit, offset, weight, db);
    var page, answer := Cut(Sort(calls, weight), limit, offset), Cut(Sort(rows, weight), limit, offset);
    PageHasItsCalls(page);
    EnrichedMirror(page, answer, db, Values(page));
    SortOfSorted(answer, weight);
  }

  /** The calls that pass the filter and the rows the legacy join makes of them, side by side. */
  lemma ScopeMirrors(db: Database, filter: Call -> bool)
    requires KeysUnique(db)
    ensures var scope := Scope(db.calls, filter);
      AllMirror(PageCalls(scope, db), LegacyRows(scope, db, scope), db) && DistinctKeys(LegacyRows(scope, db, scope))
  {
    var scope := Scope(db.calls, filter);
    ScopeKeepsKeys(db.calls, filter);
    forall c | c in scope ensures FindCall(scope, c.id) == Some(c) {
      var i :| 0 <= i < |scope| && scope[i] == c;
      CallFound(scope, i);
    }
    EligibleMirrorLegacy(scope, db, scope);
    PageCallsKeys(scope, db);
    MirroredKeys(PageCalls(scope, db), LegacyRows(scope, db, scope), db);
  }

  /**
   The rewrite is exact: for every table contents with unique ids, every filter,
   collation, limit and offset, cutting the page before enriching it returns the
   rows of the legacy statement, in its order.
   */
  lemma PageFirstEqualsLegacy(db: Database, filter: Call -> bool, weight: string -> real, limit: nat, offset: nat)
    requires KeysUnique(db)
    ensures CategoryPage(db, filter, weight, limit, offset) == LegacyPage(db, filter, weight, limit, offset)
  {
    var scope := Scope(db.calls, filter);
    ScopeMirrors(db, filter);
    CutThenEnrich(PageCalls(scope, db), LegacyRows(scope, db, scope), weight, limit, offset, db);
  }

  // ---- What a row shows and where it stands, in terms of the tables ----------------------------

  /** Completed, classified evidence of the call: on one of its final recordings, with a completed transcript of that recording. */
  predicate Evidence(a: Analysis, db: Database, call: nat) {
    var artifact := FindArtifact(db.artifacts, a.artifact);
    a.done && artifact.Some? && artifact.value.call == call && artifact.value.recording && (call, artifact.value.id) in db.transcripts
  }

  lemma {:induction false} MediaMembers(analyses: seq<Analysis>, db: Database, call: nat)
    ensures forall e :: e in MediaCandidates(analyses, db, call) ==>
      e == Entry(call, e.value.createdAt, e.value.id, e.value) && e.value in analyses && Evidence(e.value, db, call)
    ensures forall a :: a in analyses && Evidence(a, db, call) ==> Entry(call, a.createdAt, a.id, a) in MediaCandidates(analyses, db, call)
    decreases |analyses|
  {
    if analyses != [] {
      MediaMembers(analyses[..|analyses| - 1], db, call);
      assert analyses == analyses[..|analyses| - 1] + [analyses[|analyses| - 1]];
    }
  }

  lemma {:induction false} ReferenceMembers(references: seq<Reference>, call: nat)
    ensures forall e :: e in ReferenceCandidates(references, call) ==>
      e == Entry(call, 0 - e.value.id, 0, e.value) && e.value in references && e.value.call == call && e.value.isTask
    ensures forall r :: r in references && r.call == call && r.isTask ==>
      Entry(call, 0 - r.id, 0, r) in ReferenceCandidates(references, call)
    decreases |references|
  {
    if references != [] {
      ReferenceMembers(references[..|references| - 1], call);
      assert references == references[..|references| - 1] + [references[|references| - 1]];
    }
  }

  /** A finding of the call's latest audit run that carries the call's own category. */
  predicate OwnFinding(f: Finding, c: Call) { f.call == c.id && c.latestRun == Some(f.run) && c.category == Some(f.code) }

  lemma {:induction false} FindingMembers(findings: seq<Finding>, c: Call)
    ensures forall e :: e in FindingCandidates(findings, c) ==>
      e == Entry(c.id, e.value.createdAt, e.value.id, e.value) && e.value in findings && OwnFinding(e.value, c)
    ensures forall f :: f in findings && OwnFinding(f, c) ==> Entry(c.id, f.createdAt, f.id, f) in FindingCandidates(findings, c)
    decreases |findings|
  {
    if findings != [] {
      FindingMembers(findings[..|findings| - 1], c);
      assert findings == findings[..|findings| - 1] + [findings[|findings| - 1]];
    }
  }

  lemma FirstBeats<T>(rows: seq<Entry<T>>, x: Entry<T>)
    requires x in rows
    ensures First(rows).Some? && First(rows).value in rows && !Ahead(x, First(rows).value)
  {
    FirstIsAhead(rows);
    var i :| 0 <= i < |rows| && rows[i] == x;
  }

  /** A row shows the newest evidence, the oldest task reference or else the call's key, and the newest own finding. */
  lemma RowColumns(c: Call, db: Database)
    requires First(MediaCandidates(db.analyses, db, c.id)).Some?
    ensures var row := RowOf(c, db).value;
      && row.media in db.analyses && Evidence(row.media, db, c.id)
      && (forall a :: a in db.analyses && Evidence(a, db, c.id) ==>
            a.createdAt < row.media.createdAt || (a.createdAt == row.media.createdAt && a.id <= row.media.id))
      && row.startedAt == c.startedAt && row.endedAt == c.endedAt && row.period == c.period && row.category == c.category
    ensures ShownReference(RowOf(c, db).value.reference, c, db)
    ensures var finding := RowOf(c, db).value.finding;
      && (finding == None <==> forall f :: f in db.findings ==> !OwnFinding(f, c))
      && (finding.Some? ==>
            && finding.value in db.findings && OwnFinding(finding.value, c)
            && forall f :: f in db.findings && OwnFinding(f, c) ==>
                 f.createdAt < finding.value.createdAt || (f.createdAt == finding.value.createdAt && f.id <= finding.value.id))
  {
    MediaColumns(c, db);
    ReferenceColumns(c, db);
    FindingColumns(c, db);
  }

  predicate ShownReference(shown: string, c: Call, db: Database) {
    if forall r :: r in db.references ==> !(r.call == c.id && r.isTask) then shown == c.key
    else exists r :: r in db.references && r.call == c.id && r.isTask && shown == r.external
           && forall other :: other in db.references && other.call == c.id && other.isTask ==> r.id <= other.id
  }

  lemma MediaColumns(c: Call, db: Database)
    requires First(MediaCandidates(db.analyses, db, c.id)).Some?
    ensures var media := First(MediaCandidates(db.analyses, db, c.id)).value.value;
      && media in db.analyses && Evidence(media, db, c.id)
      && (forall a :: a in db.analyses && Evidence(a, db, c.id) ==>
            a.createdAt < media.createdAt || (a.createdAt == media.createdAt && a.id <= media.id))
  {
    var rows := MediaCandidates(db.analyses, db, c.id);
    MediaMembers(db.analyses, db, c.id);
    FirstSome(rows);
    forall a | a in db.analyses && Evidence(a, db, c.id)
      ensures a.createdAt < First(rows).value.value.createdAt
              || (a.createdAt == First(rows).value.value.createdAt && a.id <= First(rows).value.value.id)
    {
      FirstBeats(rows, Entry(c.id, a.createdAt, a.id, a));
    }
  }

  lemma ReferenceColumns(c: Call, db: Database)
    ensures ShownReference(TaskReference(c, db), c, db)
  {
    var rows := ReferenceCandidates(db.references, c.id);
    ReferenceMembers(db.references, c.id);
    FirstSome(rows);
    if rows != [] {
      var first := First(rows).value.value;
      forall other | other in db.references && other.call == c.id && other.isTask ensures first.id <= other.id {
        FirstBeats(rows, Entry(c.id, 0 - other.id, 0, other));
      }
      assert first in db.references && first.call == c.id && first.isTask && TaskReference(c, db) == first.external;
    } else {
      forall r | r in db.references ensures !(r.call == c.id && r.isTask) {
        assert r.call == c.id && r.isTask ==> Entry(c.id, 0 - r.id, 0, r) in rows;
      }
    }
  }

  lemma FindingColumns(c: Call, db: Database)
    ensures var latest := First(FindingCandidates(db.findings, c));
      && (latest == None <==> forall f :: f in db.findings ==> !OwnFinding(f, c))
      && (latest.Some? ==>
            && latest.value.value in db.findings && OwnFinding(latest.value.value, c)
            && forall f :: f in db.findings && OwnFinding(f, c) ==>
                 f.createdAt < latest.value.value.createdAt
                 || (f.createdAt == latest.value.value.createdAt && f.id <= latest.value.value.id))
  {
    var rows := FindingCandidates(db.findings, c);
    FindingMembers(db.findings, c);
    FirstSome(rows);
    forall f | f in db.findings && OwnFinding(f, c)
      ensures First(rows).Some?
      ensures f.createdAt < First(rows).value.value.createdAt
              || (f.createdAt == First(rows).value.value.createdAt && f.id <= First(rows).value.value.id)
    {
      FirstBeats(rows, Entry(c.id, f.createdAt, f.id, f));
    }
    if rows != [] {
      assert First(rows).value in rows;
    }
  }

  /** What one cost row asserts of one kind. */
  function Quantity(cost: Cost, call: nat, sku: Sku): Option<int> {
    if cost.call == call && cost.isFinal && cost.sku == sku
    then (match sku case BilledMinutes => cost.minutes case BilledAmount => cost.amount case OtherSku => None) else None
  }

  /** The greatest quantity of one kind, NULL when no row has one. */
  predicate Greatest(costs: seq<Cost>, call: nat, sku: Sku, max: Option<int>) {
    && (forall i :: 0 <= i < |costs| && Quantity(costs[i], call, sku).Some? ==>
          max.Some? && Quantity(costs[i], call, sku).value <= max.value)
    && (max.Some? ==> exists i :: 0 <= i < |costs| && Quantity(costs[i], call, sku) == max)
  }

  lemma GreatestGrows(costs: seq<Cost>, call: nat, sku: Sku, before: Option<int>)
    requires costs != [] && Greatest(costs[..|costs| - 1], call, sku, before)
    ensures Greatest(costs, call, sku, MaxOf(before, Quantity(costs[|costs| - 1], call, sku)))
  {
    var n, q := |costs| - 1, Quantity(costs[|costs| - 1], call, sku);
    var max := MaxOf(before, q);
    assert forall i :: 0 <= i < n ==> costs[..n][i] == costs[i];
    forall i | 0 <= i < |costs| && Quantity(costs[i], call, sku).Some?
      ensures max.Some? && Quantity(costs[i], call, sku).value <= max.value
    {
      if i < n {
        assert Quantity(costs[..n][i], call, sku).Some?;
      }
    }
    if max.Some? {
      if max == q {
        assert Quantity(costs[n], call, sku) == max;
      } else {
        var i :| 0 <= i < n && Quantity(costs[..n][i], call, sku) == before;
        assert Quantity(costs[i], call, sku) == max;
      }
    }
  }

  function MinutesOf(v: Option<Vendor>): Option<int> { if v.None? then None else v.value.minutes }

  function AmountOf(v: Option<Vendor>): Option<int> { if v.None? then None else v.value.amount }

  lemma VendorStep(costs: seq<Cost>, call: nat)
    requires costs != []
    ensures var before, last := VendorOf(costs[..|costs| - 1], call), costs[|costs| - 1];
      && MinutesOf(VendorOf(costs, call)) == MaxOf(MinutesOf(before), Quantity(last, call, BilledMinutes))
      && AmountOf(VendorOf(costs, call)) == MaxOf(AmountOf(before), Quantity(last, call, BilledAmount))
  {
  }

  /** The vendor columns are the greatest final assertion of each kind, over the call's own rows. */
  lemma {:induction false} VendorColumns(costs: seq<Cost>, call: nat)
    ensures Greatest(costs, call, BilledMinutes, MinutesOf(VendorOf(costs, call)))
    ensures Greatest(costs, call, BilledAmount, AmountOf(VendorOf(costs, call)))
    decreases |costs|
  {
    if costs != [] {
      var before := VendorOf(costs[..|costs| - 1], call);
      VendorColumns(costs[..|costs| - 1], call);
      VendorStep(costs, call);
      GreatestGrows(costs, call, BilledMinutes, MinutesOf(before));
      GreatestGrows(costs, call, BilledAmount, AmountOf(before));
    }
  }

  /** A call has vendor columns exactly when some final cost row asserts one of the two. */
  lemma {:induction false} VendorPresent(costs: seq<Cost>, call: nat)
    ensures VendorOf(costs, call) == None <==>
      forall i :: 0 <= i < |costs| ==> !(costs[i].call == call && costs[i].isFinal && costs[i].sku != OtherSku)
    decreases |costs|
  {
    if costs != [] {
      var n := |costs| - 1;
      VendorPresent(costs[..n], call);
      assert forall i :: 0 <= i < n ==> costs[..n][i] == costs[i];
    }
  }

  /** Newest start first and unknown starts last; among equal starts by the collation's weight of the reference. */
  predicate ReadsBefore(x: Row, y: Row, weight: string -> real) {
    && (x.startedAt == None ==> y.startedAt == None)
    && (x.startedAt.Some? && y.startedAt.Some? ==> x.startedAt.value >= y.startedAt.value)
    && (x.startedAt == y.startedAt ==> weight(x.reference) <= weight(y.reference))
  }

  lemma {:induction false} LegacyKeys(calls: seq<Keyed<Call>>, rows: seq<Keyed<Row>>, db: Database)
    requires AllMirror(calls, rows, db)
    ensures forall i :: 0 <= i < |rows| ==> rows[i].startedAt == rows[i].value.startedAt && rows[i].reference == rows[i].value.reference
  {
    forall i | 0 <= i < |rows| ensures rows[i].startedAt == rows[i].value.startedAt && rows[i].reference == rows[i].value.reference {
      assert Mirrors(calls[i], rows[i], db);
    }
  }

  predicate InReadingOrder(page: seq<Row>, weight: string -> real) {
    forall i, j :: 0 <= i < j < |page| ==> ReadsBefore(page[i], page[j], weight)
  }

  lemma LegacyReadsInOrder(db: Database, filter: Call -> bool, weight: string -> real, limit: nat, offset: nat)
    requires KeysUnique(db)
    ensures InReadingOrder(LegacyPage(db, filter, weight, limit, offset), weight)
  {
    var scope := Scope(db.calls, filter);
    ScopeMirrors(db, filter);
    SortedRowsRead(PageCalls(scope, db), LegacyRows(scope, db, scope), weight, limit, offset, db);
  }

  /** A page reads newest first. */
  lemma PageReadsInOrder(db: Database, filter: Call -> bool, weight: string -> real, limit: nat, offset: nat)
    requires KeysUnique(db)
    ensures InReadingOrder(CategoryPage(db, filter, weight, limit, offset), weight)
  {
    LegacyReadsInOrder(db, filter, weight, limit, offset);
    PageFirstEqualsLegacy(db, filter, weight, limit, offset);
  }

  lemma SortedRowsRead(calls: seq<Keyed<Call>>, rows: seq<Keyed<Row>>, weight: string -> real, limit: nat, offset: nat, db: Database)
    requires AllMirror(calls, rows, db) && DistinctKeys(rows)
    ensures InReadingOrder(Values(Cut(Sort(rows, weight), limit, offset)), weight)
  {
    SortMirrors(calls, rows, weight, db);
    SortSorts(rows, weight);
    CutMirrors(Sort(calls, weight), Sort(rows, weight), limit, offset, weight, db);
    var answer := Cut(Sort(rows, weight), limit, offset);
    LegacyKeys(Cut(Sort(calls, weight), limit, offset), answer, db);
    forall i, j | 0 <= i < j < |answer| ensures ReadsBefore(answer[i].value, answer[j].value, weight) {
      assert Before(answer[i], answer[j], weight);
    }
  }

  /** The window: as many rows as asked for while there are any, from the offset on. */
  lemma CutIs<T>(rows: seq<T>, limit: nat, offset: nat)
    ensures |Cut(rows, limit, offset)| == if offset >= |rows| then 0 else if |rows| - offset < limit then |rows| - offset else limit
    ensures forall i :: 0 <= i < |Cut(rows, limit, offset)| ==> Cut(rows, limit, offset)[i] == rows[offset + i]
  {
  }

  /** Two windows side by side are one window: adjacent pages neither overlap nor skip a row. */
  lemma CutsTile<T>(rows: seq<T>, first: nat, second: nat, offset: nat)
    ensures Cut(rows, first, offset) + Cut(rows, second, offset + first) == Cut(rows, first + second, offset)
  {
    CutIs(rows, first, offset);
    CutIs(rows, second, offset + first);
    CutIs(rows, first + second, offset);
  }

  lemma ValuesConcat<T>(a: seq<Keyed<T>>, b: seq<Keyed<T>>)
    ensures Values(a + b) == Values(a) + Values(b)
  {
  }

  /** Every page is a window of one list, whatever its limit and offset. */
  ghost predicate CutsFrom(db: Database, filter: Call -> bool, weight: string -> real, rows: seq<Keyed<Row>>, limit: nat, offset: nat) {
    CategoryPage(db, filter, weight, limit, offset) == Values(Cut(rows, limit, offset))
  }

  lemma PagesCutOneList(db: Database, filter: Call -> bool, weight: string -> real) returns (rows: seq<Keyed<Row>>)
    requires KeysUnique(db)
    ensures forall limit: nat, offset: nat :: CutsFrom(db, filter, weight, rows, limit, offset)
  {
    var scope := Scope(db.calls, filter);
    rows := Sort(LegacyRows(scope, db, scope), weight);
    forall limit: nat, offset: nat ensures CutsFrom(db, filter, weight, rows, limit, offset) {
      PageFirstEqualsLegacy(db, filter, weight, limit, offset);
    }
  }

  /** A page never exceeds its limit, and adjacent pages make up the larger page. */
  lemma PagesTile(db: Database, filter: Call -> bool, weight: string -> real, first: nat, second: nat, offset: nat)
    requires KeysUnique(db)
    ensures |CategoryPage(db, filter, weight, first, offset)| <= first
    ensures CategoryPage(db, filter, weight, first, offset) + CategoryPage(db, filter, weight, second, offset + first)
         == CategoryPage(db, filter, weight, first + second, offset)
  {
    var rows := PagesCutOneList(db, filter, weight);
    assert CutsFrom(db, filter, weight, rows, first, offset);
    assert CutsFrom(db, filter, weight, rows, second, offset + first);
    assert CutsFrom(db, filter, weight, rows, first + second, offset);
    CutIs(rows, first, offset);
    CutsTile(rows, first, second, offset);
    ValuesConcat(Cut(rows, first, offset), Cut(rows, second, offset + first));
  }
}
