/**
 Late-recording correction batches: evidence is attached once, audited, priced
 and finalised into an immutable month correction.

 Batches and items are numbered in the order they are inserted, which stands for
 their generated ids. Commit, claim, prepare and finalize are one transaction
 each; one that fails leaves the store as it found it. Settling an item is two
 statements without a transaction: the item is moved, then its batch is
 recounted. Any other step may come between them, and a worker may die there.
 */
module LateRecording {
  import opened Options

  type Time = int

  datatype Artifact = Artifact(call: nat, finalRecording: bool, url: Option<string>, sha: Option<string>, attempts: nat)

  datatype BatchStatus = BatchAccepted | Running | BatchCompleted | CompletedWithFailures

  datatype Batch = Batch(
    key: string, digest: string, month: string, rateCard: string, status: BatchStatus,
    accepted: nat, corrected: nat, failed: nat,
    baseline: Option<int>, startedAt: Option<Time>, completedAt: Option<Time>)

  datatype ItemState = Accepted | Auditing | Corrected | Failed

  datatype Item = Item(
    batch: nat, call: nat, artifact: string, url: string, row: int, previousAmount: Option<int>, revisedAmount: Option<int>,
    state: ItemState, attempts: nat, completedAt: Option<Time>)

  datatype Correction = Correction(
    month: string, previousTotal: int, revisedTotal: int, delta: int,
    actualPaid: Option<int>, variance: Option<int>, corrected: nat, failed: nat, completedAt: Time)

  datatype Store = Store(
    artifacts: map<string, Artifact>, batches: seq<Batch>, items: seq<Item>, corrections: map<nat, Correction>)

  /** A row the eligibility rule accepted: the artifact it resolved to and the URL to attach. */
  datatype UploadRow = UploadRow(row: int, call: nat, artifact: string, url: string, previousAmount: Option<int>)

  datatype Upload = Upload(key: string, digest: string, month: string, rateCard: Option<string>, accepted: seq<UploadRow>)

  // ---- Commit -------------------------------------------------------------------

  predicate CanAttach(artifacts: map<string, Artifact>, r: UploadRow) {
    && r.artifact in artifacts
    && artifacts[r.artifact].call == r.call
    && artifacts[r.artifact].finalRecording
    && artifacts[r.artifact].url.None?
    && artifacts[r.artifact].sha.None?
  }

  function Attach(artifacts: map<string, Artifact>, r: UploadRow): map<string, Artifact>
    requires CanAttach(artifacts, r)
  {
    artifacts[r.artifact := artifacts[r.artifact].(url := Some(r.url), attempts := 0)]
  }

  /** The guarded updates in upload order: the artifacts afterwards and the rows that won. */
  function AttachAll(artifacts: map<string, Artifact>, rows: seq<UploadRow>): (map<string, Artifact>, seq<UploadRow>)
    decreases |rows|
  {
    if rows == [] then (artifacts, [])
    else
      var (m, won) := AttachAll(artifacts, rows[..|rows| - 1]);
      var r := rows[|rows| - 1];
      if CanAttach(m, r) then (Attach(m, r), won + [r]) else (m, won)
  }

  predicate Live(state: ItemState) {
    state.Accepted? || state.Auditing?
  }

  /** The two unique keys of the item table: one item per batch and call, one live item per call. */
  predicate ViolatesItemKeys(items: seq<Item>, batch: nat, call: nat) {
    exists i :: 0 <= i < |items| && items[i].call == call && (items[i].batch == batch || Live(items[i].state))
  }

  function NewItem(batch: nat, r: UploadRow): Item {
    Item(batch, r.call, r.artifact, r.url, r.row, r.previousAmount, None, Accepted, 0, None)
  }

  function InsertAll(items: seq<Item>, batch: nat, rows: seq<UploadRow>): Option<seq<Item>>
    decreases |rows|
  {
    if rows == [] then Some(items)
    else match InsertAll(items, batch, rows[..|rows| - 1])
      case None => None
      case Some(sofar) =>
        var r := rows[|rows| - 1];
        if ViolatesItemKeys(sofar, batch, r.call) then None else Some(sofar + [NewItem(batch, r)])
  }

  predicate KeyTaken(batches: seq<Batch>, key: string) {
    exists b :: 0 <= b < |batches| && batches[b].key == key
  }

  function CommitUpload(s: Store, u: Upload): Store {
    if KeyTaken(s.batches, u.key) || u.accepted == [] || u.rateCard.None? then s
    else
      var (artifacts, won) := AttachAll(s.artifacts, u.accepted);
      if won == [] then s
      else match InsertAll(s.items, |s.batches|, won)
        case None => s
        case Some(items) =>
          var b := Batch(u.key, u.digest, u.month, u.rateCard.value, BatchAccepted, |won|, 0, 0, None, None, None);
          Store(artifacts, s.batches + [b], items, s.corrections)
  }

  // ---- Claim, settle, prepare, finalise -------------------------------------------

  function ClaimItem(items: seq<Item>, i: nat): seq<Item> {
    if i < |items| && items[i].state.Accepted? && items[i].attempts == 0
    then items[i := items[i].(state := Auditing, attempts := 1)] else items
  }

  /** The guarded claim over whatever rows the candidate query returned, in its order. */
  function ClaimItems(items: seq<Item>, selected: seq<nat>): seq<Item>
    decreases |selected|
  {
    if selected == [] then items
    else ClaimItem(ClaimItems(items, selected[..|selected| - 1]), selected[|selected| - 1])
  }

  function StartIfAccepted(b: Batch, at: Time): Batch {
    if b.status.BatchAccepted?
    then b.(status := Running, startedAt := if b.startedAt.Some? then b.startedAt else Some(at)) else b
  }

  function Claim(s: Store, batch: nat, selected: seq<nat>, at: Time): Store {
    s.(items := ClaimItems(s.items, selected),
    batches := if batch < |s.batches| then s.batches[batch := StartIfAccepted(s.batches[batch], at)] else s.batches)
  }

  function Count(items: seq<Item>, batch: nat, state: ItemState): nat
    decreases |items|
  {
    if items == [] then 0
    else
      var last := items[|items| - 1];
      Count(items[..|items| - 1], batch, state) + if last.batch == batch && last.state == state then 1 else 0
  }

  predicate Settleable(s: Store, batch: nat, item: nat) {
    item < |s.items| && s.items[item].batch == batch && s.items[item].state.Auditing? && batch < |s.batches|
  }

  /** The first statement: one item under audit reaches its end state. */
  function UpdateItem(s: Store, batch: nat, item: nat, corrected: bool, revised: Option<int>, at: Time): Store {
    if !Settleable(s, batch, item) then s
    else
      var it := s.items[item];
      s.(items := s.items[item := it.(state := if corrected then Corrected else Failed, completedAt := Some(at),
                          revisedAmount := if revised.Some? then revised else it.revisedAmount)])
  }

  /** The second statement: the batch takes its counts from its items and, unguarded, is running again. */
  function Recount(s: Store, batch: nat): Store {
    if batch >= |s.batches| then s
    else s.(batches := s.batches[batch := s.batches[batch].(
              corrected := Count(s.items, batch, Corrected), failed := Count(s.items, batch, Failed),
              status := Running, completedAt := None)])
  }

  /** Both statements, when nothing comes between them. */
  function Settle(s: Store, batch: nat, item: nat, corrected: bool, revised: Option<int>, at: Time): Store {
    if !Settleable(s, batch, item) then s else Recount(UpdateItem(s, batch, item, corrected, revised, at), batch)
  }

  function Prepare(s: Store, batch: nat, monthTotal: int, at: Time): Store {
    if batch >= |s.batches| then s
    else
      var b := s.batches[batch];
      if b.baseline.None? then
        s.(batches := s.batches[batch := b.(baseline := Some(monthTotal), status := Running,
           startedAt := if b.startedAt.Some? then b.startedAt else Some(at))])
      else s.(batches := s.batches[batch := StartIfAccepted(b, at)])
  }

  function Later(a: Option<Time>, b: Option<Time>): Option<Time> {
    if a.None? then b else if b.None? then a else Some(if a.value < b.value then b.value else a.value)
  }

  function LastCompletion(items: seq<Item>, batch: nat): Option<Time>
    decreases |items|
  {
    if items == [] then None
    else
      var last := items[|items| - 1];
      var before := LastCompletion(items[..|items| - 1], batch);
      if last.batch == batch then Later(before, last.completedAt) else before
  }

  datatype Finalization = Finalization(
    month: string, revisedTotal: int, actualPaid: Option<int>, variance: Option<int>)

  datatype FinalOutcome = Recorded | Replayed | InFlight | Conflict

  function LiveCount(s: Store, batch: nat): nat {
    Count(s.items, batch, Accepted) + Count(s.items, batch, Auditing)
  }

  predicate ReadyToFinalize(s: Store, batch: nat, f: Finalization) {
    batch < |s.batches| && s.batches[batch].month == f.month && s.batches[batch].baseline.Some?
  }

  function CorrectionFor(s: Store, batch: nat, f: Finalization, completedAt: Time): Correction
    requires ReadyToFinalize(s, batch, f)
  {
    var previous := s.batches[batch].baseline.value;
    Correction(f.month, previous, f.revisedTotal, f.revisedTotal - previous, f.actualPaid, f.variance,
               Count(s.items, batch, Corrected), Count(s.items, batch, Failed), completedAt)
  }

  function Finalize(s: Store, batch: nat, f: Finalization): (FinalOutcome, Store) {
    if !ReadyToFinalize(s, batch, f) then (Conflict, s)
    else if LiveCount(s, batch) > 0 then (InFlight, s)
    else
      var b, corrected, failed := s.batches[batch], Count(s.items, batch, Corrected), Count(s.items, batch, Failed);
      var completedAt := LastCompletion(s.items, batch);
      if corrected + failed != b.accepted || completedAt.None? then (Conflict, s)
      else
        var c := CorrectionFor(s, batch, f, completedAt.value);
        if batch in s.corrections && s.corrections[batch] != c then (Conflict, s)
        else
          (if batch in s.corrections then Replayed else Recorded,
           s.(corrections := s.corrections[batch := c],
              batches := s.batches[batch := b.(corrected := corrected, failed := failed, completedAt := completedAt,
                                   status := if failed > 0 then CompletedWithFailures else BatchCompleted)]))
  }

  // ---- Runs -----------------------------------------------------------------------

  /**
   `recounts` holds, for each worker between the two statements of a settlement, the
   batch it has yet to recount. `lost` records the batches whose recount died with a
   worker and that no recount has repaired since; it is history kept by the model.
   */
  datatype State = State(store: Store, recounts: map<nat, nat>, lost: set<nat>)

  datatype Step =
    | CommitStep(upload: Upload)
    | ClaimStep(batch: nat, selected: seq<nat>, at: Time)
    | SettleStep(worker: nat, batch: nat, item: nat, corrected: bool, revised: Option<int>, at: Time)
    | RecountStep(worker: nat)
    | CrashStep(worker: nat)
    | PrepareStep(batch: nat, monthTotal: int, at: Time)
    | FinalizeStep(batch: nat, request: Finalization)
    // The pipeline around the workflow: it imports artifacts and hashes evidence, and never clears a URL.
    | ImportArtifact(id: string, artifact: Artifact)
    | AuditArtifact(id: string, sha: string, attempts: nat)

  function ApplyPipeline(s: Store, step: Step): Store {
    match step
    case ImportArtifact(id, a) => if id in s.artifacts then s else s.(artifacts := s.artifacts[id := a])
    case AuditArtifact(id, sha, attempts) =>
      if id !in s.artifacts then s
      else s.(artifacts := s.artifacts[id := s.artifacts[id].(
                attempts := attempts, sha := if s.artifacts[id].sha.Some? then s.artifacts[id].sha else Some(sha))])
    case _ => s
  }

  function Apply(st: State, step: Step): State {
    var s := st.store;
    match step
    case CommitStep(u) => st.(store := CommitUpload(s, u))
    case ClaimStep(b, selected, at) => st.(store := Claim(s, b, selected, at))
    case SettleStep(w, b, i, corrected, revised, at) =>
      if w in st.recounts || !Settleable(s, b, i) then st
      else st.(store := UpdateItem(s, b, i, corrected, revised, at), recounts := st.recounts[w := b])
    case RecountStep(w) =>
      if w !in st.recounts then st
      else State(Recount(s, st.recounts[w]), st.recounts - {w}, st.lost - {st.recounts[w]})
    case CrashStep(w) =>
      if w !in st.recounts then st
      else st.(recounts := st.recounts - {w}, lost := st.lost + {st.recounts[w]})
    case PrepareStep(b, total, at) => st.(store := Prepare(s, b, total, at))
    case FinalizeStep(b, f) => st.(store := Finalize(s, b, f).1)
    case _ => st.(store := ApplyPipeline(s, step))
  }

  function Run(st: State, steps: seq<Step>): State
    decreases |steps|
  {
    if steps == [] then st else Apply(Run(st, steps[..|steps| - 1]), steps[|steps| - 1])
  }

  /** The batches whose stored counters may lag behind their items. */
  function Behind(st: State): set<nat> { st.recounts.Values + st.lost }

  // ---- Invariant ------------------------------------------------------------------

  predicate ItemOk(s: Store, i: nat)
    requires i < |s.items|
  {
    var it := s.items[i];
    && it.batch < |s.batches|
    && it.artifact in s.artifacts && s.artifacts[it.artifact].url == Some(it.url)
    && it.attempts == (if it.state.Accepted? then 0 else 1)
    && it.completedAt.Some? == !Live(it.state)
  }

  predicate ItemsOk(s: Store) {
    && (forall i :: 0 <= i < |s.items| ==> ItemOk(s, i))
    && (forall i, j :: 0 <= i < j < |s.items| ==> s.items[i].artifact != s.items[j].artifact)
  }

  function Total(items: seq<Item>, batch: nat): nat {
    Count(items, batch, Accepted) + Count(items, batch, Auditing) + Count(items, batch, Corrected) + Count(items, batch, Failed)
  }

  /** Every accepted row is an item in some state; the stored counters follow the items unless a recount is outstanding. */
  predicate BatchOk(s: Store, b: nat, behind: set<nat>)
    requires b < |s.batches|
  {
    && Total(s.items, b) == s.batches[b].accepted
    && (b !in behind ==> Counted(s, b))
  }

  predicate Counted(s: Store, b: nat)
    requires b < |s.batches|
  {
    s.batches[b].corrected == Count(s.items, b, Corrected) && s.batches[b].failed == Count(s.items, b, Failed)
  }

  /** The row says completed, at the time of the last item. */
  predicate Closed(s: Store, b: nat)
    requires b < |s.batches|
  {
    && s.batches[b].status == (if s.batches[b].failed > 0 then CompletedWithFailures else BatchCompleted)
    && s.batches[b].completedAt == LastCompletion(s.items, b)
  }

  /** The row a late recount leaves. */
  predicate Reopened(s: Store, b: nat)
    requires b < |s.batches|
  {
    s.batches[b].status == Running && s.batches[b].completedAt.None?
  }

  /** A finalised batch: nothing live, its totals those of its correction, its row closed or reopened. */
  predicate Final(s: Store, b: nat)
    requires b in s.corrections
  {
    && b < |s.batches|
    && LiveCount(s, b) == 0 && Counted(s, b) && Total(s.items, b) > 0
    && s.batches[b].baseline == Some(s.corrections[b].previousTotal)
    && s.corrections[b].delta == s.corrections[b].revisedTotal - s.corrections[b].previousTotal
    && s.corrections[b].month == s.batches[b].month
    && s.corrections[b].corrected == s.batches[b].corrected
    && s.corrections[b].failed == s.batches[b].failed
    && LastCompletion(s.items, b) == Some(s.corrections[b].completedAt)
    && (Closed(s, b) || Reopened(s, b))
  }

  predicate Inv(s: Store, behind: set<nat>) {
    && ItemsOk(s)
    && (forall b :: 0 <= b < |s.batches| ==> BatchOk(s, b, behind))
    && (forall b :: b in s.corrections ==> Final(s, b))
  }

  predicate StateInv(st: State) {
    Inv(st.store, Behind(st)) && forall w :: w in st.recounts ==> st.recounts[w] < |st.store.batches|
  }

  // ---- Lemmas on counting ------------------------------------------------------------

  lemma {:induction false} CountUpdate(items: seq<Item>, i: nat, y: Item, b: nat, st: ItemState)
    requires i < |items|
    ensures Count(items[i := y], b, st)
            == Count(items, b, st) - (if items[i].batch == b && items[i].state == st then 1 else 0)
               + (if y.batch == b && y.state == st then 1 else 0)
    decreases |items|
  {
    var n := |items| - 1;
    var changed := items[i := y];
    if i < n {
      assert changed[..n] == items[..n][i := y];
      CountUpdate(items[..n], i, y, b, st);
    } else {
      assert changed[..n] == items[..n];
    }
  }

  lemma {:induction false} CountPositive(items: seq<Item>, i: nat)
    requires i < |items|
    ensures Count(items, items[i].batch, items[i].state) > 0
    decreases |items|
  {
    if i < |items| - 1 {
      CountPositive(items[..|items| - 1], i);
    }
  }

  lemma {:induction false} LastCompletionOther(items: seq<Item>, i: nat, y: Item, b: nat)
    requires i < |items| && items[i].batch == y.batch && (y.batch != b || items[i].completedAt == y.completedAt)
    ensures LastCompletion(items[i := y], b) == LastCompletion(items, b)
    decreases |items|
  {
    var n := |items| - 1;
    var changed := items[i := y];
    if i < n {
      assert changed[..n] == items[..n][i := y];
      LastCompletionOther(items[..n], i, y, b);
    } else {
      assert changed[..n] == items[..n];
    }
  }

  lemma {:induction false} CountsOutside(items: seq<Item>, b: nat)
    requires forall i :: 0 <= i < |items| ==> items[i].batch != b
    ensures Total(items, b) == 0
    decreases |items|
  {
    if items != [] {
      CountsOutside(items[..|items| - 1], b);
    }
  }

  lemma {:induction false} CompletionNeedsItem(items: seq<Item>, b: nat)
    ensures LastCompletion(items, b).Some? ==> Total(items, b) > 0
    decreases |items|
  {
    if items != [] {
      CompletionNeedsItem(items[..|items| - 1], b);
    }
  }

  lemma NoLiveItem(s: Store, b: nat, i: nat)
    requires i < |s.items| && s.items[i].batch == b && LiveCount(s, b) == 0
    ensures !Live(s.items[i].state)
  {
    CountPositive(s.items, i);
  }

  // ---- Each operation keeps the invariant -------------------------------------------------

  lemma {:induction false} AttachAllFacts(artifacts: map<string, Artifact>, rows: seq<UploadRow>)
    ensures var (m, won) := AttachAll(artifacts, rows);
            && m.Keys == artifacts.Keys
            && (forall a :: a in artifacts && artifacts[a].url.Some? ==> m[a].url == artifacts[a].url)
            && (forall k :: 0 <= k < |won| ==> won[k].artifact in m && m[won[k].artifact].url == Some(won[k].url)
                                               && won[k].artifact in artifacts && artifacts[won[k].artifact].url.None?)
            && (forall j, k :: 0 <= j < k < |won| ==> won[j].artifact != won[k].artifact)
            && (won == [] ==> m == artifacts)
    decreases |rows|
  {
    if rows != [] {
      AttachAllFacts(artifacts, rows[..|rows| - 1]);
    }
  }

  /**
   Nothing that could be attached is passed over: an artifact that was free and named by
   a row is won by some row of the upload, and an artifact nobody won is left as it was.
   */
  lemma {:induction false} AttachAllExact(artifacts: map<string, Artifact>, rows: seq<UploadRow>)
    ensures var (m, won) := AttachAll(artifacts, rows);
            && (forall k :: 0 <= k < |won| ==> won[k] in rows && Free(artifacts, won[k].artifact, won[k].call))
            && (forall k :: 0 <= k < |won| ==>
                  && won[k].artifact in m
                  && m[won[k].artifact] == artifacts[won[k].artifact].(url := Some(won[k].url), attempts := 0))
            && (forall i :: 0 <= i < |rows| && Free(artifacts, rows[i].artifact, rows[i].call) ==> Won(won, rows[i].artifact))
            && (forall a :: a in artifacts && !Won(won, a) ==> a in m && m[a] == artifacts[a])
    decreases |rows|
  {
    if rows != [] {
      var fewer, r := rows[..|rows| - 1], rows[|rows| - 1];
      AttachAllExact(artifacts, fewer);
      AttachAllFacts(artifacts, fewer);
      var (m, won) := AttachAll(artifacts, fewer);
      assert rows == fewer + [r];
      if CanAttach(m, r) {
        assert !Won(won, r.artifact);
        WonGrows(won, r);
      }
    }
  }

  /** A final recording of the call that has no evidence behind it: neither a URL nor a hash. */
  predicate Free(artifacts: map<string, Artifact>, id: string, call: nat) {
    && id in artifacts && artifacts[id].call == call && artifacts[id].finalRecording
    && artifacts[id].url == None && artifacts[id].sha == None
  }

  predicate Won(won: seq<UploadRow>, artifact: string) {
    exists k :: 0 <= k < |won| && won[k].artifact == artifact
  }

  lemma WonGrows(won: seq<UploadRow>, r: UploadRow)
    ensures forall a :: Won(won + [r], a) <==> Won(won, a) || r.artifact == a
  {
    forall a ensures Won(won + [r], a) <==> Won(won, a) || r.artifact == a {
      if Won(won, a) {
        var k :| 0 <= k < |won| && won[k].artifact == a;
        assert (won + [r])[k] == won[k];
      }
      assert (won + [r])[|won|] == r;
    }
  }

  lemma {:induction false} InsertAllFacts(items: seq<Item>, batch: nat, rows: seq<UploadRow>)
    requires InsertAll(items, batch, rows).Some?
    ensures var all := InsertAll(items, batch, rows).value;
            && |all| == |items| + |rows| && all[..|items|] == items
            && (forall k :: 0 <= k < |rows| ==> all[|items| + k] == NewItem(batch, rows[k]))
            && Count(all, batch, Accepted) == Count(items, batch, Accepted) + |rows|
            && (forall st :: st != Accepted ==> Count(all, batch, st) == Count(items, batch, st))
            && (forall b, st :: b != batch ==> Count(all, b, st) == Count(items, b, st))
            && (forall b :: b != batch ==> LastCompletion(all, b) == LastCompletion(items, b))
    decreases |rows|
  {
    if rows != [] {
      var fewer := rows[..|rows| - 1];
      InsertAllFacts(items, batch, fewer);
      var sofar, all := InsertAll(items, batch, fewer).value, InsertAll(items, batch, rows).value;
      assert all[..|all| - 1] == sofar;
    }
  }

  /** What a commit that writes adds: one batch, and one item for each row that won its artifact. */
  lemma CommitShape(s: Store, u: Upload)
    requires CommitUpload(s, u) != s
    ensures var s' := CommitUpload(s, u); var won := AttachAll(s.artifacts, u.accepted).1;
            && |s'.items| == |s.items| + |won| && |s'.batches| == |s.batches| + 1
            && (forall i :: 0 <= i < |s.items| ==> s'.items[i] == s.items[i])
            && (forall k :: 0 <= k < |won| ==> s'.items[|s.items| + k] == NewItem(|s.batches|, won[k]))
  {
    var s', won := CommitUpload(s, u), AttachAll(s.artifacts, u.accepted).1;
    InsertAllFacts(s.items, |s.batches|, won);
    forall i | 0 <= i < |s.items| ensures s'.items[i] == s.items[i] {
      assert s'.items[i] == s'.items[..|s.items|][i];
    }
  }

  lemma CommitBatches(s: Store, u: Upload, behind: set<nat>)
    requires Inv(s, behind) && CommitUpload(s, u) != s
    ensures var s' := CommitUpload(s, u);
            && (forall b :: 0 <= b < |s'.batches| ==> BatchOk(s', b, behind))
            && (forall b :: b in s'.corrections ==> Final(s', b))
  {
    var s', won := CommitUpload(s, u), AttachAll(s.artifacts, u.accepted).1;
    InsertAllFacts(s.items, |s.batches|, won);
    forall i | 0 <= i < |s.items| ensures s.items[i].batch != |s.batches| {
      assert ItemOk(s, i);
    }
    CountsOutside(s.items, |s.batches|);
    forall b | 0 <= b < |s'.batches| ensures BatchOk(s', b, behind) {
      if b < |s.batches| {
        assert BatchOk(s, b, behind);
      }
    }
    forall b | b in s'.corrections ensures Final(s', b) {
      assert Final(s, b);
    }
  }

  lemma CommitKeepsInv(s: Store, u: Upload, behind: set<nat>)
    requires Inv(s, behind)
    ensures Inv(CommitUpload(s, u), behind)
  {
    var s' := CommitUpload(s, u);
    if s' != s {
      var won := AttachAll(s.artifacts, u.accepted).1;
      AttachAllFacts(s.artifacts, u.accepted);
      CommitShape(s, u);
      CommitBatches(s, u, behind);
      forall i | 0 <= i < |s'.items| ensures ItemOk(s', i) {
        if i < |s.items| {
          assert ItemOk(s, i);
        } else {
          assert s'.items[i] == NewItem(|s.batches|, won[i - |s.items|]);
        }
      }
      forall i, j | 0 <= i < j < |s'.items| ensures s'.items[i].artifact != s'.items[j].artifact {
        if i < |s.items| {
          assert ItemOk(s, i);
        } else {
          assert s'.items[i] == NewItem(|s.batches|, won[i - |s.items|]);
        }
        if j >= |s.items| {
          assert s'.items[j] == NewItem(|s.batches|, won[j - |s.items|]);
        }
      }
    }
  }

  /** One item moves on within its batch. */
  lemma MoveItem(s: Store, i: nat, y: Item)
    requires ItemsOk(s) && i < |s.items|
    requires y.batch == s.items[i].batch && y.artifact == s.items[i].artifact && y.url == s.items[i].url
    requires y.attempts == (if y.state.Accepted? then 0 else 1) && y.completedAt.Some? == !Live(y.state)
    ensures ItemsOk(s.(items := s.items[i := y]))
    ensures forall b :: Total(s.items[i := y], b) == Total(s.items, b)
    ensures forall b, st :: b != y.batch || (st != s.items[i].state && st != y.state) ==>
                              Count(s.items[i := y], b, st) == Count(s.items, b, st)
    ensures forall b :: b != y.batch || y.completedAt == s.items[i].completedAt ==>
                          LastCompletion(s.items[i := y], b) == LastCompletion(s.items, b)
  {
    var items, s' := s.items[i := y], s.(items := s.items[i := y]);
    forall j | 0 <= j < |items| ensures ItemOk(s', j) {
      assert ItemOk(s, j);
    }
    forall b, st ensures Count(items, b, st) == Count(s.items, b, st)
                           - (if s.items[i].batch == b && s.items[i].state == st then 1 else 0)
                           + (if y.batch == b && y.state == st then 1 else 0) {
      CountUpdate(s.items, i, y, b, st);
    }
    forall b | b != y.batch || y.completedAt == s.items[i].completedAt
      ensures LastCompletion(items, b) == LastCompletion(s.items, b)
    {
      LastCompletionOther(s.items, i, y, b);
    }
  }

  lemma {:induction false} ClaimItemsKeepInv(s: Store, selected: seq<nat>, behind: set<nat>)
    requires Inv(s, behind)
    ensures Inv(s.(items := ClaimItems(s.items, selected)), behind)
    ensures |ClaimItems(s.items, selected)| == |s.items|
    ensures forall i :: 0 <= i < |s.items| && !s.items[i].state.Accepted? ==> ClaimItems(s.items, selected)[i] == s.items[i]
    decreases |selected|
  {
    if selected != [] {
      var n := |selected| - 1;
      ClaimItemsKeepInv(s, selected[..n], behind);
      var t, i := s.(items := ClaimItems(s.items, selected[..n])), selected[n];
      if i < |t.items| && t.items[i].state.Accepted? {
        assert ItemOk(t, i);
        var y := t.items[i].(state := Auditing, attempts := 1);
        var t' := t.(items := t.items[i := y]);
        MoveItem(t, i, y);
        forall b | 0 <= b < |t'.batches| ensures BatchOk(t', b, behind) {
          assert BatchOk(t, b, behind);
        }
        forall b | b in t'.corrections ensures Final(t', b) {
          assert Final(t, b);
          if y.batch == b {
            NoLiveItem(t, b, i);
          }
        }
      }
    }
  }

  lemma ClaimKeepsInv(s: Store, batch: nat, selected: seq<nat>, at: Time, behind: set<nat>)
    requires Inv(s, behind)
    ensures Inv(Claim(s, batch, selected, at), behind)
  {
    ClaimItemsKeepInv(s, selected, behind);
    var t, s' := s.(items := ClaimItems(s.items, selected)), Claim(s, batch, selected, at);
    forall i | 0 <= i < |s'.items| ensures ItemOk(s', i) {
      assert ItemOk(t, i);
    }
    forall b | 0 <= b < |s'.batches| ensures BatchOk(s', b, behind) {
      assert BatchOk(t, b, behind);
    }
    forall b | b in s'.corrections ensures Final(s', b) {
      assert Final(t, b);
    }
  }

  /** After the first statement the batch is behind. */
  lemma UpdateKeepsInv(s: Store, batch: nat, item: nat, corrected: bool, revised: Option<int>, at: Time, behind: set<nat>)
    requires Inv(s, behind) && Settleable(s, batch, item)
    ensures Inv(UpdateItem(s, batch, item, corrected, revised, at), behind + {batch})
    ensures batch !in s.corrections
  {
    var s' := UpdateItem(s, batch, item, corrected, revised, at);
    assert ItemOk(s, item);
    MoveItem(s, item, s'.items[item]);
    AuditedIsOpen(s, batch, item, behind);
    forall b | 0 <= b < |s'.batches| ensures BatchOk(s', b, behind + {batch}) {
      assert BatchOk(s, b, behind);
    }
    forall b | b in s'.corrections ensures Final(s', b) {
      assert Final(s, b);
    }
  }

  /** A batch with an item under audit has no correction. */
  lemma AuditedIsOpen(s: Store, batch: nat, item: nat, behind: set<nat>)
    requires Inv(s, behind) && Settleable(s, batch, item)
    ensures batch !in s.corrections
  {
    if batch in s.corrections {
      assert Final(s, batch);
      NoLiveItem(s, batch, item);
    }
  }

  /** After the second statement it is not, whatever was outstanding. */
  lemma RecountKeepsInv(s: Store, batch: nat, behind: set<nat>)
    requires Inv(s, behind)
    ensures Inv(Recount(s, batch), behind - {batch})
  {
    var s' := Recount(s, batch);
    forall i | 0 <= i < |s'.items| ensures ItemOk(s', i) {
      assert ItemOk(s, i);
    }
    forall b | 0 <= b < |s'.batches| ensures BatchOk(s', b, behind - {batch}) {
      assert BatchOk(s, b, behind);
    }
    forall b | b in s'.corrections ensures Final(s', b) {
      assert Final(s, b);
    }
  }

  lemma InvWidens(s: Store, behind: set<nat>, wider: set<nat>)
    requires Inv(s, behind) && behind <= wider
    ensures Inv(s, wider)
  {
    forall b | 0 <= b < |s.batches| ensures BatchOk(s, b, wider) {
      assert BatchOk(s, b, behind);
    }
  }

  lemma BatchWriteKeepsInv(s: Store, s': Store, behind: set<nat>)
    requires Inv(s, behind) && s'.items == s.items && s'.artifacts == s.artifacts && |s'.batches| == |s.batches|
    requires forall b :: 0 <= b < |s.batches| ==>
                           s'.batches[b].accepted == s.batches[b].accepted
                           && (Counted(s', b) || (s'.batches[b].corrected == s.batches[b].corrected
                                                  && s'.batches[b].failed == s.batches[b].failed))
    requires forall b :: b in s'.corrections ==>
                           Final(s', b) || (b in s.corrections && s'.corrections[b] == s.corrections[b]
                                            && b < |s.batches| && s'.batches[b] == s.batches[b])
    ensures Inv(s', behind)
  {
    forall i | 0 <= i < |s'.items| ensures ItemOk(s', i) {
      assert ItemOk(s, i);
    }
    forall b | 0 <= b < |s'.batches| ensures BatchOk(s', b, behind) {
      assert BatchOk(s, b, behind);
    }
    forall b | b in s'.corrections ensures Final(s', b) {
      if b in s.corrections {
        assert Final(s, b);
      }
    }
  }

  lemma FinalizeKeepsInv(s: Store, batch: nat, f: Finalization, behind: set<nat>)
    requires Inv(s, behind)
    ensures Inv(Finalize(s, batch, f).1, behind)
  {
    var s' := Finalize(s, batch, f).1;
    if s' != s {
      assert BatchOk(s, batch, behind);
      CompletionNeedsItem(s.items, batch);
      forall b | b in s'.corrections
        ensures Final(s', b) || (b in s.corrections && s'.corrections[b] == s.corrections[b]
                                 && b < |s.batches| && s'.batches[b] == s.batches[b])
      {
        if b != batch {
          assert Final(s, b);
        }
      }
      BatchWriteKeepsInv(s, s', behind);
    }
  }

  lemma PrepareKeepsInv(s: Store, batch: nat, monthTotal: int, at: Time, behind: set<nat>)
    requires Inv(s, behind)
    ensures Inv(Prepare(s, batch, monthTotal, at), behind)
  {
    var s' := Prepare(s, batch, monthTotal, at);
    forall b | b in s'.corrections ensures b < |s.batches| && s'.batches[b] == s.batches[b] {
      assert Final(s, b);
    }
    BatchWriteKeepsInv(s, s', behind);
  }

  lemma PipelineKeepsInv(s: Store, step: Step, behind: set<nat>)
    requires Inv(s, behind)
    ensures Inv(ApplyPipeline(s, step), behind)
  {
    var s' := ApplyPipeline(s, step);
    forall i | 0 <= i < |s'.items| ensures ItemOk(s', i) {
      assert ItemOk(s, i);
    }
    forall b | 0 <= b < |s'.batches| ensures BatchOk(s', b, behind) {
      assert BatchOk(s, b, behind);
    }
    forall b | b in s'.corrections ensures Final(s', b) {
      assert Final(s, b);
    }
  }

  /** A batch that was behind still is, unless the step recounted it; the batch of a first statement becomes so. */
  lemma BehindFollows(st: State, step: Step)
    requires step.SettleStep? || step.RecountStep? || step.CrashStep?
    ensures var st' := Apply(st, step);
      && (step.RecountStep? && step.worker in st.recounts ==> Behind(st) - {st.recounts[step.worker]} <= Behind(st'))
      && (!step.RecountStep? ==> Behind(st) <= Behind(st'))
      && (step.SettleStep? && st' != st ==> step.batch in Behind(st'))
  {
    var st' := Apply(st, step);
    if step.SettleStep? && st' != st {
      assert st'.recounts[step.worker] == step.batch;
    }
    forall b | b in Behind(st) && !(step.RecountStep? && step.worker in st.recounts && b == st.recounts[step.worker])
      ensures b in Behind(st')
    {
      if b !in st.lost {
        var w :| w in st.recounts && st.recounts[w] == b;
        if w != step.worker {
          assert st'.recounts[w] == b;
        } else if step.SettleStep? {
          assert st' == st;
        }
      }
    }
  }

  lemma SettlementStepsKeepInv(st: State, step: Step)
    requires StateInv(st) && (step.SettleStep? || step.RecountStep? || step.CrashStep?)
    ensures StateInv(Apply(st, step))
  {
    var st', behind := Apply(st, step), Behind(st);
    BehindFollows(st, step);
    match step
    case SettleStep(w, b, i, corrected, revised, at) =>
      if st' != st {
        UpdateKeepsInv(st.store, b, i, corrected, revised, at, behind);
        InvWidens(st'.store, behind + {b}, Behind(st'));
      }
    case RecountStep(w) =>
      if st' != st {
        RecountKeepsInv(st.store, st.recounts[w], behind);
        InvWidens(st'.store, behind - {st.recounts[w]}, Behind(st'));
      }
    case CrashStep(w) =>
      if st' != st {
        InvWidens(st'.store, behind, Behind(st'));
      }
  }

  lemma StepKeepsInv(st: State, step: Step)
    requires StateInv(st)
    ensures StateInv(Apply(st, step))
  {
    var s, behind := st.store, Behind(st);
    match step
    case CommitStep(u) => CommitKeepsInv(s, u, behind);
    case ClaimStep(b, selected, at) => ClaimKeepsInv(s, b, selected, at, behind);
    case PrepareStep(b, total, at) => PrepareKeepsInv(s, b, total, at, behind);
    case FinalizeStep(b, f) => FinalizeKeepsInv(s, b, f, behind);
    case ImportArtifact(_, _) => PipelineKeepsInv(s, step, behind);
    case AuditArtifact(_, _, _) => PipelineKeepsInv(s, step, behind);
    case _ => SettlementStepsKeepInv(st, step);
  }

  // ---- Main results, over every run ---------------------------------------------------------

  function Empty(): State {
    State(Store(map[], [], [], map[]), map[], {})
  }

  lemma {:induction false} RunsKeepInv(st: State, steps: seq<Step>)
    requires StateInv(st)
    ensures StateInv(Run(st, steps))
    decreases |steps|
  {
    if steps != [] {
      RunsKeepInv(st, steps[..|steps| - 1]);
      StepKeepsInv(Run(st, steps[..|steps| - 1]), steps[|steps| - 1]);
    }
  }

  /** Each artifact is attached by at most one item of any batch, and keeps the URL that item attached. */
  lemma EvidenceAttachedOnce(steps: seq<Step>, i: nat, j: nat)
    requires i < |Run(Empty(), steps).store.items| && j < |Run(Empty(), steps).store.items|
    ensures var s := Run(Empty(), steps).store;
            && (s.items[i].artifact == s.items[j].artifact ==> i == j)
            && s.items[i].artifact in s.artifacts && s.artifacts[s.items[i].artifact].url == Some(s.items[i].url)
  {
    RunsKeepInv(Empty(), steps);
    assert ItemOk(Run(Empty(), steps).store, i);
  }

  /**
   No accepted row is lost: live, corrected and failed items always add up to what the
   batch accepted, and the stored counters say the same unless a recount is outstanding.
   */
  lemma ItemsConserved(steps: seq<Step>, b: nat)
    requires b < |Run(Empty(), steps).store.batches|
    ensures var st := Run(Empty(), steps); var s := st.store;
            && LiveCount(s, b) + Count(s.items, b, Corrected) + Count(s.items, b, Failed) == s.batches[b].accepted
            && (b !in Behind(st) || b in s.corrections ==>
                  LiveCount(s, b) + s.batches[b].corrected + s.batches[b].failed == s.batches[b].accepted)
  {
    RunsKeepInv(Empty(), steps);
    var st := Run(Empty(), steps);
    assert BatchOk(st.store, b, Behind(st));
    if b in st.store.corrections {
      assert Final(st.store, b);
    }
  }

  // ---- What a commit stores, and that it is answered for ever ------------------------------------

  /** The columns of the batch and of its items, taken from the upload and the rows that won. */
  lemma StoredBatch(s: Store, u: Upload)
    requires CommitUpload(s, u) != s
    ensures var t, won := CommitUpload(s, u), AttachAll(s.artifacts, u.accepted).1;
      var n := |s.batches|;
      && won != [] && |t.batches| == n + 1 && t.batches[..n] == s.batches && t.corrections == s.corrections
      && t.batches[n].key == u.key && t.batches[n].digest == u.digest && t.batches[n].month == u.month
      && u.rateCard == Some(t.batches[n].rateCard)
      && t.batches[n].accepted == |won| && t.batches[n].corrected == 0 && t.batches[n].failed == 0
      && t.batches[n].status == BatchAccepted && t.batches[n].baseline == None
      && t.batches[n].startedAt == None && t.batches[n].completedAt == None
  {
  }

  lemma StoredItems(s: Store, u: Upload, k: nat)
    requires CommitUpload(s, u) != s && k < |AttachAll(s.artifacts, u.accepted).1|
    ensures var t, r := CommitUpload(s, u), AttachAll(s.artifacts, u.accepted).1[k];
      && |s.items| + k < |t.items|
      && var it := t.items[|s.items| + k];
         && it.batch == |s.batches| && it.call == r.call && it.artifact == r.artifact && it.url == r.url && it.row == r.row
         && it.previousAmount == r.previousAmount && it.revisedAmount == None && it.state == Accepted && it.attempts == 0
         && it.completedAt == None
  {
    CommitShape(s, u);
    assert CommitUpload(s, u).items[|s.items| + k] == NewItem(|s.batches|, AttachAll(s.artifacts, u.accepted).1[k]);
  }

  /** Batches keep what they were committed with, and no later batch takes a key that is used. */
  lemma StepKeepsIdentity(st: State, step: Step)
    ensures var s, t := st.store, Apply(st, step).store;
      && |s.batches| <= |t.batches|
      && (forall b :: 0 <= b < |s.batches| ==>
            && t.batches[b].key == s.batches[b].key
            && t.batches[b].digest == s.batches[b].digest && t.batches[b].month == s.batches[b].month)
      && (forall b :: |s.batches| <= b < |t.batches| ==> !KeyTaken(s.batches, t.batches[b].key))
  {
    if step.CommitStep? && CommitUpload(st.store, step.upload) != st.store {
      StoredBatch(st.store, step.upload);
      var t := CommitUpload(st.store, step.upload);
      assert forall b :: 0 <= b < |st.store.batches| ==> t.batches[b] == t.batches[..|st.store.batches|][b];
    }
  }

  lemma {:induction false} FirstKept(st: State, steps: seq<Step>, b: nat, key: string)
    requires b < |st.store.batches| && FirstWithKey(st.store.batches, b, key)
    ensures var t := Run(st, steps).store;
      && b < |t.batches| && FirstWithKey(t.batches, b, key)
      && t.batches[b].digest == st.store.batches[b].digest && t.batches[b].month == st.store.batches[b].month
    decreases |steps|
  {
    if steps != [] {
      FirstKept(st, steps[..|steps| - 1], b, key);
      StepKeepsIdentity(Run(st, steps[..|steps| - 1]), steps[|steps| - 1]);
    }
  }

  /**
   A key answers for its first upload: after an accepted commit and any further steps,
   committing under the same key changes nothing, replays the same file and month, and
   refuses any other.
   */
  lemma CommitReplaysForever(st: State, u: Upload, steps: seq<Step>, again: Upload)
    requires CommitUpload(st.store, u) != st.store && again.key == u.key
    ensures var t := Run(Apply(st, CommitStep(u)), steps).store;
      && KeyTaken(t.batches, again.key) && CommitUpload(t, again) == t
      && (Resubmits(t.batches, again) <==> again.digest == u.digest && again.month == u.month)
  {
    var first, n := Apply(st, CommitStep(u)), |st.store.batches|;
    StoredBatch(st.store, u);
    assert forall k :: 0 <= k < n ==> first.store.batches[k] == first.store.batches[..n][k];
    assert FirstWithKey(first.store.batches, n, u.key);
    FirstKept(first, steps, n, u.key);
    FirstOfKey(Run(first, steps).store.batches, n, again);
  }

  // ---- The unique keys of the items ----------------------------------------------------------------

  /** One item per batch and call, and one live item per call. */
  predicate CallKeysOk(items: seq<Item>) {
    forall i, j :: 0 <= i < j < |items| && items[i].call == items[j].call ==>
      items[i].batch != items[j].batch && !(Live(items[i].state) && Live(items[j].state))
  }

  lemma {:induction false} InsertKeepsCallKeys(items: seq<Item>, batch: nat, rows: seq<UploadRow>)
    requires CallKeysOk(items) && InsertAll(items, batch, rows).Some?
    ensures CallKeysOk(InsertAll(items, batch, rows).value)
    decreases |rows|
  {
    if rows != [] {
      InsertKeepsCallKeys(items, batch, rows[..|rows| - 1]);
    }
  }

  /** Items that only move on keep the keys. */
  lemma MovingKeepsCallKeys(items: seq<Item>, moved: seq<Item>)
    requires CallKeysOk(items) && |moved| == |items|
    requires forall i :: 0 <= i < |items| ==>
      moved[i].call == items[i].call && moved[i].batch == items[i].batch && (Live(moved[i].state) ==> Live(items[i].state))
    ensures CallKeysOk(moved)
  {
  }

  lemma {:induction false} ClaimItemsEffect(items: seq<Item>, selected: seq<nat>, i: nat)
    requires i < |items|
    ensures |ClaimItems(items, selected)| == |items|
    ensures ClaimItems(items, selected)[i]
         == if i in selected && items[i].state == Accepted && items[i].attempts == 0
            then items[i].(state := Auditing, attempts := 1) else items[i]
    decreases |selected|
  {
    if selected != [] {
      ClaimItemsEffect(items, selected[..|selected| - 1], i);
      assert selected == selected[..|selected| - 1] + [selected[|selected| - 1]];
    }
  }

  lemma StepKeepsCallKeys(st: State, step: Step)
    requires CallKeysOk(st.store.items)
    ensures CallKeysOk(Apply(st, step).store.items)
  {
    var s := st.store;
    match step
    case CommitStep(u) =>
      var won := AttachAll(s.artifacts, u.accepted).1;
      if CommitUpload(s, u) != s {
        InsertKeepsCallKeys(s.items, |s.batches|, won);
      }
    case ClaimStep(_, selected, _) =>
      ClaimItemsKeepBatches(s.items, selected);
      forall i | 0 <= i < |s.items| ensures ClaimItems(s.items, selected)[i].call == s.items[i].call
        && (Live(ClaimItems(s.items, selected)[i].state) ==> Live(s.items[i].state))
      {
        ClaimItemsEffect(s.items, selected, i);
      }
      MovingKeepsCallKeys(s.items, ClaimItems(s.items, selected));
    case SettleStep(_, b, i, corrected, revised, at) =>
      MovingKeepsCallKeys(s.items, UpdateItem(s, b, i, corrected, revised, at).items);
    case _ => OtherStepsLeaveItems(st, step);
  }

  /** A call is never under correction twice at once, nor twice in one batch. */
  lemma {:induction false} OneLiveItemPerCall(steps: seq<Step>)
    ensures CallKeysOk(Run(Empty(), steps).store.items)
    decreases |steps|
  {
    if steps != [] {
      OneLiveItemPerCall(steps[..|steps| - 1]);
      StepKeepsCallKeys(Run(Empty(), steps[..|steps| - 1]), steps[|steps| - 1]);
    }
  }

  // ---- What finalisation freezes ---------------------------------------------------------------

  /** The items of a batch are the same in both stores. */
  predicate SameItems(s: Store, s': Store, b: nat) {
    && |s.items| <= |s'.items|
    && (forall i :: 0 <= i < |s.items| && s.items[i].batch == b ==> s'.items[i] == s.items[i])
    && (forall i :: 0 <= i < |s'.items| && s'.items[i].batch == b ==> i < |s.items| && s.items[i].batch == b)
  }

  /** The items and the correction of a batch are the same in both stores, and so is its row but for status and completion time. */
  predicate Frozen(s: Store, s': Store, b: nat) {
    && b < |s.batches| <= |s'.batches| && SameItems(s, s', b)
    && s'.batches[b] == s.batches[b].(status := s'.batches[b].status, completedAt := s'.batches[b].completedAt)
    && b in s.corrections && b in s'.corrections && s'.corrections[b] == s.corrections[b]
  }

  lemma {:induction false} SameCounts(items: seq<Item>, items': seq<Item>, b: nat, st: ItemState)
    requires |items| <= |items'|
    requires forall i :: 0 <= i < |items| && items[i].batch == b ==> items'[i] == items[i]
    requires forall i :: 0 <= i < |items'| && items'[i].batch == b ==> i < |items| && items[i].batch == b
    ensures Count(items', b, st) == Count(items, b, st) && LastCompletion(items', b) == LastCompletion(items, b)
    decreases |items'|
  {
    if items' != [] {
      var n := |items'| - 1;
      if |items| == n + 1 {
        assert forall i :: 0 <= i < n ==> items[..n][i] == items[i] && items'[..n][i] == items'[i];
        SameCounts(items[..n], items'[..n], b, st);
      } else {
        assert forall i :: 0 <= i < n ==> items'[..n][i] == items'[i];
        SameCounts(items, items'[..n], b, st);
      }
    }
  }

  lemma {:induction false} ClaimItemsKeepBatches(items: seq<Item>, selected: seq<nat>)
    ensures |ClaimItems(items, selected)| == |items|
    ensures forall i :: 0 <= i < |items| ==> ClaimItems(items, selected)[i].batch == items[i].batch
    decreases |selected|
  {
    if selected != [] {
      ClaimItemsKeepBatches(items, selected[..|selected| - 1]);
    }
  }

  lemma CommitLeavesItems(s: Store, u: Upload, b: nat, behind: set<nat>)
    requires Inv(s, behind) && b < |s.batches|
    ensures SameItems(s, CommitUpload(s, u), b)
  {
    var s' := CommitUpload(s, u);
    if s' != s {
      CommitShape(s, u);
      var won := AttachAll(s.artifacts, u.accepted).1;
      forall i | |s.items| <= i < |s'.items| ensures s'.items[i].batch == |s.batches| {
        assert s'.items[i] == NewItem(|s.batches|, won[i - |s.items|]);
      }
    }
  }

  lemma ClaimLeavesItems(s: Store, selected: seq<nat>, b: nat, behind: set<nat>)
    requires Inv(s, behind) && LiveCount(s, b) == 0
    ensures var items := ClaimItems(s.items, selected);
      && |items| == |s.items|
      && forall i :: 0 <= i < |items| ==> items[i].batch == s.items[i].batch && (items[i].batch == b ==> items[i] == s.items[i])
  {
    ClaimItemsKeepInv(s, selected, behind);
    ClaimItemsKeepBatches(s.items, selected);
    forall i | 0 <= i < |s.items| && s.items[i].batch == b ensures ClaimItems(s.items, selected)[i] == s.items[i] {
      NoLiveItem(s, b, i);
    }
  }

  lemma UpdateLeavesItems(s: Store, batch: nat, i: nat, corrected: bool, revised: Option<int>, at: Time, b: nat, behind: set<nat>)
    requires Inv(s, behind) && b in s.corrections
    ensures SameItems(s, UpdateItem(s, batch, i, corrected, revised, at), b)
  {
    if Settleable(s, batch, i) {
      AuditedIsOpen(s, batch, i, behind);
    }
  }

  /** No step touches the items of a finalised batch: none of them is live. */
  lemma ItemsUntouched(st: State, step: Step, b: nat)
    requires StateInv(st) && b in st.store.corrections
    ensures SameItems(st.store, Apply(st, step).store, b)
  {
    var s, behind := st.store, Behind(st);
    match step
    case CommitStep(u) =>
      assert Final(s, b);
      CommitLeavesItems(s, u, b, behind);
    case ClaimStep(_, selected, _) =>
      assert Final(s, b);
      ClaimLeavesItems(s, selected, b, behind);
    case SettleStep(w, batch, i, corrected, revised, at) =>
      UpdateLeavesItems(s, batch, i, corrected, revised, at, b, behind);
    case _ => OtherStepsLeaveItems(st, step);
  }

  lemma OtherStepsLeaveItems(st: State, step: Step)
    requires !step.CommitStep? && !step.ClaimStep? && !step.SettleStep?
    ensures Apply(st, step).store.items == st.store.items
  {
  }

  /** The row of a finalised batch, but for its status and completion time. */
  predicate RowFrozen(s: Store, s': Store, b: nat) {
    && b < |s.batches| <= |s'.batches|
    && s'.batches[b] == s.batches[b].(status := s'.batches[b].status, completedAt := s'.batches[b].completedAt)
    && b in s.corrections && b in s'.corrections && s'.corrections[b] == s.corrections[b]
  }

  lemma FinalizeLeavesRow(s: Store, batch: nat, f: Finalization, b: nat, behind: set<nat>)
    requires Inv(s, behind) && b in s.corrections
    ensures RowFrozen(s, Finalize(s, batch, f).1, b)
  {
    assert Final(s, b);
  }

  lemma PrepareLeavesRow(s: Store, batch: nat, total: int, at: Time, b: nat, behind: set<nat>)
    requires Inv(s, behind) && b in s.corrections
    ensures RowFrozen(s, Prepare(s, batch, total, at), b)
  {
    assert Final(s, b);
  }

  lemma RecountLeavesRow(s: Store, batch: nat, b: nat, behind: set<nat>)
    requires Inv(s, behind) && b in s.corrections
    ensures RowFrozen(s, Recount(s, batch), b)
  {
    assert Final(s, b);
  }

  lemma CommitLeavesRow(s: Store, u: Upload, b: nat, behind: set<nat>)
    requires Inv(s, behind) && b in s.corrections
    ensures RowFrozen(s, CommitUpload(s, u), b)
  {
    assert Final(s, b);
  }

  lemma ClaimLeavesRow(s: Store, batch: nat, selected: seq<nat>, at: Time, b: nat, behind: set<nat>)
    requires Inv(s, behind) && b in s.corrections
    ensures RowFrozen(s, Claim(s, batch, selected, at), b)
  {
    assert Final(s, b);
  }

  lemma OtherStepsLeaveRows(st: State, step: Step)
    requires step.SettleStep? || step.CrashStep? || step.ImportArtifact? || step.AuditArtifact?
    ensures Apply(st, step).store.batches == st.store.batches && Apply(st, step).store.corrections == st.store.corrections
  {
  }

  lemma StepLeavesRow(st: State, step: Step, b: nat)
    requires StateInv(st) && b in st.store.corrections
    ensures RowFrozen(st.store, Apply(st, step).store, b)
  {
    var s, behind := st.store, Behind(st);
    match step
    case CommitStep(u) => CommitLeavesRow(s, u, b, behind);
    case ClaimStep(batch, selected, at) => ClaimLeavesRow(s, batch, selected, at, b, behind);
    case FinalizeStep(batch, f) => FinalizeLeavesRow(s, batch, f, b, behind);
    case PrepareStep(batch, total, at) => PrepareLeavesRow(s, batch, total, at, b, behind);
    case RecountStep(w) => RecountLeavesRow(s, if w in st.recounts then st.recounts[w] else |s.batches|, b, behind);
    case _ =>
      assert Final(s, b);
      OtherStepsLeaveRows(st, step);
  }

  lemma StepLeavesFinalBatch(st: State, step: Step, b: nat)
    requires StateInv(st) && b in st.store.corrections
    ensures Frozen(st.store, Apply(st, step).store, b)
  {
    ItemsUntouched(st, step, b);
    StepLeavesRow(st, step, b);
  }

  /**
   Finalisation is stable for ever: once a batch has its month correction, no run changes
   that correction, the batch's items, or its row, apart from its status and completion time.
   */
  lemma {:induction false} FinalizedForever(st: State, steps: seq<Step>, b: nat)
    requires StateInv(st) && b in st.store.corrections
    ensures Frozen(st.store, Run(st, steps).store, b)
    decreases |steps|
  {
    if steps == [] {
      assert Final(st.store, b);
    } else {
      FinalizedForever(st, steps[..|steps| - 1], b);
      RunsKeepInv(st, steps[..|steps| - 1]);
      StepLeavesFinalBatch(Run(st, steps[..|steps| - 1]), steps[|steps| - 1], b);
    }
  }

  // ---- When the row itself is stable ------------------------------------------------------------

  predicate Pending(st: State, b: nat) { exists w :: w in st.recounts && st.recounts[w] == b }

  predicate RowKept(s: Store, s': Store, b: nat) { b < |s.batches| <= |s'.batches| && s'.batches[b] == s.batches[b] }

  /** No recount of a finalised batch can begin. */
  lemma NoNewRecount(st: State, step: Step, b: nat)
    requires StateInv(st) && b in st.store.corrections && !Pending(st, b)
    ensures !Pending(Apply(st, step), b)
  {
    var st' := Apply(st, step);
    if step.SettleStep? && Settleable(st.store, step.batch, step.item) {
      AuditedIsOpen(st.store, step.batch, step.item, Behind(st));
    }
    forall w | w in st'.recounts ensures st'.recounts[w] != b {
      if w in st.recounts && st.recounts[w] == st'.recounts[w] {
        assert st.recounts[w] != b;
      }
    }
  }

  /** A closed row without a pending recount survives any one step. */
  lemma ClosedRowStep(st: State, step: Step, b: nat)
    requires StateInv(st) && b in st.store.corrections && Closed(st.store, b) && !Pending(st, b)
    ensures RowKept(st.store, Apply(st, step).store, b) && Closed(Apply(st, step).store, b)
  {
    var s, s' := st.store, Apply(st, step).store;
    assert Final(s, b);
    StepLeavesFinalBatch(st, step, b);
    SameCounts(s.items, s'.items, b, Corrected);
    ClosedRowKept(st, step, b);
  }

  lemma FinalizeKeepsClosedRow(s: Store, batch: nat, f: Finalization, b: nat, behind: set<nat>)
    requires Inv(s, behind) && b in s.corrections && b < |s.batches| && Closed(s, b)
    ensures RowKept(s, Finalize(s, batch, f).1, b)
  {
    assert Final(s, b);
  }

  lemma WorkKeepsClosedRow(s: Store, step: Step, b: nat, behind: set<nat>)
    requires Inv(s, behind) && b in s.corrections && b < |s.batches| && Closed(s, b)
    requires step.CommitStep? || step.ClaimStep? || step.PrepareStep?
    ensures RowKept(s, Apply(State(s, map[], {}), step).store, b)
  {
    assert Final(s, b);
  }

  lemma ClosedRowKept(st: State, step: Step, b: nat)
    requires StateInv(st) && b in st.store.corrections && b < |st.store.batches| && Closed(st.store, b) && !Pending(st, b)
    ensures RowKept(st.store, Apply(st, step).store, b)
  {
    match step
    case FinalizeStep(batch, f) => FinalizeKeepsClosedRow(st.store, batch, f, b, Behind(st));
    case RecountStep(w) =>
      if w in st.recounts {
        assert st.recounts[w] != b;
      }
    case CommitStep(_) => WorkKeepsClosedRow(st.store, step, b, Behind(st));
    case ClaimStep(_, _, _) => WorkKeepsClosedRow(st.store, step, b, Behind(st));
    case PrepareStep(_, _, _) => WorkKeepsClosedRow(st.store, step, b, Behind(st));
    case _ => OtherStepsLeaveRows(st, step);
  }

  lemma {:induction false} ClosedRowStays(st: State, steps: seq<Step>, b: nat)
    requires StateInv(st) && b in st.store.corrections && Closed(st.store, b) && !Pending(st, b)
    ensures var t := Run(st, steps);
      b in t.store.corrections && RowKept(st.store, t.store, b) && Closed(t.store, b) && !Pending(t, b)
    decreases |steps|
  {
    if steps != [] {
      var t := Run(st, steps[..|steps| - 1]);
      ClosedRowStays(st, steps[..|steps| - 1], b);
      RunsKeepInv(st, steps[..|steps| - 1]);
      ClosedRowStep(t, steps[|steps| - 1], b);
      NoNewRecount(t, steps[|steps| - 1], b);
      StepLeavesFinalBatch(t, steps[|steps| - 1], b);
    } else {
      assert Final(st.store, b);
    }
  }

  /** The request that recorded a correction. */
  function RequestOf(c: Correction): Finalization { Finalization(c.month, c.revisedTotal, c.actualPaid, c.variance) }

  /** Repeating it on a finalised batch replays and closes the row, whatever became of it. */
  lemma ReplayCloses(s: Store, b: nat, behind: set<nat>)
    requires Inv(s, behind) && b in s.corrections
    ensures var (outcome, t) := Finalize(s, b, RequestOf(s.corrections[b]));
      && outcome == Replayed && b < |t.batches| && Closed(t, b) && Frozen(s, t, b) && t.corrections == s.corrections
      && t.items == s.items && t.artifacts == s.artifacts
      && (Closed(s, b) ==> t == s)
  {
    assert Final(s, b) && BatchOk(s, b, behind);
    var t := Finalize(s, b, RequestOf(s.corrections[b])).1;
    assert t.corrections == s.corrections;
    if Closed(s, b) {
      assert t.batches == s.batches;
    }
  }

  lemma ReplayRuns(st: State, b: nat)
    requires StateInv(st) && b in st.store.corrections && !Closed(st.store, b)
    ensures !RowKept(st.store, Run(st, [FinalizeStep(b, RequestOf(st.store.corrections[b]))]).store, b)
  {
    var steps := [FinalizeStep(b, RequestOf(st.store.corrections[b]))];
    ReplayCloses(st.store, b, Behind(st));
    assert steps[..0] == [] && Run(st, steps) == Apply(st, steps[0]);
    var t := Apply(st, steps[0]).store;
    assert t.items == st.store.items;
  }

  lemma RecountReopens(st: State, w: nat)
    requires StateInv(st) && w in st.recounts && st.recounts[w] in st.store.corrections
    ensures var t := Run(st, [RecountStep(w)]).store; var b := st.recounts[w];
      b < |t.batches| && Reopened(t, b) && (Closed(st.store, b) ==> !RowKept(st.store, t, b))
  {
    assert Final(st.store, st.recounts[w]);
    assert [RecountStep(w)][..0] == [] && Run(st, [RecountStep(w)]) == Apply(st, RecountStep(w));
  }

  /** The row of a finalised batch is unchanged by every run exactly when it is closed and no recount of the batch is pending. */
  lemma RowStableIff(st: State, b: nat)
    requires StateInv(st) && b in st.store.corrections
    ensures b < |st.store.batches|
    ensures (forall steps :: RowKept(st.store, Run(st, steps).store, b)) <==> Closed(st.store, b) && !Pending(st, b)
  {
    assert Final(st.store, b);
    if !Closed(st.store, b) {
      ReplayRuns(st, b);
    } else if Pending(st, b) {
      var w :| w in st.recounts && st.recounts[w] == b;
      RecountReopens(st, w);
    } else {
      forall steps ensures RowKept(st.store, Run(st, steps).store, b) {
        ClosedRowStays(st, steps, b);
      }
    }
  }

  /** A correction that was recorded or replayed leaves a closed row; it is stable exactly when no recount is still under way. */
  lemma FinalizedRowStableIff(st: State, batch: nat, f: Finalization)
    requires StateInv(st) && Finalize(st.store, batch, f).0 in {Recorded, Replayed}
    ensures var t := Apply(st, FinalizeStep(batch, f));
      && batch in t.store.corrections
      && ((forall steps :: RowKept(t.store, Run(t, steps).store, batch)) <==> !Pending(st, batch))
  {
    var t := Apply(st, FinalizeStep(batch, f));
    StepKeepsInv(st, FinalizeStep(batch, f));
    RowStableIff(t, batch);
  }

  /**
   The race: any batch with a baseline whose last live item is being settled can be
   finalised between the two statements, and the recount then reopens the finalised row.
   */
  lemma LateRecountReopens(st: State, w: nat, batch: nat, item: nat, corrected: bool, at: Time, f: Finalization)
    requires StateInv(st) && w !in st.recounts && Settleable(st.store, batch, item) && LiveCount(st.store, batch) == 1
    requires ReadyToFinalize(st.store, batch, f)
    ensures var moved := Apply(st, SettleStep(w, batch, item, corrected, None, at));
      var finalized := Apply(moved, FinalizeStep(batch, f));
      var recounted := Apply(finalized, RecountStep(w));
      && Finalize(moved.store, batch, f).0 == Recorded
      && batch < |finalized.store.batches| && Closed(finalized.store, batch)
      && batch in recounted.store.corrections && batch < |recounted.store.batches|
      && Reopened(recounted.store, batch) && !Closed(recounted.store, batch)
  {
    var moved := Apply(st, SettleStep(w, batch, item, corrected, None, at));
    StepKeepsInv(st, SettleStep(w, batch, item, corrected, None, at));
    var y := moved.store.items[item];
    CountUpdate(st.store.items, item, y, batch, Accepted);
    CountUpdate(st.store.items, item, y, batch, Auditing);
    CountPositive(moved.store.items, item);
    AuditedIsOpen(st.store, batch, item, Behind(st));
    assert BatchOk(moved.store, batch, Behind(moved));
    RecordedIff(moved.store, batch, f, Behind(moved));
    var finalized := Apply(moved, FinalizeStep(batch, f));
    StepKeepsInv(moved, FinalizeStep(batch, f));
    assert Final(finalized.store, batch);
  }

  /** A worker that dies between the two statements leaves the stored counters one item short of the truth. */
  lemma LostRecountLags(st: State, w: nat, batch: nat, item: nat, corrected: bool, at: Time)
    requires StateInv(st) && w !in st.recounts && Settleable(st.store, batch, item) && batch !in Behind(st)
    ensures var t := Apply(Apply(st, SettleStep(w, batch, item, corrected, None, at)), CrashStep(w));
      && batch < |t.store.batches| && t.recounts == st.recounts && batch in t.lost
      && LiveCount(t.store, batch) + t.store.batches[batch].corrected + t.store.batches[batch].failed + 1
         == t.store.batches[batch].accepted
  {
    var moved := Apply(st, SettleStep(w, batch, item, corrected, None, at));
    var y := moved.store.items[item];
    CountUpdate(st.store.items, item, y, batch, Accepted);
    CountUpdate(st.store.items, item, y, batch, Auditing);
    assert BatchOk(st.store, batch, Behind(st));
    var t := Apply(moved, CrashStep(w));
    assert t.recounts == st.recounts;
  }

  // ---- A run that shows the race -----------------------------------------------------------------

  lemma RunAppend(st: State, steps: seq<Step>, step: Step)
    ensures Run(st, steps + [step]) == Apply(Run(st, steps), step)
  {
    assert (steps + [step])[..|steps|] == steps;
  }

  /** One recording uploaded. */
  lemma OneItemAccepted() returns (steps: seq<Step>)
    ensures var st := Run(Empty(), steps); var s := st.store;
      && st.recounts == map[] && |s.items| == 1 && s.items[0].batch == 0 && s.items[0].state == Accepted && s.items[0].attempts == 0
      && |s.batches| == 1 && s.batches[0].month == "2026-07" && s.batches[0].baseline.None?
  {
    var row := UploadRow(1, 0, "a", "u", None);
    var upload := Upload("k", "d", "2026-07", Some("r"), [row]);
    var imported := ImportArtifact("a", Artifact(0, true, None, None, 0));
    steps := [imported];
    RunAppend(Empty(), [], imported);
    assert [] + [imported] == steps;
    var s := Run(Empty(), steps).store;
    assert s == Store(map["a" := Artifact(0, true, None, None, 0)], [], [], map[]);
    RunAppend(Empty(), steps, CommitStep(upload));
    steps := steps + [CommitStep(upload)];
    CommitOne(s, upload, row);
  }

  /** Its batch prepared, its item under audit. */
  lemma OneItemUnderAudit() returns (steps: seq<Step>)
    ensures var st := Run(Empty(), steps);
      && StateInv(st) && st.recounts == map[] && Settleable(st.store, 0, 0) && LiveCount(st.store, 0) == 1
      && st.store.batches[0].month == "2026-07" && st.store.batches[0].baseline == Some(10)
  {
    steps := OneItemAccepted();
    RunAppend(Empty(), steps, PrepareStep(0, 10, 0));
    steps := steps + [PrepareStep(0, 10, 0)];
    var items := Run(Empty(), steps).store.items;
    RunAppend(Empty(), steps, ClaimStep(0, [0], 0));
    steps := steps + [ClaimStep(0, [0], 0)];
    assert [0][..0] == [] && ClaimItems(items, []) == items;
    assert ClaimItems(items, [0]) == ClaimItem(items, 0);
    RunsKeepInv(Empty(), steps);
    SingleCount(Run(Empty(), steps).store.items);
  }

  lemma SingleCount(items: seq<Item>)
    requires |items| == 1 && items[0].batch == 0 && items[0].state == Auditing
    ensures Count(items, 0, Auditing) == 1 && Count(items, 0, Accepted) == 0
  {
    assert items[..0] == [];
  }

  lemma CommitOne(s: Store, u: Upload, row: UploadRow)
    requires s.batches == [] && s.items == [] && u.accepted == [row] && u.rateCard.Some? && CanAttach(s.artifacts, row)
    ensures var t := CommitUpload(s, u);
      && t.items == [NewItem(0, row)] && |t.batches| == 1 && t.batches[0].month == u.month
      && t.batches[0].baseline.None? && t.batches[0].status == BatchAccepted
  {
    assert u.accepted[..0] == [] && AttachAll(s.artifacts, []) == (s.artifacts, []);
    assert AttachAll(s.artifacts, u.accepted).1 == [row];
    assert [row][..0] == [] && InsertAll([], 0, []) == Some([]);
    assert !ViolatesItemKeys([], 0, row.call) && [] + [NewItem(0, row)] == [NewItem(0, row)];
    assert InsertAll([], 0, [row]) == Some([NewItem(0, row)]);
  }

  /** A whole run, from an empty store, that ends with a recorded correction and a batch that is running again. */
  lemma FinalizedBatchReopens() returns (steps: seq<Step>)
    ensures var s := Run(Empty(), steps).store;
      0 in s.corrections && |s.batches| > 0 && Reopened(s, 0) && !Closed(s, 0)
  {
    steps := OneItemUnderAudit();
    var st, f := Run(Empty(), steps), Finalization("2026-07", 12, None, None);
    LateRecountReopens(st, 1, 0, 0, true, 5, f);
    RunAppend(Empty(), steps, SettleStep(1, 0, 0, true, None, 5));
    steps := steps + [SettleStep(1, 0, 0, true, None, 5)];
    RunAppend(Empty(), steps, FinalizeStep(0, f));
    steps := steps + [FinalizeStep(0, f)];
    RunAppend(Empty(), steps, RecountStep(1));
    steps := steps + [RecountStep(1)];
  }

  // ---- Baseline and correction --------------------------------------------------------------------

  lemma StepKeepsBaseline(st: State, step: Step, b: nat)
    requires b < |st.store.batches| && st.store.batches[b].baseline.Some?
    ensures b < |Apply(st, step).store.batches| && Apply(st, step).store.batches[b].baseline == st.store.batches[b].baseline
  {
  }

  /** The baseline is captured once: every later run reads the total the first preparation wrote. */
  lemma {:induction false} BaselineWrittenOnce(st: State, steps: seq<Step>, b: nat)
    requires b < |st.store.batches| && st.store.batches[b].baseline.Some?
    ensures b < |Run(st, steps).store.batches| && Run(st, steps).store.batches[b].baseline == st.store.batches[b].baseline
    decreases |steps|
  {
    if steps != [] {
      BaselineWrittenOnce(st, steps[..|steps| - 1], b);
      StepKeepsBaseline(Run(st, steps[..|steps| - 1]), steps[|steps| - 1], b);
    }
  }

  /** Every recorded correction explains the month: its delta is measured from the captured baseline, over terminal items only. */
  lemma CorrectionExplainsMonth(steps: seq<Step>, b: nat)
    requires b in Run(Empty(), steps).store.corrections
    ensures var s := Run(Empty(), steps).store; var c := s.corrections[b];
            && b < |s.batches| && s.batches[b].baseline == Some(c.previousTotal)
            && c.revisedTotal == c.previousTotal + c.delta
            && LiveCount(s, b) == 0 && c.corrected + c.failed == s.batches[b].accepted
            && c.corrected == Count(s.items, b, Corrected) && c.failed == Count(s.items, b, Failed)
            && (Closed(s, b) || Reopened(s, b))
            && (Closed(s, b) ==> (s.batches[b].status.CompletedWithFailures? <==> c.failed > 0))
  {
    RunsKeepInv(Empty(), steps);
    var st := Run(Empty(), steps);
    assert Final(st.store, b) && BatchOk(st.store, b, Behind(st));
  }

  lemma RecordedRequest(s: Store, batch: nat, f: Finalization)
    requires Finalize(s, batch, f).0 in {Recorded, Replayed}
    ensures var s' := Finalize(s, batch, f).1;
      batch in s'.corrections && RequestOf(s'.corrections[batch]) == f
  {
  }

  /**
   A finalisation that succeeded gives the same answer and the same correction whenever it is
   repeated, after any further steps; it changes nothing but a row that a late recount reopened,
   which it closes, and nothing at all if no recount was under way.
   */
  lemma FinalizeReplays(st: State, batch: nat, f: Finalization, steps: seq<Step>)
    requires StateInv(st) && Finalize(st.store, batch, f).0 in {Recorded, Replayed}
    ensures var first := Apply(st, FinalizeStep(batch, f)); var t := Run(first, steps).store;
      var (outcome, again) := Finalize(t, batch, f);
      && outcome == Replayed && again.corrections == t.corrections && again.items == t.items && again.artifacts == t.artifacts
      && batch in t.corrections && batch in first.store.corrections && t.corrections[batch] == first.store.corrections[batch]
      && Frozen(t, again, batch) && Closed(again, batch)
      && (!Pending(st, batch) ==> again == t)
  {
    var first := Apply(st, FinalizeStep(batch, f));
    StepKeepsInv(st, FinalizeStep(batch, f));
    RecordedRequest(st.store, batch, f);
    FinalizedForever(first, steps, batch);
    RunsKeepInv(first, steps);
    var t := Run(first, steps);
    ReplayCloses(t.store, batch, Behind(t));
    if !Pending(st, batch) {
      ClosedRowStays(first, steps, batch);
    }
  }

  /** With nothing live, a batch has a completion time exactly when it has an item. */
  lemma {:induction false} CompletionIff(s: Store, n: nat, batch: nat)
    requires n <= |s.items| && forall i :: 0 <= i < |s.items| ==> ItemOk(s, i)
    requires forall i :: 0 <= i < n && s.items[i].batch == batch ==> !Live(s.items[i].state)
    ensures LastCompletion(s.items[..n], batch).Some? <==> Total(s.items[..n], batch) > 0
    decreases n
  {
    if n > 0 {
      assert s.items[..n][..n - 1] == s.items[..n - 1];
      assert ItemOk(s, n - 1);
      CompletionIff(s, n - 1, batch);
    }
  }

  /**
   When a correction is recorded, exactly: the first time, on a batch that has items, all of
   them settled, and a baseline, whether or not a recount is outstanding.
   */
  lemma RecordedIff(s: Store, batch: nat, f: Finalization, behind: set<nat>)
    requires Inv(s, behind)
    ensures Finalize(s, batch, f).0 == Recorded <==>
      ReadyToFinalize(s, batch, f) && batch !in s.corrections && LiveCount(s, batch) == 0 && s.batches[batch].accepted > 0
  {
    if ReadyToFinalize(s, batch, f) && LiveCount(s, batch) == 0 {
      assert BatchOk(s, batch, behind);
      forall i | 0 <= i < |s.items| && s.items[i].batch == batch ensures !Live(s.items[i].state) {
        NoLiveItem(s, batch, i);
      }
      CompletionIff(s, |s.items|, batch);
      assert s.items[..|s.items|] == s.items;
    }
  }

  // ---- The store the adapters write --------------------------------------------------------------

  datatype CommitOutcome = CommitAccepted | CommitReplayed | NothingToDo | CommitRefused

  /** What the first statement of a settlement changes. */
  lemma UpdateEffect(s: Store, batch: nat, item: nat, corrected: bool, revised: Option<int>, at: Time, behind: set<nat>)
    requires Inv(s, behind)
    ensures Settleable(s, batch, item) <==> item < |s.items| && s.items[item].batch == batch && s.items[item].state.Auditing?
    ensures Settleable(s, batch, item) ==>
      var t := UpdateItem(s, batch, item, corrected, revised, at);
      && batch !in s.corrections
      && LiveCount(t, batch) == LiveCount(s, batch) - 1
      && Count(t.items, batch, Corrected) == Count(s.items, batch, Corrected) + (if corrected then 1 else 0)
      && Count(t.items, batch, Failed) == Count(s.items, batch, Failed) + (if corrected then 0 else 1)
  {
    if item < |s.items| {
      assert ItemOk(s, item);
    }
    if Settleable(s, batch, item) {
      var y := UpdateItem(s, batch, item, corrected, revised, at).items[item];
      CountUpdate(s.items, item, y, batch, Accepted);
      CountUpdate(s.items, item, y, batch, Auditing);
      CountUpdate(s.items, item, y, batch, Corrected);
      CountUpdate(s.items, item, y, batch, Failed);
      AuditedIsOpen(s, batch, item, behind);
    }
  }

  /** What a finalisation leaves of the corrections, and all that a replay may change. */
  lemma FinalizeEffect(s: Store, batch: nat, f: Finalization, behind: set<nat>)
    requires Inv(s, behind)
    ensures var (outcome, t) := Finalize(s, batch, f);
      && (forall b :: b in s.corrections ==> b in t.corrections && t.corrections[b] == s.corrections[b])
      && (outcome !in {Recorded, Replayed} ==> t == s)
      && (outcome == Replayed ==> batch in s.corrections && Frozen(s, t, batch) && t.corrections == s.corrections
                                  && (Closed(s, batch) ==> t == s))
      && (outcome in {Recorded, Replayed} ==>
            && batch in t.corrections && batch < |t.batches| && LiveCount(t, batch) == 0 && Closed(t, batch)
            && t.corrections[batch].revisedTotal == f.revisedTotal
            && t.batches[batch].baseline == Some(t.corrections[batch].previousTotal)
            && t.corrections[batch].delta == f.revisedTotal - t.corrections[batch].previousTotal
            && t.corrections[batch].corrected + t.corrections[batch].failed == t.batches[batch].accepted)
      && (outcome == InFlight ==> LiveCount(s, batch) > 0)
  {
    if Finalize(s, batch, f).0 == Replayed {
      RecordedRequest(s, batch, f);
      ReplayCloses(s, batch, behind);
    }
  }

  /** The first batch of the upload's key holds this very upload. */
  predicate Resubmits(batches: seq<Batch>, u: Upload) {
    exists b :: 0 <= b < |batches| && FirstWithKey(batches, b, u.key) && batches[b].digest == u.digest && batches[b].month == u.month
  }

  predicate FirstWithKey(batches: seq<Batch>, b: nat, key: string)
    requires b < |batches|
  {
    batches[b].key == key && forall k :: 0 <= k < b ==> batches[k].key != key
  }

  lemma FirstOfKey(batches: seq<Batch>, b: nat, u: Upload)
    requires b < |batches| && FirstWithKey(batches, b, u.key)
    ensures KeyTaken(batches, u.key)
    ensures Resubmits(batches, u) <==> batches[b].digest == u.digest && batches[b].month == u.month
  {
    forall c | 0 <= c < |batches| && FirstWithKey(batches, c, u.key) ensures c == b {
    }
  }

  /** What a commit reports. */
  function CommitAnswer(s: Store, u: Upload): CommitOutcome {
    if KeyTaken(s.batches, u.key) then (if Resubmits(s.batches, u) then CommitReplayed else CommitRefused)
    else if u.accepted == [] then NothingToDo
    else if u.rateCard.None? then CommitRefused
    else if AttachAll(s.artifacts, u.accepted).1 == [] then NothingToDo
    else if InsertAll(s.items, |s.batches|, AttachAll(s.artifacts, u.accepted).1).None? then CommitRefused
    else CommitAccepted
  }

  lemma CommitAnswers(s: Store, u: Upload)
    ensures CommitAnswer(s, u).CommitAccepted? <==> CommitUpload(s, u) != s
    ensures CommitAnswer(s, u).CommitAccepted? <==> |CommitUpload(s, u).batches| == |s.batches| + 1
  {
  }

  class CorrectionStore {
    var artifacts: map<string, Artifact>
    var batches: seq<Batch>
    var items: seq<Item>
    var corrections: map<nat, Correction>
    /** The batches whose recount is still to come or was lost. */
    ghost var behind: set<nat>

    constructor ()
      ensures View() == Empty().store && behind == {} && Inv(View(), behind)
    {
      artifacts, batches, items, corrections, behind := map[], [], [], map[], {};
    }

    function View(): Store
      reads this
    {
      Store(artifacts, batches, items, corrections)
    }

    /** A key that was used answers for its first upload: the same file and month replay, anything else is refused. */
    method Commit(u: Upload) returns (outcome: CommitOutcome)
      requires Inv(View(), behind)
      modifies this
      ensures Inv(View(), behind) && behind == old(behind) && View() == CommitUpload(old(View()), u)
      ensures outcome.CommitAccepted? <==> |batches| == |old(batches)| + 1
      ensures !outcome.CommitAccepted? ==> View() == old(View())
      // The new batch carries the upload's own key, file, month and rate card.
      ensures outcome.CommitAccepted? ==>
        && batches[..|old(batches)|] == old(batches) && corrections == old(corrections)
        && batches[|old(batches)|].key == u.key && batches[|old(batches)|].digest == u.digest
        && batches[|old(batches)|].month == u.month && Some(batches[|old(batches)|].rateCard) == u.rateCard
        && batches[|old(batches)|].status == BatchAccepted && batches[|old(batches)|].baseline == None
        && batches[|old(batches)|].accepted == |items| - |old(items)|
      ensures KeyTaken(old(batches), u.key) ==> outcome == if Resubmits(old(batches), u) then CommitReplayed else CommitRefused
      ensures !KeyTaken(old(batches), u.key) ==> !outcome.CommitReplayed?
      ensures !KeyTaken(old(batches), u.key) && u.accepted != [] && u.rateCard.None? ==> outcome == CommitRefused
      ensures outcome.NothingToDo? <==>
        !KeyTaken(old(batches), u.key) && (u.accepted == [] || (u.rateCard.Some? && AttachAll(old(artifacts), u.accepted).1 == []))
    {
      CommitKeepsInv(View(), u, behind);
      CommitAnswers(View(), u);
      if CommitUpload(View(), u) != View() {
        StoredBatch(View(), u);
        CommitShape(View(), u);
      }
      outcome := WriteCommit(u);
    }

    method WriteCommit(u: Upload) returns (outcome: CommitOutcome)
      modifies this`artifacts, this`batches, this`items
      ensures View() == CommitUpload(old(View()), u)
      ensures outcome == CommitAnswer(old(View()), u)
    {
      for b := 0 to |batches|
        invariant forall k :: 0 <= k < b ==> batches[k].key != u.key
        invariant View() == old(View())
      {
        if batches[b].key == u.key {
          FirstOfKey(batches, b, u);
          return if batches[b].digest == u.digest && batches[b].month == u.month then CommitReplayed else CommitRefused;
        }
      }
      if u.accepted == [] {
        return NothingToDo;
      }
      if u.rateCard.None? {
        return CommitRefused;
      }
      var attachedArtifacts, attached := artifacts, [];
      for i := 0 to |u.accepted|
        invariant (attachedArtifacts, attached) == AttachAll(artifacts, u.accepted[..i])
        invariant View() == old(View())
      {
        assert u.accepted[..i + 1][..i] == u.accepted[..i];
        if CanAttach(attachedArtifacts, u.accepted[i]) {
          attachedArtifacts := Attach(attachedArtifacts, u.accepted[i]);
          attached := attached + [u.accepted[i]];
        }
      }
      assert u.accepted[..|u.accepted|] == u.accepted;
      if attached == [] {
        return NothingToDo;
      }
      var all := items;
      for i := 0 to |attached|
        invariant InsertAll(items, |batches|, attached[..i]) == Some(all)
        invariant View() == old(View())
      {
        assert attached[..i + 1][..i] == attached[..i];
        if ViolatesItemKeys(all, |batches|, attached[i].call) {
          InsertAllStuck(items, |batches|, attached, i + 1);
          return CommitRefused;
        }
        all := all + [NewItem(|batches|, attached[i])];
      }
      assert attached[..|attached|] == attached;
      artifacts, items := attachedArtifacts, all;
      batches := batches + [Batch(u.key, u.digest, u.month, u.rateCard.value, BatchAccepted, |attached|, 0, 0, None, None, None)];
      return CommitAccepted;
    }

    method ClaimCandidates(batch: nat, selected: seq<nat>, at: Time) returns (claimed: seq<nat>)
      requires Inv(View(), behind)
      modifies this
      ensures Inv(View(), behind) && behind == old(behind) && View() == Claim(old(View()), batch, selected, at)
      ensures forall i :: i in claimed <==> i in selected && i < |items| && items[i].state == Auditing
      // Exactly the selected items that were accepted and never tried are now under audit.
      ensures |items| == |old(items)| && forall i :: 0 <= i < |items| ==>
        items[i] == if i in selected && old(items)[i].state == Accepted && old(items)[i].attempts == 0
                    then old(items)[i].(state := Auditing, attempts := 1) else old(items)[i]
      // An accepted batch is running from now on; a batch that was started keeps its start.
      ensures |batches| == |old(batches)| && forall b :: 0 <= b < |batches| ==>
        batches[b] == if b == batch && old(batches)[b].status == BatchAccepted
                      then old(batches)[b].(status := Running, startedAt := if old(batches)[b].startedAt == None then Some(at) else old(batches)[b].startedAt)
                      else old(batches)[b]
    {
      ClaimKeepsInv(View(), batch, selected, at, behind);
      forall i | 0 <= i < |items|
        ensures |ClaimItems(items, selected)| == |items| && ClaimItems(items, selected)[i]
             == if i in selected && items[i].state == Accepted && items[i].attempts == 0
                then items[i].(state := Auditing, attempts := 1) else items[i]
      {
        ClaimItemsEffect(items, selected, i);
      }
      ClaimItemsKeepBatches(items, selected);
      claimed := WriteClaim(batch, selected, at);
    }

    method WriteClaim(batch: nat, selected: seq<nat>, at: Time) returns (claimed: seq<nat>)
      modifies this`items, this`batches
      ensures View() == Claim(old(View()), batch, selected, at)
      ensures forall i :: i in claimed <==> i in selected && i < |items| && items[i].state == Auditing
    {
      claimed := [];
      for i := 0 to |selected|
        invariant items == ClaimItems(old(items), selected[..i])
        invariant batches == old(batches) && artifacts == old(artifacts) && corrections == old(corrections)
        invariant |items| == |old(items)|
        invariant forall x :: x in claimed <==> x in selected[..i] && x < |items| && items[x].state == Auditing
      {
        assert selected[..i + 1][..i] == selected[..i];
        assert selected[..i + 1] == selected[..i] + [selected[i]];
        var id := selected[i];
        if id < |items| && items[id].state.Auditing? {
          claimed := claimed + [id];
        } else if id < |items| && items[id].state.Accepted? && items[id].attempts == 0 {
          items := items[id := items[id].(state := Auditing, attempts := 1)];
          claimed := claimed + [id];
        }
      }
      assert selected[..|selected|] == selected;
      if batch < |batches| {
        batches := batches[batch := StartIfAccepted(batches[batch], at)];
      }
    }

    /** The first statement of a settlement: exactly an item under audit in this batch moves, and nothing else does. */
    method MoveItemOn(batch: nat, item: nat, corrected: bool, revised: Option<int>, at: Time) returns (moved: bool)
      requires Inv(View(), behind)
      modifies this`items, this`behind
      ensures View() == UpdateItem(old(View()), batch, item, corrected, revised, at)
      ensures behind == (if moved then old(behind) + {batch} else old(behind)) && Inv(View(), behind)
      ensures moved <==> item < |old(items)| && old(items)[item].batch == batch && old(items)[item].state.Auditing?
      ensures !moved ==> View() == old(View())
      ensures |items| == |old(items)| && forall i :: 0 <= i < |items| && (i != item || !moved) ==> items[i] == old(items)[i]
      ensures moved ==>
        && batch < |batches| && batch !in corrections
        && items[item] == old(items)[item].(
             state := if corrected then Corrected else Failed, completedAt := Some(at),
             revisedAmount := if revised == None then old(items)[item].revisedAmount else revised)
        && LiveCount(View(), batch) == LiveCount(old(View()), batch) - 1
    {
      UpdateEffect(View(), batch, item, corrected, revised, at, behind);
      moved := Settleable(View(), batch, item);
      if moved {
        UpdateKeepsInv(View(), batch, item, corrected, revised, at, behind);
        var it := items[item];
        items := items[item := it.(state := if corrected then Corrected else Failed, completedAt := Some(at),
          revisedAmount := if revised.Some? then revised else it.revisedAmount)];
        behind := behind + {batch};
      }
    }

    /** The second statement: the counters are right again, and the row is running, whatever it was. */
    method RecountBatch(batch: nat)
      requires Inv(View(), behind)
      modifies this`batches, this`behind
      ensures View() == Recount(old(View()), batch)
      ensures behind == old(behind) - {batch} && Inv(View(), behind)
      ensures |batches| == |old(batches)| && forall b :: 0 <= b < |batches| && b != batch ==> batches[b] == old(batches)[b]
      ensures batch < |batches| ==>
        && Counted(View(), batch) && Reopened(View(), batch)
        && batches[batch].accepted == old(batches)[batch].accepted && batches[batch].baseline == old(batches)[batch].baseline
    {
      RecountKeepsInv(View(), batch, behind);
      if batch < |batches| {
        batches := batches[batch := batches[batch].(
          corrected := Count(items, batch, Corrected), failed := Count(items, batch, Failed),
          status := Running, completedAt := None)];
      }
      behind := behind - {batch};
    }

    /** Both statements with nothing between them: the batch gains exactly the settled item. */
    method SettleItem(batch: nat, item: nat, corrected: bool, revised: Option<int>, at: Time) returns (settled: bool)
      requires Inv(View(), behind)
      modifies this
      ensures Inv(View(), behind) && View() == Settle(old(View()), batch, item, corrected, revised, at)
      ensures settled <==> item < |old(items)| && old(items)[item].batch == batch && old(items)[item].state.Auditing?
      ensures !settled ==> View() == old(View()) && behind == old(behind)
      ensures artifacts == old(artifacts) && corrections == old(corrections)
      ensures settled ==>
        && batch < |batches| == |old(batches)| && batch !in corrections && behind == old(behind) - {batch}
        && items == old(items)[item := items[item]] && !Live(items[item].state)
        && LiveCount(View(), batch) == LiveCount(old(View()), batch) - 1
        && Counted(View(), batch) && batches[batch].baseline == old(batches)[batch].baseline
        && (batch !in old(behind) ==>
              && batches[batch].corrected == old(batches)[batch].corrected + (if corrected then 1 else 0)
              && batches[batch].failed == old(batches)[batch].failed + (if corrected then 0 else 1))
      ensures forall b :: 0 <= b < |old(batches)| && b != batch ==> b < |batches| && batches[b] == old(batches)[b]
    {
      UpdateEffect(View(), batch, item, corrected, revised, at, behind);
      if batch < |batches| {
        assert BatchOk(View(), batch, behind);
      }
      settled := MoveItemOn(batch, item, corrected, revised, at);
      if settled {
        RecountBatch(batch);
      }
    }

    method PrepareBatch(batch: nat, monthTotal: int, at: Time) returns (previousTotal: Option<int>, finalized: bool)
      requires Inv(View(), behind)
      modifies this
      ensures Inv(View(), behind) && behind == old(behind) && View() == Prepare(old(View()), batch, monthTotal, at)
      ensures batch < |batches| ==> previousTotal == batches[batch].baseline && previousTotal.Some?
      ensures finalized == (batch < |batches| && batch in corrections)
      // The first preparation captures the month's total; every later one reads it.
      ensures batch < |old(batches)| ==>
        && |batches| == |old(batches)|
        && batches[batch] == (if old(batches)[batch].baseline == None || old(batches)[batch].status == BatchAccepted
                              then old(batches)[batch].(
                                baseline := if old(batches)[batch].baseline == None then Some(monthTotal) else old(batches)[batch].baseline,
                                status := Running,
                                startedAt := if old(batches)[batch].startedAt == None then Some(at) else old(batches)[batch].startedAt)
                              else old(batches)[batch])
      ensures forall b :: 0 <= b < |old(batches)| && b != batch ==> b < |batches| && batches[b] == old(batches)[b]
      ensures items == old(items) && corrections == old(corrections)
    {
      PrepareKeepsInv(View(), batch, monthTotal, at, behind);
      if batch >= |batches| {
        return None, false;
      }
      var b := batches[batch];
      if b.baseline.None? {
        batches := batches[batch := b.(baseline := Some(monthTotal), status := Running,
          startedAt := if b.startedAt.Some? then b.startedAt else Some(at))];
      } else {
        batches := batches[batch := StartIfAccepted(b, at)];
      }
      return batches[batch].baseline, batch in corrections;
    }

    /**
     A correction is recorded once, over settled items only, from the captured baseline; a
     stored one is never altered. A replay changes at most a row that a late recount reopened.
     */
    method FinalizeBatch(batch: nat, f: Finalization) returns (outcome: FinalOutcome)
      requires Inv(View(), behind)
      modifies this
      ensures Inv(View(), behind) && behind == old(behind) && (outcome, View()) == Finalize(old(View()), batch, f)
      ensures items == old(items) && artifacts == old(artifacts)
      ensures forall b :: b in old(corrections) ==> b in corrections && corrections[b] == old(corrections)[b]
      ensures outcome.Recorded? <==>
        ReadyToFinalize(old(View()), batch, f) && batch !in old(corrections) && LiveCount(old(View()), batch) == 0
        && old(batches)[batch].accepted > 0
      ensures outcome.InFlight? || outcome.Conflict? ==> View() == old(View())
      ensures outcome.Replayed? ==> corrections == old(corrections) && Frozen(old(View()), View(), batch)
      ensures outcome.Replayed? && Closed(old(View()), batch) ==> View() == old(View())
      ensures outcome.Recorded? || outcome.Replayed? ==>
        && batch in corrections && batch < |batches| && LiveCount(View(), batch) == 0 && Closed(View(), batch)
        && corrections[batch].revisedTotal == f.revisedTotal
        && batches[batch].baseline == Some(corrections[batch].previousTotal)
        && corrections[batch].delta == f.revisedTotal - corrections[batch].previousTotal
        && corrections[batch].corrected + corrections[batch].failed == batches[batch].accepted
      ensures outcome.Recorded? ==> corrections.Keys == old(corrections).Keys + {batch}
      ensures outcome.InFlight? ==> LiveCount(old(View()), batch) > 0
    {
      FinalizeKeepsInv(View(), batch, f, behind);
      RecordedIff(View(), batch, f, behind);
      FinalizeEffect(View(), batch, f, behind);
      outcome := WriteFinalization(batch, f);
    }

    method WriteFinalization(batch: nat, f: Finalization) returns (outcome: FinalOutcome)
      modifies this`batches, this`corrections
      ensures (outcome, View()) == Finalize(old(View()), batch, f)
    {
      if !ReadyToFinalize(View(), batch, f) {
        return Conflict;
      }
      if LiveCount(View(), batch) > 0 {
        return InFlight;
      }
      var corrected, failed := Count(items, batch, Corrected), Count(items, batch, Failed);
      var completedAt := LastCompletion(items, batch);
      if corrected + failed != batches[batch].accepted || completedAt.None? {
        return Conflict;
      }
      var c := CorrectionFor(View(), batch, f, completedAt.value);
      outcome := Recorded;
      if batch in corrections {
        if corrections[batch] != c {
          return Conflict;
        }
        outcome := Replayed;
      }
      corrections := corrections[batch := c];
      batches := batches[batch := batches[batch].(corrected := corrected, failed := failed, completedAt := completedAt,
        status := if failed > 0 then CompletedWithFailures else BatchCompleted)];
    }
  }

  lemma {:induction false} InsertAllStuck(items: seq<Item>, batch: nat, rows: seq<UploadRow>, n: nat)
    requires n <= |rows| && InsertAll(items, batch, rows[..n]).None?
    ensures InsertAll(items, batch, rows).None?
    decreases |rows| - n
  {
    if n < |rows| {
      assert rows[..n + 1][..n] == rows[..n];
      InsertAllStuck(items, batch, rows, n + 1);
    } else {
      assert rows[..n] == rows;
    }
  }
}
