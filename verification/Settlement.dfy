/**
 The append-only record of what was finally paid for a month.

 The save reads the row of its key, then the month's tail, then inserts. The
 three statements are separate steps here, so the proofs do not rest on the row
 locks: only the unique keys of the table decide a race.
 */
module Settlement {
  import opened Options

  /** The stored id and the request digest are hashes; the hash is taken to be injective. */
  datatype SettlementId = SettlementId(month: string, key: string)
  datatype Digest = Digest(month: string, key: string, amount: string)

  datatype Row = Row(
    id: SettlementId, month: string, version: int, supersedes: Option<SettlementId>, key: string, digest: Digest,
    amount: string, recordedAt: int)

  datatype Request = Request(month: string, key: string, amount: string)

  /** Where one save stands. What it read is remembered, however stale it becomes. */
  datatype Pc =
    | Idle
    | AtKey(request: Request)
    | AtTail(request: Request)
    | AtInsert(request: Request, version: int, supersedes: Option<SettlementId>)

  datatype Event =
    | Recorded(request: Request, version: int)
    | Replayed(request: Request, version: int)
    | KeyConflict(request: Request)
    | MonthConflict(request: Request)

  datatype State = State(table: seq<Row>, pcs: map<nat, Pc>, log: seq<Event>)

  datatype Action = Begin(request: Request) | Statement(clock: int) | Crash

  datatype Step = Step(writer: nat, action: Action)

  function DigestOf(r: Request): Digest { Digest(r.month, r.key, r.amount) }

  // ---- The statements ----------------------------------------------------------------

  function OfMonth(table: seq<Row>, month: string): seq<Row>
    decreases |table|
  {
    if table == [] then []
    else OfMonth(table[..|table| - 1], month) + if table[|table| - 1].month == month then [table[|table| - 1]] else []
  }

  function ByKey(table: seq<Row>, month: string, key: string): Option<Row>
    decreases |table|
  {
    if table == [] then None
    else
      var last := table[|table| - 1];
      if last.month == month && last.key == key then Some(last) else ByKey(table[..|table| - 1], month, key)
  }

  /** ORDER BY version_no DESC LIMIT 1. */
  function Tail(table: seq<Row>, month: string): Option<Row>
    decreases |table|
  {
    if table == [] then None
    else
      var best, last := Tail(table[..|table| - 1], month), table[|table| - 1];
      if last.month == month && (best.None? || last.version > best.value.version) then Some(last) else best
  }

  /** One row breaks a unique key against another. */
  predicate Collides(stored: Row, row: Row) {
    || stored.id == row.id
    || (stored.month == row.month && stored.version == row.version)
    || (stored.month == row.month && stored.key == row.key)
    || (stored.supersedes.Some? && stored.supersedes == row.supersedes)
  }

  /** The CHECK on the chain and the foreign key of the superseded row. */
  predicate WellLinked(table: seq<Row>, row: Row) {
    && (row.version == 1 <==> row.supersedes.None?) && row.version >= 1
    && (row.supersedes.Some? ==> exists i :: 0 <= i < |table| && table[i].id == row.supersedes.value)
  }

  predicate Duplicate(table: seq<Row>, row: Row) {
    exists i :: 0 <= i < |table| && Collides(table[i], row)
  }

  function NewRow(r: Request, version: int, supersedes: Option<SettlementId>, clock: int): Row {
    Row(SettlementId(r.month, r.key), r.month, version, supersedes, r.key, DigestOf(r), r.amount, clock)
  }

  function PcOf(s: State, w: nat): Pc { if w in s.pcs then s.pcs[w] else Idle }

  function Moved(s: State, w: nat, pc: Pc): State { s.(pcs := s.pcs[w := pc]) }

  function Reported(s: State, w: nat, e: Event): State { State(s.table, s.pcs[w := Idle], s.log + [e]) }

  function ReadKey(s: State, w: nat, r: Request): State {
    var found := ByKey(s.table, r.month, r.key);
    if found.None? then Moved(s, w, AtTail(r))
    else if found.value.digest != DigestOf(r) then Reported(s, w, KeyConflict(r))
    else Reported(s, w, Replayed(r, found.value.version))
  }

  function ReadTail(s: State, w: nat, r: Request): State {
    var current := Tail(s.table, r.month);
    Moved(s, w, if current.None? then AtInsert(r, 1, None) else AtInsert(r, current.value.version + 1, Some(current.value.id)))
  }

  function InsertRow(s: State, w: nat, row: Row, r: Request): State {
    if Duplicate(s.table, row) || !WellLinked(s.table, row) then Reported(s, w, MonthConflict(r))
    else State(s.table + [row], s.pcs[w := Idle], s.log + [Recorded(r, row.version)])
  }

  function Apply(s: State, step: Step): State {
    var w, pc := step.writer, PcOf(s, step.writer);
    match step.action
    case Begin(r) => if pc.Idle? then Moved(s, w, AtKey(r)) else s
    case Crash => Moved(s, w, Idle)
    case Statement(clock) =>
      match pc
      case Idle => s
      case AtKey(r) => ReadKey(s, w, r)
      case AtTail(r) => ReadTail(s, w, r)
      case AtInsert(r, version, supersedes) => InsertRow(s, w, NewRow(r, version, supersedes, clock), r)
  }

  function Run(s: State, steps: seq<Step>): State
    decreases |steps|
  {
    if steps == [] then s else Apply(Run(s, steps[..|steps| - 1]), steps[|steps| - 1])
  }

  function Initial(): State { State([], map[], []) }

  // ---- The chain of a month ----------------------------------------------------------

  /** Versions 1..n in order, each superseding the one before it, under distinct keys. */
  ghost predicate Chained(rows: seq<Row>, month: string) {
    && (forall k :: 0 <= k < |rows| ==> Link(rows, k, month))
    && (forall j, k :: 0 <= j < k < |rows| ==> rows[j].key != rows[k].key)
  }

  ghost predicate Link(rows: seq<Row>, k: int, month: string)
    requires 0 <= k < |rows|
  {
    && rows[k].month == month && rows[k].version == k + 1 && rows[k].id == SettlementId(month, rows[k].key)
    && rows[k].digest == Digest(month, rows[k].key, rows[k].amount)
    && rows[k].supersedes == if k == 0 then None else Some(rows[k - 1].id)
  }

  ghost predicate Linear(table: seq<Row>) {
    forall month :: Chained(OfMonth(table, month), month)
  }

  /** What a save read about the tail was true when it read it, and rows never leave. */
  ghost predicate PlanOk(table: seq<Row>, pc: Pc) {
    pc.AtInsert? ==>
      var rows := OfMonth(table, pc.request.month);
      && 1 <= pc.version <= |rows| + 1
      && pc.supersedes == if pc.version == 1 then None else Some(rows[pc.version - 2].id)
  }

  ghost predicate Inv(s: State) {
    && Linear(s.table)
    && (forall w :: w in s.pcs ==> PlanOk(s.table, s.pcs[w]))
  }

  lemma {:induction false} OfMonthMembers(table: seq<Row>, month: string)
    ensures forall r :: r in OfMonth(table, month) <==> r in table && r.month == month
    decreases |table|
  {
    if table != [] {
      var n := |table| - 1;
      OfMonthMembers(table[..n], month);
      assert table == table[..n] + [table[n]];
    }
  }

  lemma OfMonthAppend(table: seq<Row>, row: Row, month: string)
    ensures OfMonth(table + [row], month) == OfMonth(table, month) + if row.month == month then [row] else []
  {
    assert (table + [row])[..|table|] == table;
  }

  lemma {:induction false} ByKeyFinds(table: seq<Row>, month: string, key: string)
    ensures ByKey(table, month, key).Some? ==>
      var r := ByKey(table, month, key).value; r in table && r.month == month && r.key == key
    ensures ByKey(table, month, key).None? ==> forall r :: r in table && r.month == month ==> r.key != key
    decreases |table|
  {
    if table != [] {
      var n := |table| - 1;
      ByKeyFinds(table[..n], month, key);
      assert table == table[..n] + [table[n]];
    }
  }

  lemma ChainPrefix(rows: seq<Row>, month: string)
    requires Chained(rows, month) && rows != []
    ensures Chained(rows[..|rows| - 1], month) && rows[|rows| - 1].version == |rows|
    ensures |rows| > 1 ==> rows[|rows| - 2].version == |rows| - 1
  {
    var n := |rows| - 1;
    forall k | 0 <= k < n ensures Link(rows[..n], k, month) {
      assert Link(rows, k, month);
    }
    assert Link(rows, n, month);
    assert n > 0 ==> Link(rows, n - 1, month);
  }

  /** On a chained month the tail is the row of version n. */
  lemma {:induction false} TailIsLast(table: seq<Row>, month: string)
    requires Chained(OfMonth(table, month), month)
    ensures var rows := OfMonth(table, month);
      Tail(table, month) == if rows == [] then None else Some(rows[|rows| - 1])
    decreases |table|
  {
    if table != [] {
      var shorter := table[..|table| - 1];
      var rows, before := OfMonth(table, month), OfMonth(shorter, month);
      if table[|table| - 1].month == month {
        ChainPrefix(rows, month);
        assert rows[..|rows| - 1] == before;
        assert before != [] ==> before[|before| - 1] == rows[|rows| - 2];
      } else {
        assert rows == before;
      }
      TailIsLast(shorter, month);
    }
  }

  /** A version or a key that is taken makes the insert fail. */
  lemma TakenFails(table: seq<Row>, row: Row)
    requires Linear(table) && 1 <= row.version
    requires row.version <= |OfMonth(table, row.month)| || ByKey(table, row.month, row.key).Some?
    ensures Duplicate(table, row)
  {
    var rows := OfMonth(table, row.month);
    OfMonthMembers(table, row.month);
    if row.version <= |rows| {
      assert Chained(rows, row.month);
      assert Link(rows, row.version - 1, row.month);
      CollisionSeen(table, rows[row.version - 1], row);
    } else {
      ByKeyFinds(table, row.month, row.key);
      CollisionSeen(table, ByKey(table, row.month, row.key).value, row);
    }
  }

  lemma PlanLinks(table: seq<Row>, pc: Pc, clock: int)
    requires pc.AtInsert? && PlanOk(table, pc)
    ensures WellLinked(table, NewRow(pc.request, pc.version, pc.supersedes, clock))
  {
    OfMonthMembers(table, pc.request.month);
    if pc.version > 1 {
      assert OfMonth(table, pc.request.month)[pc.version - 2] in table;
    }
  }

  /** When the insert of a planned row fails, exactly: the version is taken or the key is. */
  lemma PlannedInsertFailsIff(s: State, w: nat, clock: int)
    requires Inv(s) && w in s.pcs && s.pcs[w].AtInsert?
    ensures var pc := s.pcs[w];
      var row := NewRow(pc.request, pc.version, pc.supersedes, clock);
      && WellLinked(s.table, row)
      && (Duplicate(s.table, row) <==>
          pc.version <= |OfMonth(s.table, pc.request.month)| || ByKey(s.table, pc.request.month, pc.request.key).Some?)
  {
    var pc := s.pcs[w];
    var row := NewRow(pc.request, pc.version, pc.supersedes, clock);
    assert PlanOk(s.table, pc);
    PlanLinks(s.table, pc, clock);
    if Duplicate(s.table, row) {
      var i :| 0 <= i < |s.table| && Collides(s.table[i], row);
      CollisionMeans(s.table, i, row);
    } else if pc.version <= |OfMonth(s.table, row.month)| || ByKey(s.table, row.month, row.key).Some? {
      TakenFails(s.table, row);
    }
  }

  lemma CollisionSeen(table: seq<Row>, stored: Row, row: Row)
    requires stored in table && Collides(stored, row)
    ensures Duplicate(table, row)
  {
    var i :| 0 <= i < |table| && table[i] == stored;
  }

  /** A stored row, found in the chain of its own month. */
  lemma StoredLink(table: seq<Row>, i: nat) returns (k: nat)
    requires Linear(table) && i < |table|
    ensures var rows := OfMonth(table, table[i].month);
      k < |rows| && rows[k] == table[i] && Link(rows, k, table[i].month)
  {
    OfMonthMembers(table, table[i].month);
    assert table[i] in OfMonth(table, table[i].month);
    assert Chained(OfMonth(table, table[i].month), table[i].month);
    k :| 0 <= k < |OfMonth(table, table[i].month)| && OfMonth(table, table[i].month)[k] == table[i];
  }

  lemma CollisionMeans(table: seq<Row>, i: nat, row: Row)
    requires Linear(table) && i < |table| && Collides(table[i], row)
    requires row.id == SettlementId(row.month, row.key)
    requires var rows := OfMonth(table, row.month);
      && 1 <= row.version <= |rows| + 1
      && row.supersedes == if row.version == 1 then None else Some(rows[row.version - 2].id)
    ensures row.version <= |OfMonth(table, row.month)| || ByKey(table, row.month, row.key).Some?
  {
    var k := StoredLink(table, i);
    ByKeyFinds(table, row.month, row.key);
    var rows, stored := OfMonth(table, row.month), table[i];
    if stored.supersedes.Some? && stored.supersedes == row.supersedes {
      assert Chained(rows, row.month);
      assert Link(rows, row.version - 2, row.month);
      var mine := OfMonth(table, stored.month);
      assert Link(mine, k - 1, stored.month);
      assert stored.month == row.month;
      assert rows[k - 1].key == rows[row.version - 2].key;
    }
  }

  // ---- Every step keeps the chain -------------------------------------------------------

  lemma PlanKept(table: seq<Row>, row: Row, pc: Pc)
    requires PlanOk(table, pc)
    ensures PlanOk(table + [row], pc)
  {
    if pc.AtInsert? {
      OfMonthAppend(table, row, pc.request.month);
    }
  }

  /** A month grows by its next version. */
  lemma ChainGrows(rows: seq<Row>, row: Row, month: string)
    requires Chained(rows, month) && row.month == month && row.id == SettlementId(month, row.key)
    requires row.digest == Digest(month, row.key, row.amount)
    requires forall k :: 0 <= k < |rows| ==> rows[k].key != row.key
    requires row.version == |rows| + 1 && row.supersedes == if rows == [] then None else Some(rows[|rows| - 1].id)
    ensures Chained(rows + [row], month)
  {
    forall k | 0 <= k < |rows| + 1 ensures Link(rows + [row], k, month) {
      if k < |rows| {
        assert Link(rows, k, month);
      }
    }
  }

  lemma FreshKey(table: seq<Row>, row: Row)
    requires ByKey(table, row.month, row.key).None?
    ensures forall k :: 0 <= k < |OfMonth(table, row.month)| ==> OfMonth(table, row.month)[k].key != row.key
  {
    ByKeyFinds(table, row.month, row.key);
    OfMonthMembers(table, row.month);
    forall k | 0 <= k < |OfMonth(table, row.month)| ensures OfMonth(table, row.month)[k].key != row.key {
      assert OfMonth(table, row.month)[k] in OfMonth(table, row.month);
    }
  }

  lemma AppendKeepsLinear(table: seq<Row>, row: Row)
    requires Linear(table) && ByKey(table, row.month, row.key).None? && row.id == SettlementId(row.month, row.key)
    requires row.digest == Digest(row.month, row.key, row.amount)
    requires var rows := OfMonth(table, row.month);
      && row.version == |rows| + 1
      && row.supersedes == if rows == [] then None else Some(rows[|rows| - 1].id)
    ensures Linear(table + [row])
  {
    FreshKey(table, row);
    assert Chained(OfMonth(table, row.month), row.month);
    ChainGrows(OfMonth(table, row.month), row, row.month);
    forall month ensures Chained(OfMonth(table + [row], month), month) {
      OfMonthAppend(table, row, month);
      assert Chained(OfMonth(table, month), month);
      if row.month != month {
        assert OfMonth(table + [row], month) == OfMonth(table, month);
      }
    }
  }

  lemma InsertKeepsInv(s: State, w: nat, clock: int)
    requires Inv(s) && w in s.pcs && s.pcs[w].AtInsert?
    ensures var pc := s.pcs[w];
      Inv(InsertRow(s, w, NewRow(pc.request, pc.version, pc.supersedes, clock), pc.request))
  {
    var pc := s.pcs[w];
    var row := NewRow(pc.request, pc.version, pc.supersedes, clock);
    PlannedInsertFailsIff(s, w, clock);
    assert PlanOk(s.table, pc);
    if !Duplicate(s.table, row) {
      AppendKeepsLinear(s.table, row);
      forall v | v in s.pcs ensures PlanOk(s.table + [row], s.pcs[v]) {
        PlanKept(s.table, row, s.pcs[v]);
      }
    }
  }

  lemma TailPlanOk(table: seq<Row>, r: Request)
    requires Linear(table)
    ensures var current := Tail(table, r.month);
      PlanOk(table, if current.None? then AtInsert(r, 1, None) else AtInsert(r, current.value.version + 1, Some(current.value.id)))
  {
    var rows := OfMonth(table, r.month);
    assert Chained(rows, r.month);
    TailIsLast(table, r.month);
    if rows != [] {
      assert Link(rows, |rows| - 1, r.month);
    }
  }

  lemma StepKeepsInv(s: State, step: Step)
    requires Inv(s)
    ensures Inv(Apply(s, step))
  {
    var w, pc := step.writer, PcOf(s, step.writer);
    if step.action.Statement? {
      if pc.AtTail? {
        TailPlanOk(s.table, pc.request);
      } else if pc.AtInsert? {
        InsertKeepsInv(s, w, step.action.clock);
      }
    }
  }

  lemma {:induction false} RunsKeepInv(s: State, steps: seq<Step>)
    requires Inv(s)
    ensures Inv(Run(s, steps))
    decreases |steps|
  {
    if steps != [] {
      RunsKeepInv(s, steps[..|steps| - 1]);
      StepKeepsInv(Run(s, steps[..|steps| - 1]), steps[|steps| - 1]);
    }
  }

  /** Under every interleaving a month holds versions 1..n without a gap, each superseding exactly the one before. */
  lemma VersionsFormOneChain(steps: seq<Step>, month: string)
    ensures Chained(OfMonth(Run(Initial(), steps).table, month), month)
  {
    assert Linear([]) by {
      forall m ensures Chained(OfMonth([], m), m) { }
    }
    RunsKeepInv(Initial(), steps);
  }

  /** No stored row ever changes or leaves. */
  lemma {:induction false} RowsAreFinal(s: State, steps: seq<Step>)
    ensures s.table <= Run(s, steps).table
    ensures s.log <= Run(s, steps).log
    decreases |steps|
  {
    if steps != [] { RowsAreFinal(s, steps[..|steps| - 1]); }
  }

  // ---- What callers were told ------------------------------------------------------------

  function CountRecorded(log: seq<Event>, month: string, key: string): nat
    decreases |log|
  {
    if log == [] then 0
    else
      var last := log[|log| - 1];
      CountRecorded(log[..|log| - 1], month, key)
      + if last.Recorded? && last.request.month == month && last.request.key == key then 1 else 0
  }

  ghost predicate AnswerOk(table: seq<Row>, e: Event) {
    match e
    case Recorded(r, v) =>
      exists i :: 0 <= i < |table| && table[i].month == r.month && table[i].key == r.key && table[i].version == v
                  && table[i].amount == r.amount
    case Replayed(r, v) =>
      exists i :: 0 <= i < |table| && table[i].month == r.month && table[i].key == r.key && table[i].version == v
                  && table[i].amount == r.amount
    case KeyConflict(r) =>
      exists i :: 0 <= i < |table| && table[i].month == r.month && table[i].key == r.key && table[i].amount != r.amount
    case MonthConflict(r) => OfMonth(table, r.month) != []
  }

  lemma AnswerKept(table: seq<Row>, row: Row, e: Event)
    requires AnswerOk(table, e)
    ensures AnswerOk(table + [row], e)
  {
    if e.MonthConflict? {
      OfMonthAppend(table, row, e.request.month);
    } else {
      var i :| 0 <= i < |table| && table[i].month == e.request.month && table[i].key == e.request.key
               && (!e.KeyConflict? ==> table[i].amount == e.request.amount && table[i].version == e.version)
               && (e.KeyConflict? ==> table[i].amount != e.request.amount);
      assert (table + [row])[i] == table[i];
    }
  }

  ghost predicate LogInv(s: State) {
    && (forall e :: e in s.log ==> AnswerOk(s.table, e))
    && (forall month, key :: CountRecorded(s.log, month, key) == if ByKey(s.table, month, key).Some? then 1 else 0)
  }

  lemma LogAppend(log: seq<Event>, e: Event, month: string, key: string)
    ensures CountRecorded(log + [e], month, key)
         == CountRecorded(log, month, key) + if e.Recorded? && e.request.month == month && e.request.key == key then 1 else 0
  {
    assert (log + [e])[..|log|] == log;
  }

  lemma ReportKeepsLog(s: State, w: nat, e: Event)
    requires LogInv(s) && !e.Recorded? && AnswerOk(s.table, e)
    ensures LogInv(Reported(s, w, e))
  {
    forall month, key ensures CountRecorded(s.log + [e], month, key) == if ByKey(s.table, month, key).Some? then 1 else 0 {
      LogAppend(s.log, e, month, key);
    }
  }

  lemma RecordKeepsLog(s: State, w: nat, row: Row, r: Request)
    requires LogInv(s) && row.month == r.month && row.key == r.key && row.amount == r.amount
    requires !Duplicate(s.table, row) && WellLinked(s.table, row)
    ensures LogInv(InsertRow(s, w, row, r))
  {
    var table, e := s.table + [row], Recorded(r, row.version);
    ByKeyFinds(s.table, row.month, row.key);
    if ByKey(s.table, row.month, row.key).Some? {
      CollisionSeen(s.table, ByKey(s.table, row.month, row.key).value, row);
      assert false;
    }
    assert table[|s.table|] == row;
    assert AnswerOk(table, e);
    forall f | f in s.log ensures AnswerOk(table, f) {
      AnswerKept(s.table, row, f);
    }
    forall month, key ensures CountRecorded(s.log + [e], month, key) == if ByKey(table, month, key).Some? then 1 else 0 {
      LogAppend(s.log, e, month, key);
      assert table[..|s.table|] == s.table;
    }
  }

  lemma KeyAnswerOk(table: seq<Row>, r: Request)
    requires Linear(table) && ByKey(table, r.month, r.key).Some?
    ensures var found := ByKey(table, r.month, r.key).value;
      AnswerOk(table, if found.digest != DigestOf(r) then KeyConflict(r) else Replayed(r, found.version))
  {
    ByKeyFinds(table, r.month, r.key);
    var found := ByKey(table, r.month, r.key).value;
    var i :| 0 <= i < |table| && table[i] == found;
    var k := StoredLink(table, i);
  }

  lemma StepKeepsLog(s: State, step: Step)
    requires Inv(s) && LogInv(s)
    ensures LogInv(Apply(s, step))
  {
    var w, pc := step.writer, PcOf(s, step.writer);
    if step.action.Statement? && pc.AtKey? {
      var r := pc.request;
      if ByKey(s.table, r.month, r.key).Some? {
        KeyAnswerOk(s.table, r);
        var found := ByKey(s.table, r.month, r.key).value;
        ReportKeepsLog(s, w, if found.digest != DigestOf(r) then KeyConflict(r) else Replayed(r, found.version));
      }
    } else if step.action.Statement? && pc.AtInsert? {
      var row := NewRow(pc.request, pc.version, pc.supersedes, step.action.clock);
      PlannedInsertFailsIff(s, w, step.action.clock);
      if Duplicate(s.table, row) {
        LostMonthHasRows(s, w, row);
        ReportKeepsLog(s, w, MonthConflict(pc.request));
      } else {
        RecordKeepsLog(s, w, row, pc.request);
      }
    }
  }

  lemma LostMonthHasRows(s: State, w: nat, row: Row)
    requires row.version <= |OfMonth(s.table, row.month)| || ByKey(s.table, row.month, row.key).Some?
    requires row.version >= 1
    ensures OfMonth(s.table, row.month) != []
  {
    ByKeyFinds(s.table, row.month, row.key);
    OfMonthMembers(s.table, row.month);
  }

  lemma {:induction false} RunsKeepLog(s: State, steps: seq<Step>)
    requires Inv(s) && LogInv(s)
    ensures LogInv(Run(s, steps))
    decreases |steps|
  {
    if steps != [] {
      RunsKeepLog(s, steps[..|steps| - 1]);
      RunsKeepInv(s, steps[..|steps| - 1]);
      StepKeepsLog(Run(s, steps[..|steps| - 1]), steps[|steps| - 1]);
    }
  }

  /**
   Any number of saves under one key, racing or retried, record at most one version;
   one was recorded exactly when the key has a row, and every answer given stays true.
   */
  lemma OneVersionPerKey(steps: seq<Step>, month: string, key: string)
    ensures var s := Run(Initial(), steps);
      && CountRecorded(s.log, month, key) <= 1
      && (CountRecorded(s.log, month, key) == 1 <==> ByKey(s.table, month, key).Some?)
      && (forall e :: e in s.log ==> AnswerOk(s.table, e))
  {
    assert Linear([]) by {
      forall m ensures Chained(OfMonth([], m), m) { }
    }
    assert LogInv(Initial());
    RunsKeepLog(Initial(), steps);
  }

  // ---- History -----------------------------------------------------------------------------

  const MAX_HISTORY: int := 50

  datatype Version = Version(version: int, amount: string, recordedAt: int, isCurrent: bool)

  datatype History = History(versions: seq<Version>, truncated: bool)

  function InsertByVersion(row: Row, rows: seq<Row>): seq<Row>
    decreases |rows|
  {
    if rows == [] || row.version > rows[0].version then [row] + rows
    else [rows[0]] + InsertByVersion(row, rows[1..])
  }

  /** ORDER BY version_no DESC. */
  function Descending(rows: seq<Row>): seq<Row>
    decreases |rows|
  {
    if rows == [] then [] else InsertByVersion(rows[|rows| - 1], Descending(rows[..|rows| - 1]))
  }

  function Bounded(limit: int): int {
    var atLeastOne := if limit < 1 then 1 else limit;
    if atLeastOne > MAX_HISTORY then MAX_HISTORY else atLeastOne
  }

  /** One row more than the window is fetched, and reported as truncation. */
  function Window(ordered: seq<Row>, bounded: nat): History {
    var rows := if |ordered| > bounded + 1 then ordered[..bounded + 1] else ordered;
    var window := if |rows| > bounded then rows[..bounded] else rows;
    History(seq(|window|, i requires 0 <= i < |window| =>
              Version(window[i].version, window[i].amount, window[i].recordedAt, i == 0)),
            |rows| > bounded)
  }

  function ReadHistory(table: seq<Row>, month: string, limit: int): History {
    Window(Descending(OfMonth(table, month)), Bounded(limit))
  }

  ghost predicate Exact(rows: seq<Row>, h: History, bounded: int) {
    && |h.versions| == (if |rows| > bounded then bounded else |rows|)
    && (forall i :: 0 <= i < |h.versions| ==> h.versions[i].version == |rows| - i && h.versions[i].amount == rows[|rows| - 1 - i].amount)
    && (forall i :: 0 <= i < |h.versions| ==> (h.versions[i].isCurrent <==> h.versions[i].version == |rows|))
    && (h.truncated <==> |h.versions| < |rows|)
  }

  lemma WindowIsExact(rows: seq<Row>, ordered: seq<Row>, bounded: nat)
    requires |ordered| == |rows|
    requires forall i :: 0 <= i < |rows| ==> ordered[i] == rows[|rows| - 1 - i] && ordered[i].version == |rows| - i
    ensures Exact(rows, Window(ordered, bounded), bounded)
  {
    var h := Window(ordered, bounded);
    forall i | 0 <= i < |h.versions| ensures h.versions[i] == Version(ordered[i].version, ordered[i].amount, ordered[i].recordedAt, i == 0) {
    }
  }

  lemma {:induction false} ChainDescends(rows: seq<Row>, month: string)
    requires Chained(rows, month)
    ensures |Descending(rows)| == |rows|
    ensures forall i :: 0 <= i < |rows| ==> Descending(rows)[i] == rows[|rows| - 1 - i]
    decreases |rows|
  {
    if rows != [] {
      var n := |rows| - 1;
      ChainPrefix(rows, month);
      ChainDescends(rows[..n], month);
      var rest := Descending(rows[..n]);
      assert rest != [] ==> rest[0] == rows[n - 1];
      assert Descending(rows) == [rows[n]] + rest;
    }
  }

  /**
   The history of a month with n versions lists n, n-1, ... with their stored amounts,
   marks version n and no other as current, and says truncated exactly when it stops early.
   */
  lemma HistoryIsExact(steps: seq<Step>, month: string, limit: int)
    ensures var table := Run(Initial(), steps).table;
      Exact(OfMonth(table, month), ReadHistory(table, month, limit), if limit < 1 then 1 else if limit > 50 then 50 else limit)
  {
    VersionsFormOneChain(steps, month);
    var rows := OfMonth(Run(Initial(), steps).table, month);
    ChainDescends(rows, month);
    forall i | 0 <= i < |rows| ensures Descending(rows)[i].version == |rows| - i {
      assert Link(rows, |rows| - 1 - i, month);
    }
    WindowIsExact(rows, Descending(rows), Bounded(limit));
  }

  // ---- One save without interruption --------------------------------------------------------

  lemma StoredDigest(table: seq<Row>, r: Request)
    requires Linear(table)
    ensures var found := ByKey(table, r.month, r.key);
      found.Some? ==> (found.value.digest == DigestOf(r) <==> found.value.amount == r.amount)
  {
    if ByKey(table, r.month, r.key).Some? {
      ByKeyFinds(table, r.month, r.key);
      var i :| 0 <= i < |table| && table[i] == ByKey(table, r.month, r.key).value;
      var k := StoredLink(table, i);
    }
  }

  lemma NextVersion(table: seq<Row>, month: string)
    requires Linear(table)
    ensures var rows, tail := OfMonth(table, month), Tail(table, month);
      && (tail.None? <==> rows == [])
      && (tail.Some? ==> tail.value.version == |rows| && tail.value.id == rows[|rows| - 1].id)
  {
    var rows := OfMonth(table, month);
    assert Chained(rows, month);
    TailIsLast(table, month);
    if rows != [] {
      assert Link(rows, |rows| - 1, month);
    }
  }

  class SettlementTable {
    var rows: seq<Row>

    constructor ()
      ensures rows == []
    {
      rows := [];
    }

    /** `recordSettlement`: replay, refuse, or append the month's next version. */
    method RecordSettlement(r: Request, clock: int) returns (e: Event)
      requires Linear(rows)
      modifies this
      ensures Linear(rows)
      ensures old(ByKey(rows, r.month, r.key)).None? ==>
        && e == Recorded(r, |old(OfMonth(rows, r.month))| + 1)
        && |rows| == |old(rows)| + 1 && rows[..|old(rows)|] == old(rows)
        && OfMonth(rows, r.month) == old(OfMonth(rows, r.month)) + [rows[|rows| - 1]]
        && rows[|rows| - 1].amount == r.amount && rows[|rows| - 1].recordedAt == clock
      ensures old(ByKey(rows, r.month, r.key)).Some? ==>
        && rows == old(rows)
        && e == if old(ByKey(rows, r.month, r.key)).value.amount == r.amount
                then Replayed(r, old(ByKey(rows, r.month, r.key)).value.version) else KeyConflict(r)
    {
      var replay := ByKey(rows, r.month, r.key);
      StoredDigest(rows, r);
      if replay.Some? {
        if replay.value.digest != DigestOf(r) {
          return KeyConflict(r);
        }
        return Replayed(r, replay.value.version);
      }
      var current := Tail(rows, r.month);
      var version := if current.None? then 1 else current.value.version + 1;
      var supersedes := if current.None? then None else Some(current.value.id);
      var row := NewRow(r, version, supersedes, clock);
      NextVersion(rows, r.month);
      OfMonthAppend(rows, row, r.month);
      AppendKeepsLinear(rows, row);
      rows := rows + [row];
      return Recorded(r, version);
    }
  }
}
