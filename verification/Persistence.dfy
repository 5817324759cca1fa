/**
 Rows written under a deterministic key: insert, or replay what is stored, or refuse.

 Source references, result bundles and usage attempts share one shape. A save
 reads its key; if nothing is stored it inserts; if the insert hits a unique key
 it reads once more. Every statement is a step of its own. A result bundle's
 payload is the result row together with the set of its metric rows.
 */
module Persistence {
  import opened Options

  /** `id` is the primary key, `key` the deterministic one; both are unique. */
  datatype Row<P(==)> = Row(key: string, id: string, payload: P)

  datatype Pc<P(==)> = Idle | AtRead(row: Row<P>) | AtInsert(row: Row<P>) | AtReread(row: Row<P>)

  datatype Event<P(==)> = Inserted(row: Row<P>) | Replayed(row: Row<P>) | Conflict(row: Row<P>) | Failed(row: Row<P>)

  datatype State<P(==)> = State(table: seq<Row<P>>, pcs: map<nat, Pc<P>>, log: seq<Event<P>>)

  datatype Action<P(==)> = Begin(row: Row<P>) | Statement | Crash

  datatype Step<P(==)> = Step(writer: nat, action: Action<P>)

  function ByKey<P(==)>(table: seq<Row<P>>, key: string): Option<Row<P>>
    decreases |table|
  {
    if table == [] then None
    else if table[|table| - 1].key == key then Some(table[|table| - 1])
    else ByKey(table[..|table| - 1], key)
  }

  predicate Taken<P(==)>(table: seq<Row<P>>, row: Row<P>) {
    exists i :: 0 <= i < |table| && (table[i].key == row.key || table[i].id == row.id)
  }

  function PcOf<P(==)>(s: State<P>, w: nat): Pc<P> { if w in s.pcs then s.pcs[w] else Idle }

  function Moved<P(==)>(s: State<P>, w: nat, pc: Pc<P>): State<P> { s.(pcs := s.pcs[w := pc]) }

  function Told<P(==)>(s: State<P>, w: nat, e: Event<P>): State<P> { State(s.table, s.pcs[w := Idle], s.log + [e]) }

  /** A stored row either is the incoming one or refuses it; it is never merged over. */
  function Compared<P(==)>(stored: Row<P>, row: Row<P>): Event<P> {
    if stored == row then Replayed(row) else Conflict(row)
  }

  function Execute<P(==)>(s: State<P>, w: nat, pc: Pc<P>): State<P> {
    match pc
    case Idle => s
    case AtRead(row) =>
      var found := ByKey(s.table, row.key);
      if found.Some? then Told(s, w, Compared(found.value, row)) else Moved(s, w, AtInsert(row))
    case AtInsert(row) =>
      if Taken(s.table, row) then Moved(s, w, AtReread(row))
      else State(s.table + [row], s.pcs[w := Idle], s.log + [Inserted(row)])
    case AtReread(row) =>
      var raced := ByKey(s.table, row.key);
      if raced.Some? then Told(s, w, Compared(raced.value, row)) else Told(s, w, Failed(row))
  }

  function Apply<P(==)>(s: State<P>, step: Step<P>): State<P> {
    match step.action
    case Begin(row) => if PcOf(s, step.writer).Idle? then Moved(s, step.writer, AtRead(row)) else s
    case Crash => Moved(s, step.writer, Idle)
    case Statement => Execute(s, step.writer, PcOf(s, step.writer))
  }

  function Run<P(==)>(s: State<P>, steps: seq<Step<P>>): State<P>
    decreases |steps|
  {
    if steps == [] then s else Apply(Run(s, steps[..|steps| - 1]), steps[|steps| - 1])
  }

  function Initial<P(==)>(): State<P> { State([], map[], []) }

  function CountInserted<P(==)>(log: seq<Event<P>>, key: string): nat
    decreases |log|
  {
    if log == [] then 0
    else
      CountInserted(log[..|log| - 1], key)
      + if log[|log| - 1].Inserted? && log[|log| - 1].row.key == key then 1 else 0
  }

  // ---- What holds in every reachable state ----------------------------------------------

  ghost predicate KeysUnique<P>(table: seq<Row<P>>) {
    forall i, j :: 0 <= i < j < |table| ==> table[i].key != table[j].key && table[i].id != table[j].id
  }

  /** An answer that was given still describes the table. */
  ghost predicate AnswerOk<P>(table: seq<Row<P>>, e: Event<P>) {
    match e
    case Inserted(row) => row in table
    case Replayed(row) => row in table
    case Conflict(row) => row !in table && exists i :: 0 <= i < |table| && table[i].key == row.key
    case Failed(row) => row !in table && exists i :: 0 <= i < |table| && table[i].id == row.id
  }

  /** A save that lost its insert knows the key or the id is taken, and that stays so. */
  ghost predicate PcOk<P>(table: seq<Row<P>>, pc: Pc<P>) {
    pc.AtReread? ==> Taken(table, pc.row)
  }

  ghost predicate Inv<P(!new)>(s: State<P>) {
    && KeysUnique(s.table)
    && (forall e :: e in s.log ==> AnswerOk(s.table, e))
    && (forall w :: w in s.pcs ==> PcOk(s.table, s.pcs[w]))
    && (forall key :: CountInserted(s.log, key) == if ByKey(s.table, key).Some? then 1 else 0)
  }

  lemma {:induction false} ByKeyFinds<P>(table: seq<Row<P>>, key: string)
    ensures ByKey(table, key).Some? ==> ByKey(table, key).value in table && ByKey(table, key).value.key == key
    ensures ByKey(table, key).None? ==> forall i :: 0 <= i < |table| ==> table[i].key != key
    decreases |table|
  {
    if table != [] {
      var n := |table| - 1;
      ByKeyFinds(table[..n], key);
      assert table == table[..n] + [table[n]];
    }
  }

  /** Under unique keys the stored row of the key is the only one the incoming row could equal. */
  lemma StoredRow<P>(table: seq<Row<P>>, row: Row<P>)
    requires KeysUnique(table) && ByKey(table, row.key).Some?
    ensures row in table <==> ByKey(table, row.key).value == row
    ensures exists i :: 0 <= i < |table| && table[i].key == row.key
  {
    ByKeyFinds(table, row.key);
    var i :| 0 <= i < |table| && table[i] == ByKey(table, row.key).value;
    if row in table {
      var j :| 0 <= j < |table| && table[j] == row;
      assert i == j;
    }
  }

  lemma CountAppend<P>(log: seq<Event<P>>, e: Event<P>, key: string)
    ensures CountInserted(log + [e], key) == CountInserted(log, key) + if e.Inserted? && e.row.key == key then 1 else 0
  {
    assert (log + [e])[..|log|] == log;
  }

  lemma ToldKeepsInv<P(!new)>(s: State<P>, w: nat, e: Event<P>)
    requires Inv(s) && AnswerOk(s.table, e) && !e.Inserted?
    ensures Inv(Told(s, w, e))
  {
    forall key ensures CountInserted(s.log + [e], key) == if ByKey(s.table, key).Some? then 1 else 0 {
      CountAppend(s.log, e, key);
    }
  }

  lemma AnswerKept<P>(table: seq<Row<P>>, row: Row<P>, e: Event<P>)
    requires AnswerOk(table, e) && !Taken(table, row)
    ensures AnswerOk(table + [row], e)
  {
    if e.Conflict? {
      var i :| 0 <= i < |table| && table[i].key == e.row.key;
      assert (table + [row])[i] == table[i];
    } else if e.Failed? {
      var i :| 0 <= i < |table| && table[i].id == e.row.id;
      assert (table + [row])[i] == table[i];
    }
  }

  lemma PcKept<P>(table: seq<Row<P>>, row: Row<P>, pc: Pc<P>)
    requires PcOk(table, pc)
    ensures PcOk(table + [row], pc)
  {
    if pc.AtReread? {
      var i :| 0 <= i < |table| && (table[i].key == pc.row.key || table[i].id == pc.row.id);
      assert (table + [row])[i] == table[i];
    }
  }

  lemma InsertKeepsInv<P(!new)>(s: State<P>, w: nat, row: Row<P>)
    requires Inv(s) && !Taken(s.table, row)
    ensures Inv(State(s.table + [row], s.pcs[w := Idle], s.log + [Inserted(row)]))
  {
    var table, log := s.table + [row], s.log + [Inserted(row)];
    ByKeyFinds(s.table, row.key);
    forall e | e in log ensures AnswerOk(table, e) {
      if e in s.log {
        AnswerKept(s.table, row, e);
      }
    }
    forall v | v in s.pcs ensures PcOk(table, s.pcs[v]) {
      PcKept(s.table, row, s.pcs[v]);
    }
    forall key ensures CountInserted(log, key) == if ByKey(table, key).Some? then 1 else 0 {
      CountAppend(s.log, Inserted(row), key);
      assert table[..|s.table|] == s.table;
    }
  }

  lemma RereadAnswerOk<P>(table: seq<Row<P>>, row: Row<P>)
    requires KeysUnique(table) && (ByKey(table, row.key).None? ==> Taken(table, row))
    ensures AnswerOk(table, if ByKey(table, row.key).Some? then Compared(ByKey(table, row.key).value, row) else Failed(row))
  {
    if ByKey(table, row.key).Some? {
      StoredRow(table, row);
    } else {
      ByKeyFinds(table, row.key);
      var i :| 0 <= i < |table| && (table[i].key == row.key || table[i].id == row.id);
    }
  }

  lemma StepKeepsInv<P(!new)>(s: State<P>, step: Step<P>)
    requires Inv(s)
    ensures Inv(Apply(s, step))
  {
    var w, pc := step.writer, PcOf(s, step.writer);
    if step.action.Statement? && !pc.Idle? {
      assert PcOk(s.table, pc);
      var found := ByKey(s.table, pc.row.key);
      if pc.AtInsert? {
        if !Taken(s.table, pc.row) {
          InsertKeepsInv(s, w, pc.row);
        }
      } else if found.Some? || pc.AtReread? {
        RereadAnswerOk(s.table, pc.row);
        ToldKeepsInv(s, w, if found.Some? then Compared(found.value, pc.row) else Failed(pc.row));
      }
    }
  }

  lemma {:induction false} RunsKeepInv<P(!new)>(s: State<P>, steps: seq<Step<P>>)
    requires Inv(s)
    ensures Inv(Run(s, steps))
    decreases |steps|
  {
    if steps != [] {
      RunsKeepInv(s, steps[..|steps| - 1]);
      StepKeepsInv(Run(s, steps[..|steps| - 1]), steps[|steps| - 1]);
    }
  }

  /**
   First writer wins under every interleaving: at most one save per key reports
   `inserted`, one did exactly when the key is stored, and every answer ever given
   (replayed: the row is stored as submitted; conflict: another row holds the key)
   is still true of the table.
   */
  lemma FirstWriterWins<P(!new)>(steps: seq<Step<P>>, key: string)
    ensures var s := Run(Initial(), steps);
      && CountInserted(s.log, key) <= 1
      && (CountInserted(s.log, key) == 1 <==> ByKey(s.table, key).Some?)
      && (forall e :: e in s.log ==> AnswerOk(s.table, e))
      && KeysUnique(s.table)
  {
    RunsKeepInv(Initial(), steps);
  }

  lemma {:induction false} RowsAreFinal<P>(s: State<P>, steps: seq<Step<P>>)
    ensures s.table <= Run(s, steps).table && s.log <= Run(s, steps).log
    decreases |steps|
  {
    if steps != [] { RowsAreFinal(s, steps[..|steps| - 1]); }
  }

  lemma {:induction false} ByKeyKept<P>(table: seq<Row<P>>, longer: seq<Row<P>>, key: string)
    requires table <= longer && KeysUnique(longer) && ByKey(table, key).Some?
    ensures ByKey(longer, key) == ByKey(table, key)
  {
    ByKeyFinds(table, key);
    var stored := ByKey(table, key).value;
    var i :| 0 <= i < |table| && table[i] == stored;
    assert longer[i] == stored && longer[i].key == key;
    ByKeyFinds(longer, key);
    StoredRow(longer, stored);
  }

  /** Once a key is stored, each later answer about it is decided: replayed if equal, conflict if not. */
  lemma {:induction false} LaterAnswersDecided<P(!new)>(s: State<P>, steps: seq<Step<P>>, key: string)
    requires Inv(s) && ByKey(s.table, key).Some?
    ensures var log := Run(s, steps).log;
      && |s.log| <= |log|
      && forall k :: |s.log| <= k < |log| && log[k].row.key == key ==> log[k] == Compared(ByKey(s.table, key).value, log[k].row)
    decreases |steps|
  {
    if steps != [] {
      var t, step := Run(s, steps[..|steps| - 1]), steps[|steps| - 1];
      LaterAnswersDecided(s, steps[..|steps| - 1], key);
      RunsKeepInv(s, steps[..|steps| - 1]);
      RowsAreFinal(s, steps[..|steps| - 1]);
      ByKeyKept(s.table, t.table, key);
      var pc := PcOf(t, step.writer);
      if step.action.Statement? && pc.AtInsert? && pc.row.key == key {
        ByKeyFinds(t.table, key);
        var i :| 0 <= i < |t.table| && t.table[i] == ByKey(t.table, key).value;
        assert Taken(t.table, pc.row);
      }
    }
  }

  // ---- Ids derived from the key ----------------------------------------------------------

  ghost predicate Derived<P(!new)>(s: State<P>, idOf: string -> string) {
    && (forall row :: row in s.table ==> row.id == idOf(row.key))
    && (forall w :: w in s.pcs && !s.pcs[w].Idle? ==> s.pcs[w].row.id == idOf(s.pcs[w].row.key))
    && (forall e :: e in s.log ==> !e.Failed?)
  }

  ghost predicate Injective(idOf: string -> string) {
    forall x, y :: idOf(x) == idOf(y) ==> x == y
  }

  lemma DerivedStep<P(!new)>(s: State<P>, step: Step<P>, idOf: string -> string)
    requires Injective(idOf) && Inv(s) && Derived(s, idOf)
    requires step.action.Begin? ==> step.action.row.id == idOf(step.action.row.key)
    ensures Derived(Apply(s, step), idOf)
  {
    var pc := PcOf(s, step.writer);
    if step.action.Statement? && pc.AtReread? {
      assert PcOk(s.table, pc);
      var i :| 0 <= i < |s.table| && (s.table[i].key == pc.row.key || s.table[i].id == pc.row.id);
      assert s.table[i] in s.table;
      ByKeyFinds(s.table, pc.row.key);
    }
  }

  /** With ids derived injectively from keys, a lost insert always finds its row again: no save fails. */
  lemma {:induction false} DerivedIdsNeverFail<P(!new)>(steps: seq<Step<P>>, idOf: string -> string)
    requires Injective(idOf)
    requires forall k :: 0 <= k < |steps| && steps[k].action.Begin? ==> steps[k].action.row.id == idOf(steps[k].action.row.key)
    ensures Derived(Run(Initial(), steps), idOf)
    decreases |steps|
  {
    if steps != [] {
      DerivedIdsNeverFail(steps[..|steps| - 1], idOf);
      RunsKeepInv(Initial(), steps[..|steps| - 1]);
      DerivedStep(Run(Initial(), steps[..|steps| - 1]), steps[|steps| - 1], idOf);
    }
  }
}

/**
 The right to call the paid content model for one source revision.

 `claimContentAuditSpend` reads the result history and then inserts the claim,
 whose primary key is the source revision. Results may be saved between the two.
 */
module SpendClaim {
  import opened Options

  datatype Pc = Idle | AtHistory(source: string, run: string) | AtClaim(source: string, run: string, readAt: nat)

  /** `readAt` records how many results existed when the claim looked at the history. */
  datatype Event =
    | Claimed(source: string, run: string, readAt: nat)
    | PriorResult(source: string, run: string)
    | PriorClaim(source: string, run: string)

  datatype State = State(claims: map<string, string>, results: seq<(string, string)>, pcs: map<nat, Pc>, log: seq<Event>)

  datatype Action = Begin(source: string, run: string) | Statement | Crash | SaveResult(source: string, run: string)

  datatype Step = Step(worker: nat, action: Action)

  /** A result of another run for the same revision among the first n. */
  predicate OtherRun(results: seq<(string, string)>, n: nat, source: string, run: string)
    requires n <= |results|
  {
    exists i :: 0 <= i < n && results[i].0 == source && results[i].1 != run
  }

  function Apply(s: State, step: Step): State {
    var w := step.worker;
    var pc := if w in s.pcs then s.pcs[w] else Idle;
    match step.action
    case Begin(source, run) => if pc.Idle? then s.(pcs := s.pcs[w := AtHistory(source, run)]) else s
    case Crash => s.(pcs := s.pcs[w := Idle])
    case SaveResult(source, run) => s.(results := s.results + [(source, run)])
    case Statement =>
      match pc
      case Idle => s
      case AtHistory(source, run) =>
        if OtherRun(s.results, |s.results|, source, run)
        then s.(pcs := s.pcs[w := Idle], log := s.log + [PriorResult(source, run)])
        else s.(pcs := s.pcs[w := AtClaim(source, run, |s.results|)])
      case AtClaim(source, run, readAt) =>
        if source in s.claims then s.(pcs := s.pcs[w := Idle], log := s.log + [PriorClaim(source, run)])
        else State(s.claims[source := run], s.results, s.pcs[w := Idle], s.log + [Claimed(source, run, readAt)])
  }

  function Run(s: State, steps: seq<Step>): State
    decreases |steps|
  {
    if steps == [] then s else Apply(Run(s, steps[..|steps| - 1]), steps[|steps| - 1])
  }

  function Initial(): State { State(map[], [], map[], []) }

  function CountClaimed(log: seq<Event>, source: string): nat
    decreases |log|
  {
    if log == [] then 0
    else
      CountClaimed(log[..|log| - 1], source)
      + if log[|log| - 1].Claimed? && log[|log| - 1].source == source then 1 else 0
  }

  ghost predicate EventOk(s: State, e: Event) {
    match e
    case Claimed(source, run, readAt) =>
      && source in s.claims && s.claims[source] == run
      && readAt <= |s.results| && !OtherRun(s.results, readAt, source, run)
    case PriorResult(source, run) => OtherRun(s.results, |s.results|, source, run)
    case PriorClaim(source, run) => source in s.claims
  }

  ghost predicate Inv(s: State) {
    && (forall e :: e in s.log ==> EventOk(s, e))
    && (forall w :: w in s.pcs && s.pcs[w].AtClaim? ==>
          s.pcs[w].readAt <= |s.results| && !OtherRun(s.results, s.pcs[w].readAt, s.pcs[w].source, s.pcs[w].run))
    && (forall source :: CountClaimed(s.log, source) == if source in s.claims then 1 else 0)
  }

  lemma OtherRunKept(results: seq<(string, string)>, more: seq<(string, string)>, n: nat, source: string, run: string)
    requires n <= |results|
    ensures OtherRun(results + more, n, source, run) == OtherRun(results, n, source, run)
    ensures OtherRun(results, |results|, source, run) ==> OtherRun(results + more, |results + more|, source, run)
  {
    if OtherRun(results, |results|, source, run) {
      var i :| 0 <= i < |results| && results[i].0 == source && results[i].1 != run;
      assert (results + more)[i] == results[i];
    }
    if OtherRun(results, n, source, run) {
      var i :| 0 <= i < n && results[i].0 == source && results[i].1 != run;
      assert (results + more)[i] == results[i];
    }
    if OtherRun(results + more, n, source, run) {
      var i :| 0 <= i < n && (results + more)[i].0 == source && (results + more)[i].1 != run;
      assert results[i] == (results + more)[i];
    }
  }

  lemma CountAppend(log: seq<Event>, e: Event, source: string)
    ensures CountClaimed(log + [e], source) == CountClaimed(log, source) + if e.Claimed? && e.source == source then 1 else 0
  {
    assert (log + [e])[..|log|] == log;
  }

  lemma SaveKeepsInv(s: State, source: string, run: string)
    requires Inv(s)
    ensures Inv(s.(results := s.results + [(source, run)]))
  {
    var t := s.(results := s.results + [(source, run)]);
    forall e | e in t.log ensures EventOk(t, e) {
      assert EventOk(s, e);
      OtherRunKept(s.results, [(source, run)], if e.Claimed? then e.readAt else 0, e.source, e.run);
    }
    forall w | w in t.pcs && t.pcs[w].AtClaim?
      ensures t.pcs[w].readAt <= |t.results| && !OtherRun(t.results, t.pcs[w].readAt, t.pcs[w].source, t.pcs[w].run)
    {
      OtherRunKept(s.results, [(source, run)], s.pcs[w].readAt, s.pcs[w].source, s.pcs[w].run);
    }
  }

  lemma LogKeepsInv(s: State, w: nat, e: Event, claims: map<string, string>)
    requires Inv(s)
    requires if e.Claimed? then e.source !in s.claims && claims == s.claims[e.source := e.run] else claims == s.claims
    requires EventOk(s.(claims := claims), e)
    ensures Inv(State(claims, s.results, s.pcs[w := Idle], s.log + [e]))
  {
    var t := State(claims, s.results, s.pcs[w := Idle], s.log + [e]);
    forall f | f in t.log ensures EventOk(t, f) {
      if f in s.log {
        assert EventOk(s, f);
      }
    }
    forall source ensures CountClaimed(t.log, source) == if source in t.claims then 1 else 0 {
      CountAppend(s.log, e, source);
    }
  }

  lemma StepKeepsInv(s: State, step: Step)
    requires Inv(s)
    ensures Inv(Apply(s, step))
  {
    var w := step.worker;
    var pc := if w in s.pcs then s.pcs[w] else Idle;
    if step.action.SaveResult? {
      SaveKeepsInv(s, step.action.source, step.action.run);
    } else if step.action.Statement? && pc.AtHistory? {
      if OtherRun(s.results, |s.results|, pc.source, pc.run) {
        LogKeepsInv(s, w, PriorResult(pc.source, pc.run), s.claims);
      }
    } else if step.action.Statement? && pc.AtClaim? {
      if pc.source in s.claims {
        LogKeepsInv(s, w, PriorClaim(pc.source, pc.run), s.claims);
      } else {
        LogKeepsInv(s, w, Claimed(pc.source, pc.run, pc.readAt), s.claims[pc.source := pc.run]);
      }
    }
  }

  lemma {:induction false} RunsKeepInv(steps: seq<Step>)
    ensures Inv(Run(Initial(), steps))
    decreases |steps|
  {
    if steps != [] {
      RunsKeepInv(steps[..|steps| - 1]);
      StepKeepsInv(Run(Initial(), steps[..|steps| - 1]), steps[|steps| - 1]);
    }
  }

  /**
   Over every interleaving a source revision is claimed at most once, the one grant
   names the run on record, and it was granted only if no other run's result existed
   when that run looked; every refusal names a result or a claim that is there.
   */
  lemma ClaimedAtMostOnce(steps: seq<Step>, source: string)
    ensures var s := Run(Initial(), steps);
      && CountClaimed(s.log, source) <= 1
      && (CountClaimed(s.log, source) == 1 <==> source in s.claims)
      && (forall e :: e in s.log ==> EventOk(s, e))
  {
    RunsKeepInv(steps);
  }

  /** Another run's result is saved, and no claim of this run has already looked past the history. */
  ghost predicate Shut(s: State, source: string, run: string) {
    && OtherRun(s.results, |s.results|, source, run)
    && forall w :: w in s.pcs ==> !(s.pcs[w].AtClaim? && s.pcs[w].source == source && s.pcs[w].run == run)
  }

  lemma ShutStep(s: State, step: Step, source: string, run: string)
    requires Shut(s, source, run)
    ensures Shut(Apply(s, step), source, run) && s.log <= Apply(s, step).log
    ensures forall k :: |s.log| <= k < |Apply(s, step).log| ==>
      var e := Apply(s, step).log[k]; e.source == source && e.run == run ==> e.PriorResult?
  {
    if step.action.SaveResult? {
      OtherRunKept(s.results, [(step.action.source, step.action.run)], 0, source, run);
    }
  }

  /**
   A claim that looks at the history after another run's result was saved is refused for
   that reason, whatever any number of workers do before, between and after its statements.
   */
  lemma {:induction false} PriorResultRefused(s: State, steps: seq<Step>, source: string, run: string)
    requires Shut(s, source, run)
    ensures Shut(Run(s, steps), source, run) && s.log <= Run(s, steps).log
    ensures forall k :: |s.log| <= k < |Run(s, steps).log| ==>
      var e := Run(s, steps).log[k]; e.source == source && e.run == run ==> e.PriorResult?
    decreases |steps|
  {
    if steps != [] {
      PriorResultRefused(s, steps[..|steps| - 1], source, run);
      ShutStep(Run(s, steps[..|steps| - 1]), steps[|steps| - 1], source, run);
    }
  }
}
