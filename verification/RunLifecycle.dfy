/**
 Audit runs: created under a deterministic key by separate statements, moved
 through their lifecycle by transactions that lock the row.
 */
module RunLifecycle {
  import opened Options

  datatype Status = Pending | Running | Completed | Failed | Cancelled

  /** What a run covers. Times are points on the normalised datetime order. */
  datatype Coverage = Coverage(
    ruleVersion: string, runType: string, periodStart: int, periodEnd: int, timezone: string, scheduledAt: Option<int>,
    correlation: Option<string>, triggeredBy: Option<string>)

  type Counters = seq<nat>

  datatype Run = Run(
    id: string, key: string, coverage: Coverage, status: Status, startedAt: Option<int>, finishedAt: Option<int>,
    errorCode: Option<string>, counters: Counters)

  /** A validated request; `id` is derived from the key and the coverage. */
  datatype Request = Request(id: string, key: string, coverage: Coverage)

  const NO_PROGRESS: Counters := [0, 0, 0, 0, 0, 0, 0]

  predicate Terminal(s: Status) { s.Completed? || s.Failed? || s.Cancelled? }

  // ---- Transitions of one locked row ----------------------------------------------------

  datatype Call =
    | MarkRunning(startedAt: int)
    | UpdateCounters(counters: Counters)
    | MarkCompleted(finishedAt: int, counters: Counters)
    | MarkFailed(finishedAt: int, errorCode: string, given: Option<Counters>)
    | MarkCancelled(finishedAt: int, reason: Option<string>, given: Option<Counters>)

  datatype Decision = Replay | Update(row: Run) | Refuse

  function Finish(row: Run, to: Status, at: int, error: Option<string>, counters: Option<Counters>): Decision {
    if row.status == to then
      if row.finishedAt != Some(at) || row.errorCode != error then Refuse
      else if counters.Some? && row.counters != counters.value then Refuse
      else Replay
    else if Terminal(row.status) then Refuse
    else
      var settled := if counters.Some? then counters.value else row.counters;
      Update(row.(status := to, finishedAt := Some(at), errorCode := error, counters := settled))
  }

  function Decide(row: Run, call: Call): Decision {
    match call
    case MarkRunning(at) =>
      if row.status.Running? then (if row.startedAt == Some(at) then Replay else Refuse)
      else if !row.status.Pending? then Refuse
      else Update(row.(status := Running, startedAt := Some(at)))
    case UpdateCounters(counters) =>
      if Terminal(row.status) then Refuse
      else if row.counters == counters then Replay
      else Update(row.(counters := counters))
    case MarkCompleted(at, counters) => Finish(row, Completed, at, None, Some(counters))
    case MarkFailed(at, code, counters) => Finish(row, Failed, at, Some(code), counters)
    case MarkCancelled(at, reason, counters) => Finish(row, Cancelled, at, reason, counters)
  }

  /** A call that did not fail, made again on the row it left, is a replay. */
  lemma RepeatedCallReplays(row: Run, call: Call)
    requires !Decide(row, call).Refuse?
    ensures var after := if Decide(row, call).Update? then Decide(row, call).row else row;
      Decide(after, call) == Replay
  {
  }

  /** The terminal status a call asks for, if it finishes a run. */
  function EndOf(call: Call): Option<Status> {
    match call
    case MarkCompleted(_, _) => Some(Completed)
    case MarkFailed(_, _, _) => Some(Failed)
    case MarkCancelled(_, _, _) => Some(Cancelled)
    case _ => None
  }

  /**
   Every call that changes a row, with the whole new row: a run starts from pending alone,
   counters move only while it is not finished, and it finishes from pending or running with
   the status, time and error asked for, keeping its counters when none are given.
   */
  lemma UpdateDecided(row: Run, call: Call)
    ensures Decide(row, call).Update? <==>
      match call
      case MarkRunning(_) => row.status == Pending
      case UpdateCounters(counters) => (row.status == Pending || row.status == Running) && row.counters != counters
      case _ => row.status == Pending || row.status == Running
    ensures Decide(row, call).Update? ==>
      Decide(row, call).row == match call
      case MarkRunning(at) => row.(status := Running, startedAt := Some(at))
      case UpdateCounters(counters) => row.(counters := counters)
      case MarkCompleted(at, counters) =>
        row.(status := Completed, finishedAt := Some(at), errorCode := None, counters := counters)
      case MarkFailed(at, code, given) =>
        row.(status := Failed, finishedAt := Some(at), errorCode := Some(code),
             counters := if given == None then row.counters else given.value)
      case MarkCancelled(at, reason, given) =>
        row.(status := Cancelled, finishedAt := Some(at), errorCode := reason,
             counters := if given == None then row.counters else given.value)
  {
  }

  /** A call is a replay exactly when the row already says all that it asks for; anything else that is no update is refused. */
  lemma ReplayDecided(row: Run, call: Call)
    ensures Decide(row, call) == Replay <==>
      match call
      case MarkRunning(at) => row.status == Running && row.startedAt == Some(at)
      case UpdateCounters(counters) => (row.status == Pending || row.status == Running) && row.counters == counters
      case MarkCompleted(at, counters) =>
        row.status == Completed && row.finishedAt == Some(at) && row.errorCode == None && row.counters == counters
      case MarkFailed(at, code, given) =>
        row.status == Failed && row.finishedAt == Some(at) && row.errorCode == Some(code) && (given == None || row.counters == given.value)
      case MarkCancelled(at, reason, given) =>
        row.status == Cancelled && row.finishedAt == Some(at) && row.errorCode == reason && (given == None || row.counters == given.value)
  {
  }

  // ---- Runs of the whole table ---------------------------------------------------------------

  datatype Pc = Idle | AtRead(request: Request) | AtInsert(request: Request) | AtReread(request: Request)

  datatype Answer = Inserted(request: Request) | Replayed(request: Request) | Conflict(request: Request) | Error(request: Request)

  /** `trails` keeps, beside each run, every status it has had. */
  datatype State = State(runs: seq<Run>, trails: seq<seq<Status>>, pcs: map<nat, Pc>, log: seq<Answer>)

  datatype Action = Begin(request: Request) | Statement | Crash | Transition(id: string, call: Call)

  datatype Step = Step(worker: nat, action: Action)

  function ById(runs: seq<Run>, id: string): Option<nat>
    decreases |runs|
  {
    if runs == [] then None
    else if runs[|runs| - 1].id == id then Some(|runs| - 1)
    else ById(runs[..|runs| - 1], id)
  }

  function ByKey(runs: seq<Run>, key: string): Option<nat>
    decreases |runs|
  {
    if runs == [] then None
    else if runs[|runs| - 1].key == key then Some(|runs| - 1)
    else ByKey(runs[..|runs| - 1], key)
  }

  lemma {:induction false} LookupsFind(runs: seq<Run>, id: string, key: string)
    ensures ById(runs, id).Some? ==> ById(runs, id).value < |runs| && runs[ById(runs, id).value].id == id
    ensures ById(runs, id).None? ==> forall i :: 0 <= i < |runs| ==> runs[i].id != id
    ensures ByKey(runs, key).Some? ==> ByKey(runs, key).value < |runs| && runs[ByKey(runs, key).value].key == key
    ensures ByKey(runs, key).None? ==> forall i :: 0 <= i < |runs| ==> runs[i].key != key
    decreases |runs|
  {
    if runs != [] { LookupsFind(runs[..|runs| - 1], id, key); }
  }

  function NewRun(r: Request): Run { Run(r.id, r.key, r.coverage, Pending, None, None, None, NO_PROGRESS) }

  /** Only what defines the run is compared; its progress is not. */
  function Compared(row: Run, r: Request): Answer {
    if row.id == r.id && row.key == r.key && row.coverage == r.coverage then Replayed(r) else Conflict(r)
  }

  function Told(s: State, w: nat, a: Answer): State { s.(pcs := s.pcs[w := Idle], log := s.log + [a]) }

  function CreateStatement(s: State, w: nat, pc: Pc): State {
    match pc
    case Idle => s
    case AtRead(r) =>
      LookupsFind(s.runs, r.id, r.key);
      var found := ByKey(s.runs, r.key);
      if found.Some? then Told(s, w, Compared(s.runs[found.value], r)) else s.(pcs := s.pcs[w := AtInsert(r)])
    case AtInsert(r) =>
      if ByKey(s.runs, r.key).Some? || ById(s.runs, r.id).Some? then s.(pcs := s.pcs[w := AtReread(r)])
      else State(s.runs + [NewRun(r)], s.trails + [[Pending]], s.pcs[w := Idle], s.log + [Inserted(r)])
    case AtReread(r) =>
      LookupsFind(s.runs, r.id, r.key);
      var raced := ByKey(s.runs, r.key);
      if raced.Some? then Told(s, w, Compared(s.runs[raced.value], r)) else Told(s, w, Error(r))
  }

  function Moved(s: State, i: nat, row: Run): State
    requires i < |s.runs| == |s.trails|
  {
    s.(runs := s.runs[i := row],
       trails := if row.status == s.runs[i].status then s.trails else s.trails[i := s.trails[i] + [row.status]])
  }

  function Apply(s: State, step: Step): (t: State)
    requires |s.runs| == |s.trails|
    ensures |t.runs| == |t.trails|
  {
    match step.action
    case Begin(r) => if step.worker in s.pcs && !s.pcs[step.worker].Idle? then s else s.(pcs := s.pcs[step.worker := AtRead(r)])
    case Crash => s.(pcs := s.pcs[step.worker := Idle])
    case Statement => CreateStatement(s, step.worker, if step.worker in s.pcs then s.pcs[step.worker] else Idle)
    case Transition(id, call) =>
      LookupsFind(s.runs, id, "");
      var found := ById(s.runs, id);
      if found.None? then s
      else
        var decision := Decide(s.runs[found.value], call);
        if decision.Update? then Moved(s, found.value, decision.row) else s
  }

  function RunAll(s: State, steps: seq<Step>): (t: State)
    requires |s.runs| == |s.trails|
    ensures |t.runs| == |t.trails|
    decreases |steps|
  {
    if steps == [] then s else Apply(RunAll(s, steps[..|steps| - 1]), steps[|steps| - 1])
  }

  function Initial(): State { State([], [], map[], []) }

  // ---- Every history is pending, perhaps running, then one terminal status ---------------------

  ghost predicate TrailOk(trail: seq<Status>) {
    || trail == [Pending] || trail == [Pending, Running]
    || (|trail| == 2 && trail[0] == Pending && Terminal(trail[1]))
    || (|trail| == 3 && trail[0] == Pending && trail[1] == Running && Terminal(trail[2]))
  }

  /** The row agrees with its history: started exactly if it ran, finished exactly if it ended, an error only on failure or cancellation. */
  ghost predicate RowOk(row: Run, trail: seq<Status>) {
    && TrailOk(trail) && trail[|trail| - 1] == row.status
    && (row.startedAt.Some? <==> |trail| > 1 && trail[1] == Running)
    && (row.finishedAt.Some? <==> Terminal(row.status))
    && (row.errorCode.Some? ==> row.status.Failed? || row.status.Cancelled?)
    && (row.status.Failed? ==> row.errorCode.Some?)
  }

  ghost predicate KeysUnique(runs: seq<Run>) {
    forall i, j :: 0 <= i < j < |runs| ==> runs[i].id != runs[j].id && runs[i].key != runs[j].key
  }

  ghost predicate Inv(s: State) {
    && |s.runs| == |s.trails| && KeysUnique(s.runs)
    && (forall i :: 0 <= i < |s.runs| ==> RowOk(s.runs[i], s.trails[i]))
  }

  lemma DecisionKeepsRow(row: Run, trail: seq<Status>, call: Call)
    requires RowOk(row, trail) && Decide(row, call).Update?
    ensures var after := Decide(row, call).row;
      && RowOk(after, if after.status == row.status then trail else trail + [after.status])
      && after.id == row.id && after.key == row.key && after.coverage == row.coverage && !Terminal(row.status)
  {
  }

  lemma StepKeepsInv(s: State, step: Step)
    requires Inv(s)
    ensures Inv(Apply(s, step))
  {
    if step.action.Transition? {
      LookupsFind(s.runs, step.action.id, "");
      var found := ById(s.runs, step.action.id);
      if found.Some? && Decide(s.runs[found.value], step.action.call).Update? {
        var i := found.value;
        DecisionKeepsRow(s.runs[i], s.trails[i], step.action.call);
        var t := Apply(s, step);
        forall j | 0 <= j < |t.runs| ensures RowOk(t.runs[j], t.trails[j]) {
          assert RowOk(s.runs[j], s.trails[j]);
        }
      }
    } else if step.action.Statement? && step.worker in s.pcs && s.pcs[step.worker].AtInsert? {
      var r := s.pcs[step.worker].request;
      LookupsFind(s.runs, r.id, r.key);
      assert RowOk(NewRun(r), [Pending]);
    }
  }

  lemma {:induction false} RunsKeepInv(s: State, steps: seq<Step>)
    requires Inv(s)
    ensures Inv(RunAll(s, steps))
    decreases |steps|
  {
    if steps != [] {
      RunsKeepInv(s, steps[..|steps| - 1]);
      StepKeepsInv(RunAll(s, steps[..|steps| - 1]), steps[|steps| - 1]);
    }
  }

  /** Over every interleaving each run has an admissible history, agrees with it, and shares its key with no other run. */
  lemma HistoriesAreAdmissible(steps: seq<Step>)
    ensures var s := RunAll(Initial(), steps);
      && |s.runs| == |s.trails| && KeysUnique(s.runs)
      && forall i :: 0 <= i < |s.runs| ==> RowOk(s.runs[i], s.trails[i])
  {
    RunsKeepInv(Initial(), steps);
  }

  ghost predicate Advances(before: Run, trailBefore: seq<Status>, after: Run, trailAfter: seq<Status>) {
    && after.id == before.id && after.key == before.key && after.coverage == before.coverage
    && trailBefore <= trailAfter
    && (Terminal(before.status) ==> after == before && trailAfter == trailBefore)
  }

  lemma StepAdvances(s: State, step: Step, i: nat)
    requires Inv(s) && i < |s.runs|
    ensures var t := Apply(s, step);
      |s.runs| <= |t.runs| == |t.trails| && Advances(s.runs[i], s.trails[i], t.runs[i], t.trails[i])
  {
    if step.action.Transition? {
      LookupsFind(s.runs, step.action.id, "");
      var found := ById(s.runs, step.action.id);
      if found == Some(i) && Decide(s.runs[i], step.action.call).Update? {
        DecisionKeepsRow(s.runs[i], s.trails[i], step.action.call);
      }
    }
  }

  /** A run's coverage never changes, its history only grows, and a terminal row is frozen for good. */
  lemma {:induction false} RunsOnlyAdvance(s: State, steps: seq<Step>, i: nat)
    requires Inv(s) && i < |s.runs|
    ensures var t := RunAll(s, steps);
      |s.runs| <= |t.runs| && Advances(s.runs[i], s.trails[i], t.runs[i], t.trails[i])
    decreases |steps|
  {
    if steps != [] {
      RunsOnlyAdvance(s, steps[..|steps| - 1], i);
      RunsKeepInv(s, steps[..|steps| - 1]);
      StepAdvances(RunAll(s, steps[..|steps| - 1]), steps[|steps| - 1], i);
    }
  }

  // ---- What ended a run ------------------------------------------------------------------------

  /** The n-th step asked for this end on a run that was not finished. */
  ghost predicate EndedAt(steps: seq<Step>, n: nat, id: string, end: Status)
    requires n < |steps|
  {
    var runs := RunAll(Initial(), steps[..n]).runs;
    && steps[n].action.Transition? && steps[n].action.id == id && EndOf(steps[n].action.call) == Some(end)
    && exists i :: 0 <= i < |runs| && runs[i].id == id && (runs[i].status == Pending || runs[i].status == Running)
  }

  ghost predicate Ended(steps: seq<Step>, id: string, end: Status) {
    exists n :: 0 <= n < |steps| && EndedAt(steps, n, id, end)
  }

  lemma EndedPrefix(steps: seq<Step>, id: string, end: Status)
    requires steps != []
    ensures Ended(steps, id, end) <==> Ended(steps[..|steps| - 1], id, end) || EndedAt(steps, |steps| - 1, id, end)
  {
    var k := |steps| - 1;
    if Ended(steps, id, end) {
      var n :| 0 <= n < |steps| && EndedAt(steps, n, id, end);
      if n < k {
        assert steps[..k][..n] == steps[..n];
        assert EndedAt(steps[..k], n, id, end);
      }
    }
    if Ended(steps[..k], id, end) {
      var n :| 0 <= n < k && EndedAt(steps[..k], n, id, end);
      assert steps[..k][..n] == steps[..n];
      assert EndedAt(steps, n, id, end);
    }
  }

  /** One step gives run i an end exactly when it asks for that end while the run is not finished. */
  lemma EndStep(s: State, step: Step, i: nat, end: Status)
    requires Inv(s) && i < |s.runs| && Terminal(end)
    ensures var t := Apply(s, step);
      && |s.runs| <= |t.runs|
      && (t.runs[i].status == end <==>
            s.runs[i].status == end
            || (step.action.Transition? && step.action.id == s.runs[i].id && EndOf(step.action.call) == Some(end)
                && !Terminal(s.runs[i].status)))
  {
    if step.action.Transition? {
      LookupsFind(s.runs, step.action.id, "");
      KeyOfRun(s.runs, i);
      if step.action.id == s.runs[i].id {
        UpdateDecided(s.runs[i], step.action.call);
      }
    }
  }

  lemma NewRunsArePending(s: State, step: Step, i: nat)
    requires Inv(s) && |s.runs| <= i < |Apply(s, step).runs|
    ensures Apply(s, step).runs[i].status == Pending
    ensures step.action.Statement? && forall k :: 0 <= k < |s.runs| ==> s.runs[k].id != Apply(s, step).runs[i].id
  {
    if step.action.Transition? {
      LookupsFind(s.runs, step.action.id, "");
    } else if step.action.Statement? && step.worker in s.pcs && s.pcs[step.worker].AtInsert? {
      var r := s.pcs[step.worker].request;
      LookupsFind(s.runs, r.id, r.key);
    }
  }

  /** No run of this id yet, so nothing has ended it. */
  lemma {:induction false} UnknownNotEnded(steps: seq<Step>, id: string, end: Status)
    requires forall k :: 0 <= k < |RunAll(Initial(), steps).runs| ==> RunAll(Initial(), steps).runs[k].id != id
    ensures !Ended(steps, id, end)
    decreases |steps|
  {
    if steps != [] {
      var s := RunAll(Initial(), steps[..|steps| - 1]);
      RunsKeepInv(Initial(), steps[..|steps| - 1]);
      var t := Apply(s, steps[|steps| - 1]);
      assert t == RunAll(Initial(), steps);
      forall k | 0 <= k < |s.runs| ensures s.runs[k].id != id {
        StepAdvances(s, steps[|steps| - 1], k);
        assert t.runs[k].id == s.runs[k].id;
      }
      UnknownNotEnded(steps[..|steps| - 1], id, end);
      EndedPrefix(steps, id, end);
    }
  }

  /**
   In every run of the table, a run stands at completed exactly when a completion was asked
   for while it was not finished, and likewise for failed and cancelled.
   */
  lemma {:induction false} EndIsWhatWasAsked(steps: seq<Step>, i: nat, end: Status)
    requires i < |RunAll(Initial(), steps).runs| && Terminal(end)
    ensures RunAll(Initial(), steps).runs[i].status == end <==> Ended(steps, RunAll(Initial(), steps).runs[i].id, end)
    decreases |steps|
  {
    if steps != [] {
      var s, step := RunAll(Initial(), steps[..|steps| - 1]), steps[|steps| - 1];
      var t := Apply(s, step);
      RunsKeepInv(Initial(), steps[..|steps| - 1]);
      EndedPrefix(steps, t.runs[i].id, end);
      if i < |s.runs| {
        EndIsWhatWasAsked(steps[..|steps| - 1], i, end);
        StepAdvances(s, step, i);
        EndStep(s, step, i, end);
        OnlyRunOfId(s.runs, i);
      } else {
        NewRunsArePending(s, step, i);
        UnknownNotEnded(steps[..|steps| - 1], t.runs[i].id, end);
      }
    }
  }

  lemma OnlyRunOfId(runs: seq<Run>, i: nat)
    requires KeysUnique(runs) && i < |runs|
    ensures (exists k :: 0 <= k < |runs| && runs[k].id == runs[i].id && (runs[k].status == Pending || runs[k].status == Running))
       <==> !Terminal(runs[i].status)
  {
    if exists k :: 0 <= k < |runs| && runs[k].id == runs[i].id && (runs[k].status == Pending || runs[k].status == Running) {
      var k :| 0 <= k < |runs| && runs[k].id == runs[i].id && (runs[k].status == Pending || runs[k].status == Running);
      assert k < i || k == i || i < k;
    }
  }

  /** A run is born pending, with the request's identity and coverage, no times, no error and every counter at zero. */
  lemma CreatedRun(s: State, w: nat)
    requires w in s.pcs && s.pcs[w].AtInsert? && |CreateStatement(s, w, s.pcs[w]).runs| > |s.runs|
    ensures var r, run := s.pcs[w].request, CreateStatement(s, w, s.pcs[w]).runs[|s.runs|];
      && run.id == r.id && run.key == r.key && run.coverage == r.coverage && run.status == Pending
      && run.startedAt == None && run.finishedAt == None && run.errorCode == None && run.counters == [0, 0, 0, 0, 0, 0, 0]
      && CreateStatement(s, w, s.pcs[w]).log == s.log + [Inserted(r)]
  {
  }

  lemma KeyOfRun(runs: seq<Run>, i: nat)
    requires KeysUnique(runs) && i < |runs|
    ensures ByKey(runs, runs[i].key) == Some(i) && ById(runs, runs[i].id) == Some(i)
  {
    LookupsFind(runs, runs[i].id, runs[i].key);
  }

  /** A finish that succeeded replays whenever it is repeated, after any other steps. */
  lemma FinishReplaysForever(s: State, id: string, call: Call, steps: seq<Step>, i: nat)
    requires Inv(s) && i < |s.runs| && s.runs[i].id == id
    requires call.MarkCompleted? || call.MarkFailed? || call.MarkCancelled?
    requires Decide(s.runs[i], call).Update?
    ensures var t := RunAll(Moved(s, i, Decide(s.runs[i], call).row), steps);
      i < |t.runs| && t.runs[i].id == id && Decide(t.runs[i], call) == Replay
  {
    KeyOfRun(s.runs, i);
    var t := Moved(s, i, Decide(s.runs[i], call).row);
    assert t == Apply(s, Step(0, Transition(id, call)));
    StepKeepsInv(s, Step(0, Transition(id, call)));
    RepeatedCallReplays(s.runs[i], call);
    RunsOnlyAdvance(t, steps, i);
  }

  /** A stored request replays whenever it is repeated, whatever progress its run has made; any other payload for its key conflicts. */
  lemma CreateReplaysForever(s: State, steps: seq<Step>, i: nat, r: Request)
    requires Inv(s) && i < |s.runs| && r.key == s.runs[i].key
    ensures var t := RunAll(s, steps);
      && ByKey(t.runs, r.key) == Some(i) && i < |t.runs|
      && Compared(t.runs[i], r) == if s.runs[i].id == r.id && s.runs[i].coverage == r.coverage then Replayed(r) else Conflict(r)
  {
    RunsKeepInv(s, steps);
    RunsOnlyAdvance(s, steps, i);
    KeyOfRun(RunAll(s, steps).runs, i);
  }

  // ---- The table in place -----------------------------------------------------------------------

  datatype Outcome = Updated(status: Status) | ReplayedAs(status: Status) | Refused | Missing

  class RunTable {
    var runs: seq<Run>

    constructor ()
      ensures runs == []
    {
      runs := [];
    }

    /** `transition`: the locked row is read, decided on and, unless it is a replay, rewritten. */
    method Transition(id: string, call: Call) returns (o: Outcome)
      modifies this
      ensures ById(old(runs), id).None? ==> o == Missing && runs == old(runs)
      ensures ById(old(runs), id).Some? ==>
        var i := ById(old(runs), id).value;
        && i < |old(runs)|
        && match Decide(old(runs)[i], call)
           case Refuse => o == Refused && runs == old(runs)
           case Replay => o == ReplayedAs(old(runs)[i].status) && runs == old(runs)
           case Update(row) => o == Updated(row.status) && runs == old(runs)[i := row]
      // A finish that is not refused leaves the run with the status, time and error asked for.
      ensures (o.Updated? || o.ReplayedAs?) && EndOf(call).Some? ==>
        var i := ById(old(runs), id).value;
        && i < |runs| && i < |old(runs)| && runs[i].id == id && Some(runs[i].status) == EndOf(call) && o.status == runs[i].status
        && (match call
            case MarkCompleted(at, counters) =>
              runs[i].finishedAt == Some(at) && runs[i].errorCode == None && runs[i].counters == counters
            case MarkFailed(at, code, given) =>
              runs[i].finishedAt == Some(at) && runs[i].errorCode == Some(code)
              && runs[i].counters == (if given == None then old(runs)[i].counters else given.value)
            case MarkCancelled(at, reason, given) =>
              runs[i].finishedAt == Some(at) && runs[i].errorCode == reason
              && runs[i].counters == (if given == None then old(runs)[i].counters else given.value)
            case _ => true)
      ensures o.Updated? && call.MarkRunning? ==>
        var i := ById(old(runs), id).value;
        i < |runs| && i < |old(runs)| && old(runs)[i].status == Pending && runs[i].status == Running && runs[i].startedAt == Some(call.startedAt)
      ensures o.Updated? && call.UpdateCounters? ==>
        var i := ById(old(runs), id).value;
        i < |runs| && i < |old(runs)| && !Terminal(old(runs)[i].status) && runs[i] == old(runs)[i].(counters := call.counters)
    {
      LookupsFind(runs, id, "");
      var found := ById(runs, id);
      if found.None? {
        return Missing;
      }
      UpdateDecided(runs[found.value], call);
      ReplayDecided(runs[found.value], call);
      var decision := Decide(runs[found.value], call);
      match decision {
        case Refuse => o := Refused;
        case Replay => o := ReplayedAs(runs[found.value].status);
        case Update(row) =>
          runs := runs[found.value := row];
          o := Updated(row.status);
      }
    }
  }
}

/**
 The rule contracts: saved as immutable snapshots, at most one of them active.
 Both operations run in a transaction that locks what they read.
 */
module RuleVersions {
  import opened Options

  datatype Status = Draft | Active | Retired

  /** The contract itself. `id` is derived from the label and the hashes. */
  datatype Snapshot = Snapshot(id: string, versionLabel: string, prompt: string, model: string, configHash: string)

  datatype Lifecycle = Lifecycle(
    status: Status, createdBy: Option<string>, reason: Option<string>, activatedBy: Option<string>, activatedAt: Option<int>,
    retiredBy: Option<string>, retiredAt: Option<int>)

  datatype Version = Version(snapshot: Snapshot, lifecycle: Lifecycle)

  datatype Answer = Inserted | Replayed | Activated | Conflict | Refused

  // ---- Lifecycle ----------------------------------------------------------------------------

  /** `validateRuleVersionLifecycle`, and what its comment promises of every stored version. */
  predicate Coherent(l: Lifecycle) {
    && (l.status.Draft? ==> l.activatedAt.None? && l.activatedBy.None?)
    && (!l.status.Draft? ==> l.activatedAt.Some?)
    && (l.status.Retired? ==> l.retiredAt.Some? && l.activatedAt.Some? && l.retiredAt.value >= l.activatedAt.value)
    && (!l.status.Retired? ==> l.retiredAt.None? && l.retiredBy.None?)
  }

  // ---- Operations -----------------------------------------------------------------------------

  /** The rows a snapshot's id or label matches. */
  function Matching(versions: seq<Version>, s: Snapshot): seq<nat>
    decreases |versions|
  {
    if versions == [] then []
    else
      var last := versions[|versions| - 1].snapshot;
      Matching(versions[..|versions| - 1], s) + if last.id == s.id || last.versionLabel == s.versionLabel then [|versions| - 1] else []
  }

  function ActiveRows(versions: seq<Version>): seq<nat>
    decreases |versions|
  {
    if versions == [] then []
    else
      ActiveRows(versions[..|versions| - 1])
      + if versions[|versions| - 1].lifecycle.status.Active? then [|versions| - 1] else []
  }

  function ById(versions: seq<Version>, id: string): Option<nat>
    decreases |versions|
  {
    if versions == [] then None
    else if versions[|versions| - 1].snapshot.id == id then Some(|versions| - 1)
    else ById(versions[..|versions| - 1], id)
  }

  lemma {:induction false} MatchingRows(versions: seq<Version>, s: Snapshot)
    ensures forall k :: 0 <= k < |Matching(versions, s)| ==> Matching(versions, s)[k] < |versions|
    ensures forall i: nat :: i in Matching(versions, s) <==>
      i < |versions| && (versions[i].snapshot.id == s.id || versions[i].snapshot.versionLabel == s.versionLabel)
    decreases |versions|
  {
    if versions != [] { MatchingRows(versions[..|versions| - 1], s); }
  }

  lemma {:induction false} ActiveRowsFind(versions: seq<Version>)
    ensures forall k :: 0 <= k < |ActiveRows(versions)| ==> ActiveRows(versions)[k] < |versions|
    ensures forall i: nat :: i in ActiveRows(versions) <==> i < |versions| && versions[i].lifecycle.status.Active?
    ensures forall j, k :: 0 <= j < k < |ActiveRows(versions)| ==> ActiveRows(versions)[j] < ActiveRows(versions)[k]
    decreases |versions|
  {
    if versions != [] { ActiveRowsFind(versions[..|versions| - 1]); }
  }

  lemma {:induction false} ByIdFinds(versions: seq<Version>, id: string)
    ensures ById(versions, id).Some? ==>
      ById(versions, id).value < |versions| && versions[ById(versions, id).value].snapshot.id == id
    ensures ById(versions, id).None? ==> forall i :: 0 <= i < |versions| ==> versions[i].snapshot.id != id
    decreases |versions|
  {
    if versions != [] { ByIdFinds(versions[..|versions| - 1], id); }
  }

  /** `writeRuleVersion` of a validated snapshot and lifecycle. */
  function Save(versions: seq<Version>, v: Version): (seq<Version>, Answer) {
    MatchingRows(versions, v.snapshot);
    var rows := Matching(versions, v.snapshot);
    if rows != [] then
      (versions, if |rows| > 1 || versions[rows[0]] != v then Conflict else Replayed)
    else if v.lifecycle.status.Active? && ActiveRows(versions) != [] then (versions, Refused)
    else (versions + [v], Inserted)
  }

  function Retire(v: Version, actor: Option<string>, at: int): Version {
    v.(lifecycle := v.lifecycle.(status := Retired, retiredBy := actor, retiredAt := Some(at)))
  }

  function Activate(v: Version, actor: Option<string>, at: int): Version {
    v.(lifecycle := v.lifecycle.(status := Active, activatedBy := actor, activatedAt := Some(at), retiredBy := None, retiredAt := None))
  }

  /** `switchRuleVersion`. */
  function Switch(versions: seq<Version>, id: string, actor: Option<string>, at: int, configHash: string): (seq<Version>, Answer) {
    ActiveRowsFind(versions);
    ByIdFinds(versions, id);
    var active, target := ActiveRows(versions), ById(versions, id);
    if |active| > 1 then (versions, Refused)
    else if target.None? || versions[target.value].snapshot.configHash != configHash then (versions, Refused)
    else if active != [] && versions[active[0]].snapshot.id == id then (versions, Replayed)
    else if versions[target.value].lifecycle.status.Active? then (versions, Refused)
    else
      var retired := if active == [] then versions else versions[active[0] := Retire(versions[active[0]], actor, at)];
      (retired[target.value := Activate(retired[target.value], actor, at)], Activated)
  }

  datatype Step = SaveStep(version: Version) | SwitchStep(id: string, actor: Option<string>, at: int, configHash: string)

  function Outcome(versions: seq<Version>, step: Step): (seq<Version>, Answer) {
    match step
    case SaveStep(v) => if Coherent(v.lifecycle) then Save(versions, v) else (versions, Refused)
    case SwitchStep(id, actor, at, hash) => Switch(versions, id, actor, at, hash)
  }

  function Run(versions: seq<Version>, steps: seq<Step>): seq<Version>
    decreases |steps|
  {
    if steps == [] then versions else Outcome(Run(versions, steps[..|steps| - 1]), steps[|steps| - 1]).0
  }

  // ---- At most one active, contracts immutable ---------------------------------------------------

  ghost predicate OneActive(versions: seq<Version>) {
    forall i, j :: 0 <= i < j < |versions| ==> !(versions[i].lifecycle.status.Active? && versions[j].lifecycle.status.Active?)
  }

  ghost predicate IdentitiesUnique(versions: seq<Version>) {
    forall i, j :: 0 <= i < j < |versions| ==>
      versions[i].snapshot.id != versions[j].snapshot.id && versions[i].snapshot.versionLabel != versions[j].snapshot.versionLabel
  }

  ghost predicate Inv(versions: seq<Version>) { OneActive(versions) && IdentitiesUnique(versions) }

  lemma TwoActive(versions: seq<Version>)
    requires |ActiveRows(versions)| > 1
    ensures !OneActive(versions)
  {
    ActiveRowsFind(versions);
    var rows := ActiveRows(versions);
    assert rows[0] in rows && rows[1] in rows && rows[0] < rows[1];
  }

  /** With at most one active row the locked read returns it or nothing. */
  lemma ActiveIsOne(versions: seq<Version>)
    requires OneActive(versions)
    ensures |ActiveRows(versions)| <= 1
    ensures ActiveRows(versions) != [] ==>
      ActiveRows(versions)[0] < |versions| && versions[ActiveRows(versions)[0]].lifecycle.status.Active?
    ensures forall i :: 0 <= i < |versions| && versions[i].lifecycle.status.Active? ==> ActiveRows(versions) == [i]
  {
    ActiveRowsFind(versions);
    var rows := ActiveRows(versions);
    if |rows| > 1 {
      TwoActive(versions);
    }
    if rows != [] {
      assert rows[0] in rows;
    }
    forall i | 0 <= i < |versions| && versions[i].lifecycle.status.Active? ensures rows == [i] {
      assert i in rows;
    }
  }

  lemma NothingMatches(versions: seq<Version>, s: Snapshot)
    requires Matching(versions, s) == []
    ensures forall i :: 0 <= i < |versions| ==> versions[i].snapshot.id != s.id && versions[i].snapshot.versionLabel != s.versionLabel
  {
    MatchingRows(versions, s);
    forall i | 0 <= i < |versions| ensures versions[i].snapshot.id != s.id && versions[i].snapshot.versionLabel != s.versionLabel {
      assert i !in Matching(versions, s);
    }
  }

  lemma NoneActive(versions: seq<Version>)
    requires ActiveRows(versions) == []
    ensures forall i :: 0 <= i < |versions| ==> !versions[i].lifecycle.status.Active?
  {
    ActiveRowsFind(versions);
    forall i | 0 <= i < |versions| ensures !versions[i].lifecycle.status.Active? {
      assert i !in ActiveRows(versions);
    }
  }

  lemma SaveKeepsInv(versions: seq<Version>, v: Version)
    requires Inv(versions)
    ensures Inv(Save(versions, v).0)
  {
    if Save(versions, v).1 == Inserted {
      NothingMatches(versions, v.snapshot);
      if v.lifecycle.status.Active? {
        NoneActive(versions);
      }
    }
  }

  /** What an activation does: the target becomes active, the one active before it is retired, nothing else changes. */
  lemma SwitchEffect(versions: seq<Version>, id: string, actor: Option<string>, at: int, configHash: string, i: nat)
    requires Inv(versions) && i < |versions| && Switch(versions, id, actor, at, configHash).1 == Activated
    ensures var after := Switch(versions, id, actor, at, configHash).0;
      && |after| == |versions|
      && after[i] == if versions[i].snapshot.id == id then Activate(versions[i], actor, at)
                     else if versions[i].lifecycle.status.Active? then Retire(versions[i], actor, at)
                     else versions[i]
  {
    ActiveIsOne(versions);
    ByIdFinds(versions, id);
  }

  lemma SwitchKeepsInv(versions: seq<Version>, id: string, actor: Option<string>, at: int, configHash: string)
    requires Inv(versions)
    ensures Inv(Switch(versions, id, actor, at, configHash).0)
    ensures |Switch(versions, id, actor, at, configHash).0| == |versions|
  {
    if Switch(versions, id, actor, at, configHash).1 == Activated {
      ActiveIsOne(versions);
      ByIdFinds(versions, id);
      var after := Switch(versions, id, actor, at, configHash).0;
      forall i | 0 <= i < |versions|
        ensures after[i].snapshot == versions[i].snapshot && (after[i].lifecycle.status.Active? <==> versions[i].snapshot.id == id)
      {
        SwitchEffect(versions, id, actor, at, configHash, i);
      }
    }
  }

  lemma StepKeepsInv(versions: seq<Version>, step: Step)
    requires Inv(versions)
    ensures Inv(Outcome(versions, step).0)
  {
    match step
    case SaveStep(v) => SaveKeepsInv(versions, v);
    case SwitchStep(id, actor, at, hash) => SwitchKeepsInv(versions, id, actor, at, hash);
  }

  lemma StepKeepsContracts(versions: seq<Version>, step: Step, i: nat)
    requires Inv(versions) && i < |versions|
    ensures var after := Outcome(versions, step).0;
      |versions| <= |after| && after[i].snapshot == versions[i].snapshot
  {
    if step.SwitchStep? && Outcome(versions, step).1 == Activated {
      SwitchEffect(versions, step.id, step.actor, step.at, step.configHash, i);
    }
  }

  /** Across all saves and activations at most one version is active, identities stay unique, and no stored contract changes. */
  lemma {:induction false} OneActiveContractsImmutable(versions: seq<Version>, steps: seq<Step>)
    requires Inv(versions)
    ensures var after := Run(versions, steps);
      && Inv(after) && |versions| <= |after|
      && forall i :: 0 <= i < |versions| ==> after[i].snapshot == versions[i].snapshot
    decreases |steps|
  {
    if steps != [] {
      var before, step := Run(versions, steps[..|steps| - 1]), steps[|steps| - 1];
      OneActiveContractsImmutable(versions, steps[..|steps| - 1]);
      StepKeepsInv(before, step);
      if |before| > 0 {
        StepKeepsContracts(before, step, 0);
      }
      forall i | 0 <= i < |versions| ensures Run(versions, steps)[i].snapshot == versions[i].snapshot {
        StepKeepsContracts(before, step, i);
      }
    }
  }

  /** A call that succeeded, made again at once, replays and changes nothing. */
  lemma RepeatedCallReplays(versions: seq<Version>, step: Step)
    requires Inv(versions)
    requires Outcome(versions, step).1 in {Inserted, Replayed, Activated}
    ensures Outcome(Outcome(versions, step).0, step) == (Outcome(versions, step).0, Replayed)
  {
    var after := Outcome(versions, step).0;
    match step
    case SaveStep(v) =>
      if Outcome(versions, step).1 == Inserted {
        MatchingRows(versions, v.snapshot);
        assert Matching(versions, v.snapshot) == [];
        assert after[..|versions|] == versions;
        assert Matching(after, v.snapshot) == [|versions|];
      }
    case SwitchStep(id, actor, at, hash) =>
      if Outcome(versions, step).1 == Activated {
        SwitchRepeats(versions, id, actor, at, hash);
      }
  }

  lemma SwitchRepeats(versions: seq<Version>, id: string, actor: Option<string>, at: int, hash: string)
    requires Inv(versions) && Switch(versions, id, actor, at, hash).1 == Activated
    ensures Switch(Switch(versions, id, actor, at, hash).0, id, actor, at, hash) == (Switch(versions, id, actor, at, hash).0, Replayed)
  {
    var after := Switch(versions, id, actor, at, hash).0;
    SwitchKeepsInv(versions, id, actor, at, hash);
    ByIdFinds(versions, id);
    var k := ById(versions, id).value;
    SwitchEffect(versions, id, actor, at, hash, k);
    ActiveIsOne(after);
    ByIdFinds(after, id);
    var j := ById(after, id).value;
    assert j == k;
  }

  // ---- Retired no earlier than activated ----------------------------------------------------------

  ghost predicate AllCoherent(versions: seq<Version>) {
    forall i :: 0 <= i < |versions| ==> Coherent(versions[i].lifecycle)
  }

  /** The activation time lies before that of the version it retires. */
  predicate Backdated(versions: seq<Version>, at: int) {
    exists i :: 0 <= i < |versions| && versions[i].lifecycle.status.Active?
      && versions[i].lifecycle.activatedAt.Some? && at < versions[i].lifecycle.activatedAt.value
  }

  /** An activation keeps every lifecycle coherent exactly when it is not backdated against the version it retires. */
  lemma SwitchKeepsCoherenceIff(versions: seq<Version>, id: string, actor: Option<string>, at: int, hash: string)
    requires Inv(versions) && AllCoherent(versions) && Switch(versions, id, actor, at, hash).1 == Activated
    ensures AllCoherent(Switch(versions, id, actor, at, hash).0) <==> !Backdated(versions, at)
  {
    var after := Switch(versions, id, actor, at, hash).0;
    SwitchKeepsInv(versions, id, actor, at, hash);
    ActiveIsOne(versions);
    ByIdFinds(versions, id);
    if Backdated(versions, at) {
      var i :| 0 <= i < |versions| && versions[i].lifecycle.status.Active?
               && versions[i].lifecycle.activatedAt.Some? && at < versions[i].lifecycle.activatedAt.value;
      SwitchEffect(versions, id, actor, at, hash, i);
      assert !Coherent(after[i].lifecycle);
    } else {
      forall i | 0 <= i < |after| ensures Coherent(after[i].lifecycle) {
        SwitchEffect(versions, id, actor, at, hash, i);
        assert Coherent(versions[i].lifecycle);
      }
    }
  }

  /** The n-th step of the run is an activation dated before that of the version it retires. */
  ghost predicate BackdatedAt(versions: seq<Version>, steps: seq<Step>, n: nat)
    requires n < |steps|
  {
    var before := Run(versions, steps[..n]);
    steps[n].SwitchStep? && Outcome(before, steps[n]).1 == Activated && Backdated(before, steps[n].at)
  }

  /** A save adds a validated lifecycle or nothing. */
  lemma SaveKeepsCoherence(versions: seq<Version>, v: Version)
    requires AllCoherent(versions)
    ensures AllCoherent(Outcome(versions, SaveStep(v)).0)
  {
  }

  lemma StepKeepsCoherenceIff(versions: seq<Version>, step: Step)
    requires Inv(versions) && AllCoherent(versions)
    ensures AllCoherent(Outcome(versions, step).0) <==>
      !(step.SwitchStep? && Outcome(versions, step).1 == Activated && Backdated(versions, step.at))
  {
    match step
    case SaveStep(v) => SaveKeepsCoherence(versions, v);
    case SwitchStep(id, actor, at, hash) =>
      SwitchAnswer(versions, id, actor, at, hash);
      if Outcome(versions, step).1 == Activated {
        SwitchKeepsCoherenceIff(versions, id, actor, at, hash);
      }
  }

  ghost predicate CoherentAt(versions: seq<Version>, steps: seq<Step>, n: nat)
    requires n <= |steps|
  {
    AllCoherent(Run(versions, steps[..n]))
  }

  lemma CoherentNextIff(versions: seq<Version>, steps: seq<Step>, n: nat)
    requires Inv(versions) && n < |steps| && CoherentAt(versions, steps, n)
    ensures CoherentAt(versions, steps, n + 1) <==> !BackdatedAt(versions, steps, n)
  {
    assert steps[..n + 1][..n] == steps[..n];
    OneActiveContractsImmutable(versions, steps[..n]);
    StepKeepsCoherenceIff(Run(versions, steps[..n]), steps[n]);
  }

  /** What each step of a chain decides, the whole chain decides. */
  lemma {:induction false} ChainIff(good: nat -> bool, bad: nat -> bool, k: nat)
    requires good(0) && forall n :: 0 <= n < k && good(n) ==> (good(n + 1) <==> !bad(n))
    ensures (forall n: nat :: n <= k ==> good(n)) <==> (forall n: nat :: n < k ==> !bad(n))
    decreases k
  {
    if k > 0 {
      ChainIff(good, bad, k - 1);
      assert good(k - 1) ==> (good(k) <==> !bad(k - 1));
    }
  }

  /** Over a run of saves and activations every lifecycle is coherent at every moment exactly when no activation is backdated. */
  lemma RunsKeepCoherenceIff(versions: seq<Version>, steps: seq<Step>)
    requires Inv(versions) && AllCoherent(versions)
    ensures (forall n :: 0 <= n <= |steps| ==> CoherentAt(versions, steps, n)) <==>
            (forall n :: 0 <= n < |steps| ==> !BackdatedAt(versions, steps, n))
  {
    ghost var good: nat -> bool := (n: nat) => n <= |steps| && CoherentAt(versions, steps, n);
    ghost var bad: nat -> bool := (n: nat) => n < |steps| && BackdatedAt(versions, steps, n);
    assert steps[..0] == [] && CoherentAt(versions, steps, 0);
    forall n | 0 <= n < |steps| && good(n) ensures good(n + 1) <==> !bad(n) {
      CoherentNextIff(versions, steps, n);
    }
    ChainIff(good, bad, |steps|);
    assert forall n :: 0 <= n <= |steps| ==> good(n) == CoherentAt(versions, steps, n);
    assert forall n :: 0 <= n < |steps| ==> bad(n) == BackdatedAt(versions, steps, n);
  }

  /** The promise is broken by one backdated activation. */
  lemma BackdatedSwitchBreaksCoherence()
    ensures var a := Version(Snapshot("a", "1", "", "", "h"), Lifecycle(Active, None, None, None, Some(5), None, None));
      var b := Version(Snapshot("b", "2", "", "", "h"), Lifecycle(Draft, None, None, None, None, None, None));
      && AllCoherent([a, b]) && Switch([a, b], "b", None, 3, "h").1 == Activated
      && !AllCoherent(Switch([a, b], "b", None, 3, "h").0)
  {
    var a := Version(Snapshot("a", "1", "", "", "h"), Lifecycle(Active, None, None, None, Some(5), None, None));
    var b := Version(Snapshot("b", "2", "", "", "h"), Lifecycle(Draft, None, None, None, None, None, None));
    var versions := [a, b];
    assert versions[..1] == [a] && [a][..0] == [];
    assert ActiveRows([a]) == [0] && ActiveRows(versions) == [0];
    assert ById(versions, "b") == Some(1);
    assert versions[0].lifecycle.status.Active? && 3 < versions[0].lifecycle.activatedAt.value;
    SwitchKeepsCoherenceIff(versions, "b", None, 3, "h");
  }

  // ---- The table in place ---------------------------------------------------------------------------

  /** Some stored version owns the snapshot's id or its label. */
  predicate Claimed(versions: seq<Version>, s: Snapshot) {
    exists i :: 0 <= i < |versions| && (versions[i].snapshot.id == s.id || versions[i].snapshot.versionLabel == s.versionLabel)
  }

  predicate HasActive(versions: seq<Version>) { exists i :: 0 <= i < |versions| && versions[i].lifecycle.status.Active? }

  /** A version of this id exists and was compiled against this contract. */
  predicate Offered(versions: seq<Version>, id: string, configHash: string) {
    exists i :: 0 <= i < |versions| && versions[i].snapshot.id == id && versions[i].snapshot.configHash == configHash
  }

  predicate LiveId(versions: seq<Version>, id: string) {
    exists i :: 0 <= i < |versions| && versions[i].snapshot.id == id && versions[i].lifecycle.status.Active?
  }

  lemma ClaimedIff(versions: seq<Version>, s: Snapshot)
    ensures Claimed(versions, s) <==> Matching(versions, s) != []
  {
    MatchingRows(versions, s);
    if Matching(versions, s) != [] {
      assert Matching(versions, s)[0] in Matching(versions, s);
    }
    if Claimed(versions, s) {
      var i :| 0 <= i < |versions| && (versions[i].snapshot.id == s.id || versions[i].snapshot.versionLabel == s.versionLabel);
      assert i in Matching(versions, s);
    }
  }

  lemma HasActiveIff(versions: seq<Version>)
    ensures HasActive(versions) <==> ActiveRows(versions) != []
  {
    ActiveRowsFind(versions);
    if ActiveRows(versions) != [] {
      assert ActiveRows(versions)[0] in ActiveRows(versions);
    }
    if HasActive(versions) {
      var i :| 0 <= i < |versions| && versions[i].lifecycle.status.Active?;
      assert i in ActiveRows(versions);
    }
  }

  /** A stored version is the only row its own id and label match. */
  lemma {:induction false} StoredMatchesItself(versions: seq<Version>, n: nat, i: nat)
    requires IdentitiesUnique(versions) && i < |versions| && n <= |versions|
    ensures Matching(versions[..n], versions[i].snapshot) == if i < n then [i] else []
    decreases n
  {
    if n > 0 {
      assert versions[..n][..n - 1] == versions[..n - 1];
      StoredMatchesItself(versions, n - 1, i);
    }
  }

  /** The answer of a save, in terms of what is stored. */
  lemma SaveAnswer(versions: seq<Version>, v: Version)
    requires Inv(versions)
    ensures Save(versions, v).1 == Replayed <==> v in versions
    ensures Save(versions, v).1 == Conflict <==> v !in versions && Claimed(versions, v.snapshot)
    ensures Save(versions, v).1 == Inserted <==>
      !Claimed(versions, v.snapshot) && !(v.lifecycle.status.Active? && HasActive(versions))
  {
    ClaimedIff(versions, v.snapshot);
    HasActiveIff(versions);
    MatchingRows(versions, v.snapshot);
    if v in versions {
      var i :| 0 <= i < |versions| && versions[i] == v;
      StoredMatchesItself(versions, |versions|, i);
      assert versions[..|versions|] == versions;
    }
  }

  lemma OfferedIff(versions: seq<Version>, id: string, configHash: string)
    requires IdentitiesUnique(versions)
    ensures Offered(versions, id, configHash) <==>
      ById(versions, id).Some? && ById(versions, id).value < |versions|
      && versions[ById(versions, id).value].snapshot.configHash == configHash
  {
    ByIdFinds(versions, id);
    if Offered(versions, id, configHash) {
      var i :| 0 <= i < |versions| && versions[i].snapshot.id == id && versions[i].snapshot.configHash == configHash;
      assert ById(versions, id).value == i;
    }
  }

  lemma LiveIdIff(versions: seq<Version>, id: string)
    requires Inv(versions)
    ensures LiveId(versions, id) <==>
      ActiveRows(versions) != [] && ActiveRows(versions)[0] < |versions| && versions[ActiveRows(versions)[0]].snapshot.id == id
    ensures (ById(versions, id).Some? && ById(versions, id).value < |versions|
             && versions[ById(versions, id).value].lifecycle.status.Active?) ==> LiveId(versions, id)
  {
    ActiveIsOne(versions);
    ByIdFinds(versions, id);
    if LiveId(versions, id) {
      var i :| 0 <= i < |versions| && versions[i].snapshot.id == id && versions[i].lifecycle.status.Active?;
      assert ActiveRows(versions) == [i];
    }
  }

  lemma SwitchDecided(versions: seq<Version>, id: string, actor: Option<string>, at: int, configHash: string)
    requires Inv(versions)
    ensures var (after, answer) := Switch(versions, id, actor, at, configHash);
      && answer in {Activated, Replayed, Refused} && (answer != Activated ==> after == versions)
      && (answer == Refused <==> !Offered(versions, id, configHash))
      && (answer == Replayed <==> Offered(versions, id, configHash) && LiveId(versions, id))
  {
    ActiveIsOne(versions);
    ByIdFinds(versions, id);
    OfferedIff(versions, id, configHash);
    LiveIdIff(versions, id);
  }

  lemma SwitchRows(versions: seq<Version>, id: string, actor: Option<string>, at: int, configHash: string)
    requires Inv(versions) && Switch(versions, id, actor, at, configHash).1 == Activated
    ensures var after := Switch(versions, id, actor, at, configHash).0;
      && |after| == |versions|
      && forall i :: 0 <= i < |versions| ==>
           after[i] == if versions[i].snapshot.id == id then Activate(versions[i], actor, at)
                       else if versions[i].lifecycle.status.Active? then Retire(versions[i], actor, at)
                       else versions[i]
  {
    SwitchKeepsInv(versions, id, actor, at, configHash);
    forall i | 0 <= i < |versions|
      ensures Switch(versions, id, actor, at, configHash).0[i]
           == if versions[i].snapshot.id == id then Activate(versions[i], actor, at)
              else if versions[i].lifecycle.status.Active? then Retire(versions[i], actor, at)
              else versions[i]
    {
      SwitchEffect(versions, id, actor, at, configHash, i);
    }
  }

  /** With the target live it is the only active version. */
  lemma LiveIsOnlyActive(versions: seq<Version>, id: string)
    requires Inv(versions) && LiveId(versions, id)
    ensures forall i :: 0 <= i < |versions| ==> (versions[i].lifecycle.status.Active? <==> versions[i].snapshot.id == id)
  {
    var k :| 0 <= k < |versions| && versions[k].snapshot.id == id && versions[k].lifecycle.status.Active?;
    forall i | 0 <= i < |versions| ensures versions[i].lifecycle.status.Active? <==> versions[i].snapshot.id == id {
      assert i < k || i == k || k < i;
    }
  }

  /** The answer of an activation, in terms of what is stored. */
  lemma SwitchAnswer(versions: seq<Version>, id: string, actor: Option<string>, at: int, configHash: string)
    requires Inv(versions)
    ensures var (after, answer) := Switch(versions, id, actor, at, configHash);
      && |after| == |versions| && answer in {Activated, Replayed, Refused} && (answer != Activated ==> after == versions)
      && (answer == Refused <==> !Offered(versions, id, configHash))
      && (answer == Replayed <==> Offered(versions, id, configHash) && LiveId(versions, id))
      && (answer != Refused ==>
            forall i :: 0 <= i < |versions| ==> (after[i].lifecycle.status.Active? <==> versions[i].snapshot.id == id))
      && (answer == Activated ==> forall i :: 0 <= i < |versions| ==>
            after[i] == if versions[i].snapshot.id == id then Activate(versions[i], actor, at)
                        else if versions[i].lifecycle.status.Active? then Retire(versions[i], actor, at)
                        else versions[i])
  {
    SwitchDecided(versions, id, actor, at, configHash);
    var answer := Switch(versions, id, actor, at, configHash).1;
    if answer == Activated {
      SwitchRows(versions, id, actor, at, configHash);
    } else if answer == Replayed {
      LiveIsOnlyActive(versions, id);
    }
  }

  lemma SwitchKeepsContracts(versions: seq<Version>, id: string, actor: Option<string>, at: int, configHash: string)
    requires Inv(versions)
    ensures var after := Switch(versions, id, actor, at, configHash).0;
      |after| == |versions| && forall i :: 0 <= i < |versions| ==> after[i].snapshot == versions[i].snapshot
  {
    SwitchAnswer(versions, id, actor, at, configHash);
  }

  class RuleVersionTable {
    var versions: seq<Version>

    constructor ()
      ensures versions == []
    {
      versions := [];
    }

    /** A contract is stored once and whole: an exact copy replays, any other claim to its id or label conflicts. */
    method SaveRuleVersionSnapshot(v: Version) returns (answer: Answer)
      requires Inv(versions)
      modifies this
      ensures Inv(versions) && (versions, answer) == Outcome(old(versions), SaveStep(v))
      ensures versions == if answer == Inserted then old(versions) + [v] else old(versions)
      ensures answer == Replayed <==> Coherent(v.lifecycle) && v in old(versions)
      ensures answer == Conflict <==> Coherent(v.lifecycle) && v !in old(versions) && Claimed(old(versions), v.snapshot)
      ensures answer == Inserted <==>
        Coherent(v.lifecycle) && !Claimed(old(versions), v.snapshot) && !(v.lifecycle.status.Active? && HasActive(old(versions)))
    {
      StepKeepsInv(versions, SaveStep(v));
      SaveAnswer(versions, v);
      if !Coherent(v.lifecycle) {
        return Refused;
      }
      MatchingRows(versions, v.snapshot);
      var rows := Matching(versions, v.snapshot);
      if rows != [] {
        return if |rows| > 1 || versions[rows[0]] != v then Conflict else Replayed;
      }
      if v.lifecycle.status.Active? && ActiveRows(versions) != [] {
        return Refused;
      }
      versions := versions + [v];
      return Inserted;
    }

    /** After a success the target and no other version is active; contracts never change, and every refusal is a missing or foreign target. */
    method ActivateRuleVersion(id: string, actor: Option<string>, at: int, configHash: string) returns (answer: Answer)
      requires Inv(versions)
      modifies this
      ensures Inv(versions) && (versions, answer) == Outcome(old(versions), SwitchStep(id, actor, at, configHash))
      ensures |versions| == |old(versions)| && forall i :: 0 <= i < |versions| ==> versions[i].snapshot == old(versions)[i].snapshot
      ensures answer in {Activated, Replayed, Refused} && (answer != Activated ==> versions == old(versions))
      ensures answer == Refused <==> !Offered(old(versions), id, configHash)
      ensures answer != Refused ==>
        forall i :: 0 <= i < |versions| ==> (versions[i].lifecycle.status.Active? <==> versions[i].snapshot.id == id)
      ensures answer == Replayed <==> Offered(old(versions), id, configHash) && LiveId(old(versions), id)
      ensures answer == Activated ==> forall i :: 0 <= i < |versions| ==>
        versions[i] == if versions[i].snapshot.id == id then Activate(old(versions)[i], actor, at)
                       else if old(versions)[i].lifecycle.status.Active? then Retire(old(versions)[i], actor, at)
                       else old(versions)[i]
      // Only lifecycle columns are written: who and when, and the retirement of a version that comes back is cleared.
      ensures answer == Activated ==> forall i :: 0 <= i < |versions| ==>
        && versions[i].lifecycle.createdBy == old(versions)[i].lifecycle.createdBy
        && versions[i].lifecycle.reason == old(versions)[i].lifecycle.reason
        && (versions[i].snapshot.id == id ==>
              && versions[i].lifecycle.status == Active && versions[i].lifecycle.activatedBy == actor
              && versions[i].lifecycle.activatedAt == Some(at)
              && versions[i].lifecycle.retiredBy == None && versions[i].lifecycle.retiredAt == None)
        && (versions[i].snapshot.id != id && old(versions)[i].lifecycle.status == Active ==>
              && versions[i].lifecycle.status == Retired && versions[i].lifecycle.retiredBy == actor
              && versions[i].lifecycle.retiredAt == Some(at)
              && versions[i].lifecycle.activatedBy == old(versions)[i].lifecycle.activatedBy
              && versions[i].lifecycle.activatedAt == old(versions)[i].lifecycle.activatedAt)
    {
      StepKeepsInv(versions, SwitchStep(id, actor, at, configHash));
      SwitchAnswer(versions, id, actor, at, configHash);
      SwitchKeepsContracts(versions, id, actor, at, configHash);
      answer := WriteSwitch(id, actor, at, configHash);
    }

    method WriteSwitch(id: string, actor: Option<string>, at: int, configHash: string) returns (answer: Answer)
      modifies this
      ensures (versions, answer) == Switch(old(versions), id, actor, at, configHash)
    {
      ActiveRowsFind(versions);
      ByIdFinds(versions, id);
      var active, target := ActiveRows(versions), ById(versions, id);
      if |active| > 1 {
        return Refused;
      }
      if target.None? || versions[target.value].snapshot.configHash != configHash {
        return Refused;
      }
      if active != [] && versions[active[0]].snapshot.id == id {
        return Replayed;
      }
      if versions[target.value].lifecycle.status.Active? {
        return Refused;
      }
      var retired := if active == [] then versions else versions[active[0] := Retire(versions[active[0]], actor, at)];
      versions := retired[target.value := Activate(retired[target.value], actor, at)];
      return Activated;
    }
  }
}
