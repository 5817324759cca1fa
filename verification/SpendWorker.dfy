/**
 The worker loop around the lease: claim, mark the work started, call the model,
 stage, persist, settle. Each worker handles the candidate in one session at a
 time; sessions of different workers interleave freely and any of them may die
 between two of its steps.
 */
module SpendWorker {
  import opened Options
  import opened ProviderErrors
  import opened SpendLease
  import Lease = SpendLeaseProtocol

  datatype Prog =
    | Out
    | Claiming
    | Holding
    | Recovering(result: AuditResult)
    | Calling
    | Staging(result: AuditResult)
    | Persisting(result: AuditResult)
    | Settling(modelSpent: bool)

  /** `paid` counts the model calls whose result the worker does not classify as free, and those it died in. */
  datatype State = State(lease: Lease.State, progs: map<WorkerId, Prog>, paid: nat)

  datatype StartAnswer = Started | AlreadyCompleted | StartFailed

  datatype Action =
    | Begin(at: Time, exclusive: bool)
    | ClaimStatement
    | MarkStarted(answer: StartAnswer)
    | CallModel(result: AuditResult)
    | StageIt
    | Persist(ok: bool)
    | SettleIt
    | Crash

  datatype Step = Step(worker: WorkerId, action: Action)

  /** The worker's own test: anything but a missing source or a retryable provider error has crossed the paid boundary. */
  predicate Paid(r: AuditResult) {
    !r.outcome.SourceMissing? && !RetryableProviderError(r.errorCode)
  }

  function ProgOf(s: State, w: WorkerId): Prog {
    if w in s.progs then s.progs[w] else Out
  }

  function Initial(): State {
    State(Lease.Initial(), map[], 0)
  }

  function Goto(s: State, w: WorkerId, p: Prog): State {
    s.(progs := s.progs[w := p])
  }

  /** The worker's lease statement and where it continues. */
  function Via(s: State, w: WorkerId, a: Lease.Action, terminal: AuditResult, p: Prog): State {
    Goto(s.(lease := Lease.Apply(s.lease, Lease.Step(w, a), terminal)), w, p)
  }

  function AfterClaim(lease: Lease.State, w: WorkerId): Prog {
    if !Lease.Pc(lease, w).Idle? then Claiming
    else if lease.log == [] then Out
    else match lease.log[|lease.log| - 1]
      case Acquire(_) => Holding
      case Recover(_, r) => Recovering(r)
      case _ => Out
  }

  function Apply(s: State, step: Step, terminal: AuditResult): State {
    var w, p := step.worker, ProgOf(s, step.worker);
    match step.action
    // A worker that dies inside the provider call may have paid for it, so it counts as having paid.
    case Crash => Via(s, w, Lease.Crash, terminal, Out).(paid := if p.Calling? then s.paid + 1 else s.paid)
    case Begin(at, exclusive) => if p.Out? then Via(s, w, Lease.BeginClaim(at, exclusive), terminal, Claiming) else s
    case ClaimStatement =>
      if !p.Claiming? then s
      else
        var lease' := Lease.Apply(s.lease, Lease.Step(w, Lease.ClaimStatement), terminal);
        Goto(s.(lease := lease'), w, AfterClaim(lease', w))
    case MarkStarted(answer) =>
      if p.Holding? then Goto(s, w, if answer.Started? then Calling else Settling(false))
      else if p.Recovering? then
        Goto(s, w, match answer
                   case Started => Persisting(p.result)
                   case AlreadyCompleted => Settling(true)
                   case StartFailed => Out)
      else s
    case CallModel(r) =>
      if !p.Calling? then s
      else if Paid(r) then Goto(s, w, Staging(r)).(paid := s.paid + 1)
      else Goto(s, w, Persisting(r))
    case StageIt =>
      if !p.Staging? then s
      else
        var owned := s.lease.row.Some? && OwnedBy(s.lease.row.value, w);
        Via(s, w, Lease.StageResult(p.result), terminal, if owned then Persisting(p.result) else Out)
    case Persist(ok) =>
      if !p.Persisting? then s
      else Goto(s, w, if ok then Settling(Paid(p.result)) else if Paid(p.result) then Out else Settling(false))
    case SettleIt =>
      if !p.Settling? then s else Via(s, w, Lease.Settle(p.modelSpent), terminal, Out)
  }

  function Run(steps: seq<Step>, terminal: AuditResult): State
    decreases |steps|
  {
    if steps == [] then Initial()
    else Apply(Run(steps[..|steps| - 1], terminal), steps[|steps| - 1], terminal)
  }

  // ---- Invariant ----------------------------------------------------------------

  /** A granted session that has not paid and may still pay or give the right back. */
  predicate Open(p: Prog) {
    p.Holding? || p.Calling? || (p.Persisting? && !Paid(p.result)) || (p.Settling? && !p.modelSpent)
  }

  predicate LeaseTaken(s: State) {
    s.lease.row.Some? && (s.lease.row.value.status.Active? || s.lease.row.value.status.Completed?)
  }

  predicate ProgOk(s: State, w: WorkerId) {
    var p := ProgOf(s, w);
    && (p.Claiming? <==> !Lease.Pc(s.lease, w).Idle?)
    && (p.Recovering? || p.Staging? ==> Paid(p.result))
    && (Open(p) ==> s.paid == 0 && LeaseTaken(s))
    && (Lease.Pc(s.lease, w).AtRecoverStaged? ==> Paid(s.lease.pcs[w].seen))
  }

  ghost predicate OneOpen(s: State) {
    forall v, w :: Open(ProgOf(s, v)) && Open(ProgOf(s, w)) ==> v == w
  }

  ghost predicate NoneOpen(s: State) {
    forall w :: !Open(ProgOf(s, w))
  }

  ghost predicate Inv(s: State) {
    && (forall w :: ProgOk(s, w))
    && OneOpen(s)
    && s.paid <= 1
    && (s.paid == 1 ==> LeaseTaken(s))
    && (s.lease.row.Some? && s.lease.row.value.staged.Some? ==> Paid(s.lease.row.value.staged.value))
  }

  lemma PaidSurvivesStaging(r: AuditResult)
    ensures Paid(Minimal(r)) == Paid(r)
  {
    var t, c := "TRANSCRIPTION_PROVIDER_", "CLASSIFICATION_PROVIDER_";
    assert |t| > 0 && |c| > 0;
  }

  /** A step of one worker leaves every other session as it was. */
  lemma OthersUndisturbed(s: State, s': State, w: WorkerId)
    requires (forall v :: ProgOk(s, v)) && OneOpen(s) && ProgOk(s', w)
    requires forall v :: v != w ==> ProgOf(s', v) == ProgOf(s, v) && Lease.Pc(s'.lease, v) == Lease.Pc(s.lease, v)
    requires NoneOpen(s) || Open(ProgOf(s, w)) || (s'.paid == s.paid && (LeaseTaken(s) ==> LeaseTaken(s')))
    requires Open(ProgOf(s', w)) ==> NoneOpen(s) || Open(ProgOf(s, w))
    ensures (forall v :: ProgOk(s', v)) && OneOpen(s')
  {
    forall v ensures ProgOk(s', v) {
      assert ProgOk(s, v);
    }
    forall v, u | Open(ProgOf(s', v)) && Open(ProgOf(s', u)) ensures v == u {
      if v != w && u != w {
        assert Open(ProgOf(s, v)) && Open(ProgOf(s, u));
      }
    }
  }

  lemma NoneOpenUnlessTaken(s: State)
    requires forall v :: ProgOk(s, v)
    ensures !LeaseTaken(s) || s.paid > 0 ==> NoneOpen(s)
  {
    forall w | Open(ProgOf(s, w)) ensures LeaseTaken(s) && s.paid == 0 {
      assert ProgOk(s, w);
    }
  }

  /** The claiming worker's own position after one statement of its claim. */
  lemma ClaimProgOk(s: State, w: WorkerId, terminal: AuditResult)
    requires Inv(s) && NoneOpenOrTaken(s) && Paid(terminal) && ProgOf(s, w).Claiming?
    ensures ProgOk(Apply(s, Step(w, ClaimStatement), terminal), w)
  {
    assert ProgOk(s, w);
  }

  ghost predicate NoneOpenOrTaken(s: State) { !LeaseTaken(s) || s.paid > 0 ==> NoneOpen(s) }

  /** What a claim statement may do to the lease. */
  lemma ClaimLeaseEffect(s: State, w: WorkerId, terminal: AuditResult)
    requires Inv(s) && Minimal(terminal) == terminal && Paid(terminal) && ProgOf(s, w).Claiming?
    ensures var s' := Apply(s, Step(w, ClaimStatement), terminal);
      && s'.paid == s.paid && (LeaseTaken(s) ==> LeaseTaken(s'))
      && (Open(ProgOf(s', w)) ==> !LeaseTaken(s))
      && (s'.lease.row.Some? && s'.lease.row.value.staged.Some? ==> Paid(s'.lease.row.value.staged.value))
      && forall v :: v != w ==> ProgOf(s', v) == ProgOf(s, v) && Lease.Pc(s'.lease, v) == Lease.Pc(s.lease, v)
  {
    assert ProgOk(s, w);
  }

  lemma ClaimKeepsInv(s: State, w: WorkerId, terminal: AuditResult)
    requires Inv(s) && Minimal(terminal) == terminal && Paid(terminal) && ProgOf(s, w).Claiming?
    ensures Inv(Apply(s, Step(w, ClaimStatement), terminal))
  {
    NoneOpenUnlessTaken(s);
    ClaimProgOk(s, w, terminal);
    ClaimLeaseEffect(s, w, terminal);
    OthersUndisturbed(s, Apply(s, Step(w, ClaimStatement), terminal), w);
  }

  lemma LeaseStepKeepsInv(s: State, step: Step, terminal: AuditResult)
    requires Inv(s) && Minimal(terminal) == terminal
    requires step.action.StageIt? || step.action.SettleIt? || step.action.Crash? || step.action.Begin?
    ensures Inv(Apply(s, step, terminal))
  {
    var w, p, s' := step.worker, ProgOf(s, step.worker), Apply(s, step, terminal);
    assert ProgOk(s, w);
    if s' != s {
      if p.Staging? {
        PaidSurvivesStaging(p.result);
      }
      assert ProgOk(s', w);
      OthersUndisturbed(s, s', w);
    }
  }

  lemma StepKeepsInv(s: State, step: Step, terminal: AuditResult)
    requires Inv(s) && Minimal(terminal) == terminal && Paid(terminal)
    ensures Inv(Apply(s, step, terminal))
  {
    var w, s' := step.worker, Apply(s, step, terminal);
    if step.action.ClaimStatement? {
      if ProgOf(s, w).Claiming? {
        ClaimKeepsInv(s, w, terminal);
      }
    } else if step.action.StageIt? || step.action.SettleIt? || step.action.Crash? || step.action.Begin? {
      LeaseStepKeepsInv(s, step, terminal);
    } else if s' != s {
      assert ProgOk(s, w);
      assert ProgOk(s', w);
      OthersUndisturbed(s, s', w);
    }
  }

  lemma {:induction false} RunsKeepInv(steps: seq<Step>, terminal: AuditResult)
    requires Minimal(terminal) == terminal && Paid(terminal)
    ensures Inv(Run(steps, terminal))
    decreases |steps|
  {
    if steps != [] {
      RunsKeepInv(steps[..|steps| - 1], terminal);
      StepKeepsInv(Run(steps[..|steps| - 1], terminal), steps[|steps| - 1], terminal);
    }
  }

  /**
   The guarantee the lease exists for: whatever the schedule, the crashes and
   the clocks, one audit question is paid for at most once, and once it has been
   paid for no later step of any worker is granted the right to pay again.
   */
  lemma PaidAtMostOnce(steps: seq<Step>, callId: string, artifactId: string)
    ensures var s := Run(steps, UnknownSpend(callId, artifactId));
            s.paid <= 1 && (s.paid == 1 ==> forall w :: !ProgOf(s, w).Holding? && !ProgOf(s, w).Calling?)
  {
    var terminal := UnknownSpend(callId, artifactId);
    Lease.TerminalStable(callId, artifactId);
    var code, t, c := "AUDIT_SPEND_STATE_UNKNOWN", "TRANSCRIPTION_PROVIDER_", "CLASSIFICATION_PROVIDER_";
    assert code[0] == 'A' && t[0] == 'T' && c[0] == 'C';
    assert Paid(terminal);
    RunsKeepInv(steps, terminal);
    var s := Run(steps, terminal);
    if s.paid == 1 {
      forall w ensures !ProgOf(s, w).Holding? && !ProgOf(s, w).Calling? {
        assert ProgOk(s, w);
      }
    }
  }

  // ---- What a settlement says ------------------------------------------------------

  predicate HasRecovered(log: seq<Lease.Event>) { exists i :: 0 <= i < |log| && log[i].Recover? }

  /** A session that will settle its lease as spent. */
  predicate WillSpend(p: Prog) {
    p.Recovering? || p.Staging? || (p.Persisting? && Paid(p.result)) || (p.Settling? && p.modelSpent)
  }

  /** Money went into it, or it came out of recovery. */
  predicate Accounted(s: State) { s.paid > 0 || HasRecovered(s.lease.log) }

  ghost predicate SpendInv(s: State) {
    && (forall w :: WillSpend(ProgOf(s, w)) ==> Accounted(s))
    && (forall i :: 0 <= i < |s.lease.log| && s.lease.log[i].Spend? ==> Accounted(s))
  }

  lemma RecoveredKept(log: seq<Lease.Event>, e: Lease.Event)
    ensures HasRecovered(log) || e.Recover? ==> HasRecovered(log + [e])
  {
    if HasRecovered(log) {
      var i :| 0 <= i < |log| && log[i].Recover?;
      assert (log + [e])[i] == log[i];
    }
    assert (log + [e])[|log|] == e;
  }

  /** A lease step reports at most one event; a spent settlement only in the step that settles as spent. */
  lemma LeaseReports(l: Lease.State, step: Lease.Step, terminal: AuditResult)
    ensures var log := Lease.Apply(l, step, terminal).log;
      log == l.log || (|log| == |l.log| + 1 && log[..|l.log|] == l.log && log == l.log + [log[|l.log|]]
                       && (log[|l.log|].Spend? ==> step.action == Lease.Settle(true)))
  {
    var log := Lease.Apply(l, step, terminal).log;
    assert log == l.log || log == l.log + [log[|log| - 1]];
  }

  lemma AccountedKept(s: State, t: State)
    requires t.paid >= s.paid
    requires t.lease.log == s.lease.log || (|t.lease.log| > 0 && t.lease.log == s.lease.log + [t.lease.log[|t.lease.log| - 1]])
    ensures Accounted(s) ==> Accounted(t)
    ensures t.lease.log != s.lease.log && t.lease.log[|t.lease.log| - 1].Recover? ==> Accounted(t)
  {
    if t.lease.log != s.lease.log {
      RecoveredKept(s.lease.log, t.lease.log[|t.lease.log| - 1]);
    }
  }

  lemma SpendStep(s: State, step: Step, terminal: AuditResult)
    requires SpendInv(s)
    ensures SpendInv(Apply(s, step, terminal))
  {
    var t, w := Apply(s, step, terminal), step.worker;
    var p := ProgOf(s, w);
    if step.action.ClaimStatement? && p.Claiming? {
      LeaseReports(s.lease, Lease.Step(w, Lease.ClaimStatement), terminal);
    } else if step.action.Begin? && p.Out? {
      LeaseReports(s.lease, Lease.Step(w, Lease.BeginClaim(step.action.at, step.action.exclusive)), terminal);
    } else if step.action.StageIt? && p.Staging? {
      LeaseReports(s.lease, Lease.Step(w, Lease.StageResult(p.result)), terminal);
    } else if step.action.SettleIt? && p.Settling? {
      LeaseReports(s.lease, Lease.Step(w, Lease.Settle(p.modelSpent)), terminal);
    }
    AccountedKept(s, t);
    assert WillSpend(p) ==> Accounted(s);
    forall v | WillSpend(ProgOf(t, v)) ensures Accounted(t) {
      if v != w {
        assert ProgOf(t, v) == ProgOf(s, v);
      }
    }
  }

  lemma {:induction false} RunsKeepSpend(steps: seq<Step>, terminal: AuditResult)
    ensures SpendInv(Run(steps, terminal))
    decreases |steps|
  {
    if steps != [] {
      RunsKeepSpend(steps[..|steps| - 1], terminal);
      SpendStep(Run(steps[..|steps| - 1], terminal), steps[|steps| - 1], terminal);
    }
  }

  /** A lease is settled as spent only if a model call was paid for or a recovered lease was closed; an unpaid answer never closes it. */
  lemma SpentMeansPaidOrRecovered(steps: seq<Step>, terminal: AuditResult, i: nat)
    requires var log := Run(steps, terminal).lease.log; i < |log| && log[i].Spend?
    ensures Run(steps, terminal).paid > 0 || HasRecovered(Run(steps, terminal).lease.log)
  {
    RunsKeepSpend(steps, terminal);
  }

  // ---- A session from its answer to its settlement -------------------------------------

  /** The worker is at this point of its session and owns the lease. */
  predicate Owns(s: State, w: WorkerId, p: Prog) {
    ProgOf(s, w) == p && Lease.Pc(s.lease, w).Idle? && s.lease.row.Some? && OwnedBy(s.lease.row.value, w)
  }

  /** Nothing was there to audit, or a provider did not answer. */
  predicate FreeAnswer(r: AuditResult) {
    || r.outcome == SourceMissing
    || (r.errorCode.Some? && ((|r.errorCode.value| >= 23 && r.errorCode.value[..23] == "TRANSCRIPTION_PROVIDER_")
                              || (|r.errorCode.value| >= 24 && r.errorCode.value[..24] == "CLASSIFICATION_PROVIDER_")))
  }

  lemma FreeIsUnpaid(r: AuditResult)
    ensures FreeAnswer(r) <==> !Paid(r)
  {
    assert |"TRANSCRIPTION_PROVIDER_"| == 23 && |"CLASSIFICATION_PROVIDER_"| == 24;
  }

  function Settled(s: State, w: WorkerId, terminal: AuditResult): State { Apply(s, Step(w, SettleIt), terminal) }

  lemma SettlingCloses(s: State, w: WorkerId, modelSpent: bool, terminal: AuditResult)
    requires Owns(s, w, Settling(modelSpent))
    ensures var t := Settled(s, w, terminal);
      t.lease.row.Some? && t.lease.row.value.status == (if modelSpent then Completed else Released) && t.lease.row.value.staged == None
      && t.paid == s.paid && ProgOf(t, w) == Out
  {
  }

  /** An answer that cost nothing gives the right back. */
  lemma FreeAnswerReleases(s: State, w: WorkerId, r: AuditResult, terminal: AuditResult)
    requires Owns(s, w, Calling) && FreeAnswer(r)
    ensures var called := Apply(s, Step(w, CallModel(r)), terminal);
      var stored := Apply(called, Step(w, Persist(true)), terminal);
      var t := Settled(stored, w, terminal);
      t.paid == s.paid && t.lease.row.Some? && t.lease.row.value.status == Released
  {
    FreeIsUnpaid(r);
    var called := Apply(s, Step(w, CallModel(r)), terminal);
    var stored := Apply(called, Step(w, Persist(true)), terminal);
    assert Owns(stored, w, Settling(false));
    SettlingCloses(stored, w, false, terminal);
  }

  /** Any other answer is paid for, staged before it is stored, and closes the lease for good. */
  lemma PaidAnswerCloses(s: State, w: WorkerId, r: AuditResult, terminal: AuditResult)
    requires Owns(s, w, Calling) && !FreeAnswer(r)
    ensures var called := Apply(s, Step(w, CallModel(r)), terminal);
      var staged := Apply(called, Step(w, StageIt), terminal);
      var stored := Apply(staged, Step(w, Persist(true)), terminal);
      var t := Settled(stored, w, terminal);
      && called.paid == s.paid + 1 && t.paid == s.paid + 1
      && staged.lease.row.Some? && staged.lease.row.value.staged == Some(Minimal(r)) && ProgOf(staged, w) == Persisting(r)
      && t.lease.row.Some? && t.lease.row.value.status == Completed
  {
    FreeIsUnpaid(r);
    var called := Apply(s, Step(w, CallModel(r)), terminal);
    var staged := Apply(called, Step(w, StageIt), terminal);
    var stored := Apply(staged, Step(w, Persist(true)), terminal);
    assert Owns(stored, w, Settling(true));
    SettlingCloses(stored, w, true, terminal);
  }

  /** A granted lease whose work is already done, or cannot be started, is given back unspent. */
  lemma UnstartedReleases(s: State, w: WorkerId, answer: StartAnswer, terminal: AuditResult)
    requires Owns(s, w, Holding) && !answer.Started?
    ensures var t := Settled(Apply(s, Step(w, MarkStarted(answer)), terminal), w, terminal);
      t.paid == s.paid && t.lease.row.Some? && t.lease.row.value.status == Released
  {
    var marked := Apply(s, Step(w, MarkStarted(answer)), terminal);
    assert Owns(marked, w, Settling(false));
    SettlingCloses(marked, w, false, terminal);
  }

  /** A recovered result is stored without another call and closes the lease, also when the work turns out to be done. */
  lemma RecoveredCloses(s: State, w: WorkerId, r: AuditResult, terminal: AuditResult)
    requires Owns(s, w, Recovering(r)) && !FreeAnswer(r)
    ensures var done := Settled(Apply(s, Step(w, MarkStarted(AlreadyCompleted)), terminal), w, terminal);
      done.paid == s.paid && done.lease.row.Some? && done.lease.row.value.status == Completed
    ensures var started := Apply(s, Step(w, MarkStarted(Started)), terminal);
      var t := Settled(Apply(started, Step(w, Persist(true)), terminal), w, terminal);
      t.paid == s.paid && t.lease.row.Some? && t.lease.row.value.status == Completed
  {
    FreeIsUnpaid(r);
    var marked := Apply(s, Step(w, MarkStarted(AlreadyCompleted)), terminal);
    assert Owns(marked, w, Settling(true));
    SettlingCloses(marked, w, true, terminal);
    var stored := Apply(Apply(s, Step(w, MarkStarted(Started)), terminal), Step(w, Persist(true)), terminal);
    assert Owns(stored, w, Settling(true));
    SettlingCloses(stored, w, true, terminal);
  }

  /** The worker adds nothing to the lease protocol: each of its runs is a run of the lease, so every history is accepted. */
  lemma {:induction false} WorkerRunsAreLeaseRuns(steps: seq<Step>, terminal: AuditResult) returns (lease: seq<Lease.Step>)
    requires Minimal(terminal) == terminal
    ensures Run(steps, terminal).lease == Lease.Run(lease, terminal)
    ensures Lease.Accepted(Run(steps, terminal).lease.log, terminal)
    decreases |steps|
  {
    lease := [];
    if steps != [] {
      var s, last := Run(steps[..|steps| - 1], terminal), steps[|steps| - 1];
      lease := WorkerRunsAreLeaseRuns(steps[..|steps| - 1], terminal);
      if Run(steps, terminal).lease != s.lease {
        var p := ProgOf(s, last.worker);
        var a: Lease.Action := match last.action
          case StageIt => Lease.StageResult(p.result)
          case SettleIt => Lease.Settle(p.modelSpent)
          case Begin(at, exclusive) => Lease.BeginClaim(at, exclusive)
          case ClaimStatement => Lease.ClaimStatement
          case _ => Lease.Crash;
        var longer := lease + [Lease.Step(last.worker, a)];
        assert longer[..|longer| - 1] == lease;
        lease := longer;
      }
    }
    Lease.RunsAccepted(lease, terminal);
  }
}
