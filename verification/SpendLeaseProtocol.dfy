/**
 One lease id under every interleaving of any number of workers.

 `claim` runs outside a transaction, so each of its statements is a step of its
 own and any other worker's statement may come between two of them. A worker may
 also stage, settle or die at any point, and its clock may read anything.
 */
module SpendLeaseProtocol {
  import opened Options
  import opened SpendLease

  /** Where a worker stands inside `claim`. A read is remembered, however stale it becomes. */
  datatype ClaimPc =
    | Idle
    | AtInsert(at: Time, exclusive: bool)
    | AtRead(at: Time, exclusive: bool)
    | AtResume(at: Time)
    | AtRecoverStaged(at: Time, exclusive: bool, seen: AuditResult)
    | AtRecoverUnstaged(at: Time, exclusive: bool)

  datatype Event =
    | Acquire(worker: WorkerId)
    | Recover(worker: WorkerId, result: AuditResult)
    | Refuse(worker: WorkerId)
    | Close(worker: WorkerId)
    | Stage(worker: WorkerId, result: AuditResult)
    | Release(worker: WorkerId)
    | Spend(worker: WorkerId)
    | Reject(worker: WorkerId)

  datatype State = State(row: Option<LeaseRow>, pcs: map<WorkerId, ClaimPc>, log: seq<Event>)

  datatype Action =
    | BeginClaim(at: Time, exclusive: bool)
    | ClaimStatement
    | StageResult(result: AuditResult)
    | Settle(modelSpent: bool)
    | Crash

  datatype Step = Step(worker: WorkerId, action: Action)

  function Pc(s: State, w: WorkerId): ClaimPc {
    if w in s.pcs then s.pcs[w] else Idle
  }

  function Initial(): State {
    State(None, map[], [])
  }

  function At(s: State, w: WorkerId, pc: ClaimPc): State {
    s.(pcs := s.pcs[w := pc])
  }

  /** A claim that returns: the row it leaves behind and what it reports. */
  function Done(s: State, row: Option<LeaseRow>, w: WorkerId, e: Event): State {
    State(row, s.pcs[w := Idle], s.log + [e])
  }

  /** A guarded UPDATE: `won` is reported when it changed a row, `lost` when it did not. */
  function Guarded(s: State, changed: Option<LeaseRow>, w: WorkerId, won: Event, lost: Event): State {
    if changed.Some? then Done(s, changed, w, won) else Done(s, s.row, w, lost)
  }

  function ClaimStep(s: State, w: WorkerId, terminal: AuditResult): State {
    match Pc(s, w)
    case Idle => s
    case AtInsert(at, exclusive) =>
      if s.row.None? then Done(s, Some(NewLease(w, at)), w, Acquire(w)) else At(s, w, AtRead(at, exclusive))
    case AtRead(at, exclusive) =>
      if s.row.None? then Done(s, s.row, w, Refuse(w))
      else if s.row.value.status.Completed? || s.row.value.status.Expired? then Done(s, s.row, w, Close(w))
      else if s.row.value.status.Released? then At(s, w, AtResume(at))
      else if s.row.value.staged.Some? then At(s, w, AtRecoverStaged(at, exclusive, s.row.value.staged.value))
      else At(s, w, AtRecoverUnstaged(at, exclusive))
    case AtResume(at) =>
      Guarded(s, if s.row.Some? then Resumed(s.row.value, w, at) else None, w, Acquire(w), Refuse(w))
    case AtRecoverStaged(at, exclusive, seen) =>
      Guarded(s, if s.row.Some? then RecoveredStaged(s.row.value, w, at, exclusive) else None,
              w, Recover(w, seen), Refuse(w))
    case AtRecoverUnstaged(at, exclusive) =>
      Guarded(s, if s.row.Some? then RecoveredUnstaged(s.row.value, w, at, exclusive, terminal) else None,
              w, Recover(w, terminal), Refuse(w))
  }

  /** A worker inside `claim` runs nothing else; a step it cannot take leaves the state alone. */
  function Apply(s: State, step: Step, terminal: AuditResult): State {
    var w := step.worker;
    match step.action
    case Crash => At(s, w, Idle)
    case ClaimStatement => ClaimStep(s, w, terminal)
    case BeginClaim(at, exclusive) => if Pc(s, w).Idle? then At(s, w, AtInsert(at, exclusive)) else s
    case StageResult(r) =>
      if !Pc(s, w).Idle? then s
      else Guarded(s, if s.row.Some? then StagedBy(s.row.value, w, r) else None, w, Stage(w, r), Reject(w))
    case Settle(modelSpent) =>
      if !Pc(s, w).Idle? then s
      else Guarded(s, if s.row.Some? then SettledBy(s.row.value, w, modelSpent) else None,
                   w, if modelSpent then Spend(w) else Release(w), Reject(w))
  }

  function Run(steps: seq<Step>, terminal: AuditResult): State
    decreases |steps|
  {
    if steps == [] then Initial()
    else Apply(Run(steps[..|steps| - 1], terminal), steps[|steps| - 1], terminal)
  }

  // ---- The abstract protocol: what a history of reports may look like ---------

  datatype Phase = Fresh | Held | Free | Over

  /** The phase a history has reached, read off its reports alone. */
  function PhaseOf(log: seq<Event>): Phase
    decreases |log|
  {
    if log == [] then Fresh
    else match log[|log| - 1]
      case Acquire(_) => Held
      case Release(_) => Free
      case Spend(_) => Over
      case _ => PhaseOf(log[..|log| - 1])
  }

  function LastClaimer(log: seq<Event>): Option<WorkerId>
    decreases |log|
  {
    if log == [] then None
    else match log[|log| - 1]
      case Acquire(w) => Some(w)
      case Recover(w, _) => Some(w)
      case _ => LastClaimer(log[..|log| - 1])
  }

  /** A result some worker staged earlier in the history, as it was stored, or the terminal result. */
  predicate Recoverable(log: seq<Event>, terminal: AuditResult, r: AuditResult) {
    r == terminal || exists i :: 0 <= i < |log| && log[i].Stage? && Minimal(log[i].result) == r
  }

  predicate Allowed(log: seq<Event>, e: Event, terminal: AuditResult) {
    match e
    case Acquire(_) => PhaseOf(log) in {Fresh, Free}
    case Recover(_, r) => PhaseOf(log).Held? && Recoverable(log, terminal, r)
    case Stage(w, _) => PhaseOf(log).Held? && LastClaimer(log) == Some(w)
    case Release(w) => PhaseOf(log).Held? && LastClaimer(log) == Some(w)
    case Spend(w) => PhaseOf(log).Held? && LastClaimer(log) == Some(w)
    case Close(_) => PhaseOf(log).Over?
    case Reject(w) => !(PhaseOf(log).Held? && LastClaimer(log) == Some(w))
    case Refuse(_) => !PhaseOf(log).Fresh?
  }

  predicate Accepted(log: seq<Event>, terminal: AuditResult) {
    forall i :: 0 <= i < |log| ==> Allowed(log[..i], log[i], terminal)
  }

  // ---- Every run is accepted --------------------------------------------------

  predicate RowMatches(row: Option<LeaseRow>, log: seq<Event>, terminal: AuditResult) {
    match PhaseOf(log)
    case Fresh => row.None?
    case Held => row.Some? && row.value.status.Active? && LastClaimer(log) == Some(row.value.worker)
                 && (row.value.staged.Some? ==> Recoverable(log, terminal, row.value.staged.value))
    case Free => row.Some? && row.value.status.Released? && row.value.staged.None?
    case Over => row.Some? && row.value.status.Completed? && row.value.staged.None?
  }

  predicate PcMatches(pc: ClaimPc, s: State, terminal: AuditResult) {
    && (!pc.Idle? && !pc.AtInsert? ==> s.row.Some?)
    && (pc.AtRecoverStaged? ==> Recoverable(s.log, terminal, pc.seen))
  }

  predicate Inv(s: State, terminal: AuditResult) {
    && Accepted(s.log, terminal)
    && RowMatches(s.row, s.log, terminal)
    && (forall w :: w in s.pcs ==> PcMatches(s.pcs[w], s, terminal))
  }

  lemma AppendAccepted(log: seq<Event>, e: Event, terminal: AuditResult)
    requires Accepted(log, terminal) && Allowed(log, e, terminal)
    ensures Accepted(log + [e], terminal)
    ensures (log + [e])[..|log|] == log
  {
    var log' := log + [e];
    assert log'[..|log|] == log;
    forall i | 0 <= i < |log'| ensures Allowed(log'[..i], log'[i], terminal) {
      if i < |log| {
        assert log'[..i] == log[..i];
      }
    }
  }

  lemma RecoverableGrows(log: seq<Event>, e: Event, terminal: AuditResult)
    ensures forall r :: Recoverable(log, terminal, r) ==> Recoverable(log + [e], terminal, r)
    ensures e.Stage? ==> Recoverable(log + [e], terminal, Minimal(e.result))
  {
    var log' := log + [e];
    assert log'[|log|] == e;
    forall r | Recoverable(log, terminal, r) ensures Recoverable(log', terminal, r) {
      if r != terminal {
        var i :| 0 <= i < |log| && log[i].Stage? && Minimal(log[i].result) == r;
        assert log'[i] == log[i];
      }
    }
  }

  /** The one place a report is added: the phase after it is the one its row shows. */
  lemma ReportKeepsInv(s: State, row: Option<LeaseRow>, w: WorkerId, e: Event, terminal: AuditResult)
    requires Inv(s, terminal) && Allowed(s.log, e, terminal)
    requires s.row.Some? ==> row.Some?
    requires match e
             case Acquire(c) => row.Some? && row.value.status.Active? && row.value.worker == c && row.value.staged.None?
             case Recover(c, _) => row.Some? && row.value.status.Active? && row.value.worker == c
                                   && row.value.staged.Some? && Recoverable(s.log, terminal, row.value.staged.value)
             case Stage(c, r) => row.Some? && row.value.status.Active? && row.value.worker == c
                                 && row.value.staged == Some(Minimal(r))
             case Release(_) => row.Some? && row.value.status.Released? && row.value.staged.None?
             case Spend(_) => row.Some? && row.value.status.Completed? && row.value.staged.None?
             case _ => row == s.row
    ensures Inv(Done(s, row, w, e), terminal)
  {
    AppendAccepted(s.log, e, terminal);
    RecoverableGrows(s.log, e, terminal);
    assert RowMatches(row, s.log + [e], terminal);
  }

  lemma RecoveryKeepsInv(s: State, w: WorkerId, terminal: AuditResult)
    requires Inv(s, terminal) && Minimal(terminal) == terminal
    requires Pc(s, w).AtRecoverStaged? || Pc(s, w).AtRecoverUnstaged?
    ensures Inv(ClaimStep(s, w, terminal), terminal)
  {
    var pc, s' := Pc(s, w), ClaimStep(s, w, terminal);
    if pc.AtRecoverStaged? && RecoveredStaged(s.row.value, w, pc.at, pc.exclusive).Some? {
      ReportKeepsInv(s, s'.row, w, Recover(w, pc.seen), terminal);
    } else if pc.AtRecoverUnstaged? && RecoveredUnstaged(s.row.value, w, pc.at, pc.exclusive, terminal).Some? {
      ReportKeepsInv(s, s'.row, w, Recover(w, terminal), terminal);
    } else {
      ReportKeepsInv(s, s.row, w, Refuse(w), terminal);
    }
  }

  lemma ClaimStepKeepsInv(s: State, w: WorkerId, terminal: AuditResult)
    requires Inv(s, terminal) && Minimal(terminal) == terminal
    ensures Inv(ClaimStep(s, w, terminal), terminal)
  {
    var pc, s' := Pc(s, w), ClaimStep(s, w, terminal);
    match pc
    case Idle =>
    case AtInsert(at, exclusive) =>
      if s.row.None? {
        ReportKeepsInv(s, s'.row, w, Acquire(w), terminal);
      }
    case AtRead(at, exclusive) =>
      if s'.log != s.log {
        ReportKeepsInv(s, s.row, w, Close(w), terminal);
      }
    case AtResume(at) =>
      ReportKeepsInv(s, s'.row, w, if s.row.value.status.Released? then Acquire(w) else Refuse(w), terminal);
    case _ => RecoveryKeepsInv(s, w, terminal);
  }

  lemma StepKeepsInv(s: State, step: Step, terminal: AuditResult)
    requires Inv(s, terminal) && Minimal(terminal) == terminal
    ensures Inv(Apply(s, step, terminal), terminal)
  {
    var w, s' := step.worker, Apply(s, step, terminal);
    match step.action
    case Crash =>
    case BeginClaim(at, exclusive) =>
    case ClaimStatement => ClaimStepKeepsInv(s, w, terminal);
    case StageResult(r) =>
      if Pc(s, w).Idle? {
        ReportKeepsInv(s, s'.row, w, if s.row.Some? && OwnedBy(s.row.value, w) then Stage(w, r) else Reject(w), terminal);
      }
    case Settle(modelSpent) =>
      if Pc(s, w).Idle? {
        var owned := s.row.Some? && OwnedBy(s.row.value, w);
        ReportKeepsInv(s, s'.row, w,
                       if !owned then Reject(w) else if modelSpent then Spend(w) else Release(w), terminal);
      }
  }

  lemma {:induction false} RunsAccepted(steps: seq<Step>, terminal: AuditResult)
    requires Minimal(terminal) == terminal
    ensures Inv(Run(steps, terminal), terminal)
    decreases |steps|
  {
    if steps != [] {
      RunsAccepted(steps[..|steps| - 1], terminal);
      StepKeepsInv(Run(steps[..|steps| - 1], terminal), steps[|steps| - 1], terminal);
    }
  }

  // ---- What an accepted history promises --------------------------------------

  /** The spend rights of a history, in order: true when one was granted, false when it was given back unspent. */
  function SpendRights(log: seq<Event>): seq<bool>
    decreases |log|
  {
    if log == [] then []
    else
      var e := log[|log| - 1];
      SpendRights(log[..|log| - 1]) + (if e.Acquire? then [true] else if e.Release? then [false] else [])
  }

  predicate Alternates(rights: seq<bool>) {
    forall k :: 0 <= k < |rights| ==> rights[k] == (k % 2 == 0)
  }

  lemma PrefixAccepted(log: seq<Event>, n: nat, terminal: AuditResult)
    requires Accepted(log, terminal) && n <= |log|
    ensures Accepted(log[..n], terminal)
  {
    forall i | 0 <= i < n ensures Allowed(log[..n][..i], log[..n][i], terminal) {
      assert log[..n][..i] == log[..i];
    }
  }

  lemma RightsAppend(log: seq<Event>, e: Event)
    ensures SpendRights(log + [e]) == SpendRights(log) + (if e.Acquire? then [true] else if e.Release? then [false] else [])
  {
    assert (log + [e])[..|log|] == log;
  }

  /** One more report keeps the alternation: a grant needs the right to be free, a release needs it held. */
  lemma RightsStep(log: seq<Event>, e: Event, terminal: AuditResult)
    requires Allowed(log, e, terminal) && Alternates(SpendRights(log))
    requires |SpendRights(log)| % 2 == (if PhaseOf(log) in {Held, Over} then 1 else 0)
    ensures Alternates(SpendRights(log + [e]))
    ensures |SpendRights(log + [e])| % 2 == (if PhaseOf(log + [e]) in {Held, Over} then 1 else 0)
  {
    RightsAppend(log, e);
    assert (log + [e])[..|log|] == log && (log + [e])[|log|] == e;
  }

  lemma {:induction false} RightsAlternate(log: seq<Event>, terminal: AuditResult)
    requires Accepted(log, terminal)
    ensures Alternates(SpendRights(log))
    ensures |SpendRights(log)| % 2 == (if PhaseOf(log) in {Held, Over} then 1 else 0)
    decreases |log|
  {
    if log != [] {
      var before, e := log[..|log| - 1], log[|log| - 1];
      PrefixAccepted(log, |log| - 1, terminal);
      RightsAlternate(before, terminal);
      assert Allowed(before, e, terminal) && log == before + [e];
      RightsStep(before, e, terminal);
    }
  }

  /** Once a spend is settled the phase is final, so nothing is granted, recovered, staged or settled again. */
  lemma {:induction false} SpentIsFinal(log: seq<Event>, i: nat, terminal: AuditResult)
    requires Accepted(log, terminal) && i < |log| && log[i].Spend?
    ensures PhaseOf(log).Over?
    ensures forall j :: i < j < |log| ==> log[j].Close? || log[j].Refuse? || log[j].Reject?
    decreases |log|
  {
    if i < |log| - 1 {
      var before := log[..|log| - 1];
      PrefixAccepted(log, |log| - 1, terminal);
      SpentIsFinal(before, i, terminal);
      assert Allowed(before, log[|log| - 1], terminal);
      forall j | i < j < |log| ensures log[j].Close? || log[j].Refuse? || log[j].Reject? {
        if j < |log| - 1 {
          assert log[j] == before[j];
        }
      }
    }
  }

  /**
   For every schedule of every number of workers: spend rights alternate with
   unspent releases, starting with a grant, and after a spent settlement no
   claim acquires or recovers anything again.
   */
  lemma SpendRightsNeverOverlap(steps: seq<Step>, callId: string, artifactId: string)
    ensures var log := Run(steps, UnknownSpend(callId, artifactId)).log;
            && Alternates(SpendRights(log))
            && forall i, j :: 0 <= i < j < |log| && log[i].Spend? ==> !log[j].Acquire? && !log[j].Recover?
  {
    var terminal := UnknownSpend(callId, artifactId);
    TerminalStable(callId, artifactId);
    RunsAccepted(steps, terminal);
    var log := Run(steps, terminal).log;
    RightsAlternate(log, terminal);
    forall i, j | 0 <= i < j < |log| && log[i].Spend? ensures !log[j].Acquire? && !log[j].Recover? {
      SpentIsFinal(log, i, terminal);
    }
  }

  lemma TerminalStable(callId: string, artifactId: string)
    ensures Minimal(UnknownSpend(callId, artifactId)) == UnknownSpend(callId, artifactId)
  {
    MinimalIdempotent(UnknownSpend(callId, artifactId));
  }

  /**
   In every reachable state an active lease belongs to the worker of the latest
   granted or recovered claim, output is staged only while the lease is active,
   and every recovered result was staged earlier or is the terminal one. A stage
   or settle succeeds for that worker alone.
   */
  lemma OwnershipFollowsLatestClaim(steps: seq<Step>, callId: string, artifactId: string)
    ensures var terminal := UnknownSpend(callId, artifactId);
            var s := Run(steps, terminal);
            && (s.row.Some? && s.row.value.status.Active? ==> LastClaimer(s.log) == Some(s.row.value.worker))
            && (s.row.Some? && s.row.value.staged.Some? ==> s.row.value.status.Active?)
            && (forall i :: 0 <= i < |s.log| && s.log[i].Recover? ==>
                  Recoverable(s.log[..i], terminal, s.log[i].result))
            && (forall i :: 0 <= i < |s.log| && (s.log[i].Stage? || s.log[i].Release? || s.log[i].Spend?) ==>
                  LastClaimer(s.log[..i]) == Some(s.log[i].worker))
            && (forall i :: 0 <= i < |s.log| && s.log[i].Reject? && PhaseOf(s.log[..i]).Held? ==>
                  LastClaimer(s.log[..i]) != Some(s.log[i].worker))
  {
    var terminal := UnknownSpend(callId, artifactId);
    TerminalStable(callId, artifactId);
    RunsAccepted(steps, terminal);
    var s := Run(steps, terminal);
    forall i | 0 <= i < |s.log| ensures Allowed(s.log[..i], s.log[i], terminal) {}
  }
}
