/**
 When a lease may be taken over.

 The claim times are read off the steps of a run: the clock a worker read when it
 began a claim, and the claim that was granted or recovered last. The row is not
 consulted, so the results say what the stored expiry is for: thirty minutes of
 undisturbed work for every claim that succeeds.
 */
module SpendLeaseClock {
  import opened Options
  import opened SpendLease
  import opened SpendLeaseProtocol

  datatype Claim = Claim(at: Time, exclusive: bool)

  /** The claim a worker began last. */
  function ClaimOf(steps: seq<Step>, terminal: AuditResult, w: WorkerId): Option<Claim>
    decreases |steps|
  {
    if steps == [] then None
    else
      var before, last := steps[..|steps| - 1], steps[|steps| - 1];
      if last.worker == w && last.action.BeginClaim? && Pc(Run(before, terminal), w).Idle?
      then Some(Claim(last.action.at, last.action.exclusive))
      else ClaimOf(before, terminal, w)
  }

  /** What the last step of a run reported, if it reported anything. */
  function Report(steps: seq<Step>, terminal: AuditResult): Option<Event>
    requires steps != []
  {
    var before, after := Run(steps[..|steps| - 1], terminal).log, Run(steps, terminal).log;
    if |after| > |before| then Some(after[|after| - 1]) else None
  }

  predicate Granted(e: Option<Event>) { e.Some? && (e.value.Acquire? || e.value.Recover?) }

  /** The clock of the claim that was granted or recovered last. */
  function LastGrant(steps: seq<Step>, terminal: AuditResult): Option<Time>
    decreases |steps|
  {
    if steps == [] then None
    else
      var before, last := steps[..|steps| - 1], steps[|steps| - 1];
      if Granted(Report(steps, terminal)) then
        var claim := ClaimOf(before, terminal, last.worker);
        if claim.Some? then Some(claim.value.at) else None
      else LastGrant(before, terminal)
  }

  /** A worker inside a claim remembers the clock and the mode it began with. */
  ghost predicate PcClock(pc: ClaimPc, claim: Option<Claim>) {
    match pc
    case Idle => true
    case AtInsert(at, exclusive) => claim == Some(Claim(at, exclusive))
    case AtRead(at, exclusive) => claim == Some(Claim(at, exclusive))
    case AtResume(at) => claim.Some? && claim.value.at == at
    case AtRecoverStaged(at, exclusive, _) => claim == Some(Claim(at, exclusive))
    case AtRecoverUnstaged(at, exclusive) => claim == Some(Claim(at, exclusive))
  }

  /** An active row belongs to the last grant and runs out thirty minutes after it. */
  ghost predicate RowClock(row: Option<LeaseRow>, grant: Option<Time>) {
    row.Some? && row.value.status.Active? ==>
      grant.Some? && row.value.claimedAt == grant.value && row.value.expiresAt == grant.value + 1_800_000
  }

  ghost predicate ClockInv(steps: seq<Step>, terminal: AuditResult) {
    var s := Run(steps, terminal);
    RowClock(s.row, LastGrant(steps, terminal)) && forall w :: PcClock(Pc(s, w), ClaimOf(steps, terminal, w))
  }

  lemma ClaimStepPc(s: State, w: WorkerId, terminal: AuditResult, claim: Option<Claim>)
    requires PcClock(Pc(s, w), claim)
    ensures PcClock(Pc(ClaimStep(s, w, terminal), w), claim)
  {
    var pc := Pc(s, w);
    if pc.AtResume? || pc.AtRecoverStaged? || pc.AtRecoverUnstaged? {
      assert Pc(ClaimStep(s, w, terminal), w) == Idle;
    }
  }

  lemma OthersKeepPc(s: State, step: Step, terminal: AuditResult, w: WorkerId)
    requires step.worker != w
    ensures Pc(Apply(s, step, terminal), w) == Pc(s, w)
  {
  }

  lemma PcStep(steps: seq<Step>, terminal: AuditResult, w: WorkerId)
    requires steps != [] && ClockInv(steps[..|steps| - 1], terminal)
    ensures PcClock(Pc(Run(steps, terminal), w), ClaimOf(steps, terminal, w))
  {
    var before, last := steps[..|steps| - 1], steps[|steps| - 1];
    var s := Run(before, terminal);
    assert PcClock(Pc(s, w), ClaimOf(before, terminal, w));
    if last.worker != w {
      OthersKeepPc(s, last, terminal, w);
    } else if last.action.ClaimStatement? {
      ClaimStepPc(s, w, terminal, ClaimOf(before, terminal, w));
    }
  }

  /** What one claim statement does to the row: a grant writes the claim's clock, anything else leaves it. */
  lemma ClaimStepRow(s: State, w: WorkerId, terminal: AuditResult, claim: Option<Claim>, grant: Option<Time>)
    requires PcClock(Pc(s, w), claim) && RowClock(s.row, grant)
    ensures var t := ClaimStep(s, w, terminal);
      && |s.log| <= |t.log| <= |s.log| + 1
      && (if |t.log| > |s.log| && (t.log[|s.log|].Acquire? || t.log[|s.log|].Recover?)
          then claim.Some? && RowClock(t.row, Some(claim.value.at)) else t.row == s.row)
  {
    match Pc(s, w)
    case AtResume(at) =>
    case AtRecoverStaged(at, exclusive, seen) =>
    case AtRecoverUnstaged(at, exclusive) =>
    case _ =>
  }

  /** No other step grants anything or moves the expiry of an active row. */
  lemma OtherStepsRow(s: State, step: Step, terminal: AuditResult, grant: Option<Time>)
    requires !step.action.ClaimStatement? && RowClock(s.row, grant)
    ensures var t := Apply(s, step, terminal);
      && RowClock(t.row, grant) && |s.log| <= |t.log|
      && (|t.log| > |s.log| ==> !t.log[|t.log| - 1].Acquire? && !t.log[|t.log| - 1].Recover?)
  {
  }

  lemma RowStep(steps: seq<Step>, terminal: AuditResult)
    requires steps != [] && ClockInv(steps[..|steps| - 1], terminal)
    ensures RowClock(Run(steps, terminal).row, LastGrant(steps, terminal))
  {
    var before, last := steps[..|steps| - 1], steps[|steps| - 1];
    var s := Run(before, terminal);
    assert PcClock(Pc(s, last.worker), ClaimOf(before, terminal, last.worker));
    if last.action.ClaimStatement? {
      ClaimStepRow(s, last.worker, terminal, ClaimOf(before, terminal, last.worker), LastGrant(before, terminal));
    } else {
      OtherStepsRow(s, last, terminal, LastGrant(before, terminal));
    }
  }

  lemma {:induction false} RunsKeepClock(steps: seq<Step>, terminal: AuditResult)
    ensures ClockInv(steps, terminal)
    decreases |steps|
  {
    if steps != [] {
      RunsKeepClock(steps[..|steps| - 1], terminal);
      RowStep(steps, terminal);
      forall w ensures PcClock(Pc(Run(steps, terminal), w), ClaimOf(steps, terminal, w)) {
        PcStep(steps, terminal, w);
      }
    }
  }

  /**
   In every interleaving: a claim that does not own the queue recovers a lease only if its
   clock is thirty minutes past the last grant, and a claim that is refused leaves the row alone.
   */
  lemma RecoveredOnlyAfterExpiry(steps: seq<Step>, terminal: AuditResult)
    requires steps != []
    ensures var before, w := steps[..|steps| - 1], steps[|steps| - 1].worker;
      var claim, grant := ClaimOf(before, terminal, w), LastGrant(before, terminal);
      && (Report(steps, terminal).Some? && Report(steps, terminal).value.Recover? ==>
            claim.Some? && grant.Some? && (claim.value.exclusive || claim.value.at >= grant.value + 1_800_000))
      && (Report(steps, terminal).Some? && Report(steps, terminal).value.Refuse? ==>
            Run(steps, terminal).row == Run(before, terminal).row)
  {
    var before, w := steps[..|steps| - 1], steps[|steps| - 1].worker;
    RunsKeepClock(before, terminal);
    assert PcClock(Pc(Run(before, terminal), w), ClaimOf(before, terminal, w));
  }

  lemma RunAppend(steps: seq<Step>, step: Step, terminal: AuditResult)
    ensures Run(steps + [step], terminal) == Apply(Run(steps, terminal), step, terminal)
  {
    assert (steps + [step])[..|steps|] == steps;
  }

  /** A claim from its first statement to its last, with no other step between. */
  function WholeClaim(s: State, w: WorkerId, at: Time, exclusive: bool, terminal: AuditResult): State {
    var begun := Apply(s, Step(w, BeginClaim(at, exclusive)), terminal);
    var one := Apply(begun, Step(w, ClaimStatement), terminal);
    var two := Apply(one, Step(w, ClaimStatement), terminal);
    Apply(two, Step(w, ClaimStatement), terminal)
  }

  function Reported(outcome: ClaimOutcome, w: WorkerId): Event {
    match outcome
    case Acquired => Acquire(w)
    case Busy => Refuse(w)
    case Closed(_) => Close(w)
    case Recovered(r) => Recover(w, r)
  }

  /** Without interference the statements add up to the claim of the table. */
  lemma WholeClaimIsClaim(s: State, w: WorkerId, at: Time, exclusive: bool, terminal: AuditResult)
    requires Pc(s, w).Idle?
    ensures var t := WholeClaim(s, w, at, exclusive, terminal);
      var (outcome, row) := ClaimSpec(s.row, w, at, exclusive, terminal);
      t.log == s.log + [Reported(outcome, w)] && t.row == row
  {
    var begun := Apply(s, Step(w, BeginClaim(at, exclusive)), terminal);
    var one := Apply(begun, Step(w, ClaimStatement), terminal);
    var two := Apply(one, Step(w, ClaimStatement), terminal);
    assert Pc(begun, w) == AtInsert(at, exclusive) && begun.row == s.row && begun.log == s.log;
    if s.row.None? {
      assert Pc(one, w) == Idle && two == one;
    } else {
      assert Pc(one, w) == AtRead(at, exclusive) && one.row == s.row && one.log == s.log;
      if s.row.value.status.Completed? || s.row.value.status.Expired? {
        assert Pc(two, w) == Idle && two.log == s.log + [Close(w)] && two.row == s.row;
      } else {
        assert two.row == s.row && two.log == s.log;
      }
    }
  }

  /**
   The answer of a claim is decided by the history: granted while the right is free, closed
   once it was spent, and while it is held refused for thirty minutes from the last grant,
   unless the worker owns the queue, and recovered from that moment on.
   */
  lemma ClaimDecidedByHistory(steps: seq<Step>, w: WorkerId, at: Time, exclusive: bool, callId: string, artifactId: string)
    requires Pc(Run(steps, UnknownSpend(callId, artifactId)), w).Idle?
    ensures var terminal := UnknownSpend(callId, artifactId);
      var s, t := Run(steps, terminal), WholeClaim(Run(steps, terminal), w, at, exclusive, terminal);
      var grant := LastGrant(steps, terminal);
      match PhaseOf(s.log)
      case Fresh => t.log == s.log + [Acquire(w)]
      case Free => t.log == s.log + [Acquire(w)]
      case Over => t.log == s.log + [Close(w)] && t.row == s.row
      case Held =>
        && grant.Some? && s.row.Some?
        && (!exclusive && at < grant.value + 1_800_000 ==> t.log == s.log + [Refuse(w)] && t.row == s.row)
        && (exclusive || at >= grant.value + 1_800_000 ==>
              && t.log == s.log + [Recover(w, if s.row.value.staged.Some? then s.row.value.staged.value else terminal)]
              && t.row.Some? && t.row.value.status.Active? && t.row.value.worker == w)
  {
    var terminal := UnknownSpend(callId, artifactId);
    var s := Run(steps, terminal);
    TerminalStable(callId, artifactId);
    RunsAccepted(steps, terminal);
    RunsKeepClock(steps, terminal);
    WholeClaimIsClaim(s, w, at, exclusive, terminal);
    assert RowMatches(s.row, s.log, terminal) && RowClock(s.row, LastGrant(steps, terminal));
  }

  /** Two claims on one row, whatever it was: after one that succeeds, another worker is busy for thirty minutes and recovers from then on. */
  lemma ClaimsThirtyMinutesApart(row: Option<LeaseRow>, v: WorkerId, w: WorkerId, first: Time, second: Time, exclusive: bool,
                                 terminal: AuditResult)
    requires ClaimSpec(row, v, first, exclusive, terminal).0.Acquired? || ClaimSpec(row, v, first, exclusive, terminal).0.Recovered?
    ensures var held := ClaimSpec(row, v, first, exclusive, terminal).1;
      var (outcome, after) := ClaimSpec(held, w, second, false, terminal);
      && (second < first + 1_800_000 ==> outcome == Busy && after == held)
      && (second >= first + 1_800_000 ==> outcome.Recovered? && after.Some? && OwnedBy(after.value, w))
  {
  }
}
