/**
 The durable pre-model spend lease of Billing Audit.

 The first half is one lease row and the guarded statements that may change it.
 The second half is the table that holds the rows, and the claim a worker runs
 against it when nothing else interferes. What interference can do is the
 subject of SpendLeaseProtocol.
 */
module SpendLease {
  import opened Options

  type WorkerId = nat
  type Time = int

  const SPEND_LEASE_TTL_MS: int := 30 * 60_000

  datatype AuditOutcome =
    | Projected
    | SourceMissing
    | EvidenceAltered
    | UnsafeUrl
    | TranscriptionFailed
    | ClassificationFailed
    | SpendStateUnknown

  /** What a model run measured and decided. `audit` holds the analysis fields, which are kept whole. */
  datatype Transcription = Transcription(
    model: string, language: string, durationMs: int, speechMs: int,
    text: string, segments: seq<string>, usage: Option<string>)

  /** The optional decision fields of a classification; `decision` is the decision-signals object. */
  datatype Signals = Signals(
    failureMode: Option<string>, serviceBeforeFailure: Option<bool>, failureStartMs: Option<int>, failureStartBlock: Option<int>,
    agentBlocks: Option<seq<int>>, voicemailBlocks: Option<seq<int>>, automationBlocks: Option<seq<int>>,
    junkBlocks: Option<seq<int>>, decision: Option<string>)

  function NoSignals(): Signals { Signals(None, None, None, None, None, None, None, None, None) }

  datatype Classification = Classification(
    model: string, category: string, confidence: string,
    customerBlocks: seq<int>, unclearBlocks: seq<int>,
    customerSpoke: bool, lastCustomerMs: Option<int>,
    remarks: string, disputeRecommended: bool,
    signals: Signals, usage: Option<string>)

  datatype AuditResult = AuditResult(
    callId: string, artifactId: string, outcome: AuditOutcome, errorCode: Option<string>,
    analysis: Option<string>, transcription: Option<Transcription>,
    classification: Option<Classification>, reusedTranscriptId: Option<string>)

  // ---- The staged projection -------------------------------------------------

  predicate Complete(r: AuditResult) {
    r.outcome.Projected? && r.analysis.Some? && r.transcription.Some? && r.classification.Some?
  }

  /** An empty error code is falsy in the source and is dropped with the missing one. */
  function KeptErrorCode(code: Option<string>): Option<string> {
    if code == Some("") then None else code
  }

  function Minimal(r: AuditResult): AuditResult {
    var base := AuditResult(r.callId, r.artifactId, r.outcome, KeptErrorCode(r.errorCode), None, None, None, None);
    if !Complete(r) then base
    else base.(
         analysis := r.analysis,
         transcription := Some(r.transcription.value.(text := "")),
         classification := Some(r.classification.value.(
           customerBlocks := [], unclearBlocks := [], remarks := "", signals := NoSignals())))
  }

  function UnknownSpend(callId: string, artifactId: string): AuditResult {
    AuditResult(callId, artifactId, SpendStateUnknown, Some("AUDIT_SPEND_STATE_UNKNOWN"), None, None, None, None)
  }

  /** The decision fields as the writer stores them: a missing block list is written as an empty one, a missing flag as false. */
  datatype WrittenSignals = WrittenSignals(
    failureMode: Option<string>, serviceBeforeFailure: bool, failureStartMs: Option<int>, failureStartBlock: Option<int>,
    agentBlocks: seq<int>, voicemailBlocks: seq<int>, automationBlocks: seq<int>, junkBlocks: seq<int>, decision: Option<string>)

  function WriteSignals(s: Signals): WrittenSignals {
    WrittenSignals(s.failureMode, s.serviceBeforeFailure == Some(true), s.failureStartMs, s.failureStartBlock,
                   Coalesce(s.agentBlocks, []), Coalesce(s.voicemailBlocks, []), Coalesce(s.automationBlocks, []),
                   Coalesce(s.junkBlocks, []), s.decision)
  }

  /** A transcript is written anew, with its usage, unless the result reuses a stored one. */
  datatype WrittenTranscript =
    | NewTranscript(model: string, language: string, segments: seq<string>, usage: Option<string>)
    | ReusedTranscript(id: string)

  /** What the final writer stores for a result: the part of it that reaches a table. */
  datatype WrittenAudit =
    | WrittenFailure(outcome: AuditOutcome, errorCode: Option<string>)
    | WrittenAudit(analysis: string, transcript: WrittenTranscript, classifier: string, classifierUsage: Option<string>,
                   customerBlocks: seq<int>, unclearBlocks: seq<int>, signals: WrittenSignals)

  function Written(r: AuditResult): WrittenAudit {
    if !Complete(r) then WrittenFailure(r.outcome, r.errorCode)
    else
      var t, c := r.transcription.value, r.classification.value;
      WrittenAudit(r.analysis.value,
                   if r.reusedTranscriptId.Some? then ReusedTranscript(r.reusedTranscriptId.value)
                   else NewTranscript(t.model, t.language, t.segments, t.usage),
                   c.model, c.usage, c.customerBlocks, c.unclearBlocks, WriteSignals(c.signals))
  }

  /** Nothing the writer would store differently from its default. */
  predicate Unremarkable(s: Signals) {
    && s.failureMode.None? && s.serviceBeforeFailure != Some(true) && s.failureStartMs.None? && s.failureStartBlock.None?
    && s.decision.None? && Coalesce(s.agentBlocks, []) == [] && Coalesce(s.voicemailBlocks, []) == []
    && Coalesce(s.automationBlocks, []) == [] && Coalesce(s.junkBlocks, []) == []
  }

  /** Staging is a projection: staging what was staged changes nothing, and the terminal result is its own projection. */
  lemma MinimalIdempotent(r: AuditResult)
    ensures Minimal(Minimal(r)) == Minimal(r)
    ensures Minimal(UnknownSpend(r.callId, r.artifactId)) == UnknownSpend(r.callId, r.artifactId)
    ensures Minimal(r).outcome == r.outcome && Complete(Minimal(r)) == Complete(r)
  {
    var code := "AUDIT_SPEND_STATE_UNKNOWN";
    assert |code| > 0;
  }

  /**
   The staged document is meant to hold every field the final writer needs. It
   does not: it drops the decision signals, the block numbers and the reused
   transcript. A recovered write therefore equals the write it replaces exactly
   when the model run left all of these at the value the writer stores by default.
   */
  lemma RecoveredWriteFaithfulIff(r: AuditResult)
    ensures Written(Minimal(r)) == Written(r) <==>
            if Complete(r)
            then r.reusedTranscriptId.None? && Unremarkable(r.classification.value.signals)
                 && r.classification.value.customerBlocks == [] && r.classification.value.unclearBlocks == []
            else r.errorCode != Some("")
  {}

  lemma RecoveredWriteLosesSignals() returns (r: AuditResult)
    ensures Complete(r) && Written(Minimal(r)) != Written(r)
  {
    var c := Classification("m", "AGENT_FAILURE", "0.9", [], [], true, None, "", false,
                            NoSignals().(failureMode := Some("mid_conversation")), None);
    r := AuditResult("c", "a", Projected, None, Some("x"), Some(Transcription("m", "hi", 1, 1, "t", [], None)), Some(c), None);
    RecoveredWriteFaithfulIff(r);
  }

  // ---- One row and its guarded statements ------------------------------------

  datatype LeaseStatus = Active | Completed | Released | Expired

  datatype LeaseRow = LeaseRow(
    status: LeaseStatus, worker: WorkerId, claimedAt: Time, expiresAt: Time, staged: Option<AuditResult>)

  function NewLease(w: WorkerId, at: Time): LeaseRow {
    LeaseRow(Active, w, at, at + SPEND_LEASE_TTL_MS, None)
  }

  predicate RecoveryAllowed(row: LeaseRow, at: Time, exclusive: bool) {
    row.status.Active? && (row.expiresAt <= at || exclusive)
  }

  /** `UPDATE ... WHERE status = 'released'` */
  function Resumed(row: LeaseRow, w: WorkerId, at: Time): Option<LeaseRow> {
    if row.status.Released? then Some(NewLease(w, at)) else None
  }

  /** `UPDATE ... WHERE status = 'active' AND (expired OR exclusive) AND staged_result_json IS NOT NULL` */
  function RecoveredStaged(row: LeaseRow, w: WorkerId, at: Time, exclusive: bool): Option<LeaseRow> {
    if RecoveryAllowed(row, at, exclusive) && row.staged.Some?
    then Some(NewLease(w, at).(staged := row.staged)) else None
  }

  /** The same update for a lease with no staged output, which stages the terminal result itself. */
  function RecoveredUnstaged(row: LeaseRow, w: WorkerId, at: Time, exclusive: bool, terminal: AuditResult): Option<LeaseRow> {
    if RecoveryAllowed(row, at, exclusive) && row.staged.None?
    then Some(NewLease(w, at).(staged := Some(Minimal(terminal)))) else None
  }

  predicate OwnedBy(row: LeaseRow, w: WorkerId) {
    row.status.Active? && row.worker == w
  }

  function StagedBy(row: LeaseRow, w: WorkerId, r: AuditResult): Option<LeaseRow> {
    if OwnedBy(row, w) then Some(row.(staged := Some(Minimal(r)))) else None
  }

  function SettledBy(row: LeaseRow, w: WorkerId, modelSpent: bool): Option<LeaseRow> {
    if OwnedBy(row, w)
    then Some(row.(status := if modelSpent then Completed else Released, staged := None)) else None
  }

  // ---- The table -------------------------------------------------------------

  datatype ClaimOutcome =
    | Acquired
    | Busy
    | Closed(result: AuditResult)
    | Recovered(result: AuditResult)

  datatype Settlement = ModelSpent | NoModelCall | Ambiguous

  /** The whole claim, when no other statement runs between its own. */
  function ClaimSpec(row: Option<LeaseRow>, w: WorkerId, at: Time, exclusive: bool, terminal: AuditResult)
    : (ClaimOutcome, Option<LeaseRow>)
  {
    match row
    case None => (Acquired, Some(NewLease(w, at)))
    case Some(r) =>
      match r.status
      case Completed => (Closed(terminal), row)
      case Expired => (Closed(terminal), row)
      case Released => (Acquired, Some(NewLease(w, at)))
      case Active =>
        if !(r.expiresAt <= at || exclusive) then (Busy, row)
        else if r.staged.Some? then (Recovered(r.staged.value), Some(NewLease(w, at).(staged := r.staged)))
        else (Recovered(terminal), Some(NewLease(w, at).(staged := Some(Minimal(terminal)))))
  }

  class LeaseTable {
    var rows: map<string, LeaseRow>

    constructor ()
      ensures rows == map[]
    {
      rows := map[];
    }

    function Row(id: string): Option<LeaseRow>
      reads this
    {
      if id in rows then Some(rows[id]) else None
    }

    /** The primary key decides the race: an insert over an existing id fails and changes nothing. */
    method Insert(id: string, w: WorkerId, at: Time) returns (duplicate: bool)
      modifies this
      ensures duplicate == (id in old(rows))
      ensures rows == if duplicate then old(rows) else old(rows)[id := NewLease(w, at)]
    {
      duplicate := id in rows;
      if !duplicate {
        rows := rows[id := NewLease(w, at)];
      }
    }

    /** `affectedRows === 1` of a guarded UPDATE. */
    method Update(id: string, changed: Option<LeaseRow>) returns (affected: bool)
      requires id in rows
      modifies this
      ensures affected == changed.Some?
      ensures rows == if affected then old(rows)[id := changed.value] else old(rows)
    {
      affected := changed.Some?;
      if affected {
        rows := rows[id := changed.value];
      }
    }

    method Claim(id: string, w: WorkerId, at: Time, exclusive: bool, terminal: AuditResult)
      returns (outcome: ClaimOutcome)
      modifies this
      ensures (outcome, Row(id)) == ClaimSpec(old(Row(id)), w, at, exclusive, terminal)
      ensures forall other :: other != id ==> Row(other) == old(Row(other))
      // A claim that succeeds holds the lease, from its own clock, for thirty minutes.
      ensures outcome.Acquired? || outcome.Recovered? ==>
        id in rows && rows[id].status.Active? && rows[id].worker == w && rows[id].claimedAt == at && rows[id].expiresAt == at + 1_800_000
      ensures outcome.Acquired? <==> id !in old(rows) || old(rows)[id].status.Released?
      ensures outcome.Closed? <==> id in old(rows) && (old(rows)[id].status.Completed? || old(rows)[id].status.Expired?)
      ensures outcome.Busy? <==> id in old(rows) && old(rows)[id].status.Active? && !exclusive && at < old(rows)[id].expiresAt
      ensures outcome.Busy? || outcome.Closed? ==> rows == old(rows)
      ensures outcome.Closed? ==> outcome.result == terminal
      ensures outcome.Recovered? ==>
        outcome.result == (if old(rows)[id].staged.Some? then old(rows)[id].staged.value else terminal) && rows[id].staged.Some?
      ensures outcome.Acquired? ==> rows[id].staged.None?
    {
      var duplicate := Insert(id, w, at);
      if !duplicate {
        return Acquired;
      }
      var existing := rows[id];
      if existing.status.Completed? || existing.status.Expired? {
        return Closed(terminal);
      }
      if existing.status.Released? {
        var resumed := Update(id, Resumed(rows[id], w, at));
        return if resumed then Acquired else Busy;
      }
      if existing.staged.Some? {
        var recovered := Update(id, RecoveredStaged(rows[id], w, at, exclusive));
        return if recovered then Recovered(existing.staged.value) else Busy;
      }
      var recovered := Update(id, RecoveredUnstaged(rows[id], w, at, exclusive, terminal));
      return if recovered then Recovered(terminal) else Busy;
    }

    method StageResult(id: string, w: WorkerId, r: AuditResult) returns (owned: bool)
      modifies this
      ensures owned == (id in old(rows) && OwnedBy(old(rows)[id], w))
      ensures rows == if owned then old(rows)[id := old(rows)[id].(staged := Some(Minimal(r)))] else old(rows)
    {
      if id !in rows {
        return false;
      }
      owned := Update(id, StagedBy(rows[id], w, r));
    }

    /** An ambiguous settlement only checks the ownership; a staged result stays for recovery. */
    method Settle(id: string, w: WorkerId, settlement: Settlement) returns (owned: bool)
      modifies this
      ensures owned == (id in old(rows) && OwnedBy(old(rows)[id], w))
      ensures rows == if owned && !settlement.Ambiguous?
                      then old(rows)[id := old(rows)[id].(
                        status := if settlement.ModelSpent? then Completed else Released, staged := None)]
                      else old(rows)
    {
      if id !in rows {
        return false;
      }
      if settlement.Ambiguous? {
        return OwnedBy(rows[id], w);
      }
      owned := Update(id, SettledBy(rows[id], w, settlement.ModelSpent?));
    }
  }
}
