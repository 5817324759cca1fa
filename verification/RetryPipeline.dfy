/**
 The retry and exhaustion rules of the recording pipeline.

 Three files carry a copy of one eligibility rule: the reader lists work, the
 writer starts it, and cycle close and the late-recording correction decide when
 the audit has given up. The copies are written in SQL, with its three-valued
 logic, or in JavaScript. They are modelled as they are written and compared on
 every state the pipeline can reach.
 */
module RetryPipeline {
  import opened Options
  import opened ProviderErrors
  import SpendLease

  type Time = int

  // ---- SQL's three truth values ---------------------------------------------------

  datatype Truth = True | False | Unknown

  function Is(b: bool): Truth {
    if b then True else False
  }

  function And(a: Truth, b: Truth): Truth {
    if a.False? || b.False? then False else if a.True? && b.True? then True else Unknown
  }

  function Or(a: Truth, b: Truth): Truth {
    if a.True? || b.True? then True else if a.False? && b.False? then False else Unknown
  }

  function Not(a: Truth): Truth {
    match a
    case True => False
    case False => True
    case Unknown => Unknown
  }

  /** `column IN (...)`: unknown for a NULL column. */
  function In<T(==)>(column: Option<T>, values: set<T>): Truth {
    if column.None? then Unknown else Is(column.value in values)
  }

  // ---- The artifact row and the rules over it ----------------------------------------

  datatype AudioStatus = Pending | Processing | FetchFailed | TranscribeFailed | ClassifyFailed | Completed | Exhausted

  /** A final recording artifact with a source URL; `audited` is whether its call already has a completed audit. */
  datatype Artifact = Artifact(
    status: Option<AudioStatus>, attempts: Option<nat>, lastError: Option<string>, nextAt: Option<Time>, audited: bool)

  const MAX_ATTEMPTS: nat := 8

  const VALIDATION_FAILED: string := "CLASSIFICATION_VALIDATION_FAILED"
  const SPEND_UNKNOWN: string := "AUDIT_SPEND_STATE_UNKNOWN"

  function Reclaimable(): set<string> {
    {VALIDATION_FAILED, SPEND_UNKNOWN}
  }

  function Attempts(a: Artifact): nat {
    Coalesce(a.attempts, 0)
  }

  function StillOpen(a: Artifact): Truth {
    Is(Coalesce(a.status, Pending) !in {Completed, Exhausted})
  }

  /** The reader's `listCandidates` predicate, without the already-audited exclusion. */
  function Eligible(a: Artifact, now: Time): Truth {
    And(Is(Attempts(a) < 8),
        Or(And(StillOpen(a), Or(Is(a.nextAt.None?), if a.nextAt.None? then Unknown else Is(a.nextAt.value <= now))),
           And(In(a.status, {Exhausted}), In(a.lastError, Reclaimable()))))
  }

  predicate Listed(a: Artifact, now: Time) {
    Eligible(a, now).True? && !a.audited
  }

  /** The reader's deferral predicate: the same work, still serving its backoff. */
  predicate Deferred(a: Artifact, now: Time) {
    Attempts(a) < 8 && StillOpen(a).True? && a.nextAt.Some? && a.nextAt.value > now && !a.audited
  }

  /** The writer's `markStarted` guard. It bounds the attempts of an exhausted row only. */
  predicate MayStart(a: Artifact) {
    !a.audited &&
    Or(StillOpen(a),
       And(And(In(a.status, {Exhausted}), In(a.lastError, Reclaimable())), Is(Attempts(a) < 8))).True?
  }

  /** Cycle close's exhausted cohort, in SQL. */
  predicate CycleCloseExhausted(a: Artifact) {
    And(In(a.status, {Exhausted}), Not(And(In(a.lastError, Reclaimable()), Is(Attempts(a) < MAX_ATTEMPTS)))).True?
  }

  /** The late-recording rule, in JavaScript. */
  predicate LateExhausted(a: Artifact) {
    a.status == Some(Exhausted) && !(Coalesce(a.lastError, "") in Reclaimable() && Attempts(a) < MAX_ATTEMPTS)
  }

  // ---- What the writer stores ---------------------------------------------------------

  datatype Failure =
    | SourceMissing | EvidenceAltered | UnsafeUrl | TranscriptionFailed | ClassificationFailed | SpendStateUnknown

  function FailureText(f: Failure): string {
    match f
    case SourceMissing => "source_missing"
    case EvidenceAltered => "evidence_altered"
    case UnsafeUrl => "unsafe_url"
    case TranscriptionFailed => "transcription_failed"
    case ClassificationFailed => "classification_failed"
    case SpendStateUnknown => "spend_state_unknown"
  }

  function FailureStatus(f: Failure): AudioStatus {
    match f
    case SourceMissing => FetchFailed
    case TranscriptionFailed => TranscribeFailed
    case ClassificationFailed => ClassifyFailed
    case _ => Exhausted
  }

  /** A missing or zero count reads as the first attempt. */
  function AttemptNumber(a: Artifact): nat {
    if Attempts(a) == 0 then 1 else Attempts(a)
  }

  predicate Terminal(a: Artifact, f: Failure, code: Option<string>) {
    || f.EvidenceAltered? || f.UnsafeUrl? || f.SpendStateUnknown?
    || ((f.TranscriptionFailed? || f.ClassificationFailed?) && !RetryableProviderError(code))
    || AttemptNumber(a) >= MAX_ATTEMPTS
  }

  function Pow2(n: nat): nat {
    if n == 0 then 1 else 2 * Pow2(n - 1)
  }

  function RetryDelayMs(attempt: nat): nat {
    var delay := 60_000 * Pow2(if attempt == 0 then 0 else attempt - 1);
    if delay < 6 * 60 * 60_000 then delay else 6 * 60 * 60_000
  }

  function FirstThousand(text: string): string {
    if |text| <= 1000 then text else text[..1000]
  }

  function Started(a: Artifact): Artifact {
    a.(status := Some(Processing), attempts := Some(Attempts(a) + 1), nextAt := None, lastError := None)
  }

  function Failed(a: Artifact, f: Failure, code: Option<string>, at: Time): Artifact {
    var terminal := Terminal(a, f, code);
    a.(status := Some(if terminal then Exhausted else FailureStatus(f)),
    nextAt := if terminal then None else Some(at + RetryDelayMs(AttemptNumber(a))),
    lastError := Some(FirstThousand(Coalesce(code, FailureText(f)))))
  }

  function Succeeded(a: Artifact): Artifact {
    a.(status := Some(Completed), nextAt := None, lastError := None, audited := true)
  }

  // ---- The rules agree where they must ---------------------------------------------------

  /**
   The two exhaustion rules differ in exactly one family of rows: an exhausted
   row with no recorded error and attempts left. SQL cannot decide the IN and
   keeps such a row out of cycle close; JavaScript reads the missing error as the
   empty text and calls the row exhausted.
   */
  lemma ExhaustionRulesAgreeIff(a: Artifact)
    ensures (CycleCloseExhausted(a) <==> LateExhausted(a)) <==>
            !(a.status == Some(Exhausted) && a.lastError.None? && Attempts(a) < MAX_ATTEMPTS)
  {
    assert VALIDATION_FAILED != "" && SPEND_UNKNOWN != "" by {
      assert |VALIDATION_FAILED| > 0 && |SPEND_UNKNOWN| > 0;
    }
  }

  lemma ExhaustionRulesDisagree() returns (a: Artifact)
    ensures LateExhausted(a) && !CycleCloseExhausted(a)
  {
    a := Artifact(Some(Exhausted), None, None, None, false);
    assert VALIDATION_FAILED != "" && SPEND_UNKNOWN != "" by {
      assert |VALIDATION_FAILED| > 0 && |SPEND_UNKNOWN| > 0;
    }
  }

  /** A drain waits for exactly the work that will become claimable: deferred means not listed now, and listed from its due time on. */
  lemma DeferredIffListedLater(a: Artifact, now: Time)
    ensures Deferred(a, now) <==> !Listed(a, now) && exists later :: later > now && Listed(a, later)
    ensures Deferred(a, now) ==> forall t :: t > now ==> (Listed(a, t) <==> a.nextAt.value <= t)
  {
    if Deferred(a, now) {
      assert Listed(a, a.nextAt.value);
    }
  }

  /**
   An open question is in somebody's hands, listed now or later or given up by cycle
   close, exactly when it is not still open with all its attempts used.
   */
  lemma HandledIff(a: Artifact)
    requires !a.audited && a.status != Some(Completed) && (a.status == Some(Exhausted) ==> a.lastError.Some?)
    ensures (CycleCloseExhausted(a) || exists t :: Listed(a, t)) <==> !(Attempts(a) >= MAX_ATTEMPTS && StillOpen(a).True?)
  {
    var due := Coalesce(a.nextAt, 0);
    assert StillOpen(a).True? && Attempts(a) < MAX_ATTEMPTS ==> Listed(a, due);
    assert a.status == Some(Exhausted) && !CycleCloseExhausted(a) ==> Listed(a, due);
  }

  // ---- What a failure leads to ---------------------------------------------------------------

  /** The code starts with one of the two provider prefixes. */
  predicate FromProvider(code: Option<string>) {
    && code.Some?
    && ((|code.value| >= 23 && code.value[..23] == "TRANSCRIPTION_PROVIDER_")
        || (|code.value| >= 24 && code.value[..24] == "CLASSIFICATION_PROVIDER_"))
  }

  /** Worth another attempt: nothing was there to audit, or a provider did not answer. */
  predicate WorthRetry(f: Failure, code: Option<string>) {
    f == SourceMissing || ((f == TranscriptionFailed || f == ClassificationFailed) && FromProvider(code))
  }

  lemma ProviderPrefixes(code: Option<string>)
    ensures FromProvider(code) <==> RetryableProviderError(code)
  {
    if code.Some? {
      assert |"TRANSCRIPTION_PROVIDER_"| == 23 && |"CLASSIFICATION_PROVIDER_"| == 24;
    }
  }

  /** Which attempt failed; a missing or zero count reads as the first. */
  function AttemptOf(a: Artifact): (k: nat)
    ensures k >= 1
  {
    if a.attempts == None || a.attempts == Some(0) then 1 else a.attempts.value
  }

  /** Minutes until the retry after attempt k. */
  const RETRY_MINUTES: seq<int> := [1, 2, 4, 8, 16, 32, 64]

  lemma DelayInMinutes(k: nat)
    requires 1 <= k <= 7
    ensures RetryDelayMs(k) == RETRY_MINUTES[k - 1] * 60_000
    ensures RETRY_MINUTES[k - 1] * 60_000 <= 6 * 60 * 60_000
  {
    assert Pow2(0) == 1 && Pow2(1) == 2 && Pow2(2) == 4 && Pow2(3) == 8;
    assert Pow2(4) == 16 && Pow2(5) == 32 && Pow2(6) == 64;
  }

  /** The row a failure leaves: what it is called, what it remembers, and when it is due again. */
  lemma FailedRow(a: Artifact, f: Failure, code: Option<string>, at: Time)
    ensures var b, k := Failed(a, f, code, at), AttemptOf(a);
      && b.attempts == a.attempts && b.audited == a.audited
      && (code.Some? && |code.value| <= 1000 ==> b.lastError == code)
      && (code.Some? && |code.value| > 1000 ==> b.lastError == Some(code.value[..1000]))
      && (code.None? ==> b.lastError == Some(match f
            case SourceMissing => "source_missing" case EvidenceAltered => "evidence_altered" case UnsafeUrl => "unsafe_url"
            case TranscriptionFailed => "transcription_failed" case ClassificationFailed => "classification_failed"
            case SpendStateUnknown => "spend_state_unknown"))
      && if WorthRetry(f, code) && k < 8 then
           && b.status == Some(match f case SourceMissing => FetchFailed case TranscriptionFailed => TranscribeFailed case _ => ClassifyFailed)
           && b.nextAt == Some(at + RETRY_MINUTES[k - 1] * 60_000)
         else b.status == Some(Exhausted) && b.nextAt == None
  {
    ProviderPrefixes(code);
    if AttemptOf(a) < 8 {
      DelayInMinutes(AttemptOf(a));
    }
    assert |"source_missing"| < 1000 && |"evidence_altered"| < 1000 && |"unsafe_url"| < 1000 && |"transcription_failed"| < 1000;
    assert |"classification_failed"| < 1000 && |"spend_state_unknown"| < 1000;
  }

  /** The two codes cycle close still counts as open work. */
  predicate ReclaimableCode(code: Option<string>) {
    code == Some("CLASSIFICATION_VALIDATION_FAILED") || code == Some("AUDIT_SPEND_STATE_UNKNOWN")
  }

  lemma StoredCodeReclaimable(f: Failure, code: Option<string>)
    ensures FirstThousand(Coalesce(code, FailureText(f))) in Reclaimable() <==> ReclaimableCode(code)
  {
    var v, u := "CLASSIFICATION_VALIDATION_FAILED", "AUDIT_SPEND_STATE_UNKNOWN";
    assert v[0] == 'C' && u[0] == 'A' && |v| < 1000 && |u| < 1000;
    if code.None? {
      assert FailureText(f)[0] != 'C' && FailureText(f)[0] != 'A';
    }
  }

  /**
   The retry decision, for every failure, code and attempt k: the artifact is listed again,
   from min(6 hours, 2^(k-1) minutes) after the failure on, exactly when the failure is worth
   another attempt and this was not the eighth; it stays claimable at once under the two
   reclaimable codes while attempts are left; and every other failure is given up for good.
   */
  lemma FailureDecided(a: Artifact, f: Failure, code: Option<string>, at: Time, now: Time)
    requires !a.audited
    ensures var b, k := Failed(a, f, code, at), AttemptOf(a);
      if WorthRetry(f, code) && k < 8 then
        (Listed(b, now) <==> now >= at + RETRY_MINUTES[k - 1] * 60_000) && !CycleCloseExhausted(b)
      else if ReclaimableCode(code) && k < 8 then Listed(b, now) && !CycleCloseExhausted(b)
      else !Listed(b, now) && CycleCloseExhausted(b)
  {
    FailedRow(a, f, code, at);
    StoredCodeReclaimable(f, code);
  }

  /** The answer of a closed or lost spend lease carries a reclaimable code: until the eighth attempt the artifact stays listed and is not given up. */
  lemma UnknownSpendIsReclaimed(a: Artifact, callId: string, artifactId: string, at: Time, now: Time)
    requires !a.audited
    ensures var b := Failed(a, SpendStateUnknown, SpendLease.UnknownSpend(callId, artifactId).errorCode, at);
      && (Listed(b, now) <==> AttemptOf(a) < 8) && (CycleCloseExhausted(b) <==> AttemptOf(a) >= 8)
  {
    FailureDecided(a, SpendStateUnknown, Some("AUDIT_SPEND_STATE_UNKNOWN"), at, now);
  }

  /** A failed artifact comes back at some time after the failure, exactly: its failure is worth a retry or its code reclaimable, and attempts are left. */
  lemma ListedAgainIff(a: Artifact, f: Failure, code: Option<string>, at: Time)
    requires !a.audited
    ensures (exists t :: t > at && Listed(Failed(a, f, code, at), t)) <==>
            (WorthRetry(f, code) || ReclaimableCode(code)) && AttemptOf(a) < 8
  {
    var b, k := Failed(a, f, code, at), AttemptOf(a);
    if k < 8 && (WorthRetry(f, code) || ReclaimableCode(code)) {
      var due := at + RETRY_MINUTES[k - 1] * 60_000;
      FailureDecided(a, f, code, at, due);
      assert due > at && Listed(b, due);
    } else {
      forall t ensures !Listed(b, t) {
        FailureDecided(a, f, code, at, t);
      }
    }
  }

  /** A start counts one attempt and clears the last one's error and due time; a success is completed, never listed, started or given up. */
  lemma StartAndSuccess(a: Artifact, now: Time)
    ensures Started(a) == Artifact(Some(Processing), Some(Attempts(a) + 1), None, None, a.audited)
    ensures var b := Succeeded(a);
      b.status == Some(Completed) && b.audited && b.attempts == a.attempts
      && !Listed(b, now) && !MayStart(b) && !CycleCloseExhausted(b) && !LateExhausted(b)
  {
  }

  /** What the reader lists the writer can start, and what cycle close calls exhausted neither lists nor starts. */
  lemma ListedMayStart(a: Artifact, now: Time)
    ensures Listed(a, now) ==> MayStart(a) && !CycleCloseExhausted(a)
    ensures CycleCloseExhausted(a) ==> !Listed(a, now) && !MayStart(a)
  {}

  /** Retry delays double from a minute and stay below the cap for as long as a retry can be scheduled. */
  lemma {:induction false} RetryDelaysDouble(attempt: nat)
    requires 1 <= attempt < MAX_ATTEMPTS - 1
    ensures RetryDelayMs(attempt + 1) == 2 * RetryDelayMs(attempt) < 6 * 60 * 60_000
  {
    assert Pow2(attempt) == 2 * Pow2(attempt - 1);
    PowGrows(attempt, 6);
    assert Pow2(6) == 64;
  }

  lemma {:induction false} PowGrows(m: nat, n: nat)
    requires m <= n
    ensures Pow2(m) <= Pow2(n)
    decreases n
  {
    if m < n {
      PowGrows(m, n - 1);
    }
  }

  // ---- Workers --------------------------------------------------------------------------------

  datatype Pc = Idle | HasListed | Working

  /** `starts` counts how often paid processing of this artifact was begun. */
  datatype State = State(artifact: Artifact, workers: seq<Pc>, starts: nat)

  datatype Action =
    | List(now: Time)
    | Start
    | PersistFailure(failure: Failure, code: Option<string>, at: Time)
    | PersistSuccess
    | Crash

  datatype Step = Step(worker: nat, action: Action)

  function Apply(s: State, step: Step): State {
    var w, a := step.worker, s.artifact;
    if w >= |s.workers| then s
    else
      match step.action
      case Crash => s.(workers := s.workers[w := Idle])
      case List(now) => if s.workers[w].Idle? && Listed(a, now) then s.(workers := s.workers[w := HasListed]) else s
      case Start =>
        if !s.workers[w].HasListed? then s
        else if MayStart(a) then State(Started(a), s.workers[w := Working], s.starts + 1)
        else s.(workers := s.workers[w := Idle])
      case PersistFailure(f, code, at) =>
        if !s.workers[w].Working? then s
        else State(if a.audited then a else Failed(a, f, code, at), s.workers[w := Idle], s.starts)
      case PersistSuccess =>
        if !s.workers[w].Working? then s
        else State(if a.audited then a else Succeeded(a), s.workers[w := Idle], s.starts)
  }

  function Run(s: State, steps: seq<Step>): State
    decreases |steps|
  {
    if steps == [] then s else Apply(Run(s, steps[..|steps| - 1]), steps[|steps| - 1])
  }

  /** A fresh artifact, as imported or as a late recording leaves it, and `n` workers. */
  function Fresh(n: nat): State {
    State(Artifact(Some(Pending), None, None, None, false), seq(n, _ => Idle), 0)
  }

  function ListedCount(workers: seq<Pc>): nat
    decreases |workers|
  {
    if workers == [] then 0
    else ListedCount(workers[..|workers| - 1]) + if workers[|workers| - 1].HasListed? then 1 else 0
  }

  predicate Inv(s: State) {
    && s.starts == Attempts(s.artifact)
    && Attempts(s.artifact) + ListedCount(s.workers) <= 7 + |s.workers|
    && (s.artifact.status == Some(Exhausted) ==> s.artifact.lastError.Some?)
    && (s.artifact.status == Some(Completed) ==> s.artifact.audited)
  }

  lemma {:induction false} ListedCountBound(workers: seq<Pc>)
    ensures ListedCount(workers) <= |workers|
    ensures (forall i :: 0 <= i < |workers| ==> workers[i].Idle?) ==> ListedCount(workers) == 0
    decreases |workers|
  {
    if workers != [] {
      ListedCountBound(workers[..|workers| - 1]);
    }
  }

  lemma {:induction false} ListedCountUpdate(workers: seq<Pc>, w: nat, pc: Pc)
    requires w < |workers|
    ensures ListedCount(workers[w := pc])
            == ListedCount(workers) - (if workers[w].HasListed? then 1 else 0) + (if pc.HasListed? then 1 else 0)
    decreases |workers|
  {
    var n, changed := |workers| - 1, workers[w := pc];
    if w < n {
      assert changed[..n] == workers[..n][w := pc];
      ListedCountUpdate(workers[..n], w, pc);
    } else {
      assert changed[..n] == workers[..n];
    }
  }

  lemma StepKeepsInv(s: State, step: Step)
    requires Inv(s)
    ensures Inv(Apply(s, step)) && |Apply(s, step).workers| == |s.workers|
  {
    var s', w := Apply(s, step), step.worker;
    if w < |s.workers| {
      ListedCountUpdate(s.workers, w, s'.workers[w]);
      ListedCountBound(s'.workers);
    }
  }

  lemma {:induction false} RunsKeepInv(n: nat, steps: seq<Step>)
    ensures Inv(Run(Fresh(n), steps)) && |Run(Fresh(n), steps).workers| == n
    decreases |steps|
  {
    if steps == [] {
      ListedCountBound(Fresh(n).workers);
    } else {
      RunsKeepInv(n, steps[..|steps| - 1]);
      StepKeepsInv(Run(Fresh(n), steps[..|steps| - 1]), steps[|steps| - 1]);
    }
  }

  /** With n workers an artifact is started at most 7 + n times: eight for the single ordinary worker. */
  lemma StartsBounded(n: nat, steps: seq<Step>)
    ensures Run(Fresh(n), steps).starts <= 7 + n
  {
    RunsKeepInv(n, steps);
  }

  /** On every reachable state the two exhaustion rules agree, and an exhausted artifact is either still claimable or given up, never both or neither. */
  lemma RulesAgreeOnEveryRun(n: nat, steps: seq<Step>, now: Time)
    ensures var a := Run(Fresh(n), steps).artifact;
            && (CycleCloseExhausted(a) <==> LateExhausted(a))
            && (a.status == Some(Exhausted) && !a.audited ==> (Listed(a, now) <==> !CycleCloseExhausted(a)))
            && (Listed(a, now) ==> MayStart(a))
  {
    RunsKeepInv(n, steps);
    ExhaustionRulesAgreeIff(Run(Fresh(n), steps).artifact);
  }

  /** With one worker, giving up is final: nothing lists, starts or changes the artifact again. */
  lemma {:induction false} ExhaustedForever(s: State, steps: seq<Step>)
    requires |s.workers| == 1 && CycleCloseExhausted(s.artifact) && !s.workers[0].Working?
    ensures Run(s, steps).artifact == s.artifact && Run(s, steps).starts == s.starts
    ensures |Run(s, steps).workers| == 1 && !Run(s, steps).workers[0].Working?
    decreases |steps|
  {
    if steps != [] {
      ExhaustedForever(s, steps[..|steps| - 1]);
    }
  }

  /** While the single worker is at work on an artifact its status is processing. */
  lemma {:induction false} WorkingMeansProcessing(steps: seq<Step>)
    ensures var s := Run(Fresh(1), steps);
            |s.workers| == 1 && (s.workers[0].Working? ==> s.artifact.status == Some(Processing))
    decreases |steps|
  {
    if steps != [] {
      WorkingMeansProcessing(steps[..|steps| - 1]);
    }
  }

  lemma {:induction false} RunConcat(s: State, before: seq<Step>, after: seq<Step>)
    ensures Run(s, before + after) == Run(Run(s, before), after)
    decreases |after|
  {
    var all := before + after;
    if after == [] {
      assert all == before;
    } else {
      assert all[..|all| - 1] == before + after[..|after| - 1];
      RunConcat(s, before, after[..|after| - 1]);
    }
  }

  /** With one ordinary worker, an artifact that cycle close treats as exhausted is never listed, started or changed again. */
  lemma GivenUpForGood(before: seq<Step>, after: seq<Step>, now: Time)
    requires CycleCloseExhausted(Run(Fresh(1), before).artifact)
    ensures Run(Fresh(1), before + after).artifact == Run(Fresh(1), before).artifact
    ensures Run(Fresh(1), before + after).starts == Run(Fresh(1), before).starts
    ensures !Listed(Run(Fresh(1), before + after).artifact, now)
  {
    WorkingMeansProcessing(before);
    RunConcat(Fresh(1), before, after);
    ExhaustedForever(Run(Fresh(1), before), after);
  }

  // ---- The last attempt ------------------------------------------------------------------------

  lemma RunAppend(s: State, steps: seq<Step>, step: Step)
    ensures Run(s, steps + [step]) == Apply(Run(s, steps), step)
  {
    assert (steps + [step])[..|steps|] == steps;
  }

  /** After k failed rounds of worker 0 (list when due, start, fail on a missing source) the artifact has k attempts. */
  lemma {:induction false} AfterRounds(n: nat, k: nat) returns (steps: seq<Step>)
    requires 1 <= n && k <= 7
    ensures var s := Run(Fresh(n), steps);
            && Attempts(s.artifact) == k && !s.artifact.audited && StillOpen(s.artifact).True?
            && |s.workers| == n && (forall w :: 0 <= w < n ==> s.workers[w].Idle?)
    decreases k
  {
    steps := [];
    if k > 0 {
      steps := AfterRounds(n, k - 1);
      var s := Run(Fresh(n), steps);
      var now := Coalesce(s.artifact.nextAt, 0);
      RunAppend(Fresh(n), steps, Step(0, List(now)));
      steps := steps + [Step(0, List(now))];
      RunAppend(Fresh(n), steps, Step(0, Start));
      steps := steps + [Step(0, Start)];
      RunAppend(Fresh(n), steps, Step(0, PersistFailure(SourceMissing, None, now)));
      steps := steps + [Step(0, PersistFailure(SourceMissing, None, now))];
    }
  }

  /** Workers before k have listed the artifact, the others are idle. */
  predicate FirstListed(workers: seq<Pc>, k: nat) {
    k <= |workers| && forall w :: 0 <= w < |workers| ==> workers[w] == if w < k then HasListed else Idle
  }

  /** Workers before k are at work, the others have listed the artifact. */
  predicate FirstWorking(workers: seq<Pc>, k: nat) {
    k <= |workers| && forall w :: 0 <= w < |workers| ==> workers[w] == if w < k then Working else HasListed
  }

  /** After seven failures all of k workers can list the artifact. */
  lemma {:induction false} AllList(n: nat, k: nat) returns (steps: seq<Step>)
    requires 1 <= n && k <= n
    ensures var s := Run(Fresh(n), steps);
            && Attempts(s.artifact) == 7 && !s.artifact.audited && StillOpen(s.artifact).True?
            && |s.workers| == n && FirstListed(s.workers, k)
    decreases k
  {
    if k == 0 {
      steps := AfterRounds(n, 7);
    } else {
      steps := AllList(n, k - 1);
      var list := Step(k - 1, List(Coalesce(Run(Fresh(n), steps).artifact.nextAt, 0)));
      RunAppend(Fresh(n), steps, list);
      steps := steps + [list];
    }
  }

  /** And all of them can start it, since the start guard does not count attempts. */
  lemma {:induction false} AllStart(n: nat, k: nat) returns (steps: seq<Step>)
    requires 1 <= n && k <= n
    ensures var s := Run(Fresh(n), steps);
            && Attempts(s.artifact) == 7 + k && !s.artifact.audited && StillOpen(s.artifact).True?
            && |s.workers| == n && FirstWorking(s.workers, k)
    decreases k
  {
    if k == 0 {
      steps := AllList(n, n);
    } else {
      steps := AllStart(n, k - 1);
      RunAppend(Fresh(n), steps, Step(k - 1, Start));
      steps := steps + [Step(k - 1, Start)];
    }
  }

  /** The bound is tight: any number of workers reaches it. */
  lemma StartsReachBound(n: nat) returns (steps: seq<Step>)
    requires n >= 1
    ensures Run(Fresh(n), steps).starts == 7 + n
  {
    steps := AllStart(n, n);
    RunsKeepInv(n, steps);
  }

  /** Eight starts is the bound the pipeline promises; it holds on every run exactly when no second worker runs. */
  lemma EightStartsIff(n: nat)
    ensures (forall steps :: Run(Fresh(n), steps).starts <= MAX_ATTEMPTS) <==> n <= 1
  {
    if n <= 1 {
      forall steps ensures Run(Fresh(n), steps).starts <= MAX_ATTEMPTS {
        StartsBounded(n, steps);
      }
    } else {
      var steps := StartsReachBound(n);
      assert Run(Fresh(n), steps).starts > MAX_ATTEMPTS;
    }
  }

  /** Two workers already exceed it. */
  lemma TwoWorkersStartNineTimes() returns (steps: seq<Step>)
    ensures Run(Fresh(2), steps).starts == 9
  {
    steps := StartsReachBound(2);
  }

  /** Neither claimable nor given up. */
  predicate Stranded(s: State) {
    && Attempts(s.artifact) >= 8 && StillOpen(s.artifact).True?
    && forall w :: 0 <= w < |s.workers| ==> s.workers[w].Idle?
  }

  /** With every worker idle, an artifact not yet audited is in somebody's hands exactly when it is not stranded. */
  lemma HandledUnlessStranded(n: nat, steps: seq<Step>)
    requires var s := Run(Fresh(n), steps);
             !s.artifact.audited && forall w :: 0 <= w < |s.workers| ==> s.workers[w].Idle?
    ensures var s := Run(Fresh(n), steps);
            (CycleCloseExhausted(s.artifact) || exists t :: Listed(s.artifact, t)) <==> !Stranded(s)
  {
    RunsKeepInv(n, steps);
    HandledIff(Run(Fresh(n), steps).artifact);
  }

  /** A crash during the eighth attempt leaves the artifact stranded ... */
  lemma CrashInLastAttemptStrands() returns (steps: seq<Step>)
    ensures Stranded(Run(Fresh(1), steps))
  {
    steps := AfterRounds(1, 7);
    var now := Coalesce(Run(Fresh(1), steps).artifact.nextAt, 0);
    RunAppend(Fresh(1), steps, Step(0, List(now)));
    steps := steps + [Step(0, List(now))];
    RunAppend(Fresh(1), steps, Step(0, Start));
    steps := steps + [Step(0, Start)];
    RunAppend(Fresh(1), steps, Step(0, Crash));
    steps := steps + [Step(0, Crash)];
  }

  /** ... and no run of any number of workers ever lists it, starts it, or lets cycle close or a late correction give it up. */
  lemma {:induction false} StrandedForever(s: State, steps: seq<Step>, now: Time)
    requires Stranded(s)
    ensures Run(s, steps).artifact == s.artifact && Stranded(Run(s, steps))
    ensures !Listed(s.artifact, now) && !CycleCloseExhausted(s.artifact) && !LateExhausted(s.artifact)
    decreases |steps|
  {
    if steps != [] {
      StrandedForever(s, steps[..|steps| - 1], now);
    }
  }
}
