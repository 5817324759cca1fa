/**
 The administrator's re-audit queue and the audit writer that settles it.

 Requests, items and audit runs are numbered in insertion order, which stands for
 their generated ids. Each operation is one transaction. `writes` records, in
 order, every move of a call's latest-audit pointer; it is history kept by the
 model, not a column.
 */
module ManualReaudit {
  import opened Options

  type Time = int

  datatype ItemStatus = Queued | Processing | Completed | Skipped | Failed
  datatype RequestStatus = RequestQueued | Running | RequestCompleted | CompletedWithFailures

  datatype Call = Call(latest: Option<nat>, category: string)
  datatype Audit = Audit(call: nat, completed: bool)
  datatype Item = Item(request: nat, call: nat, baseline: nat, status: ItemStatus, attempts: nat, error: Option<string>)
  datatype Request = Request(
    key: string, digest: string, status: RequestStatus, requested: nat,
    completed: nat, failed: nat, skipped: nat, completedAt: Option<Time>)

  /** The pointer of `call` moved from `before` to `after`; `item` is the queue item that paid for it, if one did. */
  datatype PointerWrite = PointerWrite(call: nat, before: Option<nat>, after: nat, item: Option<nat>)

  datatype Store = Store(
    calls: map<nat, Call>, audits: seq<Audit>, items: seq<Item>, requests: seq<Request>, writes: seq<PointerWrite>)

  predicate Live(st: ItemStatus) {
    st.Queued? || st.Processing?
  }

  function Count(items: seq<Item>, request: nat, st: ItemStatus): nat
    decreases |items|
  {
    if items == [] then 0
    else
      var last := items[|items| - 1];
      Count(items[..|items| - 1], request, st) + if last.request == request && last.status == st then 1 else 0
  }

  function LiveCount(items: seq<Item>, request: nat): nat {
    Count(items, request, Queued) + Count(items, request, Processing)
  }

  /** The request row the settlement recomputes from its items. */
  function Rollup(items: seq<Item>, r: Request, request: nat, at: Time): Request {
    r.(completed := Count(items, request, Completed),
    failed := Count(items, request, Failed),
    skipped := Count(items, request, Skipped),
    status := if LiveCount(items, request) > 0 then Running
    else if Count(items, request, Failed) > 0 then CompletedWithFailures
    else RequestCompleted,
    completedAt := if LiveCount(items, request) > 0 then None else Some(at))
  }

  datatype Outcome = DoneOk | DoneFailed(error: string) | DoneSkipped

  function StatusOf(o: Outcome): ItemStatus {
    match o
    case DoneOk => Completed
    case DoneFailed(_) => Failed
    case DoneSkipped => Skipped
  }

  predicate Settleable(s: Store, item: nat) {
    item < |s.items| && s.items[item].status.Processing? && s.items[item].request < |s.requests|
  }

  function Settle(s: Store, item: nat, o: Outcome, at: Time): Store
    requires Settleable(s, item)
  {
    var it := s.items[item];
    var items := s.items[item := it.(status := StatusOf(o), error := if o.DoneFailed? then Some(o.error) else None)];
    s.(items := items, requests := s.requests[it.request := Rollup(items, s.requests[it.request], it.request, at)])
  }

  /** Interrupted claims are failed, never reclaimed. `interrupted` is what the sweep's query returned. */
  function Expire(s: Store, interrupted: seq<nat>, at: Time): Store
    decreases |interrupted|
  {
    if interrupted == [] then s
    else
      var t := Expire(s, interrupted[..|interrupted| - 1], at);
      var i := interrupted[|interrupted| - 1];
      if Settleable(t, i) then Settle(t, i, DoneFailed("REAUDIT_WORKER_INTERRUPTED"), at) else t
  }

  datatype Selected = Selected(call: nat, baseline: nat)

  predicate Busy(items: seq<Item>, call: nat) {
    exists i :: 0 <= i < |items| && items[i].call == call && Live(items[i].status)
  }

  function NotBusy(items: seq<Item>, selection: seq<Selected>): seq<Selected>
    decreases |selection|
  {
    if selection == [] then []
    else
      var last := selection[|selection| - 1];
      NotBusy(items, selection[..|selection| - 1]) + if Busy(items, last.call) then [] else [last]
  }

  predicate DistinctCalls(selection: seq<Selected>) {
    forall i, j :: 0 <= i < j < |selection| ==> selection[i].call != selection[j].call
  }

  function NewItems(request: nat, selection: seq<Selected>): seq<Item> {
    seq(|selection|, i requires 0 <= i < |selection| => Item(request, selection[i].call, selection[i].baseline, Queued, 0, None))
  }

  predicate KeyTaken(requests: seq<Request>, key: string) {
    exists r :: 0 <= r < |requests| && requests[r].key == key
  }

  /** A selection naming a call twice would meet the unique key on live calls and roll back. */
  function Enqueue(s: Store, key: string, digest: string, selection: seq<Selected>, interrupted: seq<nat>, at: Time): Store {
    if KeyTaken(s.requests, key) then s
    else
      var t := Expire(s, interrupted, at);
      var accepted := NotBusy(t.items, selection);
      if accepted == [] then t
      else if !DistinctCalls(accepted) then s
      else t.(requests := t.requests + [Request(key, digest, RequestQueued, |accepted|, 0, 0, 0, None)],
              items := t.items + NewItems(|t.requests|, accepted))
  }

  /** `queued -> processing`, with the request following it. */
  function Start(s: Store, item: nat): Store
    requires item < |s.items| && s.items[item].status.Queued? && s.items[item].request < |s.requests|
  {
    var r := s.items[item].request;
    s.(items := s.items[item := s.items[item].(status := Processing, attempts := s.items[item].attempts + 1, error := None)],
    requests := if s.requests[r].status.RequestQueued? then s.requests[r := s.requests[r].(status := Running)] else s.requests)
  }

  predicate BaselineHolds(s: Store, item: nat)
    requires item < |s.items|
  {
    s.items[item].call in s.calls && s.calls[s.items[item].call].latest == Some(s.items[item].baseline)
  }

  function MarkStarted(s: Store, item: nat, at: Time): Store {
    if item >= |s.items| || s.items[item].request >= |s.requests| || !Live(s.items[item].status) then s
    else if s.items[item].status.Queued? && s.items[item].attempts >= 1 then s
    else
      var t := if s.items[item].status.Queued? then Start(s, item) else s;
      if BaselineHolds(s, item) then t else Settle(t, item, DoneSkipped, at)
  }

  datatype AuditAnswer = Answered(category: string) | Unanswered(error: string)

  function Persist(s: Store, item: nat, answer: AuditAnswer, at: Time): Store {
    if !Settleable(s, item) then s
    else if !BaselineHolds(s, item) then Settle(s, item, DoneSkipped, at)
    else
      var call := s.items[item].call;
      var t := s.(audits := s.audits + [Audit(call, answer.Answered?)]);
      match answer
      case Unanswered(e) => Settle(t, item, DoneFailed(e), at)
      case Answered(category) => Settle(Point(t, call, category, Some(item)), item, DoneOk, at)
  }

  /** The newest audit becomes the call's current one. */
  function Point(s: Store, call: nat, category: string, item: Option<nat>): Store
    requires |s.audits| > 0 && call in s.calls
  {
    s.(calls := s.calls[call := Call(Some(|s.audits| - 1), category)],
    writes := s.writes + [PointerWrite(call, s.calls[call].latest, |s.audits| - 1, item)])
  }

  /** A candidate without a usable recording is failed without a spend. */
  function FailUnavailable(s: Store, item: nat, at: Time): Store {
    if item >= |s.items| || s.items[item].request >= |s.requests| then s
    else
      var it := s.items[item];
      var t := if it.status.Queued? && it.attempts < 1
               then s.(items := s.items[item := it.(status := Processing, attempts := it.attempts + 1, error := None)]) else s;
      if Settleable(t, item) then Settle(t, item, DoneFailed("REAUDIT_RECORDING_UNAVAILABLE"), at) else s
  }

  datatype Step =
    | EnqueueStep(key: string, digest: string, selection: seq<Selected>, interrupted: seq<nat>, at: Time)
    | ExpireStep(interrupted: seq<nat>, at: Time)
    | StartStep(item: nat, at: Time)
    | PersistStep(item: nat, answer: AuditAnswer, at: Time)
    | UnavailableStep(item: nat, at: Time)
    // Other writers of the same pointer: imports of calls and the ordinary or targeted audit worker.
    | ImportCall(call: nat)
    | OtherAudit(call: nat, category: string)

  function Apply(s: Store, step: Step): Store {
    match step
    case EnqueueStep(key, digest, selection, interrupted, at) => Enqueue(s, key, digest, selection, interrupted, at)
    case ExpireStep(interrupted, at) => Expire(s, interrupted, at)
    case StartStep(item, at) => MarkStarted(s, item, at)
    case PersistStep(item, answer, at) => Persist(s, item, answer, at)
    case UnavailableStep(item, at) => FailUnavailable(s, item, at)
    case ImportCall(call) => if call in s.calls then s else s.(calls := s.calls[call := Call(None, "")])
    case OtherAudit(call, category) =>
      if call !in s.calls then s else Point(s.(audits := s.audits + [Audit(call, true)]), call, category, None)
  }

  function Run(s: Store, steps: seq<Step>): Store
    decreases |steps|
  {
    if steps == [] then s else Apply(Run(s, steps[..|steps| - 1]), steps[|steps| - 1])
  }

  function Empty(): Store {
    Store(map[], [], [], [], [])
  }

  // ---- Invariant -------------------------------------------------------------------

  predicate ItemsOk(items: seq<Item>, requests: nat) {
    && (forall i :: 0 <= i < |items| ==>
          items[i].request < requests && items[i].attempts == (if items[i].status.Queued? then 0 else 1))
    && (forall i, j :: 0 <= i < j < |items| && Live(items[i].status) && Live(items[j].status) ==> items[i].call != items[j].call)
  }

  predicate RequestOk(items: seq<Item>, r: Request, request: nat) {
    && r.completed == Count(items, request, Completed)
    && r.failed == Count(items, request, Failed)
    && r.skipped == Count(items, request, Skipped)
    && LiveCount(items, request) + r.completed + r.failed + r.skipped == r.requested
    && r.requested > 0
    && (r.status.RequestQueued? ==> Count(items, request, Queued) == r.requested)
    && (LiveCount(items, request) == 0 <==> r.status.RequestCompleted? || r.status.CompletedWithFailures?)
    && (LiveCount(items, request) == 0 ==> (r.status.CompletedWithFailures? <==> r.failed > 0))
    && (LiveCount(items, request) == 0 <==> r.completedAt.Some?)
  }

  predicate RequestsOk(items: seq<Item>, requests: seq<Request>) {
    forall r :: 0 <= r < |requests| ==> RequestOk(items, requests[r], r)
  }

  /** The pointer of a call as its writes leave it. */
  function LatestIn(writes: seq<PointerWrite>, call: nat): Option<nat>
    decreases |writes|
  {
    if writes == [] then None
    else if writes[|writes| - 1].call == call then Some(writes[|writes| - 1].after)
    else LatestIn(writes[..|writes| - 1], call)
  }

  predicate WriteOk(s: Store, k: nat)
    requires k < |s.writes|
  {
    var w := s.writes[k];
    && w.before == LatestIn(s.writes[..k], w.call)
    && w.after < |s.audits| && s.audits[w.after] == Audit(w.call, true)
    && (w.before.Some? ==> w.before.value < w.after)
    && (w.item.Some? ==> w.item.value < |s.items| && s.items[w.item.value].call == w.call
                         && w.before == Some(s.items[w.item.value].baseline) && s.items[w.item.value].status.Completed?)
  }

  ghost predicate WritesOk(s: Store) {
    && (forall k :: 0 <= k < |s.writes| ==> WriteOk(s, k))
    && (forall j, k :: 0 <= j < k < |s.writes| ==> s.writes[j].after < s.writes[k].after)
    && (forall j, k :: 0 <= j < k < |s.writes| && s.writes[j].item.Some? ==> s.writes[j].item != s.writes[k].item)
    && (forall c :: c in s.calls ==> s.calls[c].latest == LatestIn(s.writes, c))
    && (forall i :: 0 <= i < |s.items| && s.items[i].status.Completed? ==> PaidFor(s, i))
  }

  predicate PaidFor(s: Store, i: nat) {
    exists k :: 0 <= k < |s.writes| && s.writes[k].item == Some(i)
  }

  ghost predicate Inv(s: Store) {
    && ItemsOk(s.items, |s.requests|)
    && RequestsOk(s.items, s.requests)
    && WritesOk(s)
  }

  // ---- Counting ------------------------------------------------------------------------

  lemma {:induction false} CountUpdate(items: seq<Item>, i: nat, y: Item, r: nat, st: ItemStatus)
    requires i < |items|
    ensures Count(items[i := y], r, st)
            == Count(items, r, st) - (if items[i].request == r && items[i].status == st then 1 else 0)
               + (if y.request == r && y.status == st then 1 else 0)
    decreases |items|
  {
    var n, changed := |items| - 1, items[i := y];
    if i < n {
      assert changed[..n] == items[..n][i := y];
      CountUpdate(items[..n], i, y, r, st);
    } else {
      assert changed[..n] == items[..n];
    }
  }

  lemma {:induction false} CountAppend(items: seq<Item>, request: nat, selection: seq<Selected>, r: nat, st: ItemStatus)
    ensures Count(items + NewItems(request, selection), r, st)
            == Count(items, r, st) + (if r == request && st.Queued? then |selection| else 0)
    decreases |selection|
  {
    var all := items + NewItems(request, selection);
    if selection == [] {
      assert all == items;
    } else {
      var fewer := selection[..|selection| - 1];
      CountAppend(items, request, fewer, r, st);
      assert all[..|all| - 1] == items + NewItems(request, fewer);
    }
  }

  lemma {:induction false} CountOutside(items: seq<Item>, r: nat, st: ItemStatus)
    requires forall i :: 0 <= i < |items| ==> items[i].request != r
    ensures Count(items, r, st) == 0
    decreases |items|
  {
    if items != [] {
      CountOutside(items[..|items| - 1], r, st);
    }
  }

  lemma {:induction false} CountPositive(items: seq<Item>, i: nat)
    requires i < |items|
    ensures Count(items, items[i].request, items[i].status) > 0
    decreases |items|
  {
    if i < |items| - 1 {
      CountPositive(items[..|items| - 1], i);
    }
  }

  // ---- Every transaction keeps the invariant ------------------------------------------------

  /** The pointer history only depends on what audits exist and which items are completed. */
  lemma WritesFrame(s: Store, s': Store)
    requires WritesOk(s)
    requires s'.writes == s.writes && |s.audits| <= |s'.audits| && s'.audits[..|s.audits|] == s.audits
    requires forall c :: c in s'.calls ==> if c in s.calls then s'.calls[c].latest == s.calls[c].latest
                                           else s'.calls[c].latest.None? && LatestIn(s.writes, c).None?
    requires |s.items| <= |s'.items|
    requires forall i :: 0 <= i < |s.items| ==> s'.items[i].call == s.items[i].call && s'.items[i].baseline == s.items[i].baseline
                                                && (s'.items[i].status.Completed? <==> s.items[i].status.Completed?)
    requires forall i :: |s.items| <= i < |s'.items| ==> !s'.items[i].status.Completed?
    ensures WritesOk(s')
  {
    forall k | 0 <= k < |s'.writes| ensures WriteOk(s', k) {
      assert WriteOk(s, k);
      assert s'.audits[s.writes[k].after] == s'.audits[..|s.audits|][s.writes[k].after];
    }
    forall i | 0 <= i < |s'.items| && s'.items[i].status.Completed? ensures PaidFor(s', i) {
      assert PaidFor(s, i);
    }
  }

  lemma SettleRolls(s: Store, item: nat, o: Outcome, at: Time)
    requires ItemsOk(s.items, |s.requests|) && Settleable(s, item)
    requires forall r :: 0 <= r < |s.requests| ==>
                           RequestOk(s.items, s.requests[r], r)
                           || (r == s.items[item].request && OpenRequest(s, r))
    ensures ItemsOk(Settle(s, item, o, at).items, |s.requests|)
    ensures RequestsOk(Settle(s, item, o, at).items, Settle(s, item, o, at).requests)
  {
    var s' := Settle(s, item, o, at);
    forall r | 0 <= r < |s'.requests| ensures RequestOk(s'.items, s'.requests[r], r) {
      SettleRollsOne(s, item, o, at, r);
    }
  }

  lemma SettleRollsOne(s: Store, item: nat, o: Outcome, at: Time, r: nat)
    requires Settleable(s, item) && r < |s.requests|
    requires RequestOk(s.items, s.requests[r], r) || (r == s.items[item].request && OpenRequest(s, r))
    ensures RequestOk(Settle(s, item, o, at).items, Settle(s, item, o, at).requests[r], r)
  {
    var y := Settle(s, item, o, at).items[item];
    CountUpdate(s.items, item, y, r, Queued);
    CountUpdate(s.items, item, y, r, Processing);
    CountUpdate(s.items, item, y, r, Completed);
    CountUpdate(s.items, item, y, r, Skipped);
    CountUpdate(s.items, item, y, r, Failed);
  }

  /** A request mid-transaction: its totals are right, only its status has yet to follow the item. */
  predicate OpenRequest(s: Store, r: nat)
    requires r < |s.requests|
  {
    s.requests[r].requested > 0
    && LiveCount(s.items, r) + Count(s.items, r, Completed) + Count(s.items, r, Failed) + Count(s.items, r, Skipped)
       == s.requests[r].requested
  }

  lemma SettleKeepsInv(s: Store, item: nat, o: Outcome, at: Time)
    requires Inv(s) && Settleable(s, item) && !o.DoneOk?
    ensures Inv(Settle(s, item, o, at))
  {
    SettleRolls(s, item, o, at);
    WritesFrame(s, Settle(s, item, o, at));
  }

  lemma {:induction false} ExpireKeepsInv(s: Store, interrupted: seq<nat>, at: Time)
    requires Inv(s)
    ensures Inv(Expire(s, interrupted, at))
    decreases |interrupted|
  {
    if interrupted != [] {
      ExpireKeepsInv(s, interrupted[..|interrupted| - 1], at);
      var t, i := Expire(s, interrupted[..|interrupted| - 1], at), interrupted[|interrupted| - 1];
      if Settleable(t, i) {
        SettleKeepsInv(t, i, DoneFailed("REAUDIT_WORKER_INTERRUPTED"), at);
      }
    }
  }

  lemma {:induction false} NotBusyFacts(items: seq<Item>, selection: seq<Selected>)
    ensures forall k :: 0 <= k < |NotBusy(items, selection)| ==> !Busy(items, NotBusy(items, selection)[k].call)
    decreases |selection|
  {
    if selection != [] {
      NotBusyFacts(items, selection[..|selection| - 1]);
    }
  }

  lemma InsertKeepsInv(t: Store, key: string, digest: string, accepted: seq<Selected>)
    requires Inv(t) && accepted != [] && DistinctCalls(accepted)
    requires forall k :: 0 <= k < |accepted| ==> !Busy(t.items, accepted[k].call)
    ensures Inv(t.(requests := t.requests + [Request(key, digest, RequestQueued, |accepted|, 0, 0, 0, None)],
                items := t.items + NewItems(|t.requests|, accepted)))
  {
    var n := |t.requests|;
    var s' := t.(requests := t.requests + [Request(key, digest, RequestQueued, |accepted|, 0, 0, 0, None)],
                 items := t.items + NewItems(n, accepted));
    forall i, j | 0 <= i < j < |s'.items| && Live(s'.items[i].status) && Live(s'.items[j].status)
      ensures s'.items[i].call != s'.items[j].call
    {
      if j >= |t.items| {
        assert !Busy(t.items, accepted[j - |t.items|].call);
      }
    }
    forall r, st ensures Count(s'.items, r, st) == Count(t.items, r, st) + (if r == n && st.Queued? then |accepted| else 0) {
      CountAppend(t.items, n, accepted, r, st);
    }
    forall st ensures Count(t.items, n, st) == 0 {
      CountOutside(t.items, n, st);
    }
    forall r | 0 <= r < |s'.requests| ensures RequestOk(s'.items, s'.requests[r], r) {
      if r < n {
        assert RequestOk(t.items, t.requests[r], r);
      }
    }
    WritesFrame(t, s');
  }

  lemma EnqueueKeepsInv(s: Store, key: string, digest: string, selection: seq<Selected>, interrupted: seq<nat>, at: Time)
    requires Inv(s)
    ensures Inv(Enqueue(s, key, digest, selection, interrupted, at))
  {
    ExpireKeepsInv(s, interrupted, at);
    var t := Expire(s, interrupted, at);
    NotBusyFacts(t.items, selection);
    var accepted := NotBusy(t.items, selection);
    if accepted != [] && DistinctCalls(accepted) {
      InsertKeepsInv(t, key, digest, accepted);
    }
  }

  lemma StartMoves(s: Store, item: nat)
    requires Inv(s) && item < |s.items| && s.items[item].status.Queued?
    ensures var y := s.items[item].(status := Processing, attempts := 1, error := None); var items := s.items[item := y];
            && ItemsOk(items, |s.requests|)
            && (forall r, st :: Count(items, r, st) == Count(s.items, r, st)
                                - (if y.request == r && st.Queued? then 1 else 0) + (if y.request == r && st.Processing? then 1 else 0))
  {
    var y := s.items[item].(status := Processing, attempts := 1, error := None);
    forall r, st ensures Count(s.items[item := y], r, st) == Count(s.items, r, st)
                           - (if y.request == r && st.Queued? then 1 else 0) + (if y.request == r && st.Processing? then 1 else 0) {
      CountUpdate(s.items, item, y, r, st);
    }
  }

  lemma StartKeepsInv(s: Store, item: nat)
    requires Inv(s) && item < |s.items| && s.items[item].status.Queued?
    ensures Inv(Start(s, item))
  {
    var s' := Start(s, item);
    StartMoves(s, item);
    CountPositive(s'.items, item);
    forall r | 0 <= r < |s'.requests| ensures RequestOk(s'.items, s'.requests[r], r) {
      assert RequestOk(s.items, s.requests[r], r);
    }
    WritesFrame(s, s');
  }

  lemma MarkStartedKeepsInv(s: Store, item: nat, at: Time)
    requires Inv(s)
    ensures Inv(MarkStarted(s, item, at))
  {
    if item < |s.items| && Live(s.items[item].status) {
      if s.items[item].status.Queued? {
        StartKeepsInv(s, item);
      }
      if !BaselineHolds(s, item) {
        SettleKeepsInv(if s.items[item].status.Queued? then Start(s, item) else s, item, DoneSkipped, at);
      }
    }
  }

  lemma UnavailableKeepsInv(s: Store, item: nat, at: Time)
    requires Inv(s)
    ensures Inv(FailUnavailable(s, item, at))
  {
    if item < |s.items| {
      if s.items[item].status.Queued? {
        var t := s.(items := s.items[item := s.items[item].(status := Processing, attempts := 1, error := None)]);
        StartMoves(s, item);
        forall r | 0 <= r < |t.requests|
          ensures RequestOk(t.items, t.requests[r], r) || (r == t.items[item].request && OpenRequest(t, r))
        {
          assert RequestOk(s.items, s.requests[r], r);
        }
        SettleRolls(t, item, DoneFailed("REAUDIT_RECORDING_UNAVAILABLE"), at);
        WritesFrame(s, FailUnavailable(s, item, at));
      } else if Settleable(s, item) {
        SettleKeepsInv(s, item, DoneFailed("REAUDIT_RECORDING_UNAVAILABLE"), at);
      }
    }
  }

  /** One write was appended that starts from the current pointer of `call`, ends at a new audit, and completes `item` if it names one. */
  ghost predicate Pointed(s: Store, call: nat, category: string, item: Option<nat>, s': Store) {
    && WritesOk(s) && call in s.calls
    && (var p := Point(s.(audits := s.audits + [Audit(call, true)]), call, category, item);
        s'.writes == p.writes && s'.audits == p.audits && s'.calls == p.calls)
    && |s'.items| == |s.items|
    && (forall i :: 0 <= i < |s.items| ==> s'.items[i].call == s.items[i].call && s'.items[i].baseline == s.items[i].baseline
                                           && (s'.items[i].status.Completed? <==> s.items[i].status.Completed? || item == Some(i)))
    && (item.Some? ==> item.value < |s.items| && !s.items[item.value].status.Completed? && s.items[item.value].call == call
                       && s.calls[call].latest == Some(s.items[item.value].baseline))
  }

  lemma PointedWrites(s: Store, call: nat, category: string, item: Option<nat>, s': Store)
    requires Pointed(s, call, category, item, s')
    ensures forall k :: 0 <= k < |s'.writes| ==> WriteOk(s', k)
  {
    var n := |s.writes|;
    assert s'.writes[..n] == s.writes;
    forall k | 0 <= k < |s'.writes| ensures WriteOk(s', k) {
      if k < n {
        assert WriteOk(s, k);
        assert s'.writes[..k] == s.writes[..k];
      } else if s.calls[call].latest.Some? {
        LatestIsOld(s, s.writes, call);
      }
    }
  }

  lemma PointedOrder(s: Store, call: nat, category: string, item: Option<nat>, s': Store)
    requires Pointed(s, call, category, item, s')
    ensures forall j, k :: 0 <= j < k < |s'.writes| ==> s'.writes[j].after < s'.writes[k].after
    ensures forall j, k :: 0 <= j < k < |s'.writes| && s'.writes[j].item.Some? ==> s'.writes[j].item != s'.writes[k].item
  {
    forall j, k | 0 <= j < k < |s'.writes|
      ensures s'.writes[j].after < s'.writes[k].after
      ensures s'.writes[j].item.Some? ==> s'.writes[j].item != s'.writes[k].item
    {
      assert WriteOk(s, j);
    }
  }

  lemma PointedPaid(s: Store, call: nat, category: string, item: Option<nat>, s': Store)
    requires Pointed(s, call, category, item, s')
    ensures forall i :: 0 <= i < |s'.items| && s'.items[i].status.Completed? ==> PaidFor(s', i)
  {
    var n := |s.writes|;
    forall i | 0 <= i < |s'.items| && s'.items[i].status.Completed? ensures PaidFor(s', i) {
      if item == Some(i) {
        assert s'.writes[n].item == Some(i);
      } else {
        assert PaidFor(s, i);
        var k :| 0 <= k < n && s.writes[k].item == Some(i);
        assert s'.writes[k] == s.writes[k];
      }
    }
  }

  /** Such a write extends the chain. */
  lemma PointExtends(s: Store, call: nat, category: string, item: Option<nat>, s': Store)
    requires Pointed(s, call, category, item, s')
    ensures WritesOk(s')
  {
    PointedWrites(s, call, category, item, s');
    PointedOrder(s, call, category, item, s');
    PointedPaid(s, call, category, item, s');
    assert s'.writes[..|s.writes|] == s.writes;
  }

  lemma {:induction false} LatestIsOld(s: Store, writes: seq<PointerWrite>, call: nat)
    requires writes <= s.writes && forall k :: 0 <= k < |s.writes| ==> WriteOk(s, k)
    ensures LatestIn(writes, call).Some? ==> LatestIn(writes, call).value < |s.audits|
    decreases |writes|
  {
    if writes != [] {
      assert WriteOk(s, |writes| - 1);
      LatestIsOld(s, writes[..|writes| - 1], call);
    }
  }

  lemma PersistKeepsInv(s: Store, item: nat, answer: AuditAnswer, at: Time)
    requires Inv(s)
    ensures Inv(Persist(s, item, answer, at))
  {
    if Settleable(s, item) {
      var s', call := Persist(s, item, answer, at), s.items[item].call;
      if !BaselineHolds(s, item) {
        SettleKeepsInv(s, item, DoneSkipped, at);
      } else if answer.Unanswered? {
        SettleRolls(s, item, DoneFailed(answer.error), at);
        assert s'.audits[..|s.audits|] == s.audits;
        WritesFrame(s, s');
      } else {
        SettleRolls(s, item, DoneOk, at);
        PointExtends(s, call, answer.category, Some(item), s');
      }
    }
  }

  lemma StepKeepsInv(s: Store, step: Step)
    requires Inv(s) && NoUnknownWrites(s)
    ensures Inv(Apply(s, step))
  {
    match step
    case EnqueueStep(key, digest, selection, interrupted, at) => EnqueueKeepsInv(s, key, digest, selection, interrupted, at);
    case ExpireStep(interrupted, at) => ExpireKeepsInv(s, interrupted, at);
    case StartStep(item, at) => MarkStartedKeepsInv(s, item, at);
    case PersistStep(item, answer, at) => PersistKeepsInv(s, item, answer, at);
    case UnavailableStep(item, at) => UnavailableKeepsInv(s, item, at);
    case ImportCall(call) =>
      NeverWritten(s.writes, call, s.calls);
      WritesFrame(s, Apply(s, step));
    case OtherAudit(call, category) =>
      if call in s.calls {
        PointExtends(s, call, category, None, Apply(s, step));
      }
  }

  /** One completed audit was added, the pointer of `call` moved to it with its category, and no other call changed. */
  predicate Moved(s: Store, s': Store, call: nat, category: string, item: Option<nat>) {
    && call in s.calls && s'.calls.Keys == s.calls.Keys
    && s'.audits == s.audits + [Audit(call, true)]
    && s'.writes == s.writes + [PointerWrite(call, s.calls[call].latest, |s.audits|, item)]
    && s'.calls[call] == Call(Some(|s.audits|), category)
    && (forall c :: c in s.calls && c != call ==> s'.calls[c] == s.calls[c])
  }

  /** Only a completed persist or another audit moves a pointer; everything else leaves pointers and categories alone. */
  lemma PointersMoveOnlyOnCompletion(s: Store, step: Step)
    ensures var s' := Apply(s, step);
            || (s'.writes == s.writes && forall c :: c in s.calls ==> c in s'.calls && s'.calls[c] == s.calls[c])
            || (step.OtherAudit? && Moved(s, s', step.call, step.category, None))
            || (step.PersistStep? && step.item < |s.items| && s.items[step.item].status.Processing?
                && s'.items[step.item].status.Completed? && step.answer.Answered?
                && Moved(s, s', s.items[step.item].call, step.answer.category, Some(step.item))
                && s.calls[s.items[step.item].call].latest == Some(s.items[step.item].baseline))
  {
    match step
    case EnqueueStep(key, digest, selection, interrupted, at) => ExpireFrame(s, interrupted, at);
    case ExpireStep(interrupted, at) => ExpireFrame(s, interrupted, at);
    case _ =>
  }

  lemma {:induction false} ExpireFrame(s: Store, interrupted: seq<nat>, at: Time)
    ensures Expire(s, interrupted, at).calls == s.calls && Expire(s, interrupted, at).writes == s.writes
    decreases |interrupted|
  {
    if interrupted != [] {
      ExpireFrame(s, interrupted[..|interrupted| - 1], at);
    }
  }

  predicate NoUnknownWrites(s: Store) {
    forall k :: 0 <= k < |s.writes| ==> s.writes[k].call in s.calls
  }

  lemma {:induction false} NeverWritten(writes: seq<PointerWrite>, call: nat, calls: map<nat, Call>)
    requires forall k :: 0 <= k < |writes| ==> writes[k].call in calls
    ensures call !in calls ==> LatestIn(writes, call).None?
    decreases |writes|
  {
    if writes != [] {
      NeverWritten(writes[..|writes| - 1], call, calls);
    }
  }

  lemma {:induction false} RunsKeepInv(steps: seq<Step>)
    ensures Inv(Run(Empty(), steps)) && NoUnknownWrites(Run(Empty(), steps))
    decreases |steps|
  {
    if steps != [] {
      RunsKeepInv(steps[..|steps| - 1]);
      var s, step := Run(Empty(), steps[..|steps| - 1]), steps[|steps| - 1];
      StepKeepsInv(s, step);
      PointersMoveOnlyOnCompletion(s, step);
    }
  }

  // ---- Main results, over every run -------------------------------------------------------------

  /** A call never has two live items, so two clicks or two administrators cannot queue it twice. */
  lemma OneLiveItemPerCall(steps: seq<Step>, i: nat, j: nat)
    requires var items := Run(Empty(), steps).items;
             i < |items| && j < |items| && Live(items[i].status) && Live(items[j].status) && items[i].call == items[j].call
    ensures i == j
  {
    RunsKeepInv(steps);
  }

  function Rank(st: ItemStatus): nat {
    match st
    case Queued => 0
    case Processing => 1
    case _ => 2
  }

  /** The item may only move forward, its identity is fixed, and a settled item never changes again. */
  predicate Advances(before: Item, after: Item) {
    && before.request == after.request && before.call == after.call && before.baseline == after.baseline
    && Rank(before.status) <= Rank(after.status)
    && (Rank(before.status) == 2 ==> after == before)
  }

  lemma {:induction false} ExpireAdvances(s: Store, interrupted: seq<nat>, at: Time)
    ensures |Expire(s, interrupted, at).items| == |s.items|
    ensures forall i :: 0 <= i < |s.items| ==> Advances(s.items[i], Expire(s, interrupted, at).items[i])
    decreases |interrupted|
  {
    if interrupted != [] {
      ExpireAdvances(s, interrupted[..|interrupted| - 1], at);
    }
  }

  lemma EnqueueAdvances(t: Store, key: string, digest: string, selection: seq<Selected>, interrupted: seq<nat>, at: Time, i: nat)
    requires i < |t.items|
    ensures var u := Enqueue(t, key, digest, selection, interrupted, at); i < |u.items| && Advances(t.items[i], u.items[i])
  {
    ExpireAdvances(t, interrupted, at);
  }

  lemma WorkAdvances(t: Store, step: Step, i: nat)
    requires i < |t.items| && (step.StartStep? || step.PersistStep? || step.UnavailableStep?)
    ensures i < |Apply(t, step).items| && Advances(t.items[i], Apply(t, step).items[i])
  {
  }

  lemma StepAdvances(t: Store, step: Step, i: nat)
    requires i < |t.items|
    ensures i < |Apply(t, step).items| && Advances(t.items[i], Apply(t, step).items[i])
  {
    match step
    case EnqueueStep(key, digest, selection, interrupted, at) =>
      EnqueueAdvances(t, key, digest, selection, interrupted, at, i);
    case ExpireStep(interrupted, at) => ExpireAdvances(t, interrupted, at);
    case ImportCall(_) =>
    case OtherAudit(_, _) =>
    case _ => WorkAdvances(t, step, i);
  }

  lemma AdvancesChain(a: Item, b: Item, c: Item)
    requires Advances(a, b) && Advances(b, c)
    ensures Advances(a, c)
  {
  }

  /** Paid work is attempted once: over any run an item only advances, enters processing at most once and is frozen when settled. */
  lemma {:induction false} ItemsOnlyAdvance(s: Store, steps: seq<Step>, i: nat)
    requires i < |s.items|
    ensures i < |Run(s, steps).items| && Advances(s.items[i], Run(s, steps).items[i])
    decreases |steps|
  {
    if steps != [] {
      var t, step := Run(s, steps[..|steps| - 1]), steps[|steps| - 1];
      ItemsOnlyAdvance(s, steps[..|steps| - 1], i);
      StepAdvances(t, step, i);
      AdvancesChain(s.items[i], t.items[i], Apply(t, step).items[i]);
    }
  }

  /** The roll-up is exact at all times: a request is terminal exactly when it has no live item, and its counters are its item counts. */
  lemma RequestMatchesItems(steps: seq<Step>, r: nat)
    requires r < |Run(Empty(), steps).requests|
    ensures var s := Run(Empty(), steps); var q := s.requests[r];
            && (q.status.RequestCompleted? || q.status.CompletedWithFailures? <==> LiveCount(s.items, r) == 0)
            && (q.status.CompletedWithFailures? ==> q.failed > 0)
            && (q.completedAt.Some? <==> LiveCount(s.items, r) == 0)
            && q.completed == Count(s.items, r, Completed) && q.failed == Count(s.items, r, Failed)
            && q.skipped == Count(s.items, r, Skipped)
            && LiveCount(s.items, r) + q.completed + q.failed + q.skipped == q.requested
  {
    RunsKeepInv(steps);
    var s := Run(Empty(), steps);
    assert RequestOk(s.items, s.requests[r], r);
  }

  /**
   No audit is lost: an item is completed exactly when one pointer write carries
   it, that write names one completed audit of the item's call, and it started
   from the baseline the administrator saw.
   */
  lemma NoLostAudit(steps: seq<Step>, i: nat)
    requires i < |Run(Empty(), steps).items|
    ensures var s := Run(Empty(), steps);
            && (s.items[i].status.Completed? <==> PaidFor(s, i))
            && (forall j, k | 0 <= j < |s.writes| && 0 <= k < |s.writes| :: s.writes[j].item == s.writes[k].item == Some(i) ==> j == k)
            && (forall k :: 0 <= k < |s.writes| && s.writes[k].item == Some(i) ==>
                  && s.writes[k].call == s.items[i].call && s.writes[k].before == Some(s.items[i].baseline)
                  && s.writes[k].after < |s.audits| && s.audits[s.writes[k].after] == Audit(s.items[i].call, true))
  {
    RunsKeepInv(steps);
    var s := Run(Empty(), steps);
    forall k | 0 <= k < |s.writes| && s.writes[k].item == Some(i)
      ensures s.items[i].status.Completed? && s.writes[k].call == s.items[i].call
              && s.writes[k].before == Some(s.items[i].baseline)
              && s.writes[k].after < |s.audits| && s.audits[s.writes[k].after] == Audit(s.items[i].call, true)
    {
      assert WriteOk(s, k);
    }
  }

  /** The writes of a call form one chain: each starts where the previous one of that call ended, and the last is current. */
  lemma PointerWritesChain(steps: seq<Step>, k: nat)
    requires k < |Run(Empty(), steps).writes|
    ensures var s := Run(Empty(), steps);
            && s.writes[k].before == LatestIn(s.writes[..k], s.writes[k].call)
            && s.writes[k].call in s.calls && s.calls[s.writes[k].call].latest == LatestIn(s.writes, s.writes[k].call)
  {
    RunsKeepInv(steps);
    assert WriteOk(Run(Empty(), steps), k);
  }

  lemma {:induction false} LatestPasses(s: Store, n: nat, k: nat)
    requires WritesOk(s) && k < n <= |s.writes|
    ensures LatestIn(s.writes[..n], s.writes[k].call).Some?
    ensures s.writes[k].after <= LatestIn(s.writes[..n], s.writes[k].call).value
    decreases n
  {
    assert s.writes[..n][..n - 1] == s.writes[..n - 1];
    if k < n - 1 {
      LatestPasses(s, n - 1, k);
    }
  }

  /** A baseline is answered once: two completed items of one call never started from the same audit. */
  lemma BaselineAnsweredOnce(steps: seq<Step>, i: nat, j: nat)
    requires var items := Run(Empty(), steps).items;
             i < |items| && j < |items| && items[i].status.Completed? && items[j].status.Completed?
             && items[i].call == items[j].call && items[i].baseline == items[j].baseline
    ensures i == j
  {
    RunsKeepInv(steps);
    var s := Run(Empty(), steps);
    assert PaidFor(s, i) && PaidFor(s, j);
    var k :| 0 <= k < |s.writes| && s.writes[k].item == Some(i);
    var l :| 0 <= l < |s.writes| && s.writes[l].item == Some(j);
    assert WriteOk(s, k) && WriteOk(s, l);
    if k < l {
      LatestPasses(s, l, k);
    } else if l < k {
      LatestPasses(s, k, l);
    }
  }

  // ---- Selecting calls by the references an administrator sees ---------------------------------------

  datatype Resolved = Resolved(reference: string, call: nat, baseline: nat)

  /** The calls one displayed reference resolved to. */
  function CallsOf(resolved: seq<Resolved>, reference: string): set<nat> {
    set i | 0 <= i < |resolved| && resolved[i].reference == reference :: resolved[i].call
  }

  predicate RowFor(resolved: seq<Resolved>, reference: string, x: Selected) {
    Resolved(reference, x.call, x.baseline) in resolved
  }

  /** The index holds, under each reference, exactly the calls it resolved to, each with the baseline of some row. */
  ghost predicate Indexes(resolved: seq<Resolved>, n: nat, byReference: map<string, map<nat, nat>>)
    requires n <= |resolved|
  {
    && (forall r :: CallsOf(resolved[..n], r) == if r in byReference then byReference[r].Keys else {})
    && (forall r, c :: r in byReference && c in byReference[r] ==> RowFor(resolved, r, Selected(c, byReference[r][c])))
  }

  lemma IndexGrows(resolved: seq<Resolved>, i: nat, byReference: map<string, map<nat, nat>>, calls: map<nat, nat>)
    requires i < |resolved| && Indexes(resolved, i, byReference)
    requires calls == if resolved[i].reference in byReference then byReference[resolved[i].reference] else map[]
    ensures Indexes(resolved, i + 1, byReference[resolved[i].reference := calls[resolved[i].call := resolved[i].baseline]])
  {
    CallsOfNext(resolved, i);
    var row := resolved[i];
    var after := byReference[row.reference := calls[row.call := row.baseline]];
    forall r ensures CallsOf(resolved[..i + 1], r) == if r in after then after[r].Keys else {} {
      assert CallsOf(resolved[..i], r) == if r in byReference then byReference[r].Keys else {};
    }
    forall r, c | r in after && c in after[r] ensures RowFor(resolved, r, Selected(c, after[r][c])) {
      if r != row.reference || c != row.call {
        assert r in byReference && c in byReference[r];
      }
    }
  }

  method IndexByReference(resolved: seq<Resolved>) returns (byReference: map<string, map<nat, nat>>)
    ensures forall r :: CallsOf(resolved, r) == if r in byReference then byReference[r].Keys else {}
    ensures forall r, c :: r in byReference && c in byReference[r] ==> RowFor(resolved, r, Selected(c, byReference[r][c]))
  {
    byReference := map[];
    for i := 0 to |resolved|
      invariant Indexes(resolved, i, byReference)
    {
      var row := resolved[i];
      var calls := if row.reference in byReference then byReference[row.reference] else map[];
      IndexGrows(resolved, i, byReference, calls);
      byReference := byReference[row.reference := calls[row.call := row.baseline]];
    }
    assert resolved[..|resolved|] == resolved;
  }

  /** A selection is refused unless every reference means exactly one call; then each such call is selected once. */
  method SelectedCalls(references: seq<string>, resolved: seq<Resolved>) returns (selection: Option<seq<Selected>>)
    ensures selection.Some? <==> forall i :: 0 <= i < |references| ==> |CallsOf(resolved, references[i])| == 1
    ensures selection.Some? ==> Selects(resolved, references, |references|, selection.value)
  {
    var byReference := IndexByReference(resolved);
    var chosen: seq<Selected> := [];
    for i := 0 to |references|
      invariant forall k :: 0 <= k < i ==> |CallsOf(resolved, references[k])| == 1
      invariant Selects(resolved, references, i, chosen)
    {
      var reference := references[i];
      assert CallsOf(resolved, reference) == if reference in byReference then byReference[reference].Keys else {};
      if reference !in byReference || |byReference[reference]| != 1 {
        return None;
      }
      var c :| c in byReference[reference];
      OnlyMember(byReference[reference].Keys, c);
      var x := Selected(c, byReference[reference][c]);
      PutSelects(resolved, references, i, chosen, x);
      chosen := Put(chosen, x);
    }
    return Some(chosen);
  }

  /** The calls of the first n references, each once, and every choice is a looked-up row of some reference. */
  predicate Selects(resolved: seq<Resolved>, references: seq<string>, n: nat, chosen: seq<Selected>)
    requires n <= |references|
  {
    && DistinctCalls(chosen) && Covers(resolved, references, n, chosen)
    && forall k :: 0 <= k < |chosen| ==> Justified(resolved, references, chosen[k])
  }

  predicate Covers(resolved: seq<Resolved>, references: seq<string>, n: nat, chosen: seq<Selected>)
    requires n <= |references|
  {
    forall k :: 0 <= k < n ==> forall c :: c in CallsOf(resolved, references[k]) ==> HasCall(chosen, c)
  }

  predicate Justified(resolved: seq<Resolved>, references: seq<string>, x: Selected) {
    exists k :: 0 <= k < |references| && RowFor(resolved, references[k], x)
  }

  lemma PutCovers(resolved: seq<Resolved>, references: seq<string>, i: nat, chosen: seq<Selected>, x: Selected)
    requires i < |references| && Covers(resolved, references, i, chosen) && CallsOf(resolved, references[i]) == {x.call}
    ensures Covers(resolved, references, i + 1, Put(chosen, x))
  {
    forall k, d | 0 <= k < i && d in CallsOf(resolved, references[k]) ensures HasCall(Put(chosen, x), d) {
      assert HasCall(chosen, d);
      var m :| 0 <= m < |chosen| && chosen[m].call == d;
      assert Put(chosen, x)[m].call == d;
    }
  }

  lemma PutDistinct(chosen: seq<Selected>, x: Selected)
    requires DistinctCalls(chosen)
    ensures DistinctCalls(Put(chosen, x))
  {
    if !HasCall(chosen, x.call) {
      assert forall m :: 0 <= m < |chosen| ==> chosen[m].call != x.call;
    }
  }

  lemma PutSelects(resolved: seq<Resolved>, references: seq<string>, i: nat, chosen: seq<Selected>, x: Selected)
    requires i < |references| && Selects(resolved, references, i, chosen)
    requires CallsOf(resolved, references[i]) == {x.call} && RowFor(resolved, references[i], x)
    ensures Selects(resolved, references, i + 1, Put(chosen, x))
  {
    PutCovers(resolved, references, i, chosen, x);
    PutDistinct(chosen, x);
    assert Justified(resolved, references, x);
    var r := Put(chosen, x);
    forall k | 0 <= k < |r| ensures Justified(resolved, references, r[k]) {
      if r[k] != x {
        var m :| 0 <= m < |chosen| && chosen[m] == r[k];
      }
    }
  }

  predicate HasCall(chosen: seq<Selected>, call: nat) {
    exists m :: 0 <= m < |chosen| && chosen[m].call == call
  }

  function PlaceOf(chosen: seq<Selected>, call: nat): (r: Option<nat>)
    ensures r.Some? ==> r.value < |chosen| && chosen[r.value].call == call
    ensures r.None? ==> !HasCall(chosen, call)
    decreases |chosen|
  {
    if chosen == [] then None
    else if chosen[|chosen| - 1].call == call then Some(|chosen| - 1)
    else PlaceOf(chosen[..|chosen| - 1], call)
  }

  /** Insertion into an ordered map keyed by call: an existing key keeps its place and takes the new value. */
  function Put(chosen: seq<Selected>, x: Selected): (r: seq<Selected>)
    ensures if HasCall(chosen, x.call) then |r| == |chosen| else r == chosen + [x]
    ensures forall m :: 0 <= m < |chosen| ==> m < |r| && r[m].call == chosen[m].call
    ensures forall m :: 0 <= m < |r| ==> r[m] == x || r[m] in chosen
    ensures HasCall(r, x.call)
  {
    var place := PlaceOf(chosen, x.call);
    if place.Some? then
      var r := chosen[place.value := x];
      assert r[place.value].call == x.call;
      r
    else
      var r := chosen + [x];
      assert r[|chosen|].call == x.call;
      r
  }

  lemma CallsOfNext(resolved: seq<Resolved>, i: nat)
    requires i < |resolved|
    ensures forall r :: CallsOf(resolved[..i + 1], r)
                        == CallsOf(resolved[..i], r) + (if resolved[i].reference == r then {resolved[i].call} else {})
  {
    forall r ensures CallsOf(resolved[..i + 1], r)
                       == CallsOf(resolved[..i], r) + (if resolved[i].reference == r then {resolved[i].call} else {}) {
      forall c | c in CallsOf(resolved[..i], r) ensures c in CallsOf(resolved[..i + 1], r) {
        var k :| 0 <= k < i && resolved[..i][k].reference == r && resolved[..i][k].call == c;
        assert resolved[..i + 1][k] == resolved[..i][k];
      }
      forall c | c in CallsOf(resolved[..i + 1], r)
        ensures c in CallsOf(resolved[..i], r) || (resolved[i].reference == r && c == resolved[i].call)
      {
        var k :| 0 <= k < i + 1 && resolved[..i + 1][k].reference == r && resolved[..i + 1][k].call == c;
        if k < i {
          assert resolved[..i][k] == resolved[..i + 1][k];
        }
      }
      if resolved[i].reference == r {
        assert resolved[..i + 1][i] == resolved[i];
      }
    }
  }

  lemma OnlyMember(s: set<nat>, c: nat)
    requires c in s && |s| == 1
    ensures s == {c}
  {
    assert |s - {c}| == 0;
  }

  // ---- The tables the adapters write -----------------------------------------------------------------

  datatype StartAnswer = Acquired | AlreadyCompleted
  datatype PersistAnswer = PersistCompleted | TerminalFailure | PersistAlreadyCompleted
  datatype Receipt = ReceiptAccepted | ReceiptReplayed | ReceiptConflict | AlreadyQueued | ReceiptUnavailable

  /** The first request of the key carries this digest. */
  predicate Resubmits(requests: seq<Request>, key: string, digest: string) {
    exists r :: 0 <= r < |requests| && FirstWithKey(requests, r, key) && requests[r].digest == digest
  }

  predicate FirstWithKey(requests: seq<Request>, r: nat, key: string)
    requires r < |requests|
  {
    requests[r].key == key && forall k :: 0 <= k < r ==> requests[k].key != key
  }

  lemma FirstOfKey(requests: seq<Request>, r: nat, key: string, digest: string)
    requires r < |requests| && FirstWithKey(requests, r, key)
    ensures KeyTaken(requests, key) && (Resubmits(requests, key, digest) <==> requests[r].digest == digest)
  {
    forall c | 0 <= c < |requests| && FirstWithKey(requests, c, key) ensures c == r {
    }
  }

  lemma {:induction false} NotBusyEmptyIff(items: seq<Item>, selection: seq<Selected>)
    ensures NotBusy(items, selection) == [] <==> forall k :: 0 <= k < |selection| ==> Busy(items, selection[k].call)
    decreases |selection|
  {
    if selection != [] {
      NotBusyEmptyIff(items, selection[..|selection| - 1]);
    }
  }

  lemma {:induction false} NotBusyDistinct(items: seq<Item>, selection: seq<Selected>)
    ensures DistinctCalls(selection) ==> DistinctCalls(NotBusy(items, selection))
    ensures forall x :: x in NotBusy(items, selection) ==> x in selection
    decreases |selection|
  {
    if selection != [] {
      var n := |selection| - 1;
      NotBusyDistinct(items, selection[..n]);
      assert selection == selection[..n] + [selection[n]];
      if DistinctCalls(selection) {
        var kept := NotBusy(items, selection[..n]);
        forall k | 0 <= k < |kept| ensures kept[k].call != selection[n].call {
          assert kept[k] in selection[..n];
        }
      }
    }
  }

  /** The answer to a selection under a new key. */
  function EnqueueAnswer(s: Store, selection: seq<Selected>, interrupted: seq<nat>, at: Time): Receipt {
    var accepted := NotBusy(Expire(s, interrupted, at).items, selection);
    if accepted == [] then AlreadyQueued else if !DistinctCalls(accepted) then ReceiptUnavailable else ReceiptAccepted
  }

  lemma EnqueueEffect(s: Store, key: string, digest: string, selection: seq<Selected>, interrupted: seq<nat>, at: Time)
    ensures var t, answer := Enqueue(s, key, digest, selection, interrupted, at), EnqueueAnswer(s, selection, interrupted, at);
      && (KeyTaken(s.requests, key) ==> t == s)
      && (!KeyTaken(s.requests, key) ==>
            && (answer.ReceiptAccepted? <==> |t.requests| == |s.requests| + 1)
            && (answer.ReceiptUnavailable? ==> t == s && !DistinctCalls(selection)))
      && (answer.AlreadyQueued? <==> forall k :: 0 <= k < |selection| ==> Busy(Expire(s, interrupted, at).items, selection[k].call))
  {
    ExpireKeepsRequests(s, interrupted, at);
    NotBusyEmptyIff(Expire(s, interrupted, at).items, selection);
    NotBusyDistinct(Expire(s, interrupted, at).items, selection);
  }

  // ---- What the operations store ---------------------------------------------------------------------

  /** What one settlement writes on its item. */
  lemma SettledItem(s: Store, item: nat, o: Outcome, at: Time)
    requires Settleable(s, item)
    ensures var t := Settle(s, item, o, at);
      && |t.items| == |s.items| && |t.requests| == |s.requests|
      && t.items[item] == s.items[item].(
           status := (match o case DoneOk => Completed case DoneFailed(_) => Failed case DoneSkipped => Skipped),
           error := (match o case DoneFailed(e) => Some(e) case _ => None))
      && (forall i :: 0 <= i < |s.items| && i != item ==> t.items[i] == s.items[i])
      && t.calls == s.calls && t.audits == s.audits && t.writes == s.writes
      && (forall r :: 0 <= r < |s.requests| ==>
            && t.requests[r].key == s.requests[r].key && t.requests[r].digest == s.requests[r].digest
            && t.requests[r].requested == s.requests[r].requested)
  {
  }

  /** The four ways an answer is taken in, each with everything it writes. */
  lemma PersistDecided(s: Store, item: nat, answer: AuditAnswer, at: Time)
    ensures var t := Persist(s, item, answer, at);
      if !(item < |s.items| && s.items[item].status == Processing && s.items[item].request < |s.requests|) then t == s
      else
        var call := s.items[item].call;
        && item < |t.items|
        && if !(call in s.calls && s.calls[call].latest == Some(s.items[item].baseline)) then
             t.items[item].status == Skipped && t.calls == s.calls && t.audits == s.audits && t.writes == s.writes
           else match answer
             case Unanswered(e) =>
               && t.items[item].status == Failed && t.items[item].error == Some(e)
               && t.audits == s.audits + [Audit(call, false)] && t.calls == s.calls && t.writes == s.writes
             case Answered(category) =>
               && t.items[item].status == Completed && t.items[item].error == None
               && t.audits == s.audits + [Audit(call, true)]
               && t.calls == s.calls[call := Call(Some(|s.audits|), category)]
               && t.writes == s.writes + [PointerWrite(call, s.calls[call].latest, |s.audits|, Some(item))]
  {
  }

  /** When a worker may start an item, and what becomes of it when it may not. */
  lemma StartDecided(s: Store, item: nat, at: Time)
    requires Inv(s)
    ensures var t := MarkStarted(s, item, at);
      if !(item < |s.items| && (s.items[item].status == Queued || s.items[item].status == Processing)) then t == s
      else
        && item < |t.items| && t.calls == s.calls && t.audits == s.audits
        && if s.items[item].call in s.calls && s.calls[s.items[item].call].latest == Some(s.items[item].baseline)
           then t.items[item].status == Processing && t.items[item].attempts == 1
           else t.items[item].status == Skipped
  {
  }

  /** An interrupted item is failed with the interruption's code; no other item moves. */
  lemma {:induction false} ExpireEffect(s: Store, interrupted: seq<nat>, at: Time, i: nat)
    requires i < |s.items| && forall k :: 0 <= k < |s.items| ==> s.items[k].request < |s.requests|
    ensures var t := Expire(s, interrupted, at);
      && |t.items| == |s.items| && |t.requests| == |s.requests|
      && (forall k :: 0 <= k < |t.items| ==> t.items[k].request < |t.requests|)
      && t.items[i] == if i in interrupted && s.items[i].status == Processing
                       then s.items[i].(status := Failed, error := Some("REAUDIT_WORKER_INTERRUPTED")) else s.items[i]
    decreases |interrupted|
  {
    if interrupted != [] {
      var n := |interrupted| - 1;
      var t := Expire(s, interrupted[..n], at);
      ExpireEffect(s, interrupted[..n], at, i);
      assert interrupted == interrupted[..n] + [interrupted[n]];
      if Settleable(t, interrupted[n]) {
        SettledItem(t, interrupted[n], DoneFailed("REAUDIT_WORKER_INTERRUPTED"), at);
        forall k | 0 <= k < |s.items| ensures Settle(t, interrupted[n], DoneFailed("REAUDIT_WORKER_INTERRUPTED"), at).items[k].request < |t.requests| {
          assert t.items[k].request < |t.requests|;
        }
      }
    }
  }

  /** A candidate without a recording is failed once, with its own code. */
  lemma UnavailableEffect(s: Store, item: nat, at: Time)
    requires Inv(s) && item < |s.items|
    ensures var t := FailUnavailable(s, item, at);
      && t.calls == s.calls && t.audits == s.audits && item < |t.items|
      && if s.items[item].status == Queued || s.items[item].status == Processing
         then t.items[item].status == Failed && t.items[item].error == Some("REAUDIT_RECORDING_UNAVAILABLE")
              && t.items[item].attempts == 1
         else t.items[item] == s.items[item]
  {
  }

  lemma StoredShape(s: Store, key: string, digest: string, selection: seq<Selected>, interrupted: seq<nat>, at: Time)
    requires !KeyTaken(s.requests, key) && EnqueueAnswer(s, selection, interrupted, at).ReceiptAccepted?
    ensures var t, free := Expire(s, interrupted, at), NotBusy(Expire(s, interrupted, at).items, selection);
      && free != [] && |t.requests| == |s.requests| && |t.items| == |s.items|
      && Enqueue(s, key, digest, selection, interrupted, at)
         == t.(requests := t.requests + [Request(key, digest, RequestQueued, |free|, 0, 0, 0, None)],
               items := t.items + NewItems(|t.requests|, free))
  {
    ExpireKeepsRequests(s, interrupted, at);
    ExpireAdvances(s, interrupted, at);
  }

  lemma NewItemColumns(request: nat, free: seq<Selected>, k: nat)
    requires k < |free|
    ensures |NewItems(request, free)| == |free|
    ensures var it := NewItems(request, free)[k];
      && it.request == request && it.call == free[k].call && it.baseline == free[k].baseline
      && it.status == Queued && it.attempts == 0 && it.error == None
  {
  }

  /** The request and the items of an accepted selection, column by column. */
  lemma StoredRequest(s: Store, key: string, digest: string, selection: seq<Selected>, interrupted: seq<nat>, at: Time)
    requires !KeyTaken(s.requests, key) && EnqueueAnswer(s, selection, interrupted, at).ReceiptAccepted?
    ensures var t := Enqueue(s, key, digest, selection, interrupted, at);
      var free, n, m := NotBusy(Expire(s, interrupted, at).items, selection), |s.requests|, |s.items|;
      && |t.requests| == n + 1 && |t.items| == m + |free| && free != []
      && t.requests[n].key == key && t.requests[n].digest == digest && t.requests[n].status == RequestQueued
      && t.requests[n].requested == |free| && t.requests[n].completed == 0 && t.requests[n].failed == 0
      && t.requests[n].skipped == 0 && t.requests[n].completedAt == None
  {
    StoredShape(s, key, digest, selection, interrupted, at);
  }

  lemma StoredItem(s: Store, key: string, digest: string, selection: seq<Selected>, interrupted: seq<nat>, at: Time, k: nat)
    requires !KeyTaken(s.requests, key) && EnqueueAnswer(s, selection, interrupted, at).ReceiptAccepted?
    requires k < |NotBusy(Expire(s, interrupted, at).items, selection)|
    ensures var t := Enqueue(s, key, digest, selection, interrupted, at);
      var x := NotBusy(Expire(s, interrupted, at).items, selection)[k];
      && |s.items| + k < |t.items|
      && var it := t.items[|s.items| + k];
         && it.request == |s.requests| && it.call == x.call && it.baseline == x.baseline
         && it.status == Queued && it.attempts == 0 && it.error == None
  {
    StoredShape(s, key, digest, selection, interrupted, at);
    NewItemColumns(|s.requests|, NotBusy(Expire(s, interrupted, at).items, selection), k);
  }

  lemma StoredSelection(s: Store, key: string, digest: string, selection: seq<Selected>, interrupted: seq<nat>, at: Time)
    requires !KeyTaken(s.requests, key) && EnqueueAnswer(s, selection, interrupted, at).ReceiptAccepted?
    ensures var t := Enqueue(s, key, digest, selection, interrupted, at);
      && |t.requests| == |s.requests| + 1 && |t.items| > |s.items|
      && t.requests[|s.requests|].key == key && t.requests[|s.requests|].digest == digest
      && t.requests[|s.requests|].requested == |t.items| - |s.items|
      && forall i :: |s.items| <= i < |t.items| ==>
           && t.items[i].request == |s.requests| && t.items[i].status == Queued
           && exists k :: 0 <= k < |selection| && t.items[i].call == selection[k].call && t.items[i].baseline == selection[k].baseline
  {
    StoredRequest(s, key, digest, selection, interrupted, at);
    var t := Enqueue(s, key, digest, selection, interrupted, at);
    var free := NotBusy(Expire(s, interrupted, at).items, selection);
    NotBusyDistinct(Expire(s, interrupted, at).items, selection);
    forall i | |s.items| <= i < |t.items|
      ensures t.items[i].request == |s.requests| && t.items[i].status == Queued
      ensures exists k :: 0 <= k < |selection| && t.items[i].call == selection[k].call && t.items[i].baseline == selection[k].baseline
    {
      var k := i - |s.items|;
      StoredItem(s, key, digest, selection, interrupted, at, k);
      assert free[k] in selection;
    }
  }

  lemma {:induction false} ExpireKeepsIdentity(s: Store, interrupted: seq<nat>, at: Time)
    ensures var t := Expire(s, interrupted, at);
      && |t.requests| == |s.requests|
      && forall r :: 0 <= r < |s.requests| ==> t.requests[r].key == s.requests[r].key && t.requests[r].digest == s.requests[r].digest
    decreases |interrupted|
  {
    if interrupted != [] {
      ExpireKeepsIdentity(s, interrupted[..|interrupted| - 1], at);
    }
  }

  /** Requests keep their key and digest, and no later request takes a key that is used. */
  ghost predicate KeepsIdentity(s: Store, t: Store) {
    && |s.requests| <= |t.requests|
    && (forall r :: 0 <= r < |s.requests| ==> t.requests[r].key == s.requests[r].key && t.requests[r].digest == s.requests[r].digest)
    && (forall r :: |s.requests| <= r < |t.requests| ==> !KeyTaken(s.requests, t.requests[r].key))
  }

  lemma EnqueueKeepsIdentity(s: Store, key: string, digest: string, selection: seq<Selected>, interrupted: seq<nat>, at: Time)
    ensures KeepsIdentity(s, Enqueue(s, key, digest, selection, interrupted, at))
  {
    ExpireKeepsIdentity(s, interrupted, at);
  }

  lemma StepKeepsIdentity(s: Store, step: Step)
    ensures KeepsIdentity(s, Apply(s, step))
  {
    match step
    case EnqueueStep(key, digest, selection, interrupted, at) => EnqueueKeepsIdentity(s, key, digest, selection, interrupted, at);
    case ExpireStep(interrupted, at) => ExpireKeepsIdentity(s, interrupted, at);
    case _ =>
  }

  lemma {:induction false} FirstKept(s: Store, steps: seq<Step>, r: nat, key: string)
    requires r < |s.requests| && FirstWithKey(s.requests, r, key)
    ensures var t := Run(s, steps);
      r < |t.requests| && FirstWithKey(t.requests, r, key) && t.requests[r].digest == s.requests[r].digest
    decreases |steps|
  {
    if steps != [] {
      FirstKept(s, steps[..|steps| - 1], r, key);
      StepKeepsIdentity(Run(s, steps[..|steps| - 1]), steps[|steps| - 1]);
    }
  }

  /**
   A key answers for its first request: after an accepted selection and any further steps,
   the same key changes nothing, replays the same digest, and conflicts on any other.
   */
  lemma EnqueueReplaysForever(s: Store, key: string, digest: string, selection: seq<Selected>, interrupted: seq<nat>, at: Time,
                              steps: seq<Step>, digest': string, selection': seq<Selected>, interrupted': seq<nat>, at': Time)
    requires !KeyTaken(s.requests, key) && EnqueueAnswer(s, selection, interrupted, at).ReceiptAccepted?
    ensures var t := Run(Enqueue(s, key, digest, selection, interrupted, at), steps);
      && KeyTaken(t.requests, key) && Enqueue(t, key, digest', selection', interrupted', at') == t
      && (Resubmits(t.requests, key, digest') <==> digest' == digest)
  {
    var first, n := Enqueue(s, key, digest, selection, interrupted, at), |s.requests|;
    StoredRequest(s, key, digest, selection, interrupted, at);
    EnqueueKeepsIdentity(s, key, digest, selection, interrupted, at);
    assert FirstWithKey(first.requests, n, key);
    FirstKept(first, steps, n, key);
    FirstOfKey(Run(first, steps).requests, n, key, digest');
  }

  // ---- The category of a call ---------------------------------------------------------------------------

  /** The category a step carries for a call, if it is a step that answers for one. */
  function Carried(step: Step): Option<string> {
    match step
    case PersistStep(_, Answered(category), _) => Some(category)
    case OtherAudit(_, category) => Some(category)
    case _ => None
  }

  /** The category carried by the latest step that moved the call's pointer. */
  function LastCarried(steps: seq<Step>, call: nat): string
    decreases |steps|
  {
    if steps == [] then ""
    else
      var before, after := Run(Empty(), steps[..|steps| - 1]), Run(Empty(), steps);
      var moved := call in before.calls && call in after.calls && after.calls[call].latest != before.calls[call].latest;
      if moved then Coalesce(Carried(steps[|steps| - 1]), "") else LastCarried(steps[..|steps| - 1], call)
  }

  /** A step that moves a pointer carries the category it leaves; a step that does not leaves the category alone. */
  lemma CategoryStep(s: Store, step: Step, call: nat)
    requires Inv(s)
    ensures var t := Apply(s, step);
      && (call in s.calls ==> call in t.calls)
      && (call in s.calls && t.calls[call].latest != s.calls[call].latest ==> Carried(step) == Some(t.calls[call].category))
      && (call in s.calls && t.calls[call].latest == s.calls[call].latest ==> t.calls[call].category == s.calls[call].category)
      && (call !in s.calls && call in t.calls ==> t.calls[call].category == "")
  {
    match step
    case EnqueueStep(key, digest, selection, interrupted, at) => ExpireFrame(s, interrupted, at);
    case ExpireStep(interrupted, at) => ExpireFrame(s, interrupted, at);
    case PersistStep(item, answer, at) => PersistMoves(s, item, answer, at, call);
    case OtherAudit(_, _) =>
      if call in s.calls {
        PointerIsOld(s, call);
      }
    case _ =>
  }

  /** The pointer of a call names a stored audit, so a new audit is a new pointer. */
  lemma PointerIsOld(s: Store, call: nat)
    requires Inv(s) && call in s.calls
    ensures s.calls[call].latest.Some? ==> s.calls[call].latest.value < |s.audits|
  {
    LatestIsOld(s, s.writes, call);
  }

  lemma PersistMoves(s: Store, item: nat, answer: AuditAnswer, at: Time, call: nat)
    requires Inv(s)
    ensures var t := Persist(s, item, answer, at);
      && t.calls.Keys == s.calls.Keys
      && (call in s.calls && t.calls[call] != s.calls[call] ==>
            t.calls[call].latest != s.calls[call].latest && answer == Answered(t.calls[call].category))
  {
    PersistDecided(s, item, answer, at);
    if call in s.calls {
      PointerIsOld(s, call);
    }
  }

  lemma {:induction false} NeverKnown(steps: seq<Step>, call: nat)
    ensures call !in Run(Empty(), steps).calls ==> LastCarried(steps, call) == ""
    decreases |steps|
  {
    if steps != [] {
      NeverKnown(steps[..|steps| - 1], call);
      RunsKeepInv(steps[..|steps| - 1]);
      CategoryStep(Run(Empty(), steps[..|steps| - 1]), steps[|steps| - 1], call);
    }
  }

  /** In every run the category of a call is the one carried by the latest step that moved its pointer. */
  lemma {:induction false} CategoryFollowsPointer(steps: seq<Step>, call: nat)
    requires call in Run(Empty(), steps).calls
    ensures Run(Empty(), steps).calls[call].category == LastCarried(steps, call)
    decreases |steps|
  {
    if steps != [] {
      var before := Run(Empty(), steps[..|steps| - 1]);
      RunsKeepInv(steps[..|steps| - 1]);
      CategoryStep(before, steps[|steps| - 1], call);
      if call in before.calls {
        CategoryFollowsPointer(steps[..|steps| - 1], call);
      } else {
        NeverKnown(steps[..|steps| - 1], call);
      }
    }
  }

  /** What a settlement does to the item's request. */
  lemma SettleEffect(s: Store, item: nat, o: Outcome, at: Time)
    requires Settleable(s, item)
    ensures var t, r := Settle(s, item, o, at), s.items[item].request;
      && LiveCount(t.items, r) == LiveCount(s.items, r) - 1
      && (OpenRequest(s, r) ==> RequestOk(t.items, t.requests[r], r))
    ensures Inv(s) && !o.DoneOk? ==> Inv(Settle(s, item, o, at))
  {
    var t, r := Settle(s, item, o, at), s.items[item].request;
    CountUpdate(s.items, item, t.items[item], r, Queued);
    CountUpdate(s.items, item, t.items[item], r, Processing);
    if OpenRequest(s, r) {
      SettleRollsOne(s, item, o, at, r);
    }
    if Inv(s) && !o.DoneOk? {
      SettleKeepsInv(s, item, o, at);
    }
  }

  class ReauditQueue {
    var calls: map<nat, Call>
    var audits: seq<Audit>
    var items: seq<Item>
    var requests: seq<Request>
    ghost var writes: seq<PointerWrite>

    constructor ()
      ensures View() == Empty()
    {
      calls, audits, items, requests, writes := map[], [], [], [], [];
    }

    ghost function View(): Store
      reads this
    {
      Store(calls, audits, items, requests, writes)
    }

    /** The two UPDATEs of a settlement, inside whatever transaction called for it. */
    method WriteSettlement(item: nat, o: Outcome, at: Time)
      requires item < |items| && items[item].status.Processing? && items[item].request < |requests|
      modifies this
      ensures View() == Settle(old(View()), item, o, at)
    {
      var it := items[item];
      items := items[item := it.(status := StatusOf(o), error := if o.DoneFailed? then Some(o.error) else None)];
      requests := requests[it.request := Rollup(items, requests[it.request], it.request, at)];
    }

    /** One item under way is settled, its request is rolled up, and nothing else moves. */
    method SettleItem(item: nat, o: Outcome, at: Time)
      requires item < |items| && items[item].status.Processing? && items[item].request < |requests|
      modifies this
      ensures View() == Settle(old(View()), item, o, at)
      ensures calls == old(calls) && audits == old(audits) && writes == old(writes)
      ensures |items| == |old(items)| && forall i :: 0 <= i < |items| && i != item ==> items[i] == old(items)[i]
      ensures |requests| == |old(requests)| && forall r :: 0 <= r < |requests| && r != items[item].request ==> requests[r] == old(requests)[r]
      ensures items[item].call == old(items)[item].call && items[item].request == old(items)[item].request < |requests|
      ensures items[item].status == StatusOf(o) && !Live(items[item].status)
      ensures LiveCount(items, items[item].request) == LiveCount(old(items), items[item].request) - 1
      ensures requests[items[item].request].completedAt == if LiveCount(items, items[item].request) == 0 then Some(at) else None
      // Its request is rolled up: counted, and closed exactly when this was its last live item.
      ensures old(OpenRequest(View(), items[item].request)) ==> RequestOk(items, requests[items[item].request], items[item].request)
      ensures old(Inv(View())) && !o.DoneOk? ==> Inv(View())
    {
      SettleEffect(View(), item, o, at);
      WriteSettlement(item, o, at);
    }

    method ExpireInterrupted(interrupted: seq<nat>, at: Time)
      modifies this
      ensures View() == Expire(old(View()), interrupted, at)
      ensures old(Inv(View())) ==> Inv(View())
      // Exactly the interrupted items that were processing are failed, with the interruption's code.
      ensures old(Inv(View())) ==> |items| == |old(items)| && forall i :: 0 <= i < |items| ==>
        items[i] == if i in interrupted && old(items)[i].status == Processing
                    then old(items)[i].(status := Failed, error := Some("REAUDIT_WORKER_INTERRUPTED")) else old(items)[i]
    {
      if Inv(View()) {
        ExpireKeepsInv(View(), interrupted, at);
        forall i | 0 <= i < |items|
          ensures var t := Expire(View(), interrupted, at);
            |t.items| == |items| && t.items[i] == if i in interrupted && items[i].status == Processing
              then items[i].(status := Failed, error := Some("REAUDIT_WORKER_INTERRUPTED")) else items[i]
        {
          ExpireEffect(View(), interrupted, at, i);
        }
        ExpireAdvances(View(), interrupted, at);
      }
      for i := 0 to |interrupted|
        invariant View() == Expire(old(View()), interrupted[..i], at)
      {
        assert interrupted[..i + 1][..i] == interrupted[..i];
        var item := interrupted[i];
        if item < |items| && items[item].status.Processing? && items[item].request < |requests| {
          WriteSettlement(item, DoneFailed("REAUDIT_WORKER_INTERRUPTED"), at);
        }
      }
      assert interrupted[..|interrupted|] == interrupted;
    }

    /** What a used key answers: the same digest replays its first request, any other conflicts. */
    method ExistingReceipt(key: string, digest: string) returns (receipt: Option<Receipt>)
      ensures receipt.Some? <==> KeyTaken(requests, key)
      ensures receipt.Some? ==> receipt.value == if Resubmits(requests, key, digest) then ReceiptReplayed else ReceiptConflict
    {
      for r := 0 to |requests|
        invariant forall k :: 0 <= k < r ==> requests[k].key != key
      {
        if requests[r].key == key {
          FirstOfKey(requests, r, key, digest);
          return Some(if requests[r].digest == digest then ReceiptReplayed else ReceiptConflict);
        }
      }
      return None;
    }

    /** The selected calls that have no live item. */
    method FreeCalls(selection: seq<Selected>) returns (accepted: seq<Selected>)
      ensures accepted == NotBusy(items, selection)
    {
      accepted := [];
      for i := 0 to |selection|
        invariant accepted == NotBusy(items, selection[..i])
      {
        assert selection[..i + 1][..i] == selection[..i];
        if !Busy(items, selection[i].call) {
          accepted := accepted + [selection[i]];
        }
      }
      assert selection[..|selection|] == selection;
    }

    method InsertItems(request: nat, accepted: seq<Selected>)
      modifies this`items
      ensures items == old(items) + NewItems(request, accepted)
    {
      for i := 0 to |accepted|
        invariant items == old(items) + NewItems(request, accepted)[..i]
      {
        items := items + [Item(request, accepted[i].call, accepted[i].baseline, Queued, 0, None)];
      }
      assert NewItems(request, accepted)[..|accepted|] == NewItems(request, accepted);
    }

    method WriteEnqueue(key: string, digest: string, selection: seq<Selected>, interrupted: seq<nat>, at: Time)
      returns (receipt: Receipt)
      requires !KeyTaken(requests, key)
      modifies this
      ensures View() == Enqueue(old(View()), key, digest, selection, interrupted, at)
      ensures receipt == EnqueueAnswer(old(View()), selection, interrupted, at)
    {
      var callsBefore, auditsBefore, itemsBefore, requestsBefore := calls, audits, items, requests;
      ghost var writesBefore := writes;
      ExpireInterrupted(interrupted, at);
      var accepted := FreeCalls(selection);
      if accepted == [] {
        return AlreadyQueued;
      }
      if !DistinctCalls(accepted) {
        calls, audits, items, requests := callsBefore, auditsBefore, itemsBefore, requestsBefore;
        writes := writesBefore;
        return ReceiptUnavailable;
      }
      InsertItems(|requests|, accepted);
      requests := requests + [Request(key, digest, RequestQueued, |accepted|, 0, 0, 0, None)];
      return ReceiptAccepted;
    }

    method EnqueueSelection(key: string, digest: string, selection: seq<Selected>, interrupted: seq<nat>, at: Time)
      returns (receipt: Receipt)
      requires Inv(View())
      modifies this
      ensures Inv(View()) && View() == Enqueue(old(View()), key, digest, selection, interrupted, at)
      // A key that was used answers for its first request: the same digest replays, any other conflicts.
      ensures KeyTaken(old(requests), key) ==>
        View() == old(View()) && receipt == if Resubmits(old(requests), key, digest) then ReceiptReplayed else ReceiptConflict
      ensures !KeyTaken(old(requests), key) ==> !receipt.ReceiptReplayed? && !receipt.ReceiptConflict?
      ensures receipt.ReceiptAccepted? <==> |requests| == |old(requests)| + 1
      ensures receipt.ReceiptAccepted? ==>
        && requests[|old(requests)|].key == key && requests[|old(requests)|].digest == digest
        && requests[|old(requests)|].requested == |items| - |old(items)| > 0
        && forall i :: |old(items)| <= i < |items| ==>
             && items[i].request == |old(requests)| && items[i].status == Queued
             && exists k :: 0 <= k < |selection| && items[i].call == selection[k].call && items[i].baseline == selection[k].baseline
      ensures receipt.AlreadyQueued? <==>
        !KeyTaken(old(requests), key)
        && forall k :: 0 <= k < |selection| ==> Busy(Expire(old(View()), interrupted, at).items, selection[k].call)
      ensures receipt.ReceiptUnavailable? ==> View() == old(View()) && !DistinctCalls(selection)
    {
      EnqueueKeepsInv(View(), key, digest, selection, interrupted, at);
      EnqueueEffect(View(), key, digest, selection, interrupted, at);
      if !KeyTaken(requests, key) && EnqueueAnswer(View(), selection, interrupted, at).ReceiptAccepted? {
        StoredSelection(View(), key, digest, selection, interrupted, at);
      }
      var existing := ExistingReceipt(key, digest);
      if existing.Some? {
        return existing.value;
      }
      receipt := WriteEnqueue(key, digest, selection, interrupted, at);
    }

    method MarkItemStarted(item: nat, at: Time) returns (answer: StartAnswer)
      requires Inv(View())
      modifies this
      ensures Inv(View()) && View() == MarkStarted(old(View()), item, at)
      ensures answer.Acquired? ==> item < |items| && items[item].status.Processing? && BaselineHolds(View(), item)
      ensures calls == old(calls) && audits == old(audits)
      // A live item starts exactly while its baseline is still its call's latest audit, and is skipped otherwise.
      ensures item < |old(items)| && (old(items)[item].status == Queued || old(items)[item].status == Processing) ==>
        && item < |items|
        && if old(items)[item].call in calls && calls[old(items)[item].call].latest == Some(old(items)[item].baseline)
           then answer == Acquired && items[item].status == Processing && items[item].attempts == 1
           else answer == AlreadyCompleted && items[item].status == Skipped
    {
      MarkStartedKeepsInv(View(), item, at);
      StartDecided(View(), item, at);
      answer := WriteStart(item, at);
    }

    method WriteStart(item: nat, at: Time) returns (answer: StartAnswer)
      modifies this
      ensures View() == MarkStarted(old(View()), item, at)
      ensures answer.Acquired? ==> item < |items| && items[item].status.Processing? && BaselineHolds(View(), item)
      ensures answer == if item < |old(items)| && old(items)[item].request < |old(requests)| && Live(old(items)[item].status)
                           && !(old(items)[item].status == Queued && old(items)[item].attempts >= 1)
                           && BaselineHolds(old(View()), item) then Acquired else AlreadyCompleted
    {
      if item >= |items| || items[item].request >= |requests| || !Live(items[item].status) {
        return AlreadyCompleted;
      }
      var proceed := items[item].call in calls && calls[items[item].call].latest == Some(items[item].baseline);
      if items[item].status.Queued? {
        if items[item].attempts >= 1 {
          return AlreadyCompleted;
        }
        var r := items[item].request;
        items := items[item := items[item].(status := Processing, attempts := items[item].attempts + 1, error := None)];
        if requests[r].status.RequestQueued? {
          requests := requests[r := requests[r].(status := Running)];
        }
      }
      if !proceed {
        WriteSettlement(item, DoneSkipped, at);
        return AlreadyCompleted;
      }
      return Acquired;
    }

    method PersistAnswered(item: nat, answer: AuditAnswer, at: Time) returns (result: PersistAnswer)
      requires Inv(View())
      modifies this
      ensures Inv(View()) && View() == Persist(old(View()), item, answer, at)
      ensures result.PersistCompleted? ==> item < |items| && items[item].status.Completed?
      // Completed: the new audit is the call's latest one and the call carries the answered category.
      ensures result.PersistCompleted? ==>
        && item < |old(items)| && old(items)[item].call in old(calls) && answer.Answered?
        && old(calls)[old(items)[item].call].latest == Some(old(items)[item].baseline)
        && audits == old(audits) + [Audit(old(items)[item].call, true)]
        && calls == old(calls)[old(items)[item].call := Call(Some(|old(audits)|), answer.category)]
      // Failed: the error is stored, the attempt is on record, and no call moves.
      ensures result.TerminalFailure? ==>
        && item < |items| && answer.Unanswered? && items[item].status == Failed && items[item].error == Some(answer.error)
        && audits == old(audits) + [Audit(items[item].call, false)] && calls == old(calls)
      ensures result.PersistAlreadyCompleted? ==> calls == old(calls) && audits == old(audits)
    {
      PersistKeepsInv(View(), item, answer, at);
      PersistDecided(View(), item, answer, at);
      result := WritePersist(item, answer, at);
    }

    method WritePersist(item: nat, answer: AuditAnswer, at: Time) returns (result: PersistAnswer)
      modifies this
      ensures View() == Persist(old(View()), item, answer, at)
      ensures result == if !Settleable(old(View()), item) || !BaselineHolds(old(View()), item) then PersistAlreadyCompleted
                        else if answer.Answered? then PersistCompleted else TerminalFailure
    {
      if item >= |items| || !items[item].status.Processing? || items[item].request >= |requests| {
        return PersistAlreadyCompleted;
      }
      var call := items[item].call;
      if call !in calls || calls[call].latest != Some(items[item].baseline) {
        WriteSettlement(item, DoneSkipped, at);
        return PersistAlreadyCompleted;
      }
      audits := audits + [Audit(call, answer.Answered?)];
      match answer {
        case Unanswered(e) =>
          WriteSettlement(item, DoneFailed(e), at);
          return TerminalFailure;
        case Answered(category) =>
          writes := writes + [PointerWrite(call, calls[call].latest, |audits| - 1, Some(item))];
          calls := calls[call := Call(Some(|audits| - 1), category)];
          WriteSettlement(item, DoneOk, at);
          return PersistCompleted;
      }
    }
  }

  lemma {:induction false} ExpireKeepsRequests(s: Store, interrupted: seq<nat>, at: Time)
    ensures |Expire(s, interrupted, at).requests| == |s.requests|
    decreases |interrupted|
  {
    if interrupted != [] {
      ExpireKeepsRequests(s, interrupted[..|interrupted| - 1], at);
    }
  }
}
