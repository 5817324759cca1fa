/**
 The audit monitor's count and usage statements in their two forms.

 The legacy form joins each call to the latest analysis and the latest transcript
 of each of its recordings and removes duplicates afterwards. The form in use
 asks with EXISTS whether such a recording is there. Both count the same calls
 and add up the same usage.
 */
module MonitorRewrite {
  import opened Options
  import opened PageRewrite

  datatype AuditedCall = AuditedCall(id: nat, latestRun: Option<nat>)
  datatype Recording = Recording(id: nat, call: nat, isFinalRecording: bool)
  datatype Media = Media(id: nat, artifact: nat, done: bool, createdAt: int)
  datatype Transcript = Transcript(id: nat, call: nat, artifact: nat, done: bool, createdAt: int)
  datatype Usage = Usage(
    call: nat, run: nat, provider: string, model: string, input: Option<int>, output: Option<int>, total: Option<int>,
    audioSeconds: Option<real>)

  /** `scope` holds the calls that pass the monitor's filter; `runs` the ids of the stored audit runs. */
  datatype Tables = Tables(
    scope: seq<AuditedCall>, recordings: seq<Recording>, media: seq<Media>, transcripts: seq<Transcript>, runs: set<nat>,
    usage: seq<Usage>)

  ghost predicate IdsUnique(db: Tables) {
    && (forall i, j :: 0 <= i < j < |db.scope| ==> db.scope[i].id != db.scope[j].id)
    && (forall i, j :: 0 <= i < j < |db.media| ==> db.media[i].id != db.media[j].id)
    && (forall i, j :: 0 <= i < j < |db.transcripts| ==> db.transcripts[i].id != db.transcripts[j].id)
  }

  // ---- The legacy join -----------------------------------------------------------------------

  function MediaOf(media: seq<Media>, artifact: nat): seq<Entry<Media>>
    decreases |media|
  {
    if media == [] then []
    else
      var last := media[|media| - 1];
      MediaOf(media[..|media| - 1], artifact)
      + if last.artifact == artifact && last.done then [Entry(artifact, last.createdAt, last.id, last)] else []
  }

  function TranscriptsOf(transcripts: seq<Transcript>, call: nat, artifact: nat): seq<Entry<Transcript>>
    decreases |transcripts|
  {
    if transcripts == [] then []
    else
      var last := transcripts[|transcripts| - 1];
      TranscriptsOf(transcripts[..|transcripts| - 1], call, artifact)
      + if last.call == call && last.artifact == artifact && last.done then [Entry(artifact, last.createdAt, last.id, last)] else []
  }

  /** One row of the join: call c, its recording r, and the latest analysis m and transcript t of that recording. */
  predicate Joined(db: Tables, c: AuditedCall, r: Recording, m: Media, t: Transcript) {
    && r.call == c.id && r.isFinalRecording
    && m.artifact == r.id && m.done
    && (var latest := First(MediaOf(db.media, r.id)); latest.Some? && latest.value.value.id == m.id)
    && t.call == c.id && t.artifact == r.id && t.done
    && (var latest := First(TranscriptsOf(db.transcripts, c.id, r.id)); latest.Some? && latest.value.value.id == t.id)
  }

  predicate HasJoinRow(db: Tables, c: AuditedCall) {
    exists i, j, k :: 0 <= i < |db.recordings| && 0 <= j < |db.media| && 0 <= k < |db.transcripts|
      && Joined(db, c, db.recordings[i], db.media[j], db.transcripts[k])
  }

  /** SELECT DISTINCT c.id over the join. */
  ghost function LegacyCalls(db: Tables): set<nat> {
    set i | 0 <= i < |db.scope| && HasJoinRow(db, db.scope[i]) :: db.scope[i].id
  }

  /** SELECT DISTINCT c.id, ar.id over the join; the run is NULL when it is not stored. */
  ghost function LegacyRuns(db: Tables): set<(nat, Option<nat>)> {
    set i | 0 <= i < |db.scope| && HasJoinRow(db, db.scope[i]) :: (db.scope[i].id, StoredRun(db, db.scope[i]))
  }

  function StoredRun(db: Tables, c: AuditedCall): Option<nat> {
    if c.latestRun.Some? && c.latestRun.value in db.runs then c.latestRun else None
  }

  // ---- The EXISTS form ---------------------------------------------------------------------------

  predicate HasMedia(db: Tables, r: Recording) {
    exists j :: 0 <= j < |db.media| && db.media[j].artifact == r.id && db.media[j].done
  }

  predicate HasTranscript(db: Tables, c: AuditedCall, r: Recording) {
    exists k :: 0 <= k < |db.transcripts| && db.transcripts[k].call == c.id && db.transcripts[k].artifact == r.id && db.transcripts[k].done
  }

  predicate Eligible(db: Tables, c: AuditedCall) {
    exists i :: 0 <= i < |db.recordings| && db.recordings[i].call == c.id && db.recordings[i].isFinalRecording
      && HasMedia(db, db.recordings[i]) && HasTranscript(db, c, db.recordings[i])
  }

  function EligibleCalls(db: Tables, scope: seq<AuditedCall>): seq<AuditedCall>
    decreases |scope|
  {
    if scope == [] then []
    else
      EligibleCalls(db, scope[..|scope| - 1]) + if Eligible(db, scope[|scope| - 1]) then [scope[|scope| - 1]] else []
  }

  // ---- The same calls -----------------------------------------------------------------------------

  lemma {:induction false} MediaRows(media: seq<Media>, artifact: nat)
    ensures forall m :: (exists k :: 0 <= k < |MediaOf(media, artifact)| && MediaOf(media, artifact)[k].value == m) <==>
                        m in media && m.artifact == artifact && m.done
    decreases |media|
  {
    if media != [] {
      var n := |media| - 1;
      MediaRows(media[..n], artifact);
      var before, after := MediaOf(media[..n], artifact), MediaOf(media, artifact);
      assert media == media[..n] + [media[n]];
      forall m ensures (exists k :: 0 <= k < |after| && after[k].value == m) <==> m in media && m.artifact == artifact && m.done {
        if m in media[..n] && m.artifact == artifact && m.done {
          var k :| 0 <= k < |before| && before[k].value == m;
          assert after[k].value == m;
        } else if m == media[n] && m.artifact == artifact && m.done {
          assert after[|before|].value == m;
        }
        if exists k :: 0 <= k < |after| && after[k].value == m {
          var k :| 0 <= k < |after| && after[k].value == m;
          if k < |before| { assert before[k].value == m; }
        }
      }
    }
  }

  lemma {:induction false} TranscriptRows(transcripts: seq<Transcript>, call: nat, artifact: nat)
    ensures forall t :: (exists k :: 0 <= k < |TranscriptsOf(transcripts, call, artifact)|
                                     && TranscriptsOf(transcripts, call, artifact)[k].value == t) <==>
                        t in transcripts && t.call == call && t.artifact == artifact && t.done
    decreases |transcripts|
  {
    if transcripts != [] {
      var n := |transcripts| - 1;
      TranscriptRows(transcripts[..n], call, artifact);
      var before, after := TranscriptsOf(transcripts[..n], call, artifact), TranscriptsOf(transcripts, call, artifact);
      assert transcripts == transcripts[..n] + [transcripts[n]];
      forall t ensures (exists k :: 0 <= k < |after| && after[k].value == t) <==>
                       t in transcripts && t.call == call && t.artifact == artifact && t.done {
        if t in transcripts[..n] && t.call == call && t.artifact == artifact && t.done {
          var k :| 0 <= k < |before| && before[k].value == t;
          assert after[k].value == t;
        } else if t == transcripts[n] && t.call == call && t.artifact == artifact && t.done {
          assert after[|before|].value == t;
        }
        if exists k :: 0 <= k < |after| && after[k].value == t {
          var k :| 0 <= k < |after| && after[k].value == t;
          if k < |before| { assert before[k].value == t; }
        }
      }
    }
  }

  /** A recording with a completed analysis has a latest one, and it is a row of the table. */
  lemma LatestMedia(db: Tables, r: Recording) returns (j: nat)
    requires HasMedia(db, r)
    ensures j < |db.media| && db.media[j].artifact == r.id && db.media[j].done
    ensures var latest := First(MediaOf(db.media, r.id)); latest.Some? && latest.value.value.id == db.media[j].id
  {
    MediaRows(db.media, r.id);
    var j0 :| 0 <= j0 < |db.media| && db.media[j0].artifact == r.id && db.media[j0].done;
    assert db.media[j0] in db.media;
    FirstIsAhead(MediaOf(db.media, r.id));
    var first := First(MediaOf(db.media, r.id)).value;
    assert first.value in db.media && first.value.artifact == r.id && first.value.done;
    j :| 0 <= j < |db.media| && db.media[j] == first.value;
  }

  lemma LatestTranscript(db: Tables, c: AuditedCall, r: Recording) returns (k: nat)
    requires HasTranscript(db, c, r)
    ensures k < |db.transcripts| && db.transcripts[k].call == c.id && db.transcripts[k].artifact == r.id && db.transcripts[k].done
    ensures var latest := First(TranscriptsOf(db.transcripts, c.id, r.id)); latest.Some? && latest.value.value.id == db.transcripts[k].id
  {
    TranscriptRows(db.transcripts, c.id, r.id);
    var k0 :| 0 <= k0 < |db.transcripts| && db.transcripts[k0].call == c.id && db.transcripts[k0].artifact == r.id && db.transcripts[k0].done;
    assert db.transcripts[k0] in db.transcripts;
    FirstIsAhead(TranscriptsOf(db.transcripts, c.id, r.id));
    var first := First(TranscriptsOf(db.transcripts, c.id, r.id)).value;
    assert first.value in db.transcripts && first.value.call == c.id && first.value.artifact == r.id && first.value.done;
    k :| 0 <= k < |db.transcripts| && db.transcripts[k] == first.value;
  }

  /** A call is in the join exactly when the EXISTS form admits it. */
  lemma JoinIffEligible(db: Tables, c: AuditedCall)
    ensures HasJoinRow(db, c) <==> Eligible(db, c)
  {
    if HasJoinRow(db, c) {
      var i, j, k :| 0 <= i < |db.recordings| && 0 <= j < |db.media| && 0 <= k < |db.transcripts|
        && Joined(db, c, db.recordings[i], db.media[j], db.transcripts[k]);
      assert HasMedia(db, db.recordings[i]) && HasTranscript(db, c, db.recordings[i]);
    }
    if Eligible(db, c) {
      var i :| 0 <= i < |db.recordings| && db.recordings[i].call == c.id && db.recordings[i].isFinalRecording
        && HasMedia(db, db.recordings[i]) && HasTranscript(db, c, db.recordings[i]);
      var j := LatestMedia(db, db.recordings[i]);
      var k := LatestTranscript(db, c, db.recordings[i]);
      assert Joined(db, c, db.recordings[i], db.media[j], db.transcripts[k]);
    }
  }

  function Ids(calls: seq<AuditedCall>): set<nat>
    decreases |calls|
  {
    if calls == [] then {} else Ids(calls[..|calls| - 1]) + {calls[|calls| - 1].id}
  }

  lemma {:induction false} IdsMembers(calls: seq<AuditedCall>, id: nat)
    ensures id in Ids(calls) <==> exists i :: 0 <= i < |calls| && calls[i].id == id
    decreases |calls|
  {
    if calls != [] {
      var n := |calls| - 1;
      IdsMembers(calls[..n], id);
      if id in Ids(calls[..n]) {
        var i :| 0 <= i < n && calls[..n][i].id == id;
        assert calls[i].id == id;
      }
      if exists i :: 0 <= i < |calls| && calls[i].id == id {
        var i :| 0 <= i < |calls| && calls[i].id == id;
        assert i < n ==> calls[..n][i].id == id;
      }
    }
  }

  ghost predicate CallsDistinct(calls: seq<AuditedCall>) {
    forall i, j :: 0 <= i < j < |calls| ==> calls[i].id != calls[j].id
  }

  lemma {:induction false} EligibleMembers(db: Tables, scope: seq<AuditedCall>)
    ensures forall c :: c in EligibleCalls(db, scope) <==> c in scope && Eligible(db, c)
    decreases |scope|
  {
    if scope != [] {
      EligibleMembers(db, scope[..|scope| - 1]);
      assert scope == scope[..|scope| - 1] + [scope[|scope| - 1]];
    }
  }

  lemma {:induction false} EligibleDistinct(db: Tables, scope: seq<AuditedCall>)
    requires CallsDistinct(scope)
    ensures CallsDistinct(EligibleCalls(db, scope))
    decreases |scope|
  {
    if scope != [] {
      var n := |scope| - 1;
      EligibleDistinct(db, scope[..n]);
      EligibleMembers(db, scope[..n]);
      forall i | 0 <= i < |EligibleCalls(db, scope[..n])| ensures EligibleCalls(db, scope[..n])[i].id != scope[n].id {
        assert EligibleCalls(db, scope[..n])[i] in scope[..n];
      }
    }
  }

  lemma {:induction false} DistinctCount(calls: seq<AuditedCall>)
    requires CallsDistinct(calls)
    ensures |Ids(calls)| == |calls|
    decreases |calls|
  {
    if calls != [] {
      var n := |calls| - 1;
      DistinctCount(calls[..n]);
      IdsMembers(calls[..n], calls[n].id);
      assert calls[n].id !in Ids(calls[..n]);
    }
  }

  /** COUNT(DISTINCT c.id) over the join is COUNT(*) over the eligible calls. */
  lemma CountsAgree(db: Tables)
    requires IdsUnique(db)
    ensures |LegacyCalls(db)| == |EligibleCalls(db, db.scope)|
  {
    var eligible := EligibleCalls(db, db.scope);
    EligibleMembers(db, db.scope);
    EligibleDistinct(db, db.scope);
    DistinctCount(eligible);
    forall x: nat ensures x in LegacyCalls(db) <==> x in Ids(eligible) {
      IdsMembers(eligible, x);
      if x in LegacyCalls(db) {
        var i :| 0 <= i < |db.scope| && HasJoinRow(db, db.scope[i]) && db.scope[i].id == x;
        JoinIffEligible(db, db.scope[i]);
        assert db.scope[i] in eligible;
      }
      if x in Ids(eligible) {
        var i :| 0 <= i < |eligible| && eligible[i].id == x;
        assert eligible[i] in eligible;
        JoinIffEligible(db, eligible[i]);
      }
    }
    assert LegacyCalls(db) == Ids(eligible);
  }

  // ---- The same usage --------------------------------------------------------------------------------

  /** How many eligible calls a usage event joins, through a stored run. */
  function JoinedCalls(db: Tables, calls: seq<AuditedCall>, u: Usage): nat
    decreases |calls|
  {
    if calls == [] then 0
    else
      var last := calls[|calls| - 1];
      JoinedCalls(db, calls[..|calls| - 1], u) + if last.id == u.call && StoredRun(db, last) == Some(u.run) then 1 else 0
  }

  predicate JoinsSome(db: Tables, calls: seq<AuditedCall>, u: Usage) {
    exists i :: 0 <= i < |calls| && calls[i].id == u.call && StoredRun(db, calls[i]) == Some(u.run)
  }

  lemma {:induction false} JoinsAtMostOnce(db: Tables, calls: seq<AuditedCall>, u: Usage)
    requires CallsDistinct(calls)
    ensures JoinedCalls(db, calls, u) == if JoinsSome(db, calls, u) then 1 else 0
    decreases |calls|
  {
    if calls != [] {
      var n := |calls| - 1;
      JoinsAtMostOnce(db, calls[..n], u);
      if JoinsSome(db, calls, u) {
        var i :| 0 <= i < |calls| && calls[i].id == u.call && StoredRun(db, calls[i]) == Some(u.run);
        assert i < n ==> calls[..n][i] == calls[i];
      }
      if JoinsSome(db, calls[..n], u) {
        var i :| 0 <= i < n && calls[..n][i].id == u.call && StoredRun(db, calls[..n][i]) == Some(u.run);
        assert calls[i] == calls[..n][i];
      }
    }
  }

  /** An event of the legacy join belongs to an eligible call. */
  lemma LegacyEventJoins(db: Tables, u: Usage)
    requires (u.call, Some(u.run)) in LegacyRuns(db)
    ensures JoinsSome(db, EligibleCalls(db, db.scope), u)
  {
    var i :| 0 <= i < |db.scope| && HasJoinRow(db, db.scope[i]) && (db.scope[i].id, StoredRun(db, db.scope[i])) == (u.call, Some(u.run));
    var c := db.scope[i];
    JoinIffEligible(db, c);
    EligibleMembers(db, db.scope);
    assert c in EligibleCalls(db, db.scope);
  }

  /** An event of an eligible call belongs to the legacy join. */
  lemma JoinedEventIsLegacy(db: Tables, u: Usage)
    requires JoinsSome(db, EligibleCalls(db, db.scope), u)
    ensures (u.call, Some(u.run)) in LegacyRuns(db)
  {
    var eligible := EligibleCalls(db, db.scope);
    var j :| 0 <= j < |eligible| && eligible[j].id == u.call && StoredRun(db, eligible[j]) == Some(u.run);
    var c := eligible[j];
    assert c in eligible;
    EligibleMembers(db, db.scope);
    JoinIffEligible(db, c);
    var i :| 0 <= i < |db.scope| && db.scope[i] == c;
  }

  /** An event is counted the same number of times by both forms: once or not at all. */
  lemma EventCountedAlike(db: Tables, u: Usage)
    requires IdsUnique(db)
    ensures JoinedCalls(db, EligibleCalls(db, db.scope), u) == if (u.call, Some(u.run)) in LegacyRuns(db) then 1 else 0
  {
    EligibleDistinct(db, db.scope);
    JoinsAtMostOnce(db, EligibleCalls(db, db.scope), u);
    if (u.call, Some(u.run)) in LegacyRuns(db) {
      LegacyEventJoins(db, u);
    } else if JoinsSome(db, EligibleCalls(db, db.scope), u) {
      JoinedEventIsLegacy(db, u);
    }
  }

  /** Usage that counts: of an eligible call, recorded under the call's latest audit run, and that run is stored. */
  ghost predicate UsageOf(db: Tables, c: AuditedCall, u: Usage) {
    Eligible(db, c) && c.id == u.call && c.latestRun == Some(u.run) && u.run in db.runs
  }

  /** Which usage is counted: exactly that of some call in scope. */
  lemma EventCountedIff(db: Tables, u: Usage)
    requires IdsUnique(db)
    ensures (u.call, Some(u.run)) in LegacyRuns(db) <==> exists i :: 0 <= i < |db.scope| && UsageOf(db, db.scope[i], u)
  {
    if (u.call, Some(u.run)) in LegacyRuns(db) {
      CountedEventHasCall(db, u);
    }
    if i :| 0 <= i < |db.scope| && UsageOf(db, db.scope[i], u) {
      JoinIffEligible(db, db.scope[i]);
      assert (db.scope[i].id, StoredRun(db, db.scope[i])) in LegacyRuns(db);
    }
  }

  lemma CountedEventHasCall(db: Tables, u: Usage)
    requires IdsUnique(db) && (u.call, Some(u.run)) in LegacyRuns(db)
    ensures exists i :: 0 <= i < |db.scope| && UsageOf(db, db.scope[i], u)
  {
    var i :| 0 <= i < |db.scope| && HasJoinRow(db, db.scope[i]) && (db.scope[i].id, StoredRun(db, db.scope[i])) == (u.call, Some(u.run));
    JoinIffEligible(db, db.scope[i]);
    assert UsageOf(db, db.scope[i], u);
  }

  /** The usage rows of the legacy join: the deduplicated pairs match an event at most once. */
  ghost function LegacyEvents(db: Tables, usage: seq<Usage>): seq<Usage>
    decreases |usage|
  {
    if usage == [] then []
    else
      var last := usage[|usage| - 1];
      LegacyEvents(db, usage[..|usage| - 1]) + if (last.call, Some(last.run)) in LegacyRuns(db) then [last] else []
  }

  function Copies(u: Usage, n: nat): seq<Usage> { if n == 0 then [] else Copies(u, n - 1) + [u] }

  /** The usage rows of the EXISTS form: an event appears once for each call it joins. */
  function EligibleEvents(db: Tables, usage: seq<Usage>): seq<Usage>
    decreases |usage|
  {
    if usage == [] then []
    else
      var last := usage[|usage| - 1];
      EligibleEvents(db, usage[..|usage| - 1]) + Copies(last, JoinedCalls(db, EligibleCalls(db, db.scope), last))
  }

  /** Both joins yield the same usage rows, each once. */
  lemma {:induction false} EventsAgree(db: Tables, usage: seq<Usage>)
    requires IdsUnique(db)
    ensures LegacyEvents(db, usage) == EligibleEvents(db, usage)
    decreases |usage|
  {
    if usage != [] {
      var last := usage[|usage| - 1];
      EventsAgree(db, usage[..|usage| - 1]);
      EventCountedAlike(db, last);
      assert Copies(last, 0) == [] && Copies(last, 1) == Copies(last, 0) + [last];
    }
  }

  /** One group of GROUP BY provider, model WITH ROLLUP; None is a rolled-up column. */
  datatype UsageGroup = UsageGroup(provider: Option<string>, model: Option<string>)

  datatype Summary = Summary(runs: set<nat>, input: int, output: int, total: int, audioSeconds: real)

  predicate InGroup(g: UsageGroup, u: Usage) {
    (g.provider.Some? ==> g.provider.value == u.provider) && (g.model.Some? ==> g.model.value == u.model)
  }

  /** The distinct runs and the coalesced sums of one group. */
  function Summarise(events: seq<Usage>, g: UsageGroup): Summary
    decreases |events|
  {
    if events == [] then Summary({}, 0, 0, 0, 0.0)
    else
      var before, u := Summarise(events[..|events| - 1], g), events[|events| - 1];
      if !InGroup(g, u) then before
      else Summary(before.runs + {u.run}, before.input + Coalesce(u.input, 0), before.output + Coalesce(u.output, 0),
                   before.total + Coalesce(u.total, 0), before.audioSeconds + Coalesce(u.audioSeconds, 0.0))
  }

  /** Distinct run counts and every sum agree, in each provider and model and in every rolled-up line. */
  lemma UsageAgrees(db: Tables, g: UsageGroup)
    requires IdsUnique(db)
    ensures Summarise(LegacyEvents(db, db.usage), g) == Summarise(EligibleEvents(db, db.usage), g)
  {
    EventsAgree(db, db.usage);
  }

  /** A usage row alone: its own run, its own columns, or nothing outside its group. */
  lemma SummaryOfOne(u: Usage, g: UsageGroup)
    ensures Summarise([u], g)
         == if (g.provider == None || g.provider == Some(u.provider)) && (g.model == None || g.model == Some(u.model))
            then Summary({u.run}, if u.input == None then 0 else u.input.value, if u.output == None then 0 else u.output.value,
                         if u.total == None then 0 else u.total.value, if u.audioSeconds == None then 0.0 else u.audioSeconds.value)
            else Summary({}, 0, 0, 0, 0.0)
  {
    assert [u][..0] == [];
  }

  /** Summaries of two lots of rows add up, column by column, and their runs unite. */
  lemma {:induction false} SummariesAdd(xs: seq<Usage>, ys: seq<Usage>, g: UsageGroup)
    ensures var a, b, both := Summarise(xs, g), Summarise(ys, g), Summarise(xs + ys, g);
      && both.runs == a.runs + b.runs && both.input == a.input + b.input && both.output == a.output + b.output
      && both.total == a.total + b.total && both.audioSeconds == a.audioSeconds + b.audioSeconds
    decreases |ys|
  {
    if ys == [] {
      assert xs + ys == xs;
    } else {
      SummariesAdd(xs, ys[..|ys| - 1], g);
      assert (xs + ys)[..|xs + ys| - 1] == xs + ys[..|ys| - 1];
    }
  }
}
