/**
 The hash-chained audit log.

 The hash of an entry is left open: the proofs use only that it is injective and
 never yields the genesis value.
 */
module HashChain {
  import opened Options

  type Hash = string

  /** Every field of an event that enters its hash. */
  datatype Event = Event(
    actorUserId: Option<string>, actorEmail: Option<string>, action: string, resourceType: string, resourceId: Option<string>,
    outcome: string, purpose: Option<string>, correlationId: Option<string>, ipAddress: Option<string>, client: Option<string>,
    beforeHash: Option<string>, afterHash: Option<string>, occurredAt: int)

  /** One stored row of the log. */
  datatype Entry = Entry(id: string, event: Event, previous: Hash, hash: Hash)

  /** What `hashAuditEntry` serialises and hashes. */
  datatype Preimage = Preimage(id: string, previous: Hash, event: Event)

  type Hasher = Preimage -> Hash

  function Repeat(c: char, n: nat): string { if n == 0 then "" else Repeat(c, n - 1) + [c] }

  function Genesis(): Hash { Repeat('0', 64) }

  ghost predicate CollisionFree(h: Hasher) {
    && (forall x :: h(x) != Genesis())
    && (forall x, y :: h(x) == h(y) ==> x == y)
  }

  /** The hash an entry must carry on from: the one before it, or genesis. */
  function PreviousOf(log: seq<Entry>, i: nat): Hash
    requires i <= |log|
  {
    if i == 0 then Genesis() else log[i - 1].hash
  }

  function HashOf(h: Hasher, e: Entry): Hash { h(Preimage(e.id, e.previous, e.event)) }

  predicate EntryOk(h: Hasher, log: seq<Entry>, i: nat)
    requires i < |log|
  {
    log[i].previous == PreviousOf(log, i) && log[i].hash == HashOf(h, log[i])
  }

  /** Re-verification, entry by entry from genesis. */
  predicate Verified(h: Hasher, log: seq<Entry>) {
    forall i :: 0 <= i < |log| ==> EntryOk(h, log, i)
  }

  function HeadOf(log: seq<Entry>): Hash { PreviousOf(log, |log|) }

  /** The log after one more event. */
  function Recorded(h: Hasher, log: seq<Entry>, id: string, event: Event): seq<Entry> {
    log + [Entry(id, event, HeadOf(log), h(Preimage(id, HeadOf(log), event)))]
  }

  function RecordedAll(h: Hasher, events: seq<(string, Event)>): seq<Entry>
    decreases |events|
  {
    if events == [] then []
    else Recorded(h, RecordedAll(h, events[..|events| - 1]), events[|events| - 1].0, events[|events| - 1].1)
  }

  lemma RecordedVerifies(h: Hasher, log: seq<Entry>, id: string, event: Event)
    requires Verified(h, log)
    ensures Verified(h, Recorded(h, log, id, event))
    ensures HeadOf(Recorded(h, log, id, event)) == h(Preimage(id, HeadOf(log), event))
  {
    var after := Recorded(h, log, id, event);
    forall i | 0 <= i < |after| ensures EntryOk(h, after, i) {
      if i < |log| {
        assert EntryOk(h, log, i);
      }
    }
  }

  /** Every sequence of records yields a log that verifies from genesis and holds exactly those events in order. */
  lemma {:induction false} EveryLogVerifies(h: Hasher, events: seq<(string, Event)>)
    ensures Verified(h, RecordedAll(h, events)) && |RecordedAll(h, events)| == |events|
    ensures forall k :: 0 <= k < |events| ==>
      RecordedAll(h, events)[k].id == events[k].0 && RecordedAll(h, events)[k].event == events[k].1
    decreases |events|
  {
    if events != [] {
      var n := |events| - 1;
      EveryLogVerifies(h, events[..n]);
      RecordedVerifies(h, RecordedAll(h, events[..n]), events[n].0, events[n].1);
    }
  }

  class AuditSink {
    const h: Hasher
    var log: seq<Entry>
    var head: Option<Hash>

    /** The log verifies and the head row, once there is one, holds its last hash. */
    ghost predicate Valid()
      reads this
    {
      Verified(h, log) && (if head.None? then log == [] else head == Some(HeadOf(log)))
    }

    constructor (hasher: Hasher)
      ensures Valid() && log == [] && h == hasher
    {
      h, log, head := hasher, [], None;
    }

    /** `record`: seed the head if it is missing, read it, append the entry, move the head. */
    method Record(id: string, event: Event)
      requires Valid()
      modifies this`log, this`head
      ensures Valid() && log == Recorded(h, old(log), id, event) && head == Some(HeadOf(log))
    {
      RecordedVerifies(h, log, id, event);
      if head.None? {
        head := Some(Genesis());
      }
      var previous := head.value;
      var hash := h(Preimage(id, previous, event));
      log := log + [Entry(id, event, previous, hash)];
      head := Some(hash);
    }
  }

  lemma VerifiedPrefix(h: Hasher, log: seq<Entry>, n: nat)
    requires Verified(h, log) && n <= |log|
    ensures Verified(h, log[..n])
    ensures HeadOf(log[..n]) == PreviousOf(log, n)
  {
    forall i | 0 <= i < n ensures EntryOk(h, log[..n], i) {
      assert EntryOk(h, log, i);
    }
  }

  lemma LastHash(h: Hasher, log: seq<Entry>)
    requires CollisionFree(h) && Verified(h, log) && log != []
    ensures var last := log[|log| - 1];
      && HeadOf(log) == HashOf(h, last) != Genesis() && last.hash == HeadOf(log)
      && Verified(h, log[..|log| - 1]) && HeadOf(log[..|log| - 1]) == last.previous
  {
    assert EntryOk(h, log, |log| - 1);
    VerifiedPrefix(h, log, |log| - 1);
  }

  /** Equal heads come from equal last entries. */
  lemma SameLast(h: Hasher, a: Entry, b: Entry)
    requires CollisionFree(h) && a.hash == b.hash
    requires a.hash == HashOf(h, a) && b.hash == HashOf(h, b)
    ensures a == b
  {
  }

  /** A verified log is determined by its head: no entry can be changed, dropped, added or moved without moving it. */
  lemma {:induction false} HeadDeterminesLog(h: Hasher, a: seq<Entry>, b: seq<Entry>)
    requires CollisionFree(h) && Verified(h, a) && Verified(h, b) && HeadOf(a) == HeadOf(b)
    ensures a == b
    decreases |a|
  {
    if a != [] { LastHash(h, a); }
    if b != [] { LastHash(h, b); }
    if a != [] && b != [] {
      var m, n := |a| - 1, |b| - 1;
      SameLast(h, a[m], b[n]);
      HeadDeterminesLog(h, a[..m], b[..n]);
      assert a == a[..m] + [a[m]] && b == b[..n] + [b[n]];
    }
  }

  /**
   Tampering shows: a log whose entries were edited, shortened or reordered under an
   unchanged head no longer verifies.
   */
  lemma TamperingIsDetected(h: Hasher, recorded: seq<Entry>, claimed: seq<Entry>)
    requires CollisionFree(h) && Verified(h, recorded) && claimed != recorded
    ensures HeadOf(claimed) == HeadOf(recorded) ==> !Verified(h, claimed)
  {
    if HeadOf(claimed) == HeadOf(recorded) && Verified(h, claimed) {
      HeadDeterminesLog(h, recorded, claimed);
    }
  }

  /** Two verified logs that meet at one hash agree on everything before it. */
  lemma SharedHashSharedPast(h: Hasher, a: seq<Entry>, b: seq<Entry>, i: nat, j: nat)
    requires CollisionFree(h) && Verified(h, a) && Verified(h, b) && i < |a| && j < |b| && a[i].hash == b[j].hash
    ensures i == j && a[..i + 1] == b[..j + 1]
  {
    VerifiedPrefix(h, a, i + 1);
    VerifiedPrefix(h, b, j + 1);
    HeadDeterminesLog(h, a[..i + 1], b[..j + 1]);
    assert |a[..i + 1]| == i + 1 && |b[..j + 1]| == j + 1;
  }
}
