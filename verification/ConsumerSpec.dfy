/**
 The market data consumer as a function of its state: gap detection, and recovery from a snapshot
 plus the incremental updates that were queued meanwhile.
 */
module ConsumerSpec {
  import opened Messages
  import opened SnapshotSynthesizer

  type Queue = map<nat, Update>

  /** `delivered` is what has been written to the strategy's queue so far. */
  datatype Consumer = Consumer(
    next: nat, recovering: bool, snapshot: Queue, incremental: Queue, delivered: seq<Update>)

  const START := Consumer(1, false, map[], map[], [])

  predicate Marker(u: Update) {
    u.SnapshotStart? || u.SnapshotEnd?
  }

  /** The updates without the snapshot markers. */
  function Payload(us: seq<Update>): seq<Update> {
    if us == [] then []
    else Payload(us[..|us| - 1]) + (if Marker(us[|us| - 1]) then [] else [us[|us| - 1]])
  }

  /** Messages a, a+1, ..., b-1 of a queue. */
  function Range(q: Queue, a: nat, b: nat): (us: seq<Update>)
    requires a <= b && forall k :: a <= k < b ==> k in q
    ensures |us| == b - a && forall i :: 0 <= i < b - a ==> us[i] == q[a + i]
  {
    if a == b then [] else Range(q, a, b - 1) + [q[b - 1]]
  }

  /** Keys 0, 1, ..., n-1 and no others. */
  predicate Contiguous(q: Queue) {
    forall k :: 0 <= k < |q| ==> k in q
  }

  predicate IsFirstMissing(q: Queue, from: nat, n: nat) {
    from <= n && n !in q && forall k :: from <= k < n ==> k in q
  }

  /** The first sequence number from `from` on that is not queued. */
  ghost function FirstMissing(q: Queue, from: nat): (n: nat)
    ensures IsFirstMissing(q, from, n)
    decreases |set k | k in q && k >= from|
  {
    if from !in q then from
    else
      assert from in (set k | k in q && k >= from);
      assert (set k | k in q && k >= from + 1) == (set k | k in q && k >= from) - {from};
      FirstMissing(q, from + 1)
  }

  lemma FirstMissingIs(q: Queue, from: nat, n: nat)
    requires IsFirstMissing(q, from, n)
    ensures FirstMissing(q, from) == n
  {
  }

  /** checkSnapshotSync. */
  ghost function Check(c: Consumer): Consumer {
    var s := c.snapshot;
    if s == map[] then c
    else if !Contiguous(s) || !s[0].SnapshotStart? then c.(snapshot := map[])
    else if !s[|s| - 1].SnapshotEnd? then c
    else
      var from := s[|s| - 1].last + 1;
      var next := FirstMissing(c.incremental, from);
      if exists k :: k in c.incremental && k > next then c.(snapshot := map[], next := next)
      else
        Consumer(next, false, map[], map[],
                 c.delivered + Payload(Range(s, 0, |s|)) + Payload(Range(c.incremental, from, next)))
  }

  /** queueMessage. */
  ghost function Enqueue(c: Consumer, isSnapshot: bool, m: Numbered): Consumer {
    Check(
      if isSnapshot then
        c.(snapshot := if m.number in c.snapshot then map[m.number := m.update] else c.snapshot[m.number := m.update])
      else
        c.(incremental := c.incremental[m.number := m.update]))
  }

  /** One message inside recvCallback. */
  ghost function Receive(c: Consumer, isSnapshot: bool, m: Numbered): Consumer {
    if c.recovering then Enqueue(c, isSnapshot, m)
    else if m.number != c.next then
      Enqueue(c.(recovering := true, snapshot := map[], incremental := map[]), isSnapshot, m)
    else if isSnapshot then c
    else c.(next := c.next + 1, delivered := c.delivered + [m.update])
  }

  ghost function ReceiveAll(c: Consumer, isSnapshot: bool, ms: seq<Numbered>): Consumer
    decreases ms
  {
    if ms == [] then c else ReceiveAll(Receive(c, isSnapshot, ms[0]), isSnapshot, ms[1..])
  }

  /** recvCallback on a packet of whole messages; the test of the recovery mode is made once. */
  ghost function Packet(c: Consumer, isSnapshot: bool, ms: seq<Numbered>): Consumer {
    if isSnapshot && !c.recovering then c else ReceiveAll(c, isSnapshot, ms)
  }
}
