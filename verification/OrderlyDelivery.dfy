/**
 What a consumer makes of messages that arrive as they were sent: updates in order are handed on as they
 come, and a whole publication in order ends recovery.
 */
module OrderlyDelivery {
  import opened Messages
  import opened MarketData
  import opened SnapshotSynthesizer
  import opened ConsumerSpec
  import opened Recovery
  import opened RecoveryProgress
  import opened MixedSnapshots
  import opened AgreedSnapshots

  // ----- Updates in order

  /** How many of these messages continue number `next` one by one. */
  function InOrderLength(next: nat, ms: seq<Numbered>): (n: nat)
    ensures n <= |ms|
    decreases ms
  {
    if ms == [] || ms[0].number != next then 0 else 1 + InOrderLength(next + 1, ms[1..])
  }

  function UpdatesOf(ms: seq<Numbered>): seq<Update> {
    seq(|ms|, i requires 0 <= i < |ms| => ms[i].update)
  }

  function QueuedAll(q: Queue, ms: seq<Numbered>): Queue
    decreases ms
  {
    if ms == [] then q else QueuedAll(q[ms[0].number := ms[0].update], ms[1..])
  }

  /** A recovering consumer without snapshot messages queues updates and hands on nothing. */
  lemma {:induction false} RecoveringQueues(c: Consumer, ms: seq<Numbered>)
    requires c.recovering && c.snapshot == map[]
    ensures ReceiveAll(c, false, ms) == c.(incremental := QueuedAll(c.incremental, ms))
    decreases ms
  {
    if ms != [] {
      hide Range, Payload, FirstMissing;
      RecoveringQueues(c.(incremental := c.incremental[ms[0].number := ms[0].update]), ms[1..]);
    }
  }

  lemma GapRecovers(c: Consumer, m: Numbered)
    requires !c.recovering && m.number != c.next
    ensures Receive(c, false, m) == c.(recovering := true, snapshot := map[], incremental := map[m.number := m.update])
  {
    hide Range, Payload, FirstMissing;
  }

  /** Consumer `c'` is `c` after handing on the longest beginning of `ms` that continues its next number. It is
      outside recovery exactly if that is all of `ms`; otherwise the rest is queued. */
  ghost predicate HandedOn(c: Consumer, ms: seq<Numbered>, c': Consumer) {
    var n := InOrderLength(c.next, ms);
    && c'.delivered == c.delivered + UpdatesOf(ms[..n]) && c'.next == c.next + n
    && (c'.recovering <==> n < |ms|)
    && (n == |ms| ==> c'.snapshot == c.snapshot && c'.incremental == c.incremental)
    && (n < |ms| ==> c'.snapshot == map[] && c'.incremental == QueuedAll(map[], ms[n..]))
  }

  lemma HandedOnNothing(c: Consumer)
    requires !c.recovering
    ensures HandedOn(c, [], c)
  {
    assert c.delivered + [] == c.delivered;
  }

  lemma HandedOnFirst(c: Consumer, m: Numbered, ms: seq<Numbered>, c': Consumer)
    requires m.number == c.next && HandedOn(c.(next := c.next + 1, delivered := c.delivered + [m.update]), ms, c')
    ensures HandedOn(c, [m] + ms, c')
  {
    hide QueuedAll;
    var all, n := [m] + ms, InOrderLength(c.next + 1, ms);
    assert all[1..] == ms && all[..n + 1] == [m] + ms[..n] && all[n + 1..] == ms[n..];
    assert UpdatesOf([m] + ms[..n]) == [m.update] + UpdatesOf(ms[..n]);
    assert c.delivered + ([m.update] + UpdatesOf(ms[..n])) == c.delivered + [m.update] + UpdatesOf(ms[..n]);
  }

  lemma HandedOnGap(c: Consumer, ms: seq<Numbered>)
    requires !c.recovering && ms != [] && ms[0].number != c.next
    ensures HandedOn(c, ms, c.(recovering := true, snapshot := map[], incremental := QueuedAll(map[], ms)))
  {
    assert ms[..0] == [] && ms[0..] == ms && c.delivered + [] == c.delivered;
  }

  /** Of any batch of updates, a consumer outside recovery hands on exactly the longest beginning that
      continues its next number. It stays outside recovery if and only if that is the whole batch; otherwise
      it recovers with the rest queued. */
  lemma {:induction false} BatchIsDelivered(c: Consumer, ms: seq<Numbered>)
    requires !c.recovering
    ensures HandedOn(c, ms, ReceiveAll(c, false, ms))
    decreases ms
  {
    hide HandedOn;
    if ms == [] {
      HandedOnNothing(c);
    } else if ms[0].number == c.next {
      BatchIsDelivered(c.(next := c.next + 1, delivered := c.delivered + [ms[0].update]), ms[1..]);
      HandedOnFirst(c, ms[0], ms[1..], ReceiveAll(c, false, ms));
      assert [ms[0]] + ms[1..] == ms;
    } else {
      hide Receive;
      GapRecovers(c, ms[0]);
      RecoveringQueues(Receive(c, false, ms[0]), ms[1..]);
      HandedOnGap(c, ms);
    }
  }

  /** Snapshot packets pass by a consumer outside recovery. */
  lemma SnapshotsPassBy(c: Consumer, ms: seq<Numbered>)
    requires !c.recovering
    ensures Packet(c, true, ms) == c
  {
  }

  lemma {:induction false} ReceiveAllConcat(c: Consumer, isSnapshot: bool, a: seq<Numbered>, b: seq<Numbered>)
    ensures ReceiveAll(c, isSnapshot, a + b) == ReceiveAll(ReceiveAll(c, isSnapshot, a), isSnapshot, b)
    decreases a
  {
    hide Receive;
    if a == [] {
      assert a + b == b;
    } else {
      ReceiveAllConcat(Receive(c, isSnapshot, a[0]), isSnapshot, a[1..], b);
      assert (a + b)[1..] == a[1..] + b;
    }
  }

  /** Packets of updates, one after the other. */
  ghost function Packets(c: Consumer, ps: seq<seq<Numbered>>): Consumer
    decreases ps
  {
    if ps == [] then c else Packets(Packet(c, false, ps[0]), ps[1..])
  }

  function Joined(ps: seq<seq<Numbered>>): seq<Numbered> {
    if ps == [] then [] else ps[0] + Joined(ps[1..])
  }

  /** How updates are cut into packets does not matter. */
  lemma {:induction false} PacketsDoNotMatter(c: Consumer, ps: seq<seq<Numbered>>)
    ensures Packets(c, ps) == ReceiveAll(c, false, Joined(ps))
    decreases ps
  {
    hide ReceiveAll;
    if ps == [] {
      ReceiveNothing(c);
    } else {
      PacketsDoNotMatter(Packet(c, false, ps[0]), ps[1..]);
      ReceiveAllConcat(c, false, ps[0], Joined(ps[1..]));
    }
  }

  lemma ReceiveNothing(c: Consumer)
    ensures ReceiveAll(c, false, []) == c
  {
  }

  /** Messages numbered from `next` on without gap are in order to the end. */
  lemma {:induction false} AllInOrder(next: nat, ms: seq<Numbered>)
    requires forall i :: 0 <= i < |ms| ==> ms[i].number == next + i
    ensures InOrderLength(next, ms) == |ms|
    decreases ms
  {
    if ms != [] {
      AllInOrder(next + 1, ms[1..]);
    }
  }

  /** With nothing lost, a history is handed on as it is: from the start, receiving updates 1, 2, 3 and so on in
      order, in whatever packets, ends outside recovery with exactly that history delivered. */
  lemma HistoryIsDelivered(h: History, ps: seq<seq<Numbered>>)
    requires |Joined(ps)| == |h| && forall i :: 0 <= i < |h| ==> Joined(ps)[i] == Numbered(i + 1, h[i])
    ensures Packets(START, ps) == Consumer(|h| + 1, false, map[], map[], h)
  {
    hide Packets, ReceiveAll, Joined;
    var ms := Joined(ps);
    PacketsDoNotMatter(START, ps);
    AllInOrder(1, ms);
    BatchIsDelivered(START, ms);
    assert ms[..|ms|] == ms && UpdatesOf(ms) == h && [] + h == h;
  }

  // ----- A publication in order

  /** `n` messages of the publication after update `k`, from message `i` on. */
  function Stretch(k: nat, i: nat, n: nat): seq<Source>
    decreases n
  {
    if n == 0 then [] else [Source(k, i)] + Stretch(k, i + 1, n - 1)
  }

  lemma StretchIsSome(k: nat, i: nat, n: nat)
    ensures n > 0 ==> Stretch(k, i, n) != []
  {
  }

  lemma OneIsQueued(h: History, c: Consumer, k: nat, i: nat)
    requires c.recovering && k <= |h| && i + 1 < |PublicationAt(h, k)|
    requires if i == 0 then Settled(c) else Holds(c.snapshot, PublicationAt(h, k), i)
    ensures var c' := Receive(c, true, MessageOf(h, Source(k, i)));
      && c'.recovering && c'.incremental == c.incremental && c'.delivered == c.delivered
      && Holds(c'.snapshot, PublicationAt(h, k), i + 1)
  {
    hide Settled, Holds, Receive, Publication, Shaped;
    var p := PublicationAt(h, k);
    PublicationIsShaped(StateAt(h, k), k);
    if i == 0 {
      StartBegins(c, p, k);
      FirstIsHeld(c, p);
    } else {
      MiddleContinues(c, p, k, i);
    }
  }

  lemma InOrderNone(h: History, current: nat)
    ensures InOrder(h, current, [])
  {
  }

  lemma PieceFirst(h: History, c: Consumer, current: nat, src: Source, srcs: seq<Source>)
    requires current <= src.k <= |h| && src.i < |PublicationAt(h, src.k)| && InOrder(h, src.k, srcs)
    ensures InOrder(h, current, [src] + srcs)
    ensures ReceiveAll(c, true, PiecesOf(h, current, [src] + srcs)) ==
      ReceiveAll(Receive(c, true, MessageOf(h, src)), true, PiecesOf(h, src.k, srcs))
    ensures LastOf(current, [src] + srcs) == LastOf(src.k, srcs)
  {
    hide Receive, PublicationAt, MessageOf, ReceiveAll, PiecesOf, LastOf;
    assert ([src] + srcs)[1..] == srcs;
    PieceSplit(h, c, current, [src] + srcs);
  }

  lemma FirstIsHeld(c: Consumer, p: seq<Update>)
    requires |p| > 0
    ensures Holds(c.(snapshot := map[0 := p[0]]).snapshot, p, 1)
  {
  }

  lemma FirstIsIncomplete(c: Consumer, p: seq<Update>)
    requires Settled(c) && |p| > 1 && p[0].SnapshotStart?
    ensures Agreed(QueueWith(c, Numbered(0, p[0])))
  {
    var q := QueueWith(c, Numbered(0, p[0]));
    if c.snapshot != map[] {
      assert 0 in c.snapshot;
    }
    assert q == map[0 := p[0]];
  }

  lemma LaterIsAgreed(c: Consumer, p: seq<Update>, i: nat, k: nat)
    requires c.recovering && Shaped(p, k) && p[0] == SnapshotStart(k) && 0 < i < |p| && Holds(c.snapshot, p, i)
    ensures Agreed(QueueWith(c, Numbered(i, p[i])))
  {
    NoKeyBeyond(c.snapshot, i);
    assert i !in c.snapshot;
    var q := QueueWith(c, Numbered(i, p[i]));
    assert q == c.snapshot[i := p[i]] && |q| == i + 1 && 0 in c.snapshot;
  }

  /** The queued updates of a safe consumer cannot leave a gap behind a snapshot of the latest state. */
  lemma NothingBehindLatest(h: History, q: Queue)
    requires Genuine(h, q)
    ensures NoGapAfter(q, |h|) && FirstMissing(q, |h| + 1) == |h| + 1
  {
    FirstMissingIs(q, |h| + 1, |h| + 1);
  }

  /** What receiving the rest of the publication of the latest state comes to. */
  ghost predicate Finishes(h: History, c: Consumer, current: nat, srcs: seq<Source>) {
    && InOrder(h, current, srcs) && AgreedPieces(h, current, c, srcs) && LastOf(current, srcs) == |h|
    && var c' := ReceiveAll(c, true, PiecesOf(h, current, srcs));
       !c'.recovering && c'.next == |h| + 1
  }

  lemma FinishesFirst(h: History, c: Consumer, current: nat, src: Source, srcs: seq<Source>)
    requires current <= src.k <= |h| && src.i < |PublicationAt(h, src.k)| && Agreed(QueueWith(c, MessageOf(h, src)))
    requires Finishes(h, Receive(c, true, MessageOf(h, src)), src.k, srcs)
    ensures Finishes(h, c, current, [src] + srcs)
  {
    hide Receive, PublicationAt, MessageOf, ReceiveAll, PiecesOf, Agreed, QueueWith, LastOf;
    assert ([src] + srcs)[1..] == srcs;
    PieceFirst(h, c, current, src, srcs);
  }

  lemma FinishesNow(h: History, c: Consumer, current: nat)
    requires !c.recovering && c.next == |h| + 1 && current == |h|
    ensures Finishes(h, c, current, [])
  {
    hide Receive;
    PieceSplit(h, c, current, []);
  }

  /** From any state of recovery, or from the middle of it, the publication of the latest state received in order
      ends recovery, with nothing left to catch up. */
  lemma {:induction false} LatestPublicationEnds(h: History, c: Consumer, current: nat, i: nat, n: nat)
    requires LegalHistory(h) && LegalRun(EMPTY, c.delivered) && c.recovering && Genuine(h, c.incremental) && current <= |h|
    requires i + n == |PublicationAt(h, |h|)| && n > 0
    requires if i == 0 then Settled(c) else Holds(c.snapshot, PublicationAt(h, |h|), i)
    ensures Finishes(h, c, current, Stretch(|h|, i, n))
    decreases n
  {
    hide Settled, Holds, Receive, PublicationAt, Finishes, Agreed, QueueWith, LegalRun, LegalHistory, Genuine;
    var k := |h|;
    var m := MessageOf(h, Source(k, i));
    PieceIsAgreed(h, c, i);
    if n == 1 {
      LastEnds(h, c, i);
      FinishesNow(h, Receive(c, true, m), k);
      NoStretch(k, i + 1);
    } else {
      OneIsQueued(h, c, k, i);
      LatestPublicationEnds(h, Receive(c, true, m), k, i + 1, n - 1);
    }
    FinishesFirst(h, c, current, Source(k, i), Stretch(k, i + 1, n - 1));
  }

  lemma NoStretch(k: nat, i: nat)
    ensures Stretch(k, i, 0) == []
  {
  }

  lemma PieceIsAgreed(h: History, c: Consumer, i: nat)
    requires c.recovering && i < |PublicationAt(h, |h|)|
    requires if i == 0 then Settled(c) else Holds(c.snapshot, PublicationAt(h, |h|), i)
    ensures Agreed(QueueWith(c, MessageOf(h, Source(|h|, i))))
  {
    hide Settled, Holds, Publication, Agreed, QueueWith;
    PublicationIsShaped(StateAt(h, |h|), |h|);
    StartCarriesNumber(StateAt(h, |h|), |h|);
    if i == 0 {
      FirstIsIncomplete(c, PublicationAt(h, |h|));
    } else {
      LaterIsAgreed(c, PublicationAt(h, |h|), i, |h|);
    }
  }

  lemma LastEnds(h: History, c: Consumer, i: nat)
    requires LegalHistory(h) && LegalRun(EMPTY, c.delivered) && c.recovering && Genuine(h, c.incremental)
    requires i + 1 == |PublicationAt(h, |h|)| && (if i == 0 then Settled(c) else Holds(c.snapshot, PublicationAt(h, |h|), i))
    ensures var c' := Receive(c, true, MessageOf(h, Source(|h|, i))); !c'.recovering && c'.next == |h| + 1
  {
    hide Settled, Holds, Receive, Publication, LegalRun, LegalHistory, Genuine, NoGapAfter;
    PublicationIsShaped(StateAt(h, |h|), |h|);
    NothingBehindLatest(h, c.incremental);
    ForeignEnd(h, c, |h|, |h|);
  }
}
