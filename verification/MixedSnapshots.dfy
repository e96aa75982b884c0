/**
 The consumer checks that a queued snapshot begins with SNAPSHOT_START, is numbered without gaps and
 ends with SNAPSHOT_END, but not that its messages come from one publication. This module says exactly
 what a completed recovery then delivers.
 */
module MixedSnapshots {
  import opened Domain
  import opened Messages
  import opened MarketData
  import opened SnapshotSynthesizer
  import opened ConsumerSpec
  import opened Recovery
  import opened RecoveryProgress
  import opened Overwriting

  lemma HistoryTrades(h: History, a: nat, b: nat)
    requires LegalHistory(h) && a <= b <= |h|
    ensures forall i :: 0 <= i < |h[a..b]| ==> Trades(h[a..b][i]) && h[a..b][i].ticker < MAX_TICKERS
  {
    forall i | 0 <= i < |h[a..b]| ensures Trades(h[a..b][i]) && h[a..b][i].ticker < MAX_TICKERS {
      StateAtNext(h, a + i);
    }
  }

  /** What a queue without gaps delivers. */
  function Contents(s: Queue): seq<Update> {
    if Contiguous(s) then Payload(Range(s, 0, |s|)) else []
  }

  /** The market that the queued snapshot messages make of what was delivered before. */
  function Built(c: Consumer): Market {
    Fold(EMPTY, c.delivered + Contents(c.snapshot))
  }

  /** Whatever publications the queued snapshot messages come from: when recovery completes with a
      SNAPSHOT_END after update `k` and queued updates up to `n - 1`, the client's market is the exchange's
      if and only if the market built from the snapshot agrees with the one after update `k` on every
      order that updates k+1 .. n-1 neither add nor cancel, a modification settling the quantity. */
  lemma CompletionIsRightIff(h: History, c: Consumer)
    requires LegalHistory(h) && Completes(c) && Genuine(h, c.incremental) && c.snapshot[|c.snapshot| - 1].last <= |h|
    ensures var k := c.snapshot[|c.snapshot| - 1].last;
      var n := FirstMissing(c.incremental, k + 1);
      && !Check(c).recovering && Check(c).next == n && k < n <= |h| + 1
      && (Fold(EMPTY, Check(c).delivered) == StateAt(h, n - 1) <==> AllReconciled(Built(c), StateAt(h, k), h[k..n - 1]))
  {
    hide Fold, LegalRun, Range, Payload, FirstMissing, Check, AllReconciled, LegalHistory;
    var s := c.snapshot;
    var k := s[|s| - 1].last;
    var n := FirstMissing(c.incremental, k + 1);
    assert n > k + 1 ==> n - 1 in c.incremental;
    CheckCompletes(c);
    QueuedUpdates(h, c.incremental, k, n - 1);
    FoldConcat(EMPTY, c.delivered + Payload(Range(s, 0, |s|)), h[k..n - 1]);
    StateAtAdvances(h, k, n - 1);
    HistoryTrades(h, k, n - 1);
    var us := h[k..n - 1];
    assert forall i :: 0 <= i < |us| ==> Trades(us[i]) && us[i].ticker < MAX_TICKERS;
    FoldsAgreeIff(Built(c), StateAt(h, k), us);
  }

  /** The commonest mixture, a snapshot of state `k1` closed by the SNAPSHOT_END of a snapshot of state
      `k2`: it is accepted, and right if and only if the two states agree on what the queued updates
      behind `k2` leave alone. */
  lemma ForeignEnd(h: History, c: Consumer, k1: nat, k2: nat)
    requires LegalHistory(h) && k1 <= |h| && k2 <= |h| && LegalRun(EMPTY, c.delivered)
    requires |PublicationAt(h, k1)| == |PublicationAt(h, k2)|
    requires c.recovering && Genuine(h, c.incremental) && NoGapAfter(c.incremental, k2)
    requires Holds(c.snapshot, PublicationAt(h, k1), |PublicationAt(h, k1)| - 1)
    ensures var i := |PublicationAt(h, k2)| - 1;
      var n := FirstMissing(c.incremental, k2 + 1);
      var c' := Receive(c, true, Numbered(i, PublicationAt(h, k2)[i]));
      && !c'.recovering && c'.next == n && k2 < n <= |h| + 1
      && (Fold(EMPTY, c'.delivered) == StateAt(h, n - 1) <==> AllReconciled(StateAt(h, k1), StateAt(h, k2), h[k2..n - 1]))
  {
    hide Fold, LegalRun, AllReconciled, FirstMissing, Check, Receive, LegalHistory, Body, Holds, NoGapAfter, Genuine, Completes;
    var i := |PublicationAt(h, k1)| - 1;
    var d := c.(snapshot := c.snapshot[i := SnapshotEnd(k2)]);
    ForeignQueue(h, c.snapshot, k1, k2);
    NoGapCompletes(d, i, k2);
    CompletionIsRightIff(h, d);
    StateAtIsPublic(h, k1);
    SnapshotRebuilds(Fold(EMPTY, c.delivered), StateAt(h, k1));
    FoldConcat(EMPTY, c.delivered, Body(StateAt(h, k1), MAX_TICKERS));
    NextIsChecked(c, PublicationAt(h, k1), i, SnapshotEnd(k2));
  }

  lemma NoGapCompletes(d: Consumer, i: nat, k: nat)
    requires |d.snapshot| == i + 1 && Contiguous(d.snapshot) && d.snapshot[0].SnapshotStart?
    requires d.snapshot[i] == SnapshotEnd(k) && NoGapAfter(d.incremental, k)
    ensures Completes(d)
  {
    hide FirstMissing;
  }

  /** The message behind those queued is queued with them and the queue checked. */
  lemma NextIsChecked(c: Consumer, p: seq<Update>, i: nat, x: Update)
    requires c.recovering && Holds(c.snapshot, p, i)
    ensures Receive(c, true, Numbered(i, x)) == Check(c.(snapshot := c.snapshot[i := x]))
  {
    hide Check;
    NoKeyBeyond(c.snapshot, i);
  }

  lemma ForeignQueue(h: History, q: Queue, k1: nat, k2: nat)
    requires k1 <= |h| && Holds(q, PublicationAt(h, k1), |PublicationAt(h, k1)| - 1)
    ensures var i := |PublicationAt(h, k1)| - 1;
      var s := q[i := SnapshotEnd(k2)];
      && |s| == i + 1 && Contiguous(s) && s[0].SnapshotStart? && s[i] == SnapshotEnd(k2)
      && Contents(s) == Body(StateAt(h, k1), MAX_TICKERS)
  {
    hide Payload, Body, Range, Holds;
    var m1 := StateAt(h, k1);
    var p := PublicationAt(h, k1);
    QueueExtends(q, p, |p| - 1, SnapshotEnd(k2));
    assert p[..|p| - 1] == [SnapshotStart(k1)] + Body(m1, MAX_TICKERS);
    NoMarkersInBody(m1, MAX_TICKERS);
    PayloadBetweenMarkers(k1, Body(m1, MAX_TICKERS), k2);
  }

  /** A queue that holds the first `i` messages of `p`, with one more message behind them. */
  lemma QueueExtends(q: Queue, p: seq<Update>, i: nat, x: Update)
    requires Holds(q, p, i)
    ensures var s := q[i := x];
      && |s| == i + 1 && Contiguous(s) && s[i] == x && (i > 0 ==> s[0] == p[0])
      && Range(s, 0, |s|) == p[..i] + [x]
  {
    NoKeyBeyond(q, i);
    var s := q[i := x];
    assert |s| == i + 1;
    assert Range(s, 0, |s|) == p[..i] + [x];
  }

  lemma PayloadBetweenMarkers(a: nat, us: seq<Update>, b: nat)
    requires forall i :: 0 <= i < |us| ==> !Marker(us[i])
    ensures Payload([SnapshotStart(a)] + us + [SnapshotEnd(b)]) == us
  {
    PayloadAfterStart(a, us);
    var vs := [SnapshotStart(a)] + us + [SnapshotEnd(b)];
    assert vs[..|vs| - 1] == [SnapshotStart(a)] + us;
  }

}
