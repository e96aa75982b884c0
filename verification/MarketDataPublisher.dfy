/**
 The exchange's market data publisher, the ring behind it and the synthesizer at the other end of the
 ring, each working at its own pace: what they put on the wire is what the recovery protocol takes the wire
 to carry.
 */
module MarketDataPublisher {
  import opened Domain
  import opened Messages
  import opened MarketData
  import opened SnapshotSynthesizer
  import opened Recovery

  /** A message passes the ASSERTs of addToSnapshot on the order if it is legal for every receiver. */
  lemma LegalPasses(m: Market, u: Update)
    requires Trades(u) && LegalAt(m, u)
    ensures u.ticker < MAX_TICKERS && u.id < MAX_ORDER_IDS && Passes(m[u.ticker], u)
    ensures u.Add? <==> Total(ApplyAt(m, u)) == Total(m) + 1
    ensures Total(ApplyAt(m, u)) <= Total(m) + 1
  {
    hide Total, Roomy;
    var orders: Orders := m[u.ticker];
    var after: Orders := Apply(orders, u);
    TotalUpdated(m, u.ticker, after);
    assert |after| == |after.Keys| && |orders| == |orders.Keys|;
    assert after.Keys == if u.Add? then orders.Keys + {u.id} else if u.Modify? then orders.Keys else orders.Keys - {u.id};
  }

  lemma LegalPrefix(h: History, us: seq<Update>, n: nat)
    requires LegalHistory(h + us) && n <= |us|
    ensures LegalHistory(h + us[..n])
  {
    hide Fold, LegalRun;
    FoldConcat(EMPTY, h + us[..n], us[n..]);
    assert h + us == (h + us[..n]) + us[n..];
    forall i | 0 <= i < |h + us[..n]| ensures Trades((h + us[..n])[i]) {
      assert (h + us[..n])[i] == (h + us)[i];
    }
  }

  class Publisher {
    const synthesizer: Synthesizer
    var nextNumber: nat
    var incremental: seq<Numbered>
    var ring: seq<Numbered>

    /** The publisher has sent the updates `h`, numbered from 1; the synthesizer has folded the first of
        them, and the ring holds the others. */
    ghost predicate Tracks(h: History)
      reads this, synthesizer
    {
      && LegalHistory(h) && AllSent(h)
      && synthesizer.Valid() && synthesizer.last <= |h| && synthesizer.market == StateAt(h, synthesizer.last)
      && Waiting(h, synthesizer.last)
    }

    ghost predicate AllSent(h: History)
      reads `nextNumber, `incremental
    {
      nextNumber == |h| + 1 && |incremental| == |h| && forall i :: 0 <= i < |h| ==> incremental[i] == Numbered(i + 1, h[i])
    }

    ghost predicate Waiting(h: History, from: nat)
      requires from <= |h|
      reads `ring
    {
      |ring| == |h| - from && forall i :: 0 <= i < |ring| ==> ring[i] == Numbered(from + i + 1, h[from + i])
    }

    constructor ()
      ensures Tracks([]) && fresh(synthesizer)
    {
      synthesizer := new Synthesizer();
      nextNumber, incremental, ring := 1, [], [];
    }

    /** One update: numbered, sent, and put into the ring. */
    method Forward(u: Update, ghost h: History)
      requires Tracks(h) && LegalHistory(h + [u])
      modifies `nextNumber, `incremental, `ring
      ensures Tracks(h + [u])
    {
      LongerHistory(h, u, synthesizer.last);
      hide LegalHistory, StateAt;
      incremental := incremental + [Numbered(nextNumber, u)];
      ring := ring + [Numbered(nextNumber, u)];
      nextNumber := nextNumber + 1;
    }

    /** The drain loop of the publisher: any batch of updates that continues a legal history. */
    method Run(us: seq<Update>, ghost h: History)
      requires Tracks(h) && LegalHistory(h + us)
      modifies `nextNumber, `incremental, `ring
      ensures Tracks(h + us)
    {
      hide Tracks, LegalHistory;
      assert h + us[..0] == h;
      for n := 0 to |us|
        invariant Tracks(h + us[..n])
      {
        LegalPrefix(h, us, n + 1);
        assert h + us[..n + 1] == (h + us[..n]) + [us[n]];
        Forward(us[n], h + us[..n]);
      }
      assert h + us[..|us|] == h + us;
    }

    lemma NextInRing(h: History)
      requires Tracks(h) && ring != []
      ensures synthesizer.last < |h| && ring[0] == Numbered(synthesizer.last + 1, h[synthesizer.last])
      ensures Trades(h[synthesizer.last]) && LegalAt(StateAt(h, synthesizer.last), h[synthesizer.last])
      ensures StateAt(h, synthesizer.last + 1) == ApplyAt(StateAt(h, synthesizer.last), h[synthesizer.last])
    {
      StateAtNext(h, synthesizer.last);
    }

    /** One turn of the synthesizer's loop, at any time after the update was sent. No ASSERT fires but that
        of the memory pool, and that exactly if the eight tickers together have too many orders. */
    method Absorb(ghost h: History) returns (ok: bool)
      requires Tracks(h)
      modifies `ring, synthesizer
      ensures old(ring) == [] ==> ok && unchanged(this, synthesizer)
      ensures old(ring) != [] ==>
        && old(synthesizer.last) < |h|
        && (ok <==> Total(StateAt(h, old(synthesizer.last) + 1)) < MAX_ORDER_IDS)
        && (ok ==> synthesizer.last == old(synthesizer.last) + 1)
      ensures ok ==> Tracks(h)
    {
      if ring == [] {
        return true;
      }
      NextInRing(h);
      LegalPasses(synthesizer.market, ring[0].update);
      hide LegalAt, ApplyAt, StateAt, LegalHistory, Total;
      ok := synthesizer.AddToSnapshot(ring[0]);
      ring := ring[1..];
    }

    /** A snapshot is the publication of the market after the last update the synthesizer has folded,
        however far the publisher is ahead. */
    method Snapshot(ghost h: History) returns (sent: seq<Numbered>)
      requires Tracks(h)
      ensures synthesizer.last <= |h| && sent == Number(PublicationAt(h, synthesizer.last))
    {
      sent := synthesizer.PublishSnapshot();
    }
  }
}
