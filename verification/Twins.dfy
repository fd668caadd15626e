/** A transaction that the price heaps hold twice, and the pool it overfills. */
module Twins {
  import opened Transactions
  import opened TxItems
  import opened TxLookups
  import opened PricedLists
  import opened PoolSpec
  import opened PoolRuns
  import opened Counting
  import opened TxPools
  import opened Refills
  import Heap

  /** Transactions of one slot, the dearer the higher their hash, each of its own sender, and one of two slots. */
  function Sample(h: Hash): Tx {
    Tx(h, h, 0, 0, 0, h + 1, h + 1, if h == 4 then 40_000 else 100, false)
  }

  /** A sender without transactions has no nonce in use. */
  lemma NewSender(pool: TxPool, h: Hash)
    requires pool.Valid() && pool.all.origin == Sample && h !in pool.all.Hashes()
    ensures pool.Vacant(Sample(h))
  {
    hide Tidy, Covers, TxPricedList.Valid, TxLookup.Valid, TxLookup.Hashes, Filed;
    pool.Rest(0, h);
    pool.At(h, map[], {});
  }

  /** A pool of four slots that knows no more than the samples in `known`. */
  ghost predicate Holds(pool: TxPool, b: Books, known: set<Hash>)
    reads pool, pool.all, pool.priced, pool.pendingNonces
  {
    && pool.Valid() && pool.all.origin == Sample && pool.Capacity() == 4 && pool.locals == {}
    && (forall a :: pool.stateNonce(a) == 0) && pool.all.Hashes() <= known && pool.Register() == b
  }

  lemma SampleSlots(h: Hash)
    ensures NumSlots(Sample(h)) == if h == 4 then 2 else 1
  {
  }

  /** A remote transaction is accepted while there is room. */
  method Send(pool: TxPool, h: Hash, ghost b: Books, ghost known: set<Hash>)
    requires Holds(pool, b, known) && h !in known && b.slots + NumSlots(Sample(h)) <= 4
    modifies pool, pool.all, pool.priced, pool.pendingNonces
    ensures Holds(pool, b.With(Sample(h)), known + {h}) && pool.pendingNonces == old(pool.pendingNonces)
  {
    hide TxPool.Inv, Mixed, Twinless, Counted, Slots, TxPool.Gives, TxPricedList.Outpriced, NumSlots;
    hide TxPricedList.Tracked;
    NewSender(pool, h);
    var replaced, err;
    ghost var drop;
    replaced, err, drop := pool.Add(Sample(h), false, Checks(true, true));
  }

  /** A removed transaction leaves its entry in the heaps while few entries are stale. */
  method Take(pool: TxPool, h: Hash, ghost b: Books, ghost known: set<Hash>)
    requires Holds(pool, b, known) && h in b.remotes && b.stales + 1 <= |b.tracked| / 4
    modifies pool, pool.all, pool.priced, pool.pendingNonces
    ensures pool.pendingNonces == old(pool.pendingNonces)
    ensures Holds(pool, b.(remotes := b.remotes - {h}, stales := b.stales + 1, slots := b.slots - NumSlots(Sample(h))),
                  known - {h})
  {
    hide TxPool.Inv, Mixed, Twinless, NumSlots;
    assert |pool.priced.Tracked()| == |pool.priced.urgent| + |pool.priced.floating|;
    pool.RemoveOne(h, true);
  }

  method Empty() returns (pool: TxPool)
    ensures fresh(pool) && fresh(pool.all) && fresh(pool.priced) && fresh(pool.pendingNonces)
    ensures Holds(pool, Books(map[], multiset{}, [], 0, None, 0), {})
  {
    hide TxPool.Inv, Mixed, TxPricedList.Tracked, TxLookup.Hashes, Books.With, Sample;
    pool := new TxPool(1, 3, 64, 1, 10, {}, _ => 0, _ => 0, 0, Sample);
  }

  const NONE: Books := Books(map[], multiset{}, [], 0, None, 0)
  const FOUR: Known := map[0 := Sample(0), 1 := Sample(1), 2 := Sample(2), 3 := Sample(3)]

  /** The books of a full pool, and of one in which a transaction was removed and sent again. */
  ghost function Full(): Books {
    NONE.With(Sample(0)).With(Sample(1)).With(Sample(2)).With(Sample(3))
  }

  ghost function Less(): Books {
    Full().(remotes := Full().remotes - {0}, stales := Full().stales + 1, slots := Full().slots - NumSlots(Sample(0)))
  }

  ghost function Again(): Books {
    Less().With(Sample(0))
  }

  lemma FullIs()
    ensures Full() == Books(FOUR, multiset{Sample(0), Sample(1), Sample(2), Sample(3)}, [], 0, None, 4)
    ensures Again() == Books(FOUR, multiset{Sample(0), Sample(0), Sample(1), Sample(2), Sample(3)}, [], 1, None, 4)
  {
    SampleSlots(0);
    SampleSlots(1);
    SampleSlots(2);
    SampleSlots(3);
    assert Again().remotes == FOUR;
  }

  /** Four remote transactions fill the pool. */
  method FourRemotes() returns (pool: TxPool)
    ensures fresh(pool) && fresh(pool.all) && fresh(pool.priced) && fresh(pool.pendingNonces)
    ensures Holds(pool, Full(), {0, 1, 2, 3})
  {
    hide Holds, Sample, NumSlots;
    pool := Empty();
    ghost var one := NONE.With(Sample(0));
    ghost var two := one.With(Sample(1));
    ghost var three := two.With(Sample(2));
    ghost var a: set<Hash>, b: set<Hash>, c: set<Hash> := {0}, {0, 1}, {0, 1, 2};
    assert {} + {0} == a && a + {1} == b && b + {2} == c && c + {3} == {0, 1, 2, 3};
    SampleSlots(0);
    Send(pool, 0, NONE, {});
    SampleSlots(1);
    Send(pool, 1, one, a);
    SampleSlots(2);
    Send(pool, 2, two, b);
    SampleSlots(3);
    Send(pool, 3, three, c);
  }

  /** Removed and sent again before the heaps are rebuilt, a transaction has two entries. */
  method SentTwice() returns (pool: TxPool)
    ensures fresh(pool) && fresh(pool.all) && fresh(pool.priced) && fresh(pool.pendingNonces)
    ensures Holds(pool, Again(), {0, 1, 2, 3}) && !pool.Untwinned()
  {
    hide Holds, Sample, NumSlots, Full;
    pool := FourRemotes();
    FullIs();
    SampleSlots(0);
    ghost var all: set<Hash>, rest: set<Hash> := {0, 1, 2, 3}, {1, 2, 3};
    assert all - {0} == rest && rest + {0} == all;
    Take(pool, 0, Full(), all);
    Send(pool, 0, Less(), rest);
    Twinned(pool, all);
  }

  lemma Twinned(pool: TxPool, known: set<Hash>)
    requires Holds(pool, Again(), known)
    ensures !pool.Untwinned()
  {
    hide NumSlots, Sample;
    FullIs();
    assert Live(pool.all.remotes, Sample(0)) && pool.priced.Tracked()[Sample(0)] >= 2;
  }

  lemma Dearer(j: Hash, k: Hash)
    requires j < k
    ensures Cheaper(None, Sample(j), Sample(k)) && PriceCmp(None, Sample(j), Sample(k)) < 0
  {
  }

  /** The cheapest entry is on top of the urgent heap. */
  lemma TopIsCheapest(urgent: seq<Tx>)
    requires Heap.IsHeap(urgent, PriceOrder(None)) && multiset(urgent) == Again().tracked
    ensures urgent != [] && urgent[0] == Sample(0) && Leads(None, multiset(urgent), multiset([]), Sample(0))
  {
    hide Heap.IsHeap, Heap.StrictOrder, Cheaper, PriceCmp, Sample, NumSlots;
    FullIs();
    Dearer(0, 1);
    Dearer(0, 2);
    Dearer(0, 3);
    assert Sample(0) in multiset(urgent);
    var i :| 0 <= i < |urgent| && urgent[i] == Sample(0);
    PriceOrderIsOrder(None);
    Heap.RootIsLeast(urgent, i, PriceOrder(None));
    assert urgent[0] in multiset(urgent);
  }

  lemma CheapestSuffices(list: TxPricedList)
    requires list.Valid() && list.baseFee == None && list.floating == [] && list.Tracked() == Again().tracked
    requires list.all.remotes == FOUR
    ensures list.urgent != [] && list.urgent[0] == Sample(0) && list.Yields(Sample(4), 2)
  {
    hide Heap.IsHeap, Heap.StrictOrder, Cheaper, PriceCmp, Sample, NumSlots, Leads, GenuineEntries, Again;
    SampleSlots(0);
    Dearer(0, 4);
    assert multiset(list.urgent) == list.Tracked();
    TopIsCheapest(list.urgent);
    FullIs();
    LiveZero();
    var k: nat := list.Tracked()[Sample(0)];
    assert k >= 2 && k * 1 == k;
  }

  lemma LiveZero()
    ensures Live(FOUR, Sample(0))
  {
  }

  /** The two entries of the cheapest transaction are counted for the two slots that the big one needs. */
  lemma CheapestGives(pool: TxPool, known: set<Hash>)
    requires Holds(pool, Again(), known)
    ensures pool.Gives(Sample(4)) && pool.priced.urgent[0] == Sample(0)
  {
    hide TxPricedList.Valid, TxPricedList.Yields, TxPricedList.Tracked, Sample, NumSlots, Filed, Tidy, Covers, Again;
    hide Slots, Sound;
    FullIs();
    SampleSlots(4);
    CheapestSuffices(pool.priced);
  }

  /** A pool of four slots ends up with five: the entries of one transaction were counted twice. */
  method Overfill() returns (pool: TxPool)
    ensures fresh(pool) && pool.Valid() && pool.Capacity() == 4 && pool.all.slots == 5
  {
    hide TxPool.Inv, Mixed, Twinless, Counted, Slots, TxPool.Gives, TxPricedList.Outpriced, NumSlots;
    hide TxPricedList.Tracked, Less;
    pool := SentTwice();
    FullIs();
    SampleSlots(0);
    SampleSlots(4);
    CheapestGives(pool, {0, 1, 2, 3});
    NewSender(pool, 4);
    var replaced, err;
    ghost var drop;
    replaced, err, drop := pool.Add(Sample(4), false, Checks(true, true));
  }
}
