/** The slots that evicting is counted to free, and those it does free. */
module Counting {
  import opened Transactions
  import opened Sums
  import opened TxLookups
  import opened PricedLists
  import opened PoolSpec
  import opened Refills

  /** What is left of the remotes when `drop` is evicted. */
  ghost function Evicted(remotes: Known, drop: seq<Tx>): Known {
    remotes - HashSet(drop)
  }

  /** Evicting never frees more slots than were counted, and frees as many exactly when nothing was counted twice. */
  lemma {:induction false} Freed(remotes: Known, drop: seq<Tx>)
    requires AllLive(remotes, drop) && forall i :: 0 <= i < |drop| ==> drop[i].size > 0
    ensures Slots(remotes) <= Slots(Evicted(remotes, drop)) + DropSlots(drop)
    ensures Slots(remotes) == Slots(Evicted(remotes, drop)) + DropSlots(drop) <==> Distinct(drop)
    decreases |drop|
  {
    hide Slots;
    if drop == [] {
      assert Evicted(remotes, drop) == remotes;
    } else {
      var init, x := drop[..|drop| - 1], drop[|drop| - 1];
      Freed(remotes, init);
      EvictLast(remotes, drop, init, x);
      assert Live(remotes, x);
      DistinctLast(drop, init, x);
      LiveByHashes(remotes, init, x);
      if x.hash !in HashSet(init) {
        SlotsDrop(Evicted(remotes, init), x.hash);
      }
    }
  }

  lemma EvictNone(remotes: Known)
    ensures Evicted(remotes, []) == remotes
  {
  }

  lemma EvictLast(remotes: Known, drop: seq<Tx>, init: seq<Tx>, x: Tx)
    requires drop == init + [x]
    ensures Evicted(remotes, drop) == Evicted(remotes, init) - {x.hash}
    ensures x.hash in HashSet(init) ==> Evicted(remotes, drop) == Evicted(remotes, init)
  {
    assert drop[|drop| - 1] == x;
    assert HashSet(drop) == HashSet(init) + {x.hash} by {
      forall h | h in HashSet(init)
        ensures h in HashSet(drop)
      {
        var i :| 0 <= i < |init| && init[i].hash == h;
        assert drop[i].hash == h;
      }
    }
  }

  lemma DistinctStays(remotes: Known, drop: seq<Tx>)
    requires AllLive(remotes, drop) && Distinct(drop)
    ensures StillThere(remotes, drop, 0)
  {
    forall j, k | 0 <= j < k < |drop|
      ensures drop[j].hash != drop[k].hash
    {
      assert Live(remotes, drop[j]) && Live(remotes, drop[k]);
    }
    forall j | 0 <= j < |drop|
      ensures drop[j].hash in remotes
    {
      assert Live(remotes, drop[j]);
    }
  }

  lemma DistinctLast<T>(s: seq<T>, init: seq<T>, x: T)
    requires s == init + [x]
    ensures Distinct(s) <==> Distinct(init) && x !in init
  {
    assert s[|init|] == x;
    if Distinct(s) {
      forall j, k | 0 <= j < k < |init|
        ensures init[j] != init[k]
      {
        assert s[j] != s[k];
      }
      forall j | 0 <= j < |init|
        ensures init[j] != x
      {
        assert s[j] != s[|init|];
      }
    }
  }

  /** Live transactions are told apart by their hashes. */
  lemma LiveByHashes(remotes: Known, drop: seq<Tx>, x: Tx)
    requires AllLive(remotes, drop) && Live(remotes, x)
    ensures x in drop <==> x.hash in HashSet(drop)
  {
    if x.hash in HashSet(drop) {
      var i :| 0 <= i < |drop| && drop[i].hash == x.hash;
      assert Live(remotes, drop[i]);
    }
  }

  /** What the entries of a transaction are counted for. */
  ghost function Count(m: multiset<Tx>, tx: Tx): nat {
    m[tx] * NumSlots(tx)
  }

  lemma CountOf(m: multiset<Tx>, tx: Tx)
    ensures m[tx] == 0 ==> Count(m, tx) == 0
    ensures m[tx] == 1 ==> Count(m, tx) == NumSlots(tx)
    ensures m[tx] >= 1 ==> Count(m, tx) >= NumSlots(tx)
    ensures m[tx] >= 2 && NumSlots(tx) > 0 ==> Count(m, tx) > NumSlots(tx)
  {
    var k, n := m[tx], NumSlots(tx);
    if k >= 2 {
      assert k * n == n + (k - 1) * n;
      assert (k - 1) * n >= n;
    }
  }

  lemma CountMore(m: multiset<Tx>, m': multiset<Tx>, tx: Tx)
    requires m[tx] <= m'[tx]
    ensures Count(m, tx) <= Count(m', tx)
  {
    Times(m[tx], m'[tx], NumSlots(tx));
  }

  lemma Times(j: nat, k: nat, n: nat)
    requires j <= k
    ensures j * n <= k * n
  {
  }

  lemma CountAnother(m: multiset<Tx>, x: Tx, tx: Tx)
    ensures Count(m + multiset{x}, tx) == Count(m, tx) + if tx == x then NumSlots(x) else 0
  {
    var k, n := m[tx], NumSlots(tx);
    assert (k + 1) * n == k * n + n;
  }

  ghost function CountMap(remotes: Known, m: multiset<Tx>): map<Hash, nat> {
    map h | h in remotes :: Count(m, remotes[h])
  }

  /** The slots of all entries of remote transactions, each entry counted. */
  ghost function Counted(remotes: Known, m: multiset<Tx>): nat {
    Sum(CountMap(remotes, m))
  }

  ghost predicate ByHash(remotes: Known) {
    forall h :: h in remotes ==> remotes[h].hash == h
  }

  lemma CountedAnother(remotes: Known, m: multiset<Tx>, x: Tx)
    requires ByHash(remotes)
    ensures Counted(remotes, m + multiset{x}) == Counted(remotes, m) + if Live(remotes, x) then NumSlots(x) else 0
  {
    hide Count, NumSlots;
    var before: map<Hash, nat>, after: map<Hash, nat> := CountMap(remotes, m), CountMap(remotes, m + multiset{x});
    forall h | h in remotes
      ensures after[h] == before[h] + if remotes[h] == x then NumSlots(x) else 0
    {
      CountAnother(m, x, remotes[h]);
    }
    if Live(remotes, x) {
      var h: Hash, n: nat := x.hash, after[x.hash];
      assert n == before[h] + NumSlots(x);
      assert after == before[h := n];
      SumPut(before, h, n);
    } else {
      assert after == before;
    }
  }

  lemma CountedNone(remotes: Known)
    ensures Counted(remotes, multiset{}) == 0
  {
    hide Sum;
    SumZero(CountMap(remotes, multiset{}));
  }

  lemma {:induction false} SumZero(m: map<Hash, nat>)
    requires forall h :: h in m ==> m[h] == 0
    ensures Sum(m) == 0
    decreases |m|
  {
    if m != map[] {
      var h :| h in m;
      assert (m - {h}).Keys == m.Keys - {h};
      SumSplit(m, h);
      SumZero(m - {h});
    }
  }

  /** Dropping entries is counted to free what they are counted for, if they all are live. */
  lemma {:induction false} DropCounted(remotes: Known, drop: seq<Tx>)
    requires ByHash(remotes)
    ensures Counted(remotes, multiset(drop)) <= DropSlots(drop)
    ensures AllLive(remotes, drop) ==> Counted(remotes, multiset(drop)) == DropSlots(drop)
    decreases |drop|
  {
    hide Counted, NumSlots;
    if drop == [] {
      CountedNone(remotes);
    } else {
      var init, x := drop[..|drop| - 1], drop[|drop| - 1];
      DropCounted(remotes, init);
      CountedAnother(remotes, multiset(init), x);
      assert drop == init + [x];
      assert multiset(drop) == multiset(init) + multiset{x};
      if AllLive(remotes, drop) {
        assert Live(remotes, drop[|drop| - 1]);
        assert forall i :: 0 <= i < |init| ==> init[i] == drop[i];
      }
    }
  }

  lemma CountedMore(remotes: Known, m: multiset<Tx>, m': multiset<Tx>)
    requires forall tx {:trigger m[tx]} :: Live(remotes, tx) ==> m[tx] <= m'[tx]
    requires ByHash(remotes)
    ensures Counted(remotes, m) <= Counted(remotes, m')
  {
    hide Count, Sum;
    forall h | h in remotes
      ensures Count(m, remotes[h]) <= Count(m', remotes[h])
    {
      assert Live(remotes, remotes[h]);
      CountMore(m, m', remotes[h]);
    }
    SumLeq(CountMap(remotes, m), CountMap(remotes, m'));
  }

  /** Entries that cover the remotes are counted for at least their slots, and for no more if none has a twin. */
  lemma CountedCovers(remotes: Known, m: multiset<Tx>)
    requires ByHash(remotes) && Covers(remotes, m, {})
    ensures Slots(remotes) <= Counted(remotes, m)
    ensures Slots(remotes) == Counted(remotes, m) <==>
              forall h :: h in remotes ==> Count(m, remotes[h]) == NumSlots(remotes[h])
  {
    hide Count, Sum, NumSlots;
    forall h | h in remotes
      ensures NumSlots(remotes[h]) <= Count(m, remotes[h])
    {
      CountOf(m, remotes[h]);
    }
    var slots, counts := SlotMap(remotes), CountMap(remotes, m);
    SumLeq(slots, counts);
    assert forall h :: h in remotes ==>
                         h in slots && slots[h] == NumSlots(remotes[h]) && counts[h] == Count(m, remotes[h]);
    if forall h :: h in remotes ==> Count(m, remotes[h]) == NumSlots(remotes[h]) {
      assert slots == counts;
    }
  }

  /** Every transaction takes a slot. */
  ghost predicate Sized(remotes: Known) {
    forall h :: h in remotes ==> remotes[h].size > 0
  }

  /** The entries are counted for the slots of the remotes exactly if none has a twin. */
  lemma CountedTwinless(remotes: Known, m: multiset<Tx>)
    requires ByHash(remotes) && Covers(remotes, m, {})
    ensures Twinless(remotes, m) ==> Slots(remotes) == Counted(remotes, m)
    ensures Sized(remotes) && Slots(remotes) == Counted(remotes, m) ==> Twinless(remotes, m)
  {
    hide Count, Counted, Slots;
    CountedCovers(remotes, m);
    forall h | h in remotes
      ensures m[remotes[h]] <= 1 ==> Count(m, remotes[h]) == NumSlots(remotes[h])
      ensures remotes[h].size > 0 && Count(m, remotes[h]) == NumSlots(remotes[h]) ==> m[remotes[h]] <= 1
    {
      assert remotes[h] in m;
      CountOf(m, remotes[h]);
    }
    if Twinless(remotes, m) {
      forall h | h in remotes
        ensures m[remotes[h]] <= 1
      {
        assert Live(remotes, remotes[h]);
      }
    }
  }

  /** What is dropped frees what it is counted for, if nothing in it is counted for more than its slots. */
  lemma {:induction false} FreedExactly(remotes: Known, drop: seq<Tx>)
    requires AllLive(remotes, drop)
    requires forall i :: 0 <= i < |drop| ==> Count(multiset(drop), drop[i]) <= NumSlots(drop[i])
    ensures Slots(remotes) == Slots(Evicted(remotes, drop)) + DropSlots(drop)
    decreases |drop|
  {
    hide Slots, Count, NumSlots;
    if drop == [] {
      assert Evicted(remotes, drop) == remotes;
    } else {
      var init, x := drop[..|drop| - 1], drop[|drop| - 1];
      assert drop == init + [x];
      forall i | 0 <= i < |init|
        ensures Count(multiset(init), init[i]) <= NumSlots(init[i])
      {
        assert init[i] == drop[i];
        CountMore(multiset(init), multiset(drop), init[i]);
      }
      assert AllLive(remotes, init);
      FreedExactly(remotes, init);
      EvictLast(remotes, drop, init, x);
      assert Live(remotes, x);
      if x.hash !in HashSet(init) {
        SlotsDrop(Evicted(remotes, init), x.hash);
      } else {
        var i :| 0 <= i < |init| && init[i].hash == x.hash;
        assert Live(remotes, drop[i]) && drop[i] == x;
        CountTwins(drop, i, |drop| - 1);
        CountOf(multiset(drop), x);
        assert Count(multiset(drop), drop[|drop| - 1]) <= NumSlots(x);
      }
    }
  }

  /**
    * What evicting frees of what it was counted for: all of it, unless the entries of the remotes are
    * counted for more than the remotes take.
    */
  lemma Evicting(remotes: Known, tracked: multiset<Tx>, after: multiset<Tx>, drop: seq<Tx>)
    requires ByHash(remotes) && Covers(remotes, tracked, {})
    requires SameLive(remotes, tracked, after + multiset(drop)) && AllLive(remotes, drop)
    ensures DropSlots(drop) <= Counted(remotes, tracked)
    ensures Counted(remotes, tracked) == Slots(remotes) ==>
              Slots(remotes) == Slots(Evicted(remotes, drop)) + DropSlots(drop)
  {
    hide Counted, Slots, Count, DropSlots, NumSlots;
    DropCounted(remotes, drop);
    forall tx | Live(remotes, tx)
      ensures multiset(drop)[tx] <= tracked[tx]
    {
      assert (after + multiset(drop))[tx] == tracked[tx];
    }
    CountedMore(remotes, multiset(drop), tracked);
    if Counted(remotes, tracked) == Slots(remotes) {
      CountedCovers(remotes, tracked);
      forall i | 0 <= i < |drop|
        ensures Count(multiset(drop), drop[i]) <= NumSlots(drop[i])
      {
        assert Live(remotes, drop[i]);
        CountMore(multiset(drop), tracked, drop[i]);
      }
      FreedExactly(remotes, drop);
    }
  }

  /** All entries of a pool together are counted for what the live ones are, and more. */
  lemma AllCounted(remotes: Known, tracked: multiset<Tx>, d: seq<Tx>)
    requires ByHash(remotes) && SameLive(remotes, tracked, multiset(d))
    ensures Counted(remotes, tracked) <= DropSlots(d)
  {
    hide Counted, DropSlots;
    DropCounted(remotes, d);
    forall tx | Live(remotes, tx)
      ensures tracked[tx] <= multiset(d)[tx]
    {
      assert multiset(d)[tx] == tracked[tx];
    }
    CountedMore(remotes, tracked, multiset(d));
  }

  lemma CountedSame(remotes: Known, tracked: multiset<Tx>, after: multiset<Tx>)
    requires ByHash(remotes) && SameLive(remotes, tracked, after + Single(None))
    ensures Counted(remotes, after) == Counted(remotes, tracked)
  {
    hide Counted;
    assert after + Single(None) == after;
    forall tx | Live(remotes, tx)
      ensures after[tx] == tracked[tx]
    {
    }
    CountedMore(remotes, after, tracked);
    CountedMore(remotes, tracked, after);
  }

  lemma NothingMore(remotes: Known, tracked: multiset<Tx>, after: multiset<Tx>)
    requires SameLive(remotes, tracked, after + Single(None))
    ensures SameLive(remotes, tracked, after + multiset([]))
  {
    assert after + multiset([]) == after + Single(None);
  }

  lemma SameLiveThen(remotes: Known, tracked: multiset<Tx>, tracked1: multiset<Tx>, after: multiset<Tx>, drop: seq<Tx>)
    requires SameLive(remotes, tracked, tracked1 + multiset([])) && SameLive(remotes, tracked1, after + multiset(drop))
    ensures SameLive(remotes, tracked, after + multiset(drop))
  {
    SameLiveChain(remotes, tracked, tracked1, multiset([]), after, multiset(drop));
    assert multiset([]) + multiset(drop) == multiset(drop);
  }

  /** Entries of one transaction alone evict that transaction. */
  lemma EvictsOne(remotes: Known, drop: seq<Tx>, x: Tx, need: int)
    requires AllAre(drop, x) && DropSlots(drop) >= need > 0 && Live(remotes, x)
    ensures Evicted(remotes, drop) == remotes - {x.hash}
    ensures Slots(remotes) == Slots(Evicted(remotes, drop)) + NumSlots(x)
  {
    hide Slots;
    assert drop[0] == x;
    assert HashSet(drop) == {x.hash};
    SlotsDrop(remotes, x.hash);
  }

  /** A nonce that no transaction has is not taken by one that was known before. */
  lemma StaysVacant(origin: Hash -> Tx, known: set<Hash>, pending: Lists, queue: Lists,
                    known': set<Hash>, pending': Lists, queue': Lists, tx: Tx)
    requires Filed(origin, known, pending, queue, 0, map[]) && Filed(origin, known', pending', queue', 0, map[])
    requires known' <= known
    requires Standing(pending, queue, tx).None?
    ensures Standing(pending', queue', tx).None?
  {
    hide Filed;
    var a := tx.sender;
    AtRest(origin, known, pending, queue, 0, a);
    AtRest(origin, known', pending', queue', 0, a);
    FiledIs(origin, known, pending, queue, a, map[]);
    FiledIs(origin, known', pending', queue', a, map[]);
  }

  lemma WasKnown(locals: Known, remotes: Known, drop: seq<Tx>, i: nat)
    requires AllLive(remotes, drop) && i < |drop|
    ensures drop[i].hash in Joint(locals, remotes)
  {
    assert Live(remotes, drop[i]);
  }

  /** Live transactions are in the lists of their senders. */
  lemma LiveIsEvictable(origin: Hash -> Tx, locals: Known, remotes: Known, state: Address -> nat, x: Found,
                        drop: seq<Tx>)
    requires Sound(origin, locals, remotes) && AllLive(remotes, drop)
    requires Filed(origin, Joint(locals, remotes), x.pending, x.queue, 0, map[])
    ensures AllEvictable(state, x, drop)
  {
    hide Filed;
    forall a
      ensures Evictable(x.At(state, a), a, drop)
    {
      AtRest(origin, Joint(locals, remotes), x.pending, x.queue, 0, a);
      FiledIs(origin, Joint(locals, remotes), x.pending, x.queue, a, map[]);
      forall i | 0 <= i < |drop| && drop[i].sender == a
        ensures IsKnown(x.At(state, a), drop[i])
      {
        assert Live(remotes, drop[i]);
      }
    }
  }

  /** What had the nonce of a transaction that is gone could only have been that transaction. */
  lemma GoneIsVacant(origin: Hash -> Tx, known: set<Hash>, pending: Lists, queue: Lists,
                     known': set<Hash>, pending': Lists, queue': Lists, tx: Tx)
    requires Filed(origin, known, pending, queue, 0, map[]) && Filed(origin, known', pending', queue', 0, map[])
    requires known' <= known
    requires tx.hash in known && tx.hash !in known' && origin(tx.hash) == tx
    ensures tx.nonce !in ItemsOf(pending', tx.sender) && tx.nonce !in ItemsOf(queue', tx.sender)
  {
    hide Filed;
    var a := tx.sender;
    AtRest(origin, known, pending, queue, 0, a);
    AtRest(origin, known', pending', queue', 0, a);
    FiledIs(origin, known, pending, queue, a, map[]);
    FiledIs(origin, known', pending', queue', a, map[]);
  }

  lemma NewIsNotRemote(locals: Known, remotes: Known, tx: Tx)
    requires tx.hash !in Joint(locals, remotes)
    ensures tx.hash !in remotes
  {
  }

  lemma SoundByHash(origin: Hash -> Tx, locals: Known, remotes: Known)
    requires Sound(origin, locals, remotes)
    ensures ByHash(remotes)
  {
  }

  /** What evicting leaves of `slots` slots, `need` of which were to be freed. */
  lemma Room(remotes: Known, tracked: multiset<Tx>, after: multiset<Tx>, drop: seq<Tx>, others: nat, need: int)
    requires ByHash(remotes) && Covers(remotes, tracked, {}) && DropSlots(drop) >= need
    requires SameLive(remotes, tracked, after + multiset(drop)) && AllLive(remotes, drop)
    ensures need <= Counted(remotes, tracked)
    ensures Counted(remotes, tracked) == Slots(remotes) ==>
              others + Slots(Evicted(remotes, drop)) + need <= others + Slots(remotes)
  {
    Evicting(remotes, tracked, after, drop);
  }

  ghost function EntryOf(tx: Tx, local: bool): multiset<Tx> {
    if local then multiset{} else multiset{tx}
  }

  ghost function Without(remotes: Known, gone: Option<Tx>): Known {
    match gone case None => remotes case Some(x) => remotes - {x.hash}
  }

  /** `tx` joins the remotes, taking the place of `gone`; then the heaps may have been rebuilt before. */
  ghost predicate Joins(remotes: Known, tracked: multiset<Tx>, gone: Option<Tx>, tx: Tx, local: bool,
                        remotes': Known, tracked': multiset<Tx>) {
    var kept := Without(remotes, gone);
    && remotes' == (if local then kept else kept[tx.hash := tx])
    && (|| tracked' == tracked + EntryOf(tx, local)
        || (gone.Some? && tracked' == multiset(kept.Values) + EntryOf(tx, local)))
  }

  lemma Joined(remotes: Known, tracked: multiset<Tx>, gone: Option<Tx>, tx: Tx, local: bool, kept: Known,
               tracked1: multiset<Tx>,
               remotes': Known, tracked': multiset<Tx>)
    requires kept == Without(remotes, gone) && remotes' == (if local then kept else kept[tx.hash := tx])
    requires tracked1 == tracked || (gone.Some? && tracked1 == multiset(kept.Values))
    requires tracked' == if local then tracked1 else tracked1 + multiset{tx}
    ensures Joins(remotes, tracked, gone, tx, local, remotes', tracked')
  {
  }

  /** A new remote transaction makes no twins if none of its entries is left in the heaps. */
  lemma JoinsTwinless(remotes: Known, tracked: multiset<Tx>, gone: Option<Tx>, tx: Tx, local: bool,
                      remotes': Known, tracked': multiset<Tx>)
    requires ByHash(remotes) && tx.hash !in remotes && Joins(remotes, tracked, gone, tx, local, remotes', tracked')
    ensures Twinless(remotes, tracked) && tx !in tracked ==> Twinless(remotes', tracked')
    ensures gone.None? && !local ==> (Twinless(remotes', tracked') <==> Twinless(remotes, tracked) && tx !in tracked)
  {
    var kept := Without(remotes, gone);
    assert tx !in kept.Values;
    if Twinless(remotes, tracked) && tx !in tracked {
      forall x | Live(remotes', x)
        ensures tracked'[x] <= 1
      {
        if x != tx {
          assert Live(remotes, x);
          assert tracked[x] <= 1;
        }
      }
    }
    if gone.None? && !local && Twinless(remotes', tracked') {
      assert Live(remotes', tx) && tracked'[tx] == tracked[tx] + 1;
      forall x | Live(remotes, x)
        ensures tracked[x] <= 1
      {
        assert Live(remotes', x) && tracked'[x] == tracked[x];
      }
    }
  }

  /** Removing a transaction makes no twins, whether or not the heaps are rebuilt. */
  lemma RemovalTwinless(remotes: Known, tracked: multiset<Tx>, h: Hash, tracked': multiset<Tx>)
    requires tracked' == tracked || tracked' == multiset((remotes - {h}).Values)
    ensures Twinless(remotes, tracked) ==> Twinless(remotes - {h}, tracked')
  {
    if Twinless(remotes, tracked) {
      forall x | Live(remotes - {h}, x)
        ensures tracked'[x] <= 1
      {
        assert Live(remotes, x) && tracked[x] <= 1;
      }
    }
  }

  /** What the lookup and the price heaps say of the remote transactions. */
  datatype Books = Books(remotes: Known, tracked: multiset<Tx>, floating: seq<Tx>, stales: int, baseFee: Option<int>,
                         slots: int) {
    ghost function With(tx: Tx): Books {
      Books(remotes[tx.hash := tx], tracked + multiset{tx}, floating, stales, baseFee, slots + NumSlots(tx))
    }
  }

  lemma JoinsFree(before: Books, tx: Tx, after: Books)
    requires Joins(before.remotes, before.tracked, None, tx, false, after.remotes, after.tracked)
    requires after.floating == before.floating && after.stales == before.stales && after.baseFee == before.baseFee
    requires after.slots == before.slots + NumSlots(tx)
    ensures after == before.With(tx)
  {
  }

  /** Evicting makes no twins and brings back no entries. */
  lemma EvictingTwinless(remotes: Known, tracked: multiset<Tx>, tracked1: multiset<Tx>, drop: seq<Tx>, tx: Tx)
    requires SameLive(remotes, tracked, tracked1 + multiset(drop))
    ensures Twinless(remotes, tracked) ==> Twinless(Evicted(remotes, drop), tracked1)
    ensures tx in tracked1 ==> tx in tracked
  {
    if Twinless(remotes, tracked) {
      forall x | Live(Evicted(remotes, drop), x)
        ensures tracked1[x] <= 1
      {
        assert Live(remotes, x) && tracked[x] <= 1;
        assert (tracked1 + multiset(drop))[x] == tracked[x];
      }
    }
    if tx in tracked1 {
      assert tx in tracked1 + multiset(drop);
    }
  }
}
