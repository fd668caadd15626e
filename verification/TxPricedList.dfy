/** The pool's remote transactions by price: two heaps with lazily removed entries. */
module PricedLists {
  import opened Transactions
  import opened TxLookups
  import Heap

  function Compare(a: int, b: int): int {
    if a < b then -1 else if a > b then 1 else 0
  }

  function EffectiveTip(tx: Tx, baseFee: int): int {
    if tx.tip <= tx.feeCap - baseFee then tx.tip else tx.feeCap - baseFee
  }

  /** Compares by effective tip when a base fee is known, then by fee cap, then by tip. */
  function PriceCmp(baseFee: Option<int>, a: Tx, b: Tx): int {
    var effective := if baseFee.Some?
      then Compare(EffectiveTip(a, baseFee.value), EffectiveTip(b, baseFee.value)) else 0;
    if effective != 0 then effective
    else if a.feeCap != b.feeCap then Compare(a.feeCap, b.feeCap)
    else Compare(a.tip, b.tip)
  }

  predicate Cheaper(baseFee: Option<int>, a: Tx, b: Tx) {
    var c := PriceCmp(baseFee, a, b);
    c < 0 || (c == 0 && a.nonce > b.nonce)
  }

  /** The ordering of a price heap; of equal prices the higher nonce goes first. */
  function PriceOrder(baseFee: Option<int>): (Tx, Tx) -> bool {
    (a, b) => Cheaper(baseFee, a, b)
  }

  lemma PriceOrderIsOrder(baseFee: Option<int>)
    ensures Heap.StrictOrder(PriceOrder(baseFee))
  {
    forall x: Tx, y: Tx, z: Tx
      ensures !Cheaper(baseFee, x, x)
      ensures Cheaper(baseFee, x, y) && Cheaper(baseFee, y, z) ==> Cheaper(baseFee, x, z)
      ensures Cheaper(baseFee, x, z) ==> Cheaper(baseFee, x, y) || Cheaper(baseFee, y, z)
    {
    }
  }

  /** `tx` is one of the remote transactions of the pool. */
  ghost predicate Live(remotes: Known, tx: Tx) {
    tx.hash in remotes && remotes[tx.hash] == tx
  }

  /** `after` lacks nothing of `before` but entries of transactions that are no longer remote. */
  ghost predicate SameLive(remotes: Known, before: multiset<Tx>, after: multiset<Tx>) {
    && after <= before
    && forall tx {:trigger after[tx]} :: Live(remotes, tx) ==> after[tx] == before[tx]
  }

  ghost function Single(x: Option<Tx>): multiset<Tx> {
    if x.Some? then multiset{x.value} else multiset{}
  }

  lemma StaleDropped(remotes: Known, before: multiset<Tx>, after: multiset<Tx>, x: Tx)
    requires before == after + multiset{x} && !Live(remotes, x)
    ensures SameLive(remotes, before, after + Single(None))
  {
  }

  lemma NoneDropped(remotes: Known, before: multiset<Tx>, after: multiset<Tx>, x: Option<Tx>)
    requires before == after + Single(x)
    ensures SameLive(remotes, before, after + Single(x))
  {
  }

  lemma SameLiveChain(remotes: Known, before: multiset<Tx>, t: multiset<Tx>, d: multiset<Tx>, t': multiset<Tx>,
                      x: multiset<Tx>)
    requires SameLive(remotes, before, t + d) && SameLive(remotes, t, t' + x)
    ensures SameLive(remotes, before, t' + (d + x))
  {
    forall tx | Live(remotes, tx) ensures (t' + (d + x))[tx] == before[tx] {
      assert (t' + x)[tx] == t[tx] && (t + d)[tx] == before[tx];
    }
  }

  /** Every entry was a genuine transaction when it was pushed. */
  ghost predicate GenuineEntries(origin: Hash -> Tx, m: multiset<Tx>) {
    forall tx :: tx in m ==> origin(tx.hash) == tx
  }

  /** The slots that dropping these entries is counted to free. */
  function DropSlots(drop: seq<Tx>): (s: nat) {
    if drop == [] then 0 else DropSlots(drop[..|drop| - 1]) + NumSlots(drop[|drop| - 1])
  }

  ghost predicate AllLive(remotes: Known, drop: seq<Tx>) {
    forall i :: 0 <= i < |drop| ==> Live(remotes, drop[i])
  }

  lemma NothingDropped(remotes: Known, before: multiset<Tx>)
    ensures SameLive(remotes, before, before + multiset([])) && AllLive(remotes, []) && DropSlots([]) == 0
  {
  }

  lemma DropMore(remotes: Known, drop: seq<Tx>, x: Option<Tx>)
    requires AllLive(remotes, drop) && (x.Some? ==> Live(remotes, x.value))
    ensures x.None? ==> multiset(drop) + Single(x) == multiset(drop)
    ensures x.Some? ==> var more := drop + [x.value];
                        && multiset(drop) + Single(x) == multiset(more) && AllLive(remotes, more)
                        && DropSlots(more) == DropSlots(drop) + NumSlots(x.value)
  {
    if x.Some? { assert (drop + [x.value])[..|drop|] == drop; }
  }

  lemma LiveByHash(origin: Hash -> Tx, locals: Known, remotes: Known, tx: Tx)
    requires Sound(origin, locals, remotes) && origin(tx.hash) == tx
    ensures tx.hash in remotes <==> Live(remotes, tx)
  {
  }

  /** The heaps are left alone while no more than a quarter of their entries may be stale, and otherwise rebuilt
      from the remotes. */
  ghost predicate Outdated(remotes: Known, urgent: seq<Tx>, floating: seq<Tx>, stales: int, count: nat,
                           urgent': seq<Tx>, floating': seq<Tx>, stales': int) {
    if stales + count <= (|urgent| + |floating|) / 4 then
      urgent' == urgent && floating' == floating && stales' == stales + count
    else multiset(urgent') + multiset(floating') == multiset(remotes.Values) && stales' == 0
  }

  lemma OutdatedIs(remotes: Known, urgent: seq<Tx>, floating: seq<Tx>, stales: int, count: nat,
                   urgent': seq<Tx>, floating': seq<Tx>, stales': int)
    ensures Outdated(remotes, urgent, floating, stales, count, urgent', floating', stales') ==>
              var tracked, tracked' := multiset(urgent) + multiset(floating), multiset(urgent') + multiset(floating');
              tracked' == tracked || tracked' == multiset(remotes.Values)
  {
  }

  /** The heaps share the pool's capacity four to one; eviction takes from the one in excess. */
  predicate UrgentInExcess(urgent: nat, floating: nat) {
    urgent * 1 > floating * 4
  }

  /** `x` is cheaper by both orders than all other entries, and no other has left the urgent heap before it. */
  ghost predicate Leads(baseFee: Option<int>, urgent: multiset<Tx>, floating: multiset<Tx>, x: Tx) {
    && (forall y :: y in urgent || y in floating ==> y == x || (Cheaper(baseFee, x, y) && Cheaper(None, x, y)))
    && (x in urgent ==> forall f :: f in floating ==> f == x)
  }

  lemma LeadsFewer(baseFee: Option<int>, urgent: multiset<Tx>, floating: multiset<Tx>, x: Tx,
                   urgent': multiset<Tx>, floating': multiset<Tx>)
    requires Leads(baseFee, urgent, floating, x) && urgent' <= urgent && floating' <= floating
    ensures Leads(baseFee, urgent', floating', x)
  {
  }

  /** The cheapest urgent entry moves on. */
  lemma LeadsMove(baseFee: Option<int>, urgent: multiset<Tx>, floating: multiset<Tx>, x: Tx, tx: Tx,
                  urgent': multiset<Tx>)
    requires Leads(baseFee, urgent, floating, x) && urgent == urgent' + multiset{tx}
    requires x in urgent ==> !Cheaper(baseFee, x, tx)
    ensures Leads(baseFee, urgent', floating + multiset{tx}, x)
  {
    hide Cheaper;
    assert tx in urgent;
  }

  /** The cheapest floating entry is `x` as long as there is one anywhere. */
  lemma LeadsTake(baseFee: Option<int>, urgent: multiset<Tx>, floating: multiset<Tx>, x: Tx, tx: Tx)
    requires Leads(baseFee, urgent, floating, x) && (x in urgent || x in floating) && tx in floating
    requires x in floating ==> !Cheaper(None, x, tx)
    ensures tx == x
  {
  }

  /** While entries of `x` alone are set aside and are not enough yet, there is one more. */
  lemma MoreToTake(remotes: Known, before: multiset<Tx>, t: multiset<Tx>, drop: seq<Tx>, x: Tx, slots: int)
    requires SameLive(remotes, before, t + multiset(drop)) && Live(remotes, x) && AllAre(drop, x)
    requires DropSlots(drop) < slots <= before[x] * NumSlots(x)
    ensures x in t
  {
    SameSlots(drop, x);
    assert (t + multiset(drop))[x] == before[x];
    AllCount(drop, x);
    assert before[x] == t[x] + |drop|;
  }

  lemma {:induction false} AllCount(drop: seq<Tx>, x: Tx)
    requires AllAre(drop, x)
    ensures multiset(drop)[x] == |drop|
  {
    if drop != [] {
      var init := drop[..|drop| - 1];
      AllCount(init, x);
      assert drop == init + [x];
    }
  }

  ghost predicate AllAre(drop: seq<Tx>, x: Tx) {
    forall i :: 0 <= i < |drop| ==> drop[i] == x
  }

  lemma {:induction false} SameSlots(drop: seq<Tx>, x: Tx)
    requires AllAre(drop, x)
    ensures DropSlots(drop) == |drop| * NumSlots(x)
  {
    if drop != [] {
      var init := drop[..|drop| - 1];
      SameSlots(init, x);
      assert (|init| + 1) * NumSlots(x) == |init| * NumSlots(x) + NumSlots(x);
    }
  }

  /** All entries are cheaper than `tx` by both orders. */
  ghost predicate Dearest(baseFee: Option<int>, tracked: multiset<Tx>, tx: Tx) {
    forall y :: y in tracked ==> PriceCmp(baseFee, y, tx) < 0 && PriceCmp(None, y, tx) < 0
  }

  /** A transaction can always be dear enough, whatever its size. */
  lemma SomeDearest(baseFee: Option<int>, tracked: multiset<Tx>, slots: nat, h: Hash, sender: Address, nonce: nat)
    returns (tx: Tx)
    ensures Dearest(baseFee, tracked, tx) && NumSlots(tx) == slots && tx.size == slots * TX_SLOT_SIZE
    ensures tx.hash == h && tx.sender == sender && tx.nonce == nonce
  {
    var t := AboveAll(tracked);
    var fee: nat := if baseFee.Some? && baseFee.value > 0 then baseFee.value else 0;
    tx := Tx(h, sender, nonce, 0, 0, t + fee, t, slots * TX_SLOT_SIZE, false);
  }

  lemma {:induction false} AboveAll(tracked: multiset<Tx>) returns (t: nat)
    ensures forall y :: y in tracked ==> y.feeCap < t && y.tip < t
    decreases |tracked|
  {
    t := 0;
    if tracked != multiset{} {
      var x :| x in tracked;
      var less := AboveAll(tracked - multiset{x});
      t := less + x.feeCap + x.tip + 1;
      forall y | y in tracked
        ensures y.feeCap < t && y.tip < t
      {
        assert y != x ==> y in tracked - multiset{x};
      }
    }
  }

  lemma DearestIsNotUnder(remotes: Known, baseFee: Option<int>, before: multiset<Tx>, urgent: seq<Tx>,
                          floating: seq<Tx>, tx: Tx)
    requires Dearest(baseFee, before, tx)
    requires SameLive(remotes, before, multiset(urgent) + multiset(floating) + Single(None))
    ensures urgent != [] ==> PriceCmp(baseFee, urgent[0], tx) < 0
    ensures floating != [] ==> PriceCmp(None, floating[0], tx) < 0
  {
    hide PriceCmp;
    var after := multiset(urgent) + multiset(floating);
    assert after + Single(None) == after && after <= before;
    assert urgent != [] ==> urgent[0] in after && urgent[0] in before;
    assert floating != [] ==> floating[0] in after && floating[0] in before;
  }

  class TxPricedList {
    const all: TxLookup
    var urgent: seq<Tx>
    var floating: seq<Tx>
    var baseFee: Option<int>
    var stales: int

    ghost function Tracked(): multiset<Tx>
      reads this
    {
      multiset(urgent) + multiset(floating)
    }

    ghost predicate Heaps()
      reads this
    {
      Heap.IsHeap(urgent, PriceOrder(baseFee)) && Heap.IsHeap(floating, PriceOrder(None))
    }

    ghost predicate Valid()
      reads this
    {
      Heaps() && GenuineEntries(all.origin, Tracked())
    }

    constructor (all: TxLookup)
      ensures Valid() && this.all == all && Tracked() == multiset{} && floating == [] && stales == 0 && baseFee == None
    {
      this.all := all;
      urgent, floating, baseFee, stales := [], [], None, 0;
    }

    method PushUrgent(tx: Tx)
      requires Valid() && all.origin(tx.hash) == tx
      modifies this`urgent
      ensures Valid() && Tracked() == old(Tracked()) + multiset{tx}
    {
      hide Heap.IsHeap, Heap.StrictOrder, PriceOrder;
      PriceOrderIsOrder(baseFee);
      urgent := Heap.Push(urgent, tx, PriceOrder(baseFee));
    }

    /** A new remote transaction goes to the urgent heap; `Discard` balances the heaps. */
    method Put(tx: Tx, local: bool)
      requires Valid() && all.origin(tx.hash) == tx
      modifies this`urgent
      ensures Valid() && Tracked() == if local then old(Tracked()) else old(Tracked()) + multiset{tx}
    {
      if local {
        return;
      }
      PushUrgent(tx);
    }

    method PopUrgent() returns (tx: Tx)
      requires Valid() && urgent != []
      modifies this`urgent
      ensures Valid() && old(Tracked()) == Tracked() + multiset{tx} && |urgent| == |old(urgent)| - 1
      ensures multiset(old(urgent)) == multiset(urgent) + multiset{tx}
      ensures tx == old(urgent[0]) && forall i :: 0 <= i < |old(urgent)| ==> !Cheaper(baseFee, old(urgent)[i], tx)
    {
      hide Heap.IsHeap, Heap.StrictOrder, Cheaper;
      PriceOrderIsOrder(baseFee);
      var h;
      tx, h := Heap.Pop(urgent, PriceOrder(baseFee));
      assert |multiset(urgent)| == |multiset(h)| + 1;
      urgent := h;
    }

    method PopFloating() returns (tx: Tx)
      requires Valid() && floating != []
      modifies this`floating
      ensures Valid() && old(Tracked()) == Tracked() + multiset{tx} && |floating| == |old(floating)| - 1
      ensures multiset(old(floating)) == multiset(floating) + multiset{tx}
      ensures tx == old(floating[0]) && forall i :: 0 <= i < |old(floating)| ==> !Cheaper(None, old(floating)[i], tx)
    {
      hide Heap.IsHeap, Heap.StrictOrder, Cheaper;
      PriceOrderIsOrder(None);
      var h;
      tx, h := Heap.Pop(floating, PriceOrder(None));
      assert |multiset(floating)| == |multiset(h)| + 1;
      floating := h;
    }

    method PushFloating(tx: Tx)
      requires Valid() && all.origin(tx.hash) == tx
      modifies this`floating
      ensures Valid() && Tracked() == old(Tracked()) + multiset{tx} && |floating| == |old(floating)| + 1
      ensures multiset(floating) == multiset(old(floating)) + multiset{tx}
    {
      hide Heap.IsHeap, Heap.StrictOrder, PriceOrder;
      PriceOrderIsOrder(None);
      var h := Heap.Push(floating, tx, PriceOrder(None));
      assert |multiset(h)| == |multiset(floating)| + 1;
      floating := h;
    }

    ghost predicate First(x: Tx)
      reads this
    {
      Leads(baseFee, multiset(urgent), multiset(floating), x)
    }

    /** Drops the cheapest urgent entry if it is stale, and moves it to the floating heap if it is live. */
    method TakeUrgent(ghost x: Tx)
      requires Valid() && all.Valid() && urgent != []
      modifies this
      ensures Valid() && baseFee == old(baseFee)
      ensures SameLive(all.remotes, old(Tracked()), Tracked() + Single(None))
      ensures 2 * |urgent| + |floating| < 2 * |old(urgent)| + |old(floating)|
      ensures old(First(x)) ==> First(x)
    {
      hide Heap.IsHeap, Sound, SameLive, Live, Cheaper, Leads;
      ghost var before, first, u := Tracked(), First(x), urgent;
      var tx := PopUrgent();
      assert tx in before;
      LiveByHash(all.origin, all.locals, all.remotes, tx);
      if tx.hash !in all.remotes {
        stales := stales - 1;
        StaleDropped(all.remotes, before, Tracked(), tx);
        if first {
          LeadsFewer(baseFee, multiset(u), multiset(floating), x, multiset(urgent), multiset(floating));
        }
        return;
      }
      if first {
        assert x in multiset(u) ==> exists i :: 0 <= i < |u| && u[i] == x;
        LeadsMove(baseFee, multiset(u), multiset(floating), x, tx, multiset(urgent));
      }
      PushFloating(tx);
      NoneDropped(all.remotes, before, Tracked(), None);
    }

    /** Drops the cheapest floating entry, and returns it if it is live. */
    method TakeFloating(ghost x: Tx) returns (dropped: Option<Tx>)
      requires Valid() && all.Valid() && floating != []
      modifies this`floating, this`stales
      ensures Valid() && SameLive(all.remotes, old(Tracked()), Tracked() + Single(dropped))
      ensures dropped.Some? ==>
                && Live(all.remotes, dropped.value)
                && forall i :: 0 <= i < |old(floating)| ==> !Cheaper(None, old(floating)[i], dropped.value)
      ensures |floating| < |old(floating)|
      ensures old(First(x)) && x in old(Tracked()) ==> First(x) && (dropped.Some? ==> dropped.value == x)
    {
      hide Heap.IsHeap, Sound, SameLive, Live, Cheaper, Leads;
      ghost var before, first, f := Tracked(), First(x) && x in Tracked(), floating;
      dropped := None;
      var tx := PopFloating();
      assert tx in before;
      LiveByHash(all.origin, all.locals, all.remotes, tx);
      if first {
        assert x in multiset(f) ==> exists i :: 0 <= i < |f| && f[i] == x;
        LeadsTake(baseFee, multiset(urgent), multiset(f), x, tx);
        LeadsFewer(baseFee, multiset(urgent), multiset(f), x, multiset(urgent), multiset(floating));
      }
      if tx.hash !in all.remotes {
        stales := stales - 1;
        StaleDropped(all.remotes, before, Tracked(), tx);
      } else {
        dropped := Some(tx);
        NoneDropped(all.remotes, before, Tracked(), dropped);
      }
    }

    /** One round of `Discard`: takes an entry from the heap that is in excess. */
    method TakeCheapest(ghost x: Tx) returns (dropped: Option<Tx>)
      requires Valid() && all.Valid()
      requires UrgentInExcess(|urgent|, |floating|) || |floating| > 0
      modifies this
      ensures Valid() && baseFee == old(baseFee)
      ensures SameLive(all.remotes, old(Tracked()), Tracked() + Single(dropped))
      ensures dropped.Some? ==>
                && Live(all.remotes, dropped.value) && !UrgentInExcess(|old(urgent)|, |old(floating)|)
                && forall i :: 0 <= i < |old(floating)| ==> !Cheaper(None, old(floating)[i], dropped.value)
      ensures 2 * |urgent| + |floating| < 2 * |old(urgent)| + |old(floating)|
      ensures old(First(x)) && x in old(Tracked()) ==> First(x) && (dropped.Some? ==> dropped.value == x)
    {
      hide Heap.IsHeap, Sound, SameLive, Live, Cheaper, TxPricedList.First;
      dropped := None;
      if UrgentInExcess(|urgent|, |floating|) {
        TakeUrgent(x);
      } else {
        dropped := TakeFloating(x);
      }
    }

    /** The entries of `x` come first, and they are enough. */
    ghost predicate Suffices(x: Tx, slots: int)
      reads this, all
    {
      First(x) && Live(all.remotes, x) && slots <= Tracked()[x] * NumSlots(x)
    }

    ghost predicate Outpriced(tx: Tx)
      reads this
    {
      Dearest(baseFee, Tracked(), tx)
    }

    /** The cheapest entry makes room for `tx` alone. */
    ghost predicate Yields(tx: Tx, slots: int)
      reads this, all
    {
      urgent != [] && floating == [] && Suffices(urgent[0], slots) && PriceCmp(baseFee, urgent[0], tx) < 0
    }

    /** The loop of `Discard`: sets entries aside until enough slots are counted free or none is left. */
    method SetAside(slots: int, ghost x: Tx) returns (drop: seq<Tx>)
      requires Valid() && all.Valid()
      modifies this
      ensures Valid() && baseFee == old(baseFee)
      ensures SameLive(all.remotes, old(Tracked()), Tracked() + multiset(drop))
      ensures AllLive(all.remotes, drop)
      ensures DropSlots(drop) >= slots || (urgent == [] && floating == [])
      ensures old(Suffices(x, slots)) ==> AllAre(drop, x) && DropSlots(drop) >= slots
    {
      hide Heap.IsHeap, SameLive, Sound, AllLive, Live, DropSlots, GenuineEntries, TxPricedList.First;
      drop := [];
      var need := slots;
      ghost var before, first := Tracked(), Suffices(x, slots);
      NothingDropped(all.remotes, before);
      while need > 0 && (UrgentInExcess(|urgent|, |floating|) || |floating| > 0)
        invariant Valid() && baseFee == old(baseFee)
        invariant SameLive(all.remotes, before, Tracked() + multiset(drop))
        invariant AllLive(all.remotes, drop) && need == slots - DropSlots(drop)
        invariant first ==> First(x) && AllAre(drop, x)
        decreases 2 * |urgent| + |floating|
      {
        ghost var t := Tracked();
        if first {
          MoreToTake(all.remotes, before, t, drop, x, slots);
        }
        var dropped := TakeCheapest(x);
        SameLiveChain(all.remotes, before, t, multiset(drop), Tracked(), Single(dropped));
        DropMore(all.remotes, drop, dropped);
        if dropped.Some? {
          drop := drop + [dropped.value];
          need := need - NumSlots(dropped.value);
        }
      }
      if first && need > 0 {
        MoreToTake(all.remotes, before, Tracked(), drop, x, slots);
      }
    }

    /** Picks the cheapest remote transactions until `slots` slots are counted free. */
    method Discard(slots: int, force: bool) returns (drop: seq<Tx>, ok: bool)
      requires Valid() && all.Valid()
      modifies this
      ensures Valid() && baseFee == old(baseFee)
      ensures SameLive(all.remotes, old(Tracked()), Tracked() + multiset(drop))
      ensures AllLive(all.remotes, drop)
      ensures ok <==> force || DropSlots(drop) >= slots
      ensures ok ==> DropSlots(drop) >= slots || Tracked() == multiset{}
      ensures !ok ==> drop == [] && exists d {:trigger DropSlots(d)} :: multiset(d) == Tracked() && DropSlots(d) < slots
      ensures old(urgent != [] && Suffices(urgent[0], slots)) ==> ok && AllAre(drop, old(urgent[0]))
    {
      hide Heap.IsHeap, SameLive, Sound, Live, GenuineEntries, TxPricedList.Suffices;
      ghost var x :| urgent != [] ==> x == urgent[0];
      drop := SetAside(slots, x);
      ok := DropSlots(drop) >= slots || force;
      if !ok {
        Restore(drop);
        assert Tracked() + multiset([]) == multiset{} + multiset(drop);
        drop := [];
      }
    }

    /** Puts the transactions set aside back when they do not make enough room. */
    method Restore(drop: seq<Tx>)
      requires Valid() && all.Valid() && Tracked() == multiset{}
      requires AllLive(all.remotes, drop)
      modifies this`urgent
      ensures Valid() && Tracked() == multiset(drop) && baseFee == old(baseFee)
    {
      hide Heap.IsHeap, Sound, Live;
      for i := 0 to |drop|
        invariant Valid() && Tracked() == multiset(drop[..i])
      {
        LiveGenuine(all.origin, all.locals, all.remotes, drop[i]);
        assert drop[..i + 1] == drop[..i] + [drop[i]];
        PushUrgent(drop[i]);
      }
      assert drop[..|drop|] == drop;
    }

    /** Pops stale entries off the head of the urgent heap; stops at a live one. */
    method CleanUrgent()
      requires Valid() && all.Valid()
      modifies this`urgent, this`stales
      ensures Valid() && SameLive(all.remotes, old(Tracked()), Tracked() + Single(None))
      ensures urgent != [] ==> Live(all.remotes, urgent[0])
      ensures old(urgent != [] && urgent[0].hash in all.remotes) ==> urgent == old(urgent)
    {
      hide Heap.IsHeap, SameLive, Sound, Live;
      NoneDropped(all.remotes, Tracked(), Tracked(), None);
      while urgent != [] && urgent[0].hash !in all.remotes
        invariant Valid() && SameLive(all.remotes, old(Tracked()), Tracked() + Single(None))
        invariant old(urgent != [] && urgent[0].hash in all.remotes) ==> urgent == old(urgent)
        decreases |urgent|
      {
        ghost var t := Tracked();
        assert urgent[0] in t;
        LiveByHash(all.origin, all.locals, all.remotes, urgent[0]);
        stales := stales - 1;
        var tx := PopUrgent();
        StaleDropped(all.remotes, t, Tracked(), tx);
        SameLiveChain(all.remotes, old(Tracked()), t, Single(None), Tracked(), Single(None));
        assert Single(None) + Single(None) == Single(None);
      }
      if urgent != [] {
        assert urgent[0] in Tracked();
        LiveByHash(all.origin, all.locals, all.remotes, urgent[0]);
      }
    }

    method CleanFloating()
      requires Valid() && all.Valid()
      modifies this`floating, this`stales
      ensures Valid() && SameLive(all.remotes, old(Tracked()), Tracked() + Single(None))
      ensures floating != [] ==> Live(all.remotes, floating[0])
      ensures old(floating) == [] ==> floating == []
    {
      hide Heap.IsHeap, SameLive, Sound, Live;
      NoneDropped(all.remotes, Tracked(), Tracked(), None);
      while floating != [] && floating[0].hash !in all.remotes
        invariant Valid() && SameLive(all.remotes, old(Tracked()), Tracked() + Single(None))
        invariant old(floating) == [] ==> floating == []
        decreases |floating|
      {
        ghost var t := Tracked();
        assert floating[0] in t;
        LiveByHash(all.origin, all.locals, all.remotes, floating[0]);
        stales := stales - 1;
        var tx := PopFloating();
        StaleDropped(all.remotes, t, Tracked(), tx);
        SameLiveChain(all.remotes, old(Tracked()), t, Single(None), Tracked(), Single(None));
        assert Single(None) + Single(None) == Single(None);
      }
      if floating != [] {
        assert floating[0] in Tracked();
        LiveByHash(all.origin, all.locals, all.remotes, floating[0]);
      }
    }

    /** Whether no tracked transaction is cheaper than `tx`. */
    method Underpriced(tx: Tx) returns (r: bool)
      requires Valid() && all.Valid()
      modifies this
      ensures Valid() && SameLive(all.remotes, old(Tracked()), Tracked() + Single(None)) && baseFee == old(baseFee)
      ensures r <==> NoneCheaper(baseFee, urgent, floating, tx)
      ensures old(urgent != [] && urgent[0].hash in all.remotes && floating == []) ==>
                urgent == old(urgent) && floating == []
    {
      hide Heap.IsHeap, SameLive, Sound, Live, PriceCmp, NoneCheaper;
      ghost var t0 := Tracked();
      CleanUrgent();
      ghost var t1 := Tracked();
      r := urgent == [] || PriceCmp(baseFee, urgent[0], tx) >= 0;
      if r {
        CleanFloating();
        r := floating == [] || PriceCmp(None, floating[0], tx) >= 0;
      } else {
        NoneDropped(all.remotes, Tracked(), Tracked(), None);
      }
      r := r && (urgent != [] || floating != []);
      SameLiveChain(all.remotes, t0, t1, Single(None), Tracked(), Single(None));
      assert Single(None) + Single(None) == Single(None);
      HeadsDecide(baseFee, urgent, floating, tx);
    }

    /** Rebuilds the heaps from the current remotes: each is tracked once, a fifth of them in the
        floating heap, and none of those is dearer than one left in the urgent heap. */
    method Reheap()
      requires all.Valid()
      modifies this`urgent, this`floating, this`stales
      ensures Valid() && Tracked() == multiset(all.remotes.Values) && stales == 0
      ensures |floating| == |all.remotes.Values| / 5
      ensures forall f, u :: f in floating && u in urgent ==> !Cheaper(baseFee, u, f)
    {
      hide Heap.IsHeap, Heap.StrictOrder, Sound;
      stales := 0;
      var list := Listing(all.remotes.Values);
      PriceOrderIsOrder(baseFee);
      list := Heap.Init(list, PriceOrder(baseFee));
      var cheap, rest := Split(list, |list| / 5, baseFee);
      PriceOrderIsOrder(None);
      var h := Heap.Init(cheap, PriceOrder(None));
      assert |multiset(list)| == |all.remotes.Values| == |list|;
      urgent, floating := rest, h;
      forall f, u | f in floating && u in urgent ensures !Cheaper(baseFee, u, f) {
        assert f in multiset(cheap);
      }
      RemotesGenuine(all.origin, all.locals, all.remotes);
    }

    /** Notes `count` removals, and rebuilds the heaps when a quarter of the entries may be stale. */
    method Removed(count: nat)
      requires Valid() && all.Valid()
      modifies this`urgent, this`floating, this`stales
      ensures Valid()
      ensures Outdated(all.remotes, old(urgent), old(floating), old(stales), count, urgent, floating, stales)
    {
      stales := stales + count;
      if stales <= (|urgent| + |floating|) / 4 {
        return;
      }
      Reheap();
    }

    method SetBaseFee(fee: int)
      requires all.Valid()
      modifies this
      ensures Valid() && baseFee == Some(fee) && Tracked() == multiset(all.remotes.Values)
    {
      baseFee := Some(fee);
      Reheap();
    }
  }

  /** The slice that ranging over a set of transactions fills, in some order. */
  method Listing(txs: set<Tx>) returns (list: seq<Tx>)
    ensures multiset(list) == multiset(txs)
  {
    list := [];
    var left := txs;
    while left != {}
      invariant left <= txs && multiset(list) == multiset(txs - left)
      decreases |left|
    {
      var tx :| tx in left;
      assert txs - (left - {tx}) == (txs - left) + {tx};
      list, left := list + [tx], left - {tx};
    }
    assert txs - left == txs;
  }

  /** Pops the `n` cheapest entries off a heap. */
  method Split(list: seq<Tx>, n: nat, baseFee: Option<int>) returns (cheap: seq<Tx>, rest: seq<Tx>)
    requires Heap.IsHeap(list, PriceOrder(baseFee)) && n <= |list|
    ensures |cheap| == n && Heap.IsHeap(rest, PriceOrder(baseFee))
    ensures multiset(list) == multiset(cheap) + multiset(rest)
    ensures forall f, u :: f in cheap && u in rest ==> !Cheaper(baseFee, u, f)
  {
    hide Heap.IsHeap, Heap.StrictOrder, Cheaper;
    cheap, rest := [], list;
    PriceOrderIsOrder(baseFee);
    while |cheap| < n
      invariant |cheap| <= n && |cheap| + |rest| == |list| && Heap.IsHeap(rest, PriceOrder(baseFee))
      invariant multiset(list) == multiset(cheap) + multiset(rest)
      invariant forall f, u :: f in cheap && u in rest ==> !Cheaper(baseFee, u, f)
    {
      var x, h := Heap.Pop(rest, PriceOrder(baseFee));
      assert |multiset(rest)| == |multiset(h)| + 1;
      forall f, u | f in cheap + [x] && u in h ensures !Cheaper(baseFee, u, f) {
        assert u in multiset(rest);
        var k :| 0 <= k < |rest| && rest[k] == u;
      }
      cheap, rest := cheap + [x], h;
    }
  }

  lemma CmpChain(baseFee: Option<int>, a: Tx, b: Tx, c: Tx)
    requires !Cheaper(baseFee, a, b) && PriceCmp(baseFee, b, c) >= 0
    ensures PriceCmp(baseFee, a, c) >= 0
  {
  }

  /** There are entries, and none is cheaper than `tx` by the order of its heap. */
  ghost predicate NoneCheaper(baseFee: Option<int>, urgent: seq<Tx>, floating: seq<Tx>, tx: Tx) {
    && (urgent != [] || floating != [])
    && (forall i :: 0 <= i < |urgent| ==> PriceCmp(baseFee, urgent[i], tx) >= 0)
    && (forall i :: 0 <= i < |floating| ==> PriceCmp(None, floating[i], tx) >= 0)
  }

  lemma HeadsDecide(baseFee: Option<int>, urgent: seq<Tx>, floating: seq<Tx>, tx: Tx)
    requires Heap.IsHeap(urgent, PriceOrder(baseFee)) && Heap.IsHeap(floating, PriceOrder(None))
    ensures NoneCheaper(baseFee, urgent, floating, tx) <==>
              && (urgent != [] || floating != []) && (urgent == [] || PriceCmp(baseFee, urgent[0], tx) >= 0)
              && (floating == [] || PriceCmp(None, floating[0], tx) >= 0)
  {
    hide Heap.IsHeap, PriceCmp, PriceOrder;
    HeadDecides(urgent, baseFee, tx);
    HeadDecides(floating, None, tx);
  }

  /** The head of a heap speaks for the whole heap. */
  lemma HeadDecides(h: seq<Tx>, baseFee: Option<int>, tx: Tx)
    requires Heap.IsHeap(h, PriceOrder(baseFee))
    ensures h != [] ==> (PriceCmp(baseFee, h[0], tx) >= 0 <==>
                         forall i :: 0 <= i < |h| ==> PriceCmp(baseFee, h[i], tx) >= 0)
  {
    hide PriceCmp, Cheaper, Heap.IsHeap, Heap.StrictOrder;
    PriceOrderIsOrder(baseFee);
    if h != [] && PriceCmp(baseFee, h[0], tx) >= 0 {
      forall i | 0 <= i < |h| ensures PriceCmp(baseFee, h[i], tx) >= 0 {
        Heap.RootIsLeast(h, i, PriceOrder(baseFee));
        CmpChain(baseFee, h[i], h[0], tx);
      }
    }
  }

  lemma RemotesGenuine(origin: Hash -> Tx, locals: Known, remotes: Known)
    requires Sound(origin, locals, remotes)
    ensures GenuineEntries(origin, multiset(remotes.Values))
  {
  }

  lemma LiveGenuine(origin: Hash -> Tx, locals: Known, remotes: Known, tx: Tx)
    requires Sound(origin, locals, remotes) && Live(remotes, tx)
    ensures origin(tx.hash) == tx
  {
  }
}
