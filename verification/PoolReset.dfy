/** Which transactions the pool takes back when the chain head moves. */
module PoolReset {
  import opened Transactions
  import opened BlockTree

  datatype Block = Block(header: Header, txs: seq<Tx>)

  type Store = map<Hash, Block>

  function Headers(store: Store): Tree {
    map h | h in store :: store[h].header
  }

  /** The block with the given hash at the given height, if the chain has it. */
  function GetBlock(store: Store, hash: Hash, number: int): (r: Option<Block>) {
    if hash in store && store[hash].header.number == number then Some(store[hash]) else None
  }

  ghost predicate StoredByHash(store: Store) {
    forall h :: h in store ==> store[h].header.hash == h
  }

  /** The transactions of `a` that are not in `b`, told by their hashes. */
  function TxDifference(a: seq<Tx>, b: seq<Tx>): (r: seq<Tx>) {
    if a == [] then []
    else (if exists i :: 0 <= i < |b| && b[i].hash == a[0].hash then [] else [a[0]]) + TxDifference(a[1..], b)
  }

  lemma {:induction false} DifferenceHas(a: seq<Tx>, b: seq<Tx>, tx: Tx)
    ensures tx in TxDifference(a, b) <==> tx in a && forall i :: 0 <= i < |b| ==> b[i].hash != tx.hash
  {
    if a != [] {
      DifferenceHas(a[1..], b, tx);
      assert a == [a[0]] + a[1..];
    }
  }

  /** The transactions on the branch from `h` down to height `n`, that height excluded. */
  ghost function TxsAbove(store: Store, genesis: Hash, h: Hash, n: nat): seq<Tx>
    requires Closed(Headers(store), genesis) && h in store && n <= store[h].header.number
    decreases store[h].header.number
  {
    if store[h].header.number == n then [] else
      assert LinkedUp(Headers(store), genesis, h);
      store[h].txs + TxsAbove(store, genesis, store[h].header.parent, n)
  }

  lemma {:induction false} TxsDown(store: Store, genesis: Hash, h: Hash, n: nat, below: nat)
    requires Closed(Headers(store), genesis) && h in store && below + 1 == n <= store[h].header.number
    ensures AncestorAt(Headers(store), genesis, h, n) in store
    ensures TxsAbove(store, genesis, h, below) ==
            TxsAbove(store, genesis, h, n) + store[AncestorAt(Headers(store), genesis, h, n)].txs
    decreases store[h].header.number
  {
    AncestorIs(Headers(store), genesis, h, n);
    assert LinkedUp(Headers(store), genesis, h);
    if store[h].header.number == n {
      assert TxsAbove(store, genesis, store[h].header.parent, below) == [];
    } else {
      TxsDown(store, genesis, store[h].header.parent, n, below);
    }
  }

  /** One step down from an ancestor. */
  lemma StepDown(t: Tree, genesis: Hash, top: Hash, h: Hash, below: nat)
    requires Closed(t, genesis) && top in t && h in t && t[h].number <= t[top].number && below + 1 == t[h].number
    requires AncestorAt(t, genesis, top, t[h].number) == h
    ensures t[h].parent in t && t[t[h].parent].number == below
    ensures AncestorAt(t, genesis, top, below) == t[h].parent
  {
    assert LinkedUp(t, genesis, h);
    AncestorOfAncestor(t, genesis, top, t[h].number, below);
  }

  ghost predicate OnTheWay(store: Store, genesis: Hash, top: Hash, b: Block, txs: seq<Tx>)
    requires Closed(Headers(store), genesis) && top in store
  {
    && b.header.hash in store && store[b.header.hash] == b && b.header.number <= store[top].header.number
    && AncestorAt(Headers(store), genesis, top, b.header.number) == b.header.hash
    && txs == TxsAbove(store, genesis, top, b.header.number)
  }

  lemma GoDown(store: Store, genesis: Hash, top: Hash, b: Block, txs: seq<Tx>, below: nat)
    requires Closed(Headers(store), genesis) && top in store && OnTheWay(store, genesis, top, b, txs)
    requires below + 1 == b.header.number
    ensures var next := GetBlock(store, b.header.parent, below);
            next.Some? && next.value.header.number == below && OnTheWay(store, genesis, top, next.value, txs + b.txs)
  {
    StepDown(Headers(store), genesis, top, b.header.hash, below);
    TxsDown(store, genesis, top, b.header.number, below);
    assert LinkedUp(Headers(store), genesis, b.header.parent);
  }

  ghost function StoreTxs(store: Store): set<Tx> {
    set h, tx | h in store && tx in store[h].txs :: tx
  }

  ghost predicate AllFrom(store: Store, txs: seq<Tx>) {
    forall i :: 0 <= i < |txs| ==> txs[i] in StoreTxs(store)
  }

  lemma MoreFrom(store: Store, txs: seq<Tx>, b: Block)
    requires AllFrom(store, txs) && b.header.hash in store && store[b.header.hash] == b
    ensures AllFrom(store, txs + b.txs)
  {
    forall tx | tx in b.txs ensures tx in StoreTxs(store) { assert tx in store[b.header.hash].txs; }
  }

  lemma DifferenceFrom(store: Store, a: seq<Tx>, b: seq<Tx>)
    requires AllFrom(store, a)
    ensures AllFrom(store, TxDifference(a, b))
  {
    forall i | 0 <= i < |TxDifference(a, b)| ensures TxDifference(a, b)[i] in StoreTxs(store) {
      DifferenceHas(a, b, TxDifference(a, b)[i]);
    }
  }

  datatype Outcome = Abort | Proceed(reinject: seq<Tx>)

  predicate TooDeep(oldNum: nat, newNum: nat) {
    oldNum > newNum + 64 || newNum > oldNum + 64
  }

  /**
    * What a reset is to put back: nothing when the new head follows the old one or is too far from it,
    * and otherwise the transactions of the abandoned branch that the new one does not have.
    */
  ghost predicate PutsBack(store: Store, oldHead: Option<Header>, newHead: Header, genesis: Hash, r: Outcome)
    requires newHead.hash in store
  {
    && (r.Proceed? ==> AllFrom(store, r.reinject))
    && (oldHead.None? || oldHead.value.hash == newHead.parent || TooDeep(oldHead.value.number, newHead.number) ==>
          r == Proceed([]))
    && (Closed(Headers(store), genesis) && oldHead.Some? && oldHead.value.hash in store
        && store[oldHead.value.hash].header == oldHead.value
        && oldHead.value.hash != newHead.parent && !TooDeep(oldHead.value.number, newHead.number) ==>
          exists c :: && HighestCommon(Headers(store), genesis, oldHead.value.hash, newHead.hash, c)
                      && r == Proceed(TxDifference(
                                TxsAbove(store, genesis, oldHead.value.hash, Headers(store)[c].number),
                                TxsAbove(store, genesis, newHead.hash, Headers(store)[c].number))))
  }

  /** The first part of `reset`: what to put back into the pool. A missing block makes the reset give up,
      except that an old head that is itself missing is taken for a rewind when the new one is lower. */
  method Reinjected(store: Store, oldHead: Option<Header>, newHead: Header, ghost genesis: Hash) returns (r: Outcome)
    requires StoredByHash(store) && newHead.hash in store && store[newHead.hash].header == newHead
    ensures PutsBack(store, oldHead, newHead, genesis, r)
  {
    if oldHead.None? || oldHead.value.hash == newHead.parent {
      return Proceed([]);
    }
    var oldNum, newNum := oldHead.value.number, newHead.number;
    if TooDeep(oldNum, newNum) {
      return Proceed([]);
    }
    var rem0 := GetBlock(store, oldHead.value.hash, oldNum);
    if rem0.None? {
      return if newNum >= oldNum then Abort else Proceed([]);
    }
    var rem, add := rem0.value, store[newHead.hash];
    r := WalkBack(store, rem, add, genesis);
  }

  /** The walk of both heads down to their common ancestor. */
  method WalkBack(store: Store, rem0: Block, add0: Block, ghost genesis: Hash) returns (r: Outcome)
    requires StoredByHash(store) && rem0.header.hash in store && store[rem0.header.hash] == rem0
    requires add0.header.hash in store && store[add0.header.hash] == add0
    ensures r.Proceed? ==> AllFrom(store, r.reinject)
    ensures Closed(Headers(store), genesis) ==>
              exists c :: && HighestCommon(Headers(store), genesis, rem0.header.hash, add0.header.hash, c)
                          && r == Proceed(TxDifference(
                                    TxsAbove(store, genesis, rem0.header.hash, Headers(store)[c].number),
                                    TxsAbove(store, genesis, add0.header.hash, Headers(store)[c].number)))
  {
    hide OnTheWay, HighestCommon, Closed, Parting, TxDifference, AllFrom;
    ghost var closed := Closed(Headers(store), genesis);
    ghost var o, w := rem0.header.hash, add0.header.hash;
    var rem, add, discarded: seq<Tx>, included: seq<Tx> := rem0, add0, [], [];
    NoneFrom(store);
    if closed {
      AtTheStart(store, genesis, o);
      AtTheStart(store, genesis, w);
    }
    while rem.header.number > add.header.number
      invariant closed ==> OnTheWay(store, genesis, o, rem, discarded)
      invariant add.header.number <= rem.header.number || rem == rem0
      invariant rem.header.hash in store && store[rem.header.hash] == rem && AllFrom(store, discarded)
      decreases rem.header.number
    {
      var below: nat := rem.header.number - 1;
      if closed { GoDown(store, genesis, o, rem, discarded, below); }
      MoreFrom(store, discarded, rem);
      discarded := discarded + rem.txs;
      var next := GetBlock(store, rem.header.parent, below);
      if next.None? {
        return Abort;
      }
      rem := next.value;
    }
    while add.header.number > rem.header.number
      invariant closed ==> OnTheWay(store, genesis, w, add, included)
      invariant rem.header.number <= add.header.number && (add == add0 || rem == rem0)
      decreases add.header.number
    {
      var below: nat := add.header.number - 1;
      if closed { GoDown(store, genesis, w, add, included, below); }
      included := included + add.txs;
      var next := GetBlock(store, add.header.parent, below);
      if next.None? {
        return Abort;
      }
      add := next.value;
    }
    if closed { NotPartedYet(store, genesis, o, w, rem.header.number); }
    while rem.header.hash != add.header.hash
      invariant rem.header.number == add.header.number
      invariant rem.header.hash in store && store[rem.header.hash] == rem && AllFrom(store, discarded)
      invariant closed ==> OnTheWay(store, genesis, o, rem, discarded) && OnTheWay(store, genesis, w, add, included)
      invariant closed ==> Parting(store, genesis, o, w, rem.header.number)
      decreases rem.header.number
    {
      if closed { NotAtGenesis(store, genesis, o, w, rem, add, discarded, included); }
      if rem.header.number == 0 {
        return Abort;
      }
      var below: nat := rem.header.number - 1;
      if closed {
        GoDown(store, genesis, o, rem, discarded, below);
        GoDown(store, genesis, w, add, included, below);
        PartedHere(store, genesis, o, w, rem, add, discarded, included, below);
      }
      MoreFrom(store, discarded, rem);
      discarded := discarded + rem.txs;
      var remNext := GetBlock(store, rem.header.parent, below);
      if remNext.None? {
        return Abort;
      }
      included := included + add.txs;
      var addNext := GetBlock(store, add.header.parent, below);
      if addNext.None? {
        return Abort;
      }
      rem, add := remNext.value, addNext.value;
    }
    DifferenceFrom(store, discarded, included);
    r := Proceed(TxDifference(discarded, included));
    if closed { Arrived(store, genesis, o, w, rem, add, discarded, included); }
  }

  lemma NoneFrom(store: Store)
    ensures AllFrom(store, [])
  {
  }

  lemma AtTheStart(store: Store, genesis: Hash, h: Hash)
    requires Closed(Headers(store), genesis) && h in store
    ensures OnTheWay(store, genesis, h, store[h], [])
  {
    assert LinkedUp(Headers(store), genesis, h);
  }

  /** Wherever both chains reach above `n`, they differ right above it. */
  ghost predicate Parting(store: Store, genesis: Hash, o: Hash, w: Hash, n: nat)
    requires Closed(Headers(store), genesis) && o in store && w in store
  {
    n < store[o].header.number && n < store[w].header.number ==>
      AncestorAt(Headers(store), genesis, o, n + 1) != AncestorAt(Headers(store), genesis, w, n + 1)
  }

  lemma NotPartedYet(store: Store, genesis: Hash, o: Hash, w: Hash, n: nat)
    requires Closed(Headers(store), genesis) && o in store && w in store
    requires n == store[o].header.number || n == store[w].header.number
    ensures Parting(store, genesis, o, w, n)
  {
  }

  lemma NotAtGenesis(store: Store, genesis: Hash, o: Hash, w: Hash, rem: Block, add: Block, d: seq<Tx>, i: seq<Tx>)
    requires Closed(Headers(store), genesis) && o in store && w in store
    requires OnTheWay(store, genesis, o, rem, d) && OnTheWay(store, genesis, w, add, i)
    requires rem.header.hash != add.header.hash && rem.header.number == add.header.number
    ensures rem.header.number > 0
  {
    AncestorZero(Headers(store), genesis, o);
    AncestorZero(Headers(store), genesis, w);
  }

  lemma PartedHere(store: Store, genesis: Hash, o: Hash, w: Hash, rem: Block, add: Block, d: seq<Tx>, i: seq<Tx>,
                   below: nat)
    requires Closed(Headers(store), genesis) && o in store && w in store
    requires OnTheWay(store, genesis, o, rem, d) && OnTheWay(store, genesis, w, add, i)
    requires rem.header.hash != add.header.hash && rem.header.number == add.header.number == below + 1
    ensures Parting(store, genesis, o, w, below)
  {
  }

  lemma Arrived(store: Store, genesis: Hash, o: Hash, w: Hash, rem: Block, add: Block, d: seq<Tx>, i: seq<Tx>)
    requires Closed(Headers(store), genesis) && o in store && w in store
    requires OnTheWay(store, genesis, o, rem, d) && OnTheWay(store, genesis, w, add, i)
    requires Parting(store, genesis, o, w, rem.header.number) && rem.header.hash == add.header.hash
    ensures HighestCommon(Headers(store), genesis, o, w, rem.header.hash)
    ensures d == TxsAbove(store, genesis, o, Headers(store)[rem.header.hash].number)
    ensures i == TxsAbove(store, genesis, w, Headers(store)[rem.header.hash].number)
  {
  }
}
