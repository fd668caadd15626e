/** The transaction pool. */
module TxPools {
  import opened Transactions
  import opened TxItems
  import opened TxListSpec
  import opened TxLookups
  import opened PricedLists
  import opened TxNoncers
  import opened PoolSpec
  import opened PoolRuns
  import opened WaterLevel
  import opened Sums
  import opened BlockTree
  import opened PoolReset
  import opened ResetGaps
  import opened Counting
  import opened Refills

  class TxPool {
    const accountSlots: nat
    const globalSlots: nat
    const accountQueue: nat
    const globalQueue: nat
    const priceBump: nat

    const all: TxLookup
    const priced: TxPricedList

    // the chain state at the current head
    var stateNonce: Address -> nat
    var balance: Address -> nat
    var maxGas: nat

    var pendingNonces: TxNoncer
    var pending: Lists
    var queue: Lists
    var locals: set<Address>

    /** All but the agreement of the lists with the lookup. */
    ghost predicate Parts(bare: set<Hash>)
      reads this, all, priced, pendingNonces
    {
      && accountSlots >= 1
      && all.Valid() && priced.all == all && priced.Valid()
      && pendingNonces.fallback == stateNonce
      && Tidy(pending, true) && Tidy(queue, false)
      && Covers(all.remotes, priced.Tracked(), bare)
    }

    /** The structures agree, apart from the transactions `loose` of `acct` that are in transit and
        the remotes `bare` that are about to be dropped. */
    ghost predicate Inv(acct: Address, loose: Items, bare: set<Hash>)
      reads this, all, priced, pendingNonces
    {
      Parts(bare) && Filed(all.origin, all.Hashes(), pending, queue, acct, loose)
    }

    ghost predicate Valid()
      reads this, all, priced, pendingNonces
    {
      Inv(0, map[], {})
    }

    function Head(): Env
      reads this
    {
      Env(stateNonce, balance, maxGas)
    }

    /** What an operation changes of the accounts. */
    ghost function Now(): Found
      reads this, pendingNonces
    {
      Found(pendingNonces.nonces, pending, queue, locals)
    }

    /** Against the current head, every account's pending nonces run on from its state nonce. */
    ghost predicate Sequential()
      reads this, pendingNonces
    {
      AllIn(Running, Head(), pendingNonces.nonces, pending, queue)
    }

    /** The state between demotion and the final update of the virtual nonces. */
    ghost predicate Settled()
      reads this, pendingNonces
    {
      AllIn(Demoted, Head(), pendingNonces.nonces, pending, queue)
    }

    ghost predicate In(ph: Phase)
      reads this, pendingNonces
    {
      AllIn(ph, Head(), pendingNonces.nonces, pending, queue)
    }

    constructor (accountSlots: nat, globalSlots: nat, accountQueue: nat, globalQueue: nat, priceBump: nat,
                 locals: set<Address>, stateNonce: Address -> nat, balance: Address -> nat, maxGas: nat,
                 ghost origin: Hash -> Tx)
      ensures Valid() && Sequential() && pending == map[] && queue == map[]
      ensures fresh(all) && fresh(priced) && fresh(pendingNonces)
      ensures all.origin == origin && all.Hashes() == {} && Register() == Books(map[], multiset{}, [], 0, None, 0)
      ensures Head() == Env(stateNonce, balance, maxGas) && this.locals == locals
      ensures Capacity()
           == (if globalSlots < 1 then 5120 else globalSlots) + (if globalQueue < 1 then 1024 else globalQueue)
    {
      // limits that make no sense are replaced by the defaults
      this.accountSlots := if accountSlots < 1 then 16 else accountSlots;
      this.globalSlots := if globalSlots < 1 then 4096 + 1024 else globalSlots;
      this.accountQueue := if accountQueue < 1 then 64 else accountQueue;
      this.globalQueue := if globalQueue < 1 then 1024 else globalQueue;
      this.priceBump := if priceBump < 1 then 10 else priceBump;
      this.locals := locals;
      this.stateNonce, this.balance, this.maxGas := stateNonce, balance, maxGas;
      pending, queue := map[], map[];
      var lookup := new TxLookup(origin);
      var heaps := new TxPricedList(lookup);
      all, priced := lookup, heaps;
      pendingNonces := new TxNoncer(stateNonce);
      new;
    }

    lemma At(acct: Address, loose: Items, bare: set<Hash>)
      requires Inv(acct, loose, bare)
      ensures AccountFiled(all.origin, all.Hashes(), acct, ItemsOf(pending, acct), ItemsOf(queue, acct), loose)
    {
      assert FiledAt(all.origin, all.Hashes(), pending, queue, acct, loose, acct);
    }

    lemma Rest(acct: Address, a: Address)
      requires Inv(acct, map[], {})
      ensures Inv(a, map[], {})
    {
      AtRest(all.origin, all.Hashes(), pending, queue, acct, a);
    }

    /** In every valid state: what the lookup, the lists, the slot count and the price heaps say of each other. */
    lemma Agreement()
      requires Valid()
      ensures forall tx: Tx :: tx.hash in all.Hashes() && all.origin(tx.hash) == tx <==>
                Has(ItemsOf(pending, tx.sender), tx) || Has(ItemsOf(queue, tx.sender), tx)
      ensures forall a, n :: n in ItemsOf(pending, a) ==> n !in ItemsOf(queue, a)
      ensures (forall h :: h in all.locals ==> h !in all.remotes) && all.slots == Slots(all.locals) + Slots(all.remotes)
      ensures forall h :: h in all.remotes ==> all.remotes[h] in priced.urgent || all.remotes[h] in priced.floating
    {
      hide Tidy, Covers, Slots, TxPricedList.Valid, Filed, AccountFiled;
      forall tx: Tx
        ensures tx.hash in all.Hashes() && all.origin(tx.hash) == tx <==>
                  Has(ItemsOf(pending, tx.sender), tx) || Has(ItemsOf(queue, tx.sender), tx)
      {
        FiledOnce(tx);
      }
      forall a, n | n in ItemsOf(pending, a)
        ensures n !in ItemsOf(queue, a)
      {
        Rest(0, a);
        At(a, map[], {});
        Apart(all.origin, all.Hashes(), a, ItemsOf(pending, a), ItemsOf(queue, a), n);
      }
      forall h | h in all.remotes
        ensures all.remotes[h] in priced.urgent || all.remotes[h] in priced.floating
      {
        TrackedRemote(all.remotes, priced.urgent, priced.floating, h);
      }
    }

    /** What the invariant says of the lookup and the lists. */
    lemma Lookups()
      requires Valid()
      ensures Sound(all.origin, all.locals, all.remotes)
      ensures Filed(all.origin, Joint(all.locals, all.remotes), pending, queue, 0, map[])
    {
    }

    lemma FiledOnce(tx: Tx)
      requires Valid()
      ensures tx.hash in all.Hashes() && all.origin(tx.hash) == tx <==>
                Has(ItemsOf(pending, tx.sender), tx) || Has(ItemsOf(queue, tx.sender), tx)
    {
      hide Tidy, Covers, TxPricedList.Valid, TxLookup.Valid, TxLookup.Hashes, Filed;
      Rest(0, tx.sender);
      At(tx.sender, map[], {});
    }

    static lemma Apart(origin: Hash -> Tx, known: set<Hash>, a: Address, p: Items, q: Items, n: nat)
      requires AccountFiled(origin, known, a, p, q, map[]) && n in p
      ensures n !in q
    {
    }

    static lemma TrackedRemote(remotes: Known, urgent: seq<Tx>, floating: seq<Tx>, h: Hash)
      requires Covers(remotes, multiset(urgent) + multiset(floating), {}) && h in remotes
      ensures remotes[h] in urgent || remotes[h] in floating
    {
    }

    /** The list of an account as a value that is known to be in order. */
    lemma Kept(a: Address)
      requires Tidy(pending, true) && Tidy(queue, false)
      ensures var v := ListOf(pending, a, true); v.Valid() && v.strict && v.items == ItemsOf(pending, a)
      ensures var v := ListOf(queue, a, false); v.Valid() && !v.strict && v.items == ItemsOf(queue, a)
    {
      ListOfIs(pending, a, true);
      ListOfIs(queue, a, false);
    }

    /** Notes removals in the price heaps. */
    method Outdate(count: nat, ghost bare: set<Hash>)
      requires all.Valid() && priced.all == all && priced.Valid() && Covers(all.remotes, priced.Tracked(), bare)
      modifies priced`urgent, priced`floating, priced`stales
      ensures priced.Valid() && Covers(all.remotes, priced.Tracked(), bare)
      ensures Outdated(all.remotes, old(priced.urgent), old(priced.floating), old(priced.stales), count,
                       priced.urgent, priced.floating, priced.stales)
      ensures priced.Tracked() == old(priced.Tracked()) || priced.Tracked() == multiset(all.remotes.Values)
    {
      priced.Removed(count);
      AllCovered(all.remotes, bare);
    }

    /** Puts a new transaction into the lookup and the price heaps, in place of `gone` if there is one. */
    method Exchange(tx: Tx, local: bool, gone: Option<Tx>, ghost bare: set<Hash>)
      requires all.Valid() && priced.all == all && priced.Valid() && Covers(all.remotes, priced.Tracked(), bare)
      requires tx.hash !in all.Hashes() && all.origin(tx.hash) == tx
      modifies all, priced`urgent, priced`floating, priced`stales
      ensures all.Valid() && priced.Valid() && Covers(all.remotes, priced.Tracked(), bare)
      ensures all.Hashes()
           == (if gone.Some? then old(all.Hashes()) - {gone.value.hash} else old(all.Hashes())) + {tx.hash}
      ensures all.slots <= old(all.slots) + NumSlots(tx)
      ensures Joins(old(all.remotes), old(priced.Tracked()), gone, tx, local, all.remotes, priced.Tracked())
      ensures gone.None? ==>
                && all.slots == old(all.slots) + NumSlots(tx) && (!local ==> all.locals == old(all.locals))
                && priced.floating == old(priced.floating) && priced.stales == old(priced.stales)
    {
      hide TxLookup.Valid, TxPricedList.Valid, TxLookup.Hashes, TxPricedList.Tracked, Covers, Outdated, Joins, NumSlots;
      ghost var remotes, tracked := all.remotes, priced.Tracked();
      if gone.Some? {
        CoversDrop(all.remotes, priced.Tracked(), bare, gone.value.hash);
        all.Remove(gone.value.hash);
        Outdate(1, bare);
      }
      ghost var kept, tracked1 := all.remotes, priced.Tracked();
      CoversPut(kept, tracked1, bare, tx);
      all.Add(tx, local);
      priced.Put(tx, local);
      Joined(remotes, tracked, gone, tx, local, kept, tracked1, all.remotes, priced.Tracked());
    }

    /** Inserts a transaction into the queue. With `addAll` it is new to the pool; otherwise it is
        one in transit from the pending list, whose nonce nothing else can hold. */
    method EnqueueTx(tx: Tx, local: bool, addAll: bool, ghost loose: Items, ghost bare: set<Hash>)
      returns (replaced: bool, inserted: bool)
      requires Inv(tx.sender, loose, bare)
      requires addAll ==> && loose == map[] && tx.hash !in all.Hashes() && all.origin(tx.hash) == tx
                          && tx.nonce !in ItemsOf(pending, tx.sender)
      requires !addAll ==> Has(loose, tx)
      modifies this`queue, all, priced
      ensures Inv(tx.sender, loose - {tx.nonce}, bare)
      ensures inserted == (tx.nonce in ItemsOf(old(queue), tx.sender) ==>
                             Outbids(ItemsOf(old(queue), tx.sender)[tx.nonce], tx, priceBump))
      ensures replaced == (inserted && tx.nonce in ItemsOf(old(queue), tx.sender))
      ensures !addAll ==> inserted && !replaced && unchanged(all) && unchanged(priced)
      ensures !inserted ==> queue == old(queue) && unchanged(all) && unchanged(priced)
      ensures inserted ==> ItemsOf(queue, tx.sender) == ItemsOf(old(queue), tx.sender)[tx.nonce := tx]
      ensures SameBut(tx.sender, old(queue), queue)
      ensures addAll && inserted ==> tx.hash in all.Hashes() && all.Hashes() <= old(all.Hashes()) + {tx.hash}
      ensures all.slots <= old(all.slots) + if addAll then NumSlots(tx) else 0
      ensures addAll && inserted ==>
                && Joins(old(all.remotes), old(priced.Tracked()), Standing(pending, old(queue), tx), tx, local,
                         all.remotes, priced.Tracked())
                && priced.baseFee == old(priced.baseFee)
      ensures addAll && inserted && !replaced ==>
                && all.slots == old(all.slots) + NumSlots(tx) && (!local ==> all.locals == old(all.locals))
                && priced.floating == old(priced.floating) && priced.stales == old(priced.stales)
    {
      hide Joins, AccountFiled, Filed, Tidy, SameBut, KnownBut, Covers, Outbids, Has, GenuineEntries, TxLookup.Valid;
      hide TxPricedList.Valid, TxLookup.Hashes, TxPricedList.Tracked;
      var a := tx.sender;
      ghost var known, p, q := all.Hashes(), ItemsOf(pending, a), ItemsOf(queue, a);
      At(a, loose, bare);
      Enqueued(all.origin, known, a, p, q, loose, tx, addAll);
      ListOfIs(queue, a, false);
      var list := ListOf(queue, a, false);
      if !list.Accepts(tx, priceBump) {
        SameLists(a, queue);
        assert loose - {tx.nonce} == loose;
        return false, false;
      }
      replaced, inserted := tx.nonce in list.items, true;
      SetListIs(queue, a, list.Put(tx), false);
      queue := queue[a := list.Put(tx)];
      if addAll {
        Exchange(tx, local, if replaced then Some(list.items[tx.nonce]) else None, bare);
      }
      SameLists(a, pending);
      Refile(all.origin, a, known, pending, old(queue), a, loose, all.Hashes(), pending, queue, loose - {tx.nonce});
    }

    /** Queues the transactions in transit. */
    method EnqueueAll(acct: Address, txs: Items, ghost bare: set<Hash>)
      requires Inv(acct, txs, bare)
      modifies this`queue, all, priced
      ensures Inv(acct, map[], bare) && unchanged(all) && unchanged(priced)
      ensures ItemsOf(queue, acct) == ItemsOf(old(queue), acct) + txs && SameBut(acct, old(queue), queue)
    {
      hide AccountFiled, Filed, Tidy, SameBut, Covers, Outbids, GenuineEntries, TxLookup.Valid, TxPricedList.Valid;
      hide TxLookup.Hashes, TxPricedList.Tracked, Merged, Part;
      var left := txs;
      ghost var q := ItemsOf(queue, acct);
      SameLists(acct, queue);
      MergeStart(q, txs);
      while left != map[]
        invariant Inv(acct, left, bare) && unchanged(all) && unchanged(priced)
        invariant Part(left, txs) && ItemsOf(queue, acct) == Merged(q, txs, left)
        invariant SameBut(acct, old(queue), queue)
        decreases |left|
      {
        var n :| n in left;
        At(acct, left, bare);
        LooseIsOwned(all.origin, all.Hashes(), acct, ItemsOf(pending, acct), ItemsOf(queue, acct), left, n);
        ghost var before := queue;
        var replaced, inserted := EnqueueTx(left[n], false, false, left, bare);
        SameTrans(acct, old(queue), before, queue);
        MergeStep(q, txs, left, n);
        Fewer(left, n);
        left := left - {n};
      }
    }

    /** Forgets the transactions in transit. */
    method ForgetAll(acct: Address, txs: Items, ghost bare: set<Hash>)
      requires Inv(acct, txs, bare)
      modifies all
      ensures Inv(acct, map[], bare) && all.slots <= old(all.slots)
    {
      hide AccountFiled, Filed, Tidy, SameBut, KnownBut, Covers, GenuineEntries, TxLookup.Valid, TxPricedList.Valid;
      hide TxLookup.Hashes, TxPricedList.Tracked;
      var left := txs;
      while left != map[]
        invariant Inv(acct, left, bare) && all.slots <= old(all.slots)
        decreases |left|
      {
        var n :| n in left;
        At(acct, left, bare);
        ghost var known := all.Hashes();
        LooseIsOwned(all.origin, known, acct, ItemsOf(pending, acct), ItemsOf(queue, acct), left, n);
        Forget(all.origin, known, acct, ItemsOf(pending, acct), ItemsOf(queue, acct), left, left[n]);
        CoversDrop(all.remotes, priced.Tracked(), bare, left[n].hash);
        all.Remove(left[n].hash);
        SameLists(acct, pending);
        SameLists(acct, queue);
        Refile(all.origin, acct, known, pending, queue, acct, left, all.Hashes(), pending, queue, left - {n});
        Fewer(left, n);
        left := left - {n};
      }
    }

    /** Moves a transaction in transit to the pending list. Its nonce is free there, so neither an
        older transaction can be better nor one be replaced. */
    method PromoteTx(addr: Address, tx: Tx, ghost loose: Items, ghost bare: set<Hash>)
      requires Inv(addr, loose, bare) && Has(loose, tx)
      modifies this`pending, pendingNonces
      ensures Inv(addr, loose - {tx.nonce}, bare)
      ensures ItemsOf(pending, addr) == ItemsOf(old(pending), addr)[tx.nonce := tx]
      ensures SameBut(addr, old(pending), pending)
      ensures pendingNonces.Of(addr) == tx.nonce + 1
      ensures NoncesBut(stateNonce, addr, old(pendingNonces.nonces), pendingNonces.nonces)
    {
      hide AccountFiled, Filed, Tidy, SameBut, KnownBut, Covers, GenuineEntries, Has, Outbids, TxLookup.Valid;
      hide TxPricedList.Valid, TxLookup.Hashes, TxPricedList.Tracked, TxNoncer.Of;
      At(addr, loose, bare);
      FileLoose(all.origin, all.Hashes(), addr, ItemsOf(pending, addr), ItemsOf(queue, addr), loose, tx);
      ListOfIs(pending, addr, true);
      var list := ListOf(pending, addr, true);
      assert list.Accepts(tx, priceBump) && tx.nonce !in list.items;
      SetListIs(pending, addr, list.Put(tx), true);
      pending := pending[addr := list.Put(tx)];
      SameLists(addr, queue);
      SameKnown(all.origin, addr, all.Hashes());
      Refile(all.origin, addr, all.Hashes(), old(pending), queue, addr, loose, all.Hashes(), pending, queue,
             loose - {tx.nonce});
      pendingNonces.Set(addr, tx.nonce + 1);
    }

    /** Takes the transaction of nonce `n` out of the pending list of `a` and queues those above it. */
    method CutPending(a: Address, tx: Tx, ghost bare: set<Hash>, ghost known: set<Hash>)
      requires Parts(bare) && Filed(all.origin, known, pending, queue, a, map[])
      requires all.Hashes() == known - {tx.hash} && Has(ItemsOf(pending, a), tx)
      modifies this`pending, this`queue, all, priced, pendingNonces
      ensures Inv(a, map[], bare) && unchanged(all) && unchanged(priced)
      ensures CutOut(ItemsOf(old(pending), a), ItemsOf(old(queue), a), tx.nonce, ItemsOf(pending, a), ItemsOf(queue, a))
      ensures SameBut(a, old(pending), pending) && SameBut(a, old(queue), queue)
      ensures pendingNonces.Of(a) == if tx.nonce < old(pendingNonces.Of(a)) then tx.nonce else old(pendingNonces.Of(a))
      ensures NoncesBut(stateNonce, a, old(pendingNonces.nonces), pendingNonces.nonces)
    {
      hide AccountFiled, Filed, Tidy, SameBut, KnownBut, Covers, GenuineEntries, Has, CutOut, TxLookup.Valid;
      hide TxPricedList.Valid, TxLookup.Hashes, TxPricedList.Tracked, TxNoncer.Of;
      ghost var p, q := ItemsOf(pending, a), ItemsOf(queue, a);
      FiledIs(all.origin, known, pending, queue, a, map[]);
      PendingRemoved(all.origin, known, a, p, q, tx);
      ListOfIs(pending, a, true);
      var list := ListOf(pending, a, true);
      var rest, invalids := list.With(Below(list.items, tx.nonce)), AtLeast(list.items, tx.nonce + 1);
      PartValid(list, rest.items);
      SetListIs(pending, a, rest, true);
      pending := SetList(pending, a, rest);
      SameLists(a, queue);
      Refile(all.origin, a, known, old(pending), queue, a, map[], all.Hashes(), pending, queue, invalids);
      EnqueueAll(a, invalids, bare);
      pendingNonces.SetIfLower(a, tx.nonce);
      HasCutOut(p, q, tx);
    }

    method CutQueued(a: Address, tx: Tx, ghost bare: set<Hash>, ghost known: set<Hash>)
      requires Parts(bare) && Filed(all.origin, known, pending, queue, a, map[])
      requires all.Hashes() == known - {tx.hash} && Has(ItemsOf(queue, a), tx) && tx.nonce !in ItemsOf(pending, a)
      modifies this`queue
      ensures Inv(a, map[], bare) && SameBut(a, old(queue), queue)
      ensures CutOut(ItemsOf(pending, a), ItemsOf(old(queue), a), tx.nonce, ItemsOf(pending, a), ItemsOf(queue, a))
    {
      hide AccountFiled, Filed, Tidy, SameBut, KnownBut, Covers, GenuineEntries, Has, CutOut, TxLookup.Valid;
      hide TxPricedList.Valid, TxLookup.Hashes, TxPricedList.Tracked;
      ghost var p, q := ItemsOf(pending, a), ItemsOf(queue, a);
      FiledIs(all.origin, known, pending, queue, a, map[]);
      QueuedRemoved(all.origin, known, a, p, q, tx);
      ListOfIs(queue, a, false);
      var list := ListOf(queue, a, false);
      var rest := list.With(list.items - {tx.nonce});
      PartValid(list, rest.items);
      SetListIs(queue, a, rest, false);
      queue := SetList(queue, a, rest);
      SameLists(a, pending);
      Refile(all.origin, a, known, pending, old(queue), a, map[], all.Hashes(), pending, queue, map[]);
      QueueCutOut(p, q, tx);
    }

    /** Removes a transaction, moving later pending ones of its sender back to the queue. */
    method RemoveTx(hash: Hash, outofbound: bool, ghost acct: Address, ghost bare: set<Hash>)
      requires Inv(acct, map[], bare)
      modifies this`pending, this`queue, all, priced, pendingNonces
      ensures Inv(acct, map[], bare - {hash})
      ensures all.Hashes() == old(all.Hashes()) - {hash}
      ensures all.remotes == old(all.remotes) - {hash} && all.locals == old(all.locals) - {hash}
      ensures all.slots == old(all.slots) - if hash in old(all.Hashes()) then NumSlots(all.origin(hash)) else 0
      ensures hash !in old(all.Hashes()) ==> Now() == old(Now())
      ensures hash in old(all.Hashes()) ==> Evicts(stateNonce, old(Now()), [all.origin(hash)], Now())
      ensures priced.baseFee == old(priced.baseFee)
      ensures if outofbound && hash in old(all.Hashes()) then
                Outdated(all.remotes, old(priced.urgent), old(priced.floating), old(priced.stales), 1,
                         priced.urgent, priced.floating, priced.stales)
              else unchanged(priced)
      ensures hash in old(all.Hashes()) ==>
                var a, n := all.origin(hash).sender, all.origin(hash).nonce;
                && CutOut(ItemsOf(old(pending), a), ItemsOf(old(queue), a), n, ItemsOf(pending, a), ItemsOf(queue, a))
                && SameBut(a, old(pending), pending) && SameBut(a, old(queue), queue)
                && (n !in ItemsOf(old(pending), a) ==> pending == old(pending) && unchanged(pendingNonces))
      ensures (old(Sequential()) ==> Sequential()) && (old(In(Moved)) ==> In(Moved))
    {
      hide Evicts, Outdated, AccountFiled, Filed, Tidy, SameBut, KnownBut, Covers, GenuineEntries, Has, CutOut, Mixed;
      hide PhaseAt, NoncesBut, TxLookup.Valid, TxPricedList.Valid, TxLookup.Hashes, TxPricedList.Tracked;
      var found := all.Get(hash);
      NotKnown(all.locals, all.remotes, hash);
      CoversDrop(all.remotes, priced.Tracked(), bare, hash);
      if found == None {
        return;
      }
      var tx := found.value;
      var a := tx.sender;
      ghost var known, nonces := all.Hashes(), pendingNonces.nonces;
      ghost var p, q := ItemsOf(pending, a), ItemsOf(queue, a);
      AtRest(all.origin, known, pending, queue, acct, a);
      FiledIs(all.origin, known, pending, queue, a, map[]);
      Whereabouts(all.origin, known, a, p, q, hash);
      all.Remove(hash);
      if outofbound {
        Outdate(1, bare - {hash});
      }
      ListOfIs(pending, a, true);
      ListOfIs(queue, a, false);
      if a in pending && tx.nonce in pending[a].items {
        CutPending(a, tx, bare - {hash}, known);
      } else {
        CutQueued(a, tx, bare - {hash}, known);
        SameLists(a, pending);
        SameNonces(stateNonce, a, nonces);
      }
      AtRest(all.origin, all.Hashes(), pending, queue, a, acct);
      RemovesOne(stateNonce, old(Now()), tx, Now());
      RemovalRuns(Head(), a, nonces, old(pending), old(queue), pendingNonces.nonces, pending, queue, tx.nonce);
    }

    /** The slots that the pool may fill. */
    function Capacity(): nat {
      globalSlots + globalQueue
    }

    /** Drops the transactions that were picked for eviction. */
    method DropAll(drop: seq<Tx>)
      requires Inv(0, map[], HashSet(drop)) && AllLive(all.remotes, drop)
      modifies this`pending, this`queue, all, priced, pendingNonces
      ensures Valid() && all.Hashes() <= old(all.Hashes()) && all.locals == old(all.locals) && unchanged(priced)
      ensures all.remotes == Evicted(old(all.remotes), drop) && Evicts(stateNonce, old(Now()), drop, Now())
      ensures (old(Sequential()) ==> Sequential()) && (old(In(Moved)) ==> In(Moved))
      ensures StillThere(old(all.remotes), drop, 0) ==> all.slots == old(all.slots) - DropSlots(drop)
    {
      hide Evicts, Filed, Tidy, SameBut, Covers, GenuineEntries, CutOut, Mixed, HashSet, StillThere, DropSlots, AllLive;
      hide Originals, Sound, Joint, Slots, TxPricedList.Valid, TxPricedList.Tracked, Evicted, Outdated;
      ghost var remotes := all.remotes;
      AllOriginal(all.origin, all.locals, remotes, drop);
      assert drop[0..] == drop && drop[..0] == [];
      EmptyDrop();
      EvictNone(remotes);
      EvictsNone(stateNonce, Now());
      ghost var known := all.Hashes();
      for i := 0 to |drop|
        invariant Inv(0, map[], HashSet(drop[i..])) && all.Hashes() <= old(all.Hashes())
        invariant all.locals == old(all.locals)
        invariant unchanged(priced) && all.remotes == Evicted(remotes, drop[..i])
        invariant Evicts(stateNonce, old(Now()), drop[..i], Now())
        invariant (old(Sequential()) ==> Sequential()) && (old(In(Moved)) ==> In(Moved))
        invariant StillThere(remotes, drop, 0) ==> StillThere(all.remotes, drop, i)
        invariant StillThere(remotes, drop, 0) ==> all.slots == old(all.slots) - DropSlots(drop[..i])
      {
        DropRest(all.remotes, drop, i);
        EvictLast(remotes, drop[..i + 1], drop[..i], drop[i]);
        RemoteIsKnown(all.locals, all.remotes, drop[i].hash);
        OriginalAt(all.origin, drop, i);
        RemoteIsNotLocal(all.origin, all.locals, remotes, drop, i);
        ghost var now := Now();
        if drop[i].hash !in all.Hashes() {
          WasKnown(all.locals, remotes, drop, i);
          GoneIsVacant(all.origin, known, old(pending), old(queue), all.Hashes(), pending, queue, drop[i]);
          EvictsGone(stateNonce, now, drop[i]);
        }
        RemoveTx(drop[i].hash, false, 0, HashSet(drop[i..]));
        EvictsMore(stateNonce, old(Now()), drop[..i], now, drop[i], Now());
        CoversMore(all.remotes, priced.Tracked(), HashSet(drop[i..]) - {drop[i].hash}, HashSet(drop[i + 1..]));
      }
      assert drop[|drop|..] == [] && drop[..|drop|] == drop;
    }

    /** What the entries of the price heaps are counted for. */
    ghost function Booked(): nat
      reads all, priced
    {
      Counted(all.remotes, priced.Tracked())
    }

    /** `tx` does not fit, and the entries of one cheaper transaction make enough room for it. */
    ghost predicate Gives(tx: Tx)
      reads this, all, priced
    {
      var need := all.slots + NumSlots(tx) - Capacity();
      need > 0 && priced.all == all && priced.Yields(tx, need)
    }

    /** Whether no entry of the price heaps is cheaper than `tx`. */
    method Refuses(tx: Tx, ghost need: int) returns (r: bool)
      requires Valid()
      modifies priced
      ensures Valid() && priced.baseFee == old(priced.baseFee) && Booked() == old(Booked())
      ensures SameLive(all.remotes, old(priced.Tracked()), priced.Tracked() + multiset([]))
      ensures old(priced.Outpriced(tx)) ==> !r
      ensures old(priced.Yields(tx, need)) ==>
                && !r && priced.urgent == old(priced.urgent) && priced.urgent != []
                && priced.Suffices(priced.urgent[0], need)
    {
      hide Filed, Tidy, Covers, GenuineEntries, Counted, Dearest, Leads, Sound, Slots, SameLive, Single;
      hide TxPricedList.Valid, PriceCmp, ByHash;
      ghost var remotes, tracked := all.remotes, priced.Tracked();
      SoundByHash(all.origin, all.locals, remotes);
      r := priced.Underpriced(tx);
      AfterCleaning(all.origin, all.locals, remotes, tracked, priced.Tracked());
      CountedSame(remotes, tracked, priced.Tracked());
      NothingMore(remotes, tracked, priced.Tracked());
      if old(priced.Outpriced(tx)) {
        DearestIsNotUnder(remotes, priced.baseFee, tracked, priced.urgent, priced.floating, tx);
      }
    }

    /** Picks what to evict for `tx`, which needs `need` more slots. */
    method Choose(tx: Tx, isLocal: bool, need: int) returns (err: Option<AddError>, drop: seq<Tx>)
      requires Valid()
      modifies priced
      ensures Inv(0, map[], HashSet(drop)) && AllLive(all.remotes, drop) && priced.baseFee == old(priced.baseFee)
      ensures SameLive(all.remotes, old(priced.Tracked()), priced.Tracked() + multiset(drop))
      ensures isLocal ==> err == None
      ensures err.Some? ==> drop == [] && err.value in {Underpriced, PoolOverflow}
      ensures err == None && !isLocal ==> DropSlots(drop) >= need
      ensures err == Some(PoolOverflow) ==> old(Booked()) < need
      ensures old(priced.Outpriced(tx)) ==> err != Some(Underpriced)
      ensures !isLocal && old(priced.Yields(tx, need)) ==> err == None && AllAre(drop, old(priced.urgent)[0])
    {
      hide Filed, Tidy, Covers, GenuineEntries, HashSet, DropSlots, AllLive, Counted, Dearest, Leads, AllAre, Sound;
      hide Slots, SameLive, Single, PriceCmp, ByHash, TxPricedList.Valid, TxPricedList.Tracked, TxPricedList.Suffices;
      hide TxPricedList.Outpriced;
      err, drop := None, [];
      ghost var remotes, tracked := all.remotes, priced.Tracked();
      EmptyDrop();
      NothingDropped(remotes, tracked);
      if !isLocal {
        var refused := Refuses(tx, need);
        if refused {
          return Some(Underpriced), [];
        }
      }
      ghost var tracked1 := priced.Tracked();
      var success;
      drop, success := priced.Discard(need, isLocal);
      AfterDiscard(all.origin, all.locals, remotes, tracked1, priced.Tracked(), drop);
      SameLiveThen(remotes, tracked, tracked1, priced.Tracked(), drop);
      if !isLocal && !success {
        ghost var d :| multiset(d) == priced.Tracked() && DropSlots(d) < need;
        SoundByHash(all.origin, all.locals, remotes);
        assert priced.Tracked() + multiset([]) == multiset(d);
        AllCounted(remotes, tracked1, d);
        return Some(PoolOverflow), [];
      }
    }

    /** Evicts cheaper remote transactions when `tx` does not fit; local ones evict at any price. */
    method MakeRoom(tx: Tx, isLocal: bool) returns (err: Option<AddError>, ghost drop: seq<Tx>)
      requires Valid()
      modifies this`pending, this`queue, all, priced, pendingNonces
      ensures Valid() && all.Hashes() <= old(all.Hashes()) && all.locals == old(all.locals)
      ensures (old(Sequential()) ==> Sequential()) && (old(In(Moved)) ==> In(Moved))
      ensures isLocal || old(all.slots) + NumSlots(tx) <= Capacity() ==> err == None
      ensures old(all.slots) + NumSlots(tx) <= Capacity() ==>
                pending == old(pending) && queue == old(queue) && unchanged(all) && unchanged(priced)
      ensures err.Some? ==>
                && err.value in {Underpriced, PoolOverflow}
                && pending == old(pending) && queue == old(queue) && unchanged(all)
      ensures Evicts(stateNonce, old(Now()), drop, Now()) && AllLive(old(all.remotes), drop)
      ensures err.Some? || old(all.slots) + NumSlots(tx) <= Capacity() ==> drop == []
      ensures all.remotes == Evicted(old(all.remotes), drop) && all.slots >= old(all.slots) - Slots(old(all.remotes))
      ensures SameLive(old(all.remotes), old(priced.Tracked()), priced.Tracked() + multiset(drop))
      ensures priced.baseFee == old(priced.baseFee)
      ensures old(priced.Outpriced(tx)) ==> err != Some(Underpriced)
      ensures !isLocal && old(all.slots) + NumSlots(tx) > Capacity() && err != Some(Underpriced) ==>
                (err == None <==> old(all.slots) + NumSlots(tx) <= Capacity() + old(Booked()))
      ensures err == None && !isLocal && old(Booked() == Slots(all.remotes)) ==> all.slots + NumSlots(tx) <= Capacity()
      ensures err == None && !isLocal && Distinct(drop) ==> all.slots + NumSlots(tx) <= Capacity()
      ensures !isLocal && old(Gives(tx)) ==>
                var x := old(priced.urgent)[0];
                err == None && all.remotes == old(all.remotes) - {x.hash} && all.slots == old(all.slots) - NumSlots(x)
    {
      hide Evicts, Filed, Tidy, SameBut, Covers, GenuineEntries, Mixed, HashSet, StillThere, DropSlots, AllLive;
      hide Evicted, Sound, Slots, SameLive, Single, TxPricedList.Valid, PriceCmp, Counted, Leads, AllAre, Dearest;
      hide ByHash, NumSlots;
      err, drop := None, [];
      ghost var remotes, tracked := all.remotes, priced.Tracked();
      EvictNone(remotes);
      EvictsNone(stateNonce, Now());
      NothingDropped(remotes, tracked);
      if all.slots + NumSlots(tx) <= Capacity() {
        return;
      }
      var chosen;
      var need := all.slots - Capacity() + NumSlots(tx);
      err, chosen := Choose(tx, isLocal, need);
      drop := chosen;
      SoundByHash(all.origin, all.locals, remotes);
      if err.Some? {
        EmptyDrop();
        return;
      }
      if !isLocal {
        Room(remotes, tracked, priced.Tracked(), drop, Slots(all.locals), need);
        if old(Gives(tx)) {
          EvictsOne(remotes, drop, old(priced.urgent)[0], need);
        }
      }
      if Distinct(drop) {
        DistinctStays(remotes, drop);
      }
      DropAll(chosen);
    }

    /** Replaces the pending transaction that has the nonce of `tx`, if the price is bumped enough. */
    method ReplacePending(tx: Tx, isLocal: bool) returns (inserted: bool)
      requires Valid() && tx.hash !in all.Hashes() && all.origin(tx.hash) == tx
      requires tx.nonce in ItemsOf(pending, tx.sender)
      modifies this`pending, all, priced
      ensures Valid() && inserted == Outbids(ItemsOf(old(pending), tx.sender)[tx.nonce], tx, priceBump)
      ensures !inserted ==> pending == old(pending) && unchanged(all) && unchanged(priced)
      ensures inserted ==> && ItemsOf(pending, tx.sender) == ItemsOf(old(pending), tx.sender)[tx.nonce := tx]
                           && SameBut(tx.sender, old(pending), pending)
      ensures inserted ==> tx.hash in all.Hashes() && all.Hashes() <= old(all.Hashes()) + {tx.hash}
      ensures inserted ==> Joins(old(all.remotes), old(priced.Tracked()), Standing(old(pending), queue, tx), tx,
                                 isLocal,
                                 all.remotes, priced.Tracked())
      ensures priced.baseFee == old(priced.baseFee)
      ensures all.slots <= old(all.slots) + NumSlots(tx)
      ensures (old(Sequential()) ==> Sequential()) && (old(In(Moved)) ==> In(Moved))
    {
      hide Joins, AccountFiled, Filed, Tidy, SameBut, KnownBut, Covers, Outbids, GenuineEntries, Mixed, TxLookup.Valid;
      hide TxPricedList.Valid, TxLookup.Hashes, TxPricedList.Tracked;
      var a := tx.sender;
      ghost var known, p, q := all.Hashes(), ItemsOf(pending, a), ItemsOf(queue, a);
      AtRest(all.origin, known, pending, queue, 0, a);
      FiledIs(all.origin, known, pending, queue, a, map[]);
      Mirror(all.origin, known, a, p, q, map[]);
      Displace(all.origin, known, a, q, p, tx);
      ListOfIs(pending, a, true);
      var list := ListOf(pending, a, true);
      if !list.Accepts(tx, priceBump) {
        return false;
      }
      var was := list.items[tx.nonce];
      SetListIs(pending, a, list.Put(tx), true);
      pending := pending[a := list.Put(tx)];
      Exchange(tx, isLocal, Some(was), {});
      SameLists(a, queue);
      Mirror(all.origin, all.Hashes(), a, p[tx.nonce := tx], q, map[]);
      Refile(all.origin, a, known, old(pending), queue, a, map[], all.Hashes(), pending, queue, map[]);
      AtRest(all.origin, all.Hashes(), pending, queue, a, 0);
      RunsReplaced(Head(), pendingNonces.nonces, old(pending), pending, queue, tx);
      inserted := true;
    }

    /** Makes `a` a local account and its remote transactions local ones. */
    method Localize(a: Address)
      requires Valid()
      modifies this`locals, all, priced
      ensures Valid() && locals == old(locals) + {a} && all.Hashes() == old(all.Hashes()) && all.slots == old(all.slots)
    {
      hide Outdated, Filed, Tidy, Covers, GenuineEntries, Sound, Slots, TxPricedList.Valid, TxPricedList.Tracked;
      locals := locals + {a};
      ghost var remotes := all.remotes;
      var migrated := all.RemoteToLocals(locals);
      CoversFewer(remotes, all.remotes, priced.Tracked(), {});
      Outdate(migrated, {});
    }

    /** What the checks before any change say of a transaction. */
    function Rejects(tx: Tx, rules: Checks): Option<AddError>
      requires Valid()
      reads this, all, priced, pendingNonces
    {
      if all.Get(tx.hash).Some? then Some(AlreadyKnown)
      else if !WellFormed(tx, rules) then Some(Invalid)
      else if stateNonce(tx.sender) > tx.nonce then Some(NonceTooLow)
      else if !rules.funds then Some(Unfunded)
      else None
    }

    /** Nothing pending or queued has the sender and the nonce of `tx`. */
    ghost predicate Vacant(tx: Tx)
      reads this
    {
      Standing(pending, queue, tx).None?
    }

    /** The price heaps count more slots than the remote transactions take. */
    ghost predicate Overbooked()
      reads all, priced
    {
      Slots(all.remotes) < Booked()
    }

    ghost predicate Untwinned()
      reads all, priced
    {
      Twinless(all.remotes, priced.Tracked())
    }

    /** Adds a transaction. `rules` is the outcome of the checks of validateTx around that of the nonce. */
    method Add(tx: Tx, local: bool, rules: Checks) returns (replaced: bool, err: Option<AddError>, ghost drop: seq<Tx>)
      requires Valid() && all.origin(tx.hash) == tx
      modifies this`pending, this`queue, this`locals, all, priced, pendingNonces
      ensures Valid()
      ensures (old(Sequential()) ==> Sequential()) && (old(In(Moved)) ==> In(Moved))
      ensures err == Some(AlreadyKnown) <==> tx.hash in old(all.Hashes())
      ensures err == Some(Invalid) <==> tx.hash !in old(all.Hashes()) && !WellFormed(tx, rules)
      ensures err == Some(NonceTooLow) <==>
                tx.hash !in old(all.Hashes()) && WellFormed(tx, rules) && tx.nonce < stateNonce(tx.sender)
      ensures err == Some(Unfunded) <==>
                && tx.hash !in old(all.Hashes()) && WellFormed(tx, rules)
                && stateNonce(tx.sender) <= tx.nonce && !rules.funds
      ensures err.Some? && err != Some(ReplaceUnderpriced) ==>
                pending == old(pending) && queue == old(queue) && unchanged(all)
      ensures err in {Some(Underpriced), Some(PoolOverflow)} ==>
                !local && tx.sender !in locals && old(all.slots) + NumSlots(tx) > Capacity()
      ensures err in {None, Some(ReplaceUnderpriced)} && old(all.slots) + NumSlots(tx) <= Capacity() ==>
                Inserts(old(pending), old(queue), pending, queue, tx, priceBump, err == None, replaced)
      ensures err == None ==> tx.hash in all.Hashes() && stateNonce(tx.sender) <= tx.nonce
      ensures old(Rejects(tx, rules).None? && Vacant(tx) && all.slots + NumSlots(tx) <= Capacity()) ==>
                err == None && !replaced
      ensures all.Hashes() <= old(all.Hashes()) + if err == None then {tx.hash} else {}
      ensures locals == old(locals) || (local && locals == old(locals) + {tx.sender})
      // what becomes of every account
      ensures Steps(stateNonce, old(Now()), tx, local, Entry(err, drop), Now())
      ensures Explains(old(Now()).At(stateNonce, tx.sender), tx, rules, stateNonce(tx.sender), priceBump,
                       Entry(err, drop))
      ensures AllEvictable(stateNonce, old(Now()), drop)
      ensures old(all.slots) + NumSlots(tx) <= Capacity() ==> drop == [] && all.slots <= old(all.slots) + NumSlots(tx)
      // the limit, and when it is missed
      ensures err == None && !local && tx.sender !in old(locals) && all.slots > Capacity() ==>
                !Distinct(drop) && old(Overbooked()) && old(all.slots) + NumSlots(tx) <= Capacity() + old(Booked())
      ensures (&& !local && tx.sender !in old(locals)
               && old(Rejects(tx, rules).None? && Vacant(tx) && priced.Outpriced(tx))
               && old(Overbooked() && all.slots + NumSlots(tx) == Capacity() + Booked())) ==>
                err == None && all.slots > Capacity()
      ensures err == None && !local && tx.sender !in old(locals) && old(Untwinned()) ==> all.slots <= Capacity()
      // twins
      ensures err == None && !local && tx.sender !in old(locals) && old(Untwinned()) && tx !in old(priced.Tracked()) ==>
                Untwinned()
      ensures (&& err == None && !local && tx.sender !in old(locals)
               && old(Vacant(tx) && all.slots + NumSlots(tx) <= Capacity())) ==>
                && Register() == old(Register()).With(tx)
                && (Untwinned() <==> old(Untwinned()) && tx !in old(priced.Tracked()))
      // the cheapest goes first
      ensures !local && tx.sender !in old(locals) && old(Rejects(tx, rules).None? && Vacant(tx) && Gives(tx)) ==>
                var x := old(priced.urgent)[0];
                && err == None && all.remotes == (old(all.remotes) - {x.hash})[tx.hash := tx]
                && all.slots == old(all.slots) - NumSlots(x) + NumSlots(tx)
                && (all.slots > Capacity() <==> NumSlots(x) < old(all.slots) + NumSlots(tx) - Capacity())
    {
      hide TxPool.Inv, Mixed, Twinless, Counted, Slots, Sound, TxPool.Gives, TxPricedList.Tracked;
      hide TxPricedList.Outpriced, Steps, Evicts, Evict, Wins, NumSlots, Has, Files, AllEvictable, AllLive, Filed;
      FiledOnce(tx);
      var bad := Rejects(tx, rules);
      if bad.Some? {
        EvictsNone(stateNonce, Now());
        StepsNone(stateNonce, Now(), tx, local, bad.value, Now());
        NothingEvicted(stateNonce, Now());
        return false, bad, [];
      }
      ghost var mid;
      Lookups();
      replaced, err, drop, mid := AddNew(tx, local, local || tx.sender in locals);
      LiveIsEvictable(all.origin, old(all.locals), old(all.remotes), stateNonce, old(Now()), drop);
      if err == None || err == Some(ReplaceUnderpriced) {
        StepsIn(stateNonce, mid, tx, local, err, priceBump, replaced, Now());
        StepsAfter(stateNonce, old(Now()), drop, mid, tx, local, err, Now());
      } else {
        StepsNone(stateNonce, old(Now()), tx, local, err.value, Now());
      }
    }

    /** The second half of `Add`: makes room, files the transaction, and makes its sender local if asked to. */
    method AddNew(tx: Tx, local: bool, isLocal: bool)
      returns (replaced: bool, err: Option<AddError>, ghost drop: seq<Tx>, ghost mid: Found)
      requires Valid() && all.origin(tx.hash) == tx && tx.hash !in all.Hashes() && stateNonce(tx.sender) <= tx.nonce
      requires local ==> isLocal
      modifies this`pending, this`queue, this`locals, all, priced, pendingNonces
      ensures Valid()
      ensures (old(Sequential()) ==> Sequential()) && (old(In(Moved)) ==> In(Moved))
      ensures err in {None, Some(Underpriced), Some(PoolOverflow), Some(ReplaceUnderpriced)}
      ensures err in {Some(Underpriced), Some(PoolOverflow)} ==>
                && pending == old(pending) && queue == old(queue) && unchanged(all)
                && !isLocal && old(all.slots) + NumSlots(tx) > Capacity() && locals == old(locals)
      ensures err in {None, Some(ReplaceUnderpriced)} && old(all.slots) + NumSlots(tx) <= Capacity() ==>
                Inserts(old(pending), old(queue), pending, queue, tx, priceBump, err == None, replaced)
      ensures err == None ==> tx.hash in all.Hashes()
      ensures old(Vacant(tx) && all.slots + NumSlots(tx) <= Capacity()) ==> err == None && !replaced
      ensures all.Hashes() <= old(all.Hashes()) + if err == None then {tx.hash} else {}
      ensures locals == old(locals) || (local && locals == old(locals) + {tx.sender})
      ensures Evicts(stateNonce, old(Now()), drop, mid) && AllLive(old(all.remotes), drop)
      ensures if err in {None, Some(ReplaceUnderpriced)}
              then Files(mid, tx, local, priceBump, err == None, replaced, Now())
              else drop == [] && mid == Now()
      ensures old(all.slots) + NumSlots(tx) <= Capacity() ==> drop == [] && all.slots <= old(all.slots) + NumSlots(tx)
      ensures err == None && !isLocal && all.slots > Capacity() ==>
                !Distinct(drop) && old(Overbooked()) && old(all.slots) + NumSlots(tx) <= Capacity() + old(Booked())
      ensures (&& !isLocal && old(Vacant(tx) && priced.Outpriced(tx))
               && old(Overbooked() && all.slots + NumSlots(tx) == Capacity() + Booked())) ==>
                err == None && all.slots > Capacity()
      ensures err == None && !isLocal && old(Untwinned()) ==>
                all.slots <= Capacity() && (tx !in old(priced.Tracked()) ==> Untwinned())
      ensures err == None && !isLocal && old(Vacant(tx) && all.slots + NumSlots(tx) <= Capacity()) ==>
                && Register() == old(Register()).With(tx)
                && (Untwinned() <==> old(Untwinned()) && tx !in old(priced.Tracked()))
      ensures !isLocal && old(Vacant(tx) && Gives(tx)) ==>
                var x := old(priced.urgent)[0];
                && err == None && all.remotes == (old(all.remotes) - {x.hash})[tx.hash := tx]
                && all.slots == old(all.slots) - NumSlots(x) + NumSlots(tx)
    {
      hide Evicts, AllLive, Filed, Tidy, SameBut, Covers, GenuineEntries, Mixed, Outbids, Counted, Inserts, Standing;
      hide Evicted, NumSlots, Joins, Sound, Slots, Joint, TxPricedList.Valid, TxPricedList.Tracked;
      hide TxPricedList.Outpriced, SameLive, Twinless, TxPool.Gives;
      replaced := false;
      ghost var remotes, tracked := all.remotes, priced.Tracked();
      MoreBooked();
      err, drop := MakeRoom(tx, isLocal);
      mid := Now();
      if err.Some? {
        return;
      }
      if old(Vacant(tx)) {
        StaysVacant(all.origin, old(all.Hashes()), old(pending), old(queue), all.Hashes(), pending, queue, tx);
      }
      EvictingTwinless(remotes, tracked, priced.Tracked(), drop, tx);
      ghost var before := Register();
      ghost var gone := Standing(pending, queue, tx);
      SoundByHash(all.origin, all.locals, all.remotes);
      NewIsNotRemote(all.locals, all.remotes, tx);
      replaced, err := Insert(tx, local, isLocal);
      if err == None && !isLocal {
        JoinsTwinless(before.remotes, before.tracked, gone, tx, false, all.remotes, priced.Tracked());
        if gone.None? {
          JoinsFree(before, tx, Register());
        }
      }
    }

    ghost function Register(): Books
      reads all, priced
    {
      Books(all.remotes, priced.Tracked(), priced.floating, priced.stales, priced.baseFee, all.slots)
    }

    /** A transaction that would overfill a pool with twins, if it is genuine and passes the checks. */
    lemma Overfiller(h: Hash, sender: Address, nonce: nat) returns (tx: Tx)
      requires Valid() && all.slots < Capacity() + Booked()
      ensures tx.hash == h && tx.sender == sender && tx.nonce == nonce
      ensures priced.Outpriced(tx) && all.slots + NumSlots(tx) == Capacity() + Booked()
      ensures tx.size <= TX_MAX_SIZE <==> Capacity() + Booked() - all.slots <= 4
    {
      hide TxPool.Inv, Counted, Dearest;
      tx := SomeDearest(priced.baseFee, priced.Tracked(), Capacity() + Booked() - all.slots, h, sender, nonce);
    }

    lemma MoreBooked()
      requires Valid()
      ensures Slots(all.remotes) <= Booked()
      ensures Untwinned() ==> !Overbooked()
      ensures Sized(all.remotes) ==> (Overbooked() <==> !Untwinned())
    {
      hide Filed, Tidy, Counted, Slots, Twinless;
      SoundByHash(all.origin, all.locals, all.remotes);
      CountedCovers(all.remotes, priced.Tracked());
      CountedTwinless(all.remotes, priced.Tracked());
    }

    /** The end of `Add`: files the transaction, and makes its sender local if asked to. */
    method Insert(tx: Tx, local: bool, isLocal: bool) returns (replaced: bool, err: Option<AddError>)
      requires Valid() && all.origin(tx.hash) == tx && tx.hash !in all.Hashes() && stateNonce(tx.sender) <= tx.nonce
      requires local ==> isLocal
      modifies this`pending, this`queue, this`locals, all, priced
      ensures Valid()
      ensures (old(Sequential()) ==> Sequential()) && (old(In(Moved)) ==> In(Moved))
      ensures err == None || err == Some(ReplaceUnderpriced)
      ensures Inserts(old(pending), old(queue), pending, queue, tx, priceBump, err == None, replaced)
      ensures err == None ==> tx.hash in all.Hashes() && all.Hashes() <= old(all.Hashes()) + {tx.hash}
      ensures err != None ==> unchanged(all) && unchanged(priced)
      ensures var first := err == None && local && tx.nonce !in ItemsOf(old(pending), tx.sender);
              locals == old(locals) + if first then {tx.sender} else {}
      ensures all.slots <= old(all.slots) + NumSlots(tx)
      ensures old(Vacant(tx)) ==> err == None && !replaced
      ensures err == None && !isLocal ==>
                && Joins(old(all.remotes), old(priced.Tracked()), old(Standing(pending, queue, tx)), tx, false,
                         all.remotes, priced.Tracked())
                && priced.baseFee == old(priced.baseFee)
      ensures err == None && !isLocal && old(Vacant(tx)) ==>
                && all.slots == old(all.slots) + NumSlots(tx) && all.locals == old(all.locals)
                && priced.floating == old(priced.floating) && priced.stales == old(priced.stales)
    {
      hide Filed, Tidy, SameBut, Covers, GenuineEntries, Mixed, Outbids, Joins, NumSlots, Sound, Slots, Joint;
      hide TxPricedList.Valid, TxPricedList.Tracked;
      var from := tx.sender;
      ListOfIs(pending, from, true);
      if from in pending && tx.nonce in pending[from].items {
        var inserted := ReplacePending(tx, isLocal);
        return inserted, if inserted then None else Some(ReplaceUnderpriced);
      }
      var none: Items := map[];
      assert none - {tx.nonce} == none;
      AtRest(all.origin, all.Hashes(), pending, queue, 0, from);
      var inserted;
      replaced, inserted := EnqueueTx(tx, isLocal, true, none, {});
      AtRest(all.origin, all.Hashes(), pending, queue, from, 0);
      if !inserted {
        return false, Some(ReplaceUnderpriced);
      }
      err := None;
      RunsEnqueued(Head(), pendingNonces.nonces, pending, old(queue), queue, tx);
      if local && from !in locals {
        Localize(from);
      }
    }

    /** Replaces the queued list of `a` by `rest`, putting `taken` in transit. */
    method TakeQueued(a: Address, rest: ListView, ghost taken: Items)
      requires Inv(a, map[], {}) && Splits(ItemsOf(queue, a), rest.items, taken)
      requires rest.Valid() && !rest.strict
      modifies this`queue
      ensures Inv(a, taken, {}) && ItemsOf(queue, a) == rest.items && SameBut(a, old(queue), queue)
    {
      hide AccountFiled, Filed, Tidy, SameBut, KnownBut, Covers, GenuineEntries, Splits, TxLookup.Valid;
      hide TxPricedList.Valid, TxLookup.Hashes, TxPricedList.Tracked;
      FiledIs(all.origin, all.Hashes(), pending, queue, a, map[]);
      SplitQueue(all.origin, all.Hashes(), a, ItemsOf(pending, a), ItemsOf(queue, a), rest.items, taken);
      SetListIs(queue, a, rest, false);
      queue := SetList(queue, a, rest);
      SameLists(a, pending);
      SameKnown(all.origin, a, all.Hashes());
      Refile(all.origin, a, all.Hashes(), pending, old(queue), a, map[], all.Hashes(), pending, queue, taken);
    }

    method TakePending(a: Address, rest: ListView, ghost taken: Items)
      requires Inv(a, map[], {}) && Splits(ItemsOf(pending, a), rest.items, taken)
      requires rest.Valid() && rest.strict
      modifies this`pending
      ensures Inv(a, taken, {}) && ItemsOf(pending, a) == rest.items && SameBut(a, old(pending), pending)
    {
      hide AccountFiled, Filed, Tidy, SameBut, KnownBut, Covers, GenuineEntries, Splits, TxLookup.Valid;
      hide TxPricedList.Valid, TxLookup.Hashes, TxPricedList.Tracked;
      ghost var known, p, q := all.Hashes(), ItemsOf(pending, a), ItemsOf(queue, a);
      FiledIs(all.origin, known, pending, queue, a, map[]);
      Mirror(all.origin, known, a, p, q, map[]);
      SplitQueue(all.origin, known, a, q, p, rest.items, taken);
      Mirror(all.origin, known, a, rest.items, q, taken);
      SetListIs(pending, a, rest, true);
      pending := SetList(pending, a, rest);
      SameLists(a, queue);
      SameKnown(all.origin, a, known);
      Refile(all.origin, a, known, old(pending), queue, a, map[], known, pending, queue, taken);
    }

    /** Promotes the transactions in transit, by rising nonce. */
    method PromoteAll(a: Address, readies: seq<Tx>, ghost txs: Items)
      requires Inv(a, txs, {}) && IsFlat(readies, txs)
      modifies this`pending, pendingNonces
      ensures Inv(a, map[], {}) && ItemsOf(pending, a) == ItemsOf(old(pending), a) + txs
      ensures SameBut(a, old(pending), pending)
      ensures NoncesBut(stateNonce, a, old(pendingNonces.nonces), pendingNonces.nonces)
      ensures pendingNonces.Of(a)
           == if readies == [] then old(pendingNonces.Of(a)) else readies[|readies| - 1].nonce + 1
    {
      hide TxPool.Inv, SameBut, Merged, Part, NoncesBut, Has, AccountFiled, TxNoncer.Of, IsFlat;
      ghost var p, nonces, left := ItemsOf(pending, a), pendingNonces.nonces, txs;
      SameLists(a, pending);
      SameNonces(stateNonce, a, nonces);
      MergeStart(p, txs);
      assert readies[0..] == readies;
      for i := 0 to |readies|
        invariant Inv(a, left, {}) && IsFlat(readies[i..], left)
        invariant Part(left, txs) && ItemsOf(pending, a) == Merged(p, txs, left) && SameBut(a, old(pending), pending)
        invariant NoncesBut(stateNonce, a, nonces, pendingNonces.nonces)
        invariant pendingNonces.Of(a) == if i == 0 then old(pendingNonces.Of(a)) else readies[i - 1].nonce + 1
      {
        var tx := readies[i];
        FlatNext(readies, i, left);
        HasIt(left, tx);
        ghost var before, nonces1 := pending, pendingNonces.nonces;
        PromoteTx(a, tx, left, {});
        SameTrans(a, old(pending), before, pending);
        NoncesTrans(stateNonce, a, nonces, nonces1, pendingNonces.nonces);
        MergeStep(p, txs, left, tx.nonce);
        left := left - {tx.nonce};
      }
      FlatDone(readies, left);
    }

    /** Drops `txs` from the queue of `a`, leaving `rest`. */
    method DropQueued(a: Address, rest: ListView, txs: Items)
      requires Inv(a, map[], {}) && Splits(ItemsOf(queue, a), rest.items, txs) && rest.Valid() && !rest.strict
      modifies this`queue, all
      ensures Inv(a, map[], {}) && ItemsOf(queue, a) == rest.items && SameBut(a, old(queue), queue)
    {
      hide TxPool.Inv, SameBut, Splits;
      TakeQueued(a, rest, txs);
      ForgetAll(a, txs, {});
    }

    /** Drops what is stale or unpayable from the queue of `a`. */
    method PruneQueue(a: Address) returns (removed: nat)
      requires Inv(a, map[], {})
      modifies this`queue, all
      ensures Inv(a, map[], {}) && SameBut(a, old(queue), queue)
      ensures ItemsOf(queue, a) == Payable(AtLeast(ItemsOf(old(queue), a), stateNonce(a)), balance(a), maxGas)
    {
      hide Filed, Covers, Tidy, SameBut, Splits, Part, Payable, Unpaid, AtLeast, Below, TxLookup.Valid;
      hide TxPricedList.Valid, TxLookup.Hashes, TxPricedList.Tracked;
      Kept(a);
      var list := ListOf(queue, a, false);
      var forwards, rest := Below(list.items, stateNonce(a)), list.With(AtLeast(list.items, stateNonce(a)));
      SplitsCut(list.items, stateNonce(a));
      SplitPart(list.items, rest.items, forwards);
      PartValid(list, rest.items);
      DropQueued(a, rest, forwards);
      ghost var queue1 := queue;
      Kept(a);
      list := ListOf(queue, a, false);
      var drops, rest2 := Unpaid(list.items, balance(a), maxGas), list.Filter(balance(a), maxGas);
      FilterIgnoresCaps(list, balance(a), maxGas);
      SplitsFilter(list.items, balance(a), maxGas);
      DropQueued(a, rest2, drops);
      removed := |forwards| + |drops|;
      SameTrans(a, old(queue), queue1, queue);
    }

    /** Moves the run that begins at the virtual nonce from the queue to the pending list. */
    method PromoteReady(a: Address)
      requires Inv(a, map[], {})
      modifies this`pending, this`queue, pendingNonces
      ensures Inv(a, map[], {}) && SameBut(a, old(pending), pending) && SameBut(a, old(queue), queue)
      ensures NoncesBut(stateNonce, a, old(pendingNonces.nonces), pendingNonces.nonces)
      ensures var q, v := ItemsOf(old(queue), a), old(pendingNonces.Of(a));
              var ready := Below(q, ReadyCut(q, v));
              && ItemsOf(pending, a) == ItemsOf(old(pending), a) + ready
              && ItemsOf(queue, a) == AtLeast(q, ReadyCut(q, v))
              && pendingNonces.Of(a) == if ready == map[] then v else Top(ready)
    {
      hide Filed, Covers, Tidy, SameBut, Splits, Part, AtLeast, Below, ReadyCut, Top, Flat, IsFlat, NoncesBut;
      hide TxNoncer.Of, TxLookup.Valid, TxPricedList.Valid, TxLookup.Hashes, TxPricedList.Tracked;
      Kept(a);
      ghost var nonces := pendingNonces.nonces;
      var list := ListOf(queue, a, false);
      var start := pendingNonces.Get(a);
      ghost var nonces1 := pendingNonces.nonces;
      var c := ReadyCut(list.items, start);
      var readies, rest := Below(list.items, c), list.With(AtLeast(list.items, c));
      SplitsCut(list.items, c);
      SplitPart(list.items, rest.items, readies);
      PartValid(list, rest.items);
      PartKeyed(readies, list.items);
      FlatIsFlat(readies);
      FlatTop(Flat(readies), readies);
      TakeQueued(a, rest, readies);
      PromoteAll(a, Flat(readies), readies);
      NoncesTrans(stateNonce, a, nonces, nonces1, pendingNonces.nonces);
    }

    /** Drops the highest nonces from an overlong queue. */
    method CapQueue(a: Address) returns (removed: nat)
      requires Inv(a, map[], {})
      modifies this`queue, all
      ensures Inv(a, map[], {}) && SameBut(a, old(queue), queue)
      ensures ItemsOf(queue, a) == Lowest(ItemsOf(old(queue), a), accountQueue)
    {
      hide Filed, Covers, Tidy, SameBut, Splits, Part, Lowest, Excess, TxLookup.Valid, TxPricedList.Valid;
      hide TxLookup.Hashes, TxPricedList.Tracked;
      Kept(a);
      var list := ListOf(queue, a, false);
      var caps, rest := Excess(list.items, accountQueue), list.With(Lowest(list.items, accountQueue));
      SplitsCap(list.items, accountQueue);
      SplitPart(list.items, rest.items, caps);
      PartValid(list, rest.items);
      DropQueued(a, rest, caps);
      removed := |caps|;
    }

    /** Promotes what is executable of one account's queue, dropping what is stale, unpayable or too much. */
    method PromoteAccount(a: Address)
      requires Valid()
      modifies this`pending, this`queue, all, priced, pendingNonces
      ensures Valid() && SameBut(a, old(pending), pending) && SameBut(a, old(queue), queue)
      ensures NoncesBut(stateNonce, a, old(pendingNonces.nonces), pendingNonces.nonces)
      ensures PromotedAt(Head(), locals, accountQueue, old(pendingNonces.nonces), old(pending), old(queue),
                         pendingNonces.nonces, pending, queue, a)
    {
      hide Outdated, Filed, Covers, Tidy, SameBut, NoncesBut, Payable, AtLeast, Below, Lowest, Top, ReadyCut;
      hide PromotesExactly, TxLookup.Valid, TxPricedList.Valid, TxLookup.Hashes, TxPricedList.Tracked;
      SameLists(a, pending);
      SameLists(a, queue);
      SameNonces(stateNonce, a, pendingNonces.nonces);
      if a !in queue {
        NothingQueued(a);
        return;
      }
      Rest(0, a);
      Queued(a);
      var removed := PruneQueue(a);
      ghost var queue1 := queue;
      PromoteReady(a);
      SameTrans(a, old(queue), queue1, queue);
      ghost var queue2 := queue;
      if a !in locals {
        var capped := CapQueue(a);
        removed := removed + capped;
        SameTrans(a, old(queue), queue2, queue);
      }
      Outdate(removed, {});
      Rest(a, 0);
      PromotedExactly(ItemsOf(old(pending), a), ItemsOf(old(queue), a), stateNonce(a), old(pendingNonces.Of(a)),
                      balance(a), maxGas,
                      if a in locals then None else Some(accountQueue),
                      ItemsOf(queue1, a), ItemsOf(pending, a), ItemsOf(queue2, a), ItemsOf(queue, a),
                      pendingNonces.Of(a));
    }

    lemma NothingQueued(a: Address)
      requires a !in queue
      ensures PromotedAt(Head(), locals, accountQueue, pendingNonces.nonces, pending, queue, pendingNonces.nonces,
                         pending, queue, a)
    {
    }

    lemma Queued(a: Address)
      requires Tidy(queue, false) && a in queue
      ensures ItemsOf(queue, a) != map[]
    {
    }

    method DropPending(a: Address, rest: ListView, txs: Items)
      requires Inv(a, map[], {}) && Splits(ItemsOf(pending, a), rest.items, txs) && rest.Valid() && rest.strict
      modifies this`pending, all
      ensures Inv(a, map[], {}) && ItemsOf(pending, a) == rest.items && SameBut(a, old(pending), pending)
    {
      hide TxPool.Inv, SameBut, Splits;
      TakePending(a, rest, txs);
      ForgetAll(a, txs, {});
    }

    /** Moves `txs` from the pending list of `a` back to its queue. */
    method Postpone(a: Address, rest: ListView, txs: Items)
      requires Inv(a, map[], {}) && Splits(ItemsOf(pending, a), rest.items, txs) && rest.Valid() && rest.strict
      modifies this`pending, this`queue, all, priced
      ensures Inv(a, map[], {}) && ItemsOf(pending, a) == rest.items && SameBut(a, old(pending), pending)
      ensures ItemsOf(queue, a) == ItemsOf(old(queue), a) + txs && SameBut(a, old(queue), queue)
    {
      hide TxPool.Inv, SameBut, Splits;
      TakePending(a, rest, txs);
      EnqueueAll(a, txs, {});
    }

    /** Drops what is stale or unpayable from the pending list of `a` and postpones what depended on it. */
    method DemoteAccount(a: Address)
      requires Valid()
      modifies this`pending, this`queue, all, priced
      ensures Valid() && SameBut(a, old(pending), pending) && SameBut(a, old(queue), queue)
      ensures Demotes(ItemsOf(old(pending), a), ItemsOf(old(queue), a), stateNonce(a), balance(a), maxGas,
                      ItemsOf(pending, a), ItemsOf(queue, a))
    {
      hide Filed, Covers, Tidy, SameBut, Splits, Part, Payable, Unpaid, AtLeast, Below, FilterKeeps, FilterInvalidates;
      hide TxLookup.Valid, TxPricedList.Valid, TxLookup.Hashes, TxPricedList.Tracked;
      Rest(0, a);
      var nonce := stateNonce(a);
      Kept(a);
      var list := ListOf(pending, a, true);
      var olds, rest := Below(list.items, nonce), list.With(AtLeast(list.items, nonce));
      SplitsCut(list.items, nonce);
      SplitPart(list.items, rest.items, olds);
      PartValid(list, rest.items);
      DropPending(a, rest, olds);
      ghost var pending1 := pending;
      FilterPending(a);
      SameTrans(a, old(pending), pending1, pending);
      ghost var pending2, queue2 := pending, queue;
      Kept(a);
      list := ListOf(pending, a, true);
      if list.items != map[] && nonce !in list.items {
        SplitsAll(list.items);
        PartValid(list, map[]);
        Postpone(a, list.With(map[]), list.items);
        SameTrans(a, old(pending), pending2, pending);
        SameTrans(a, old(queue), queue2, queue);
      }
      Rest(a, 0);
    }

    /** Drops what is unpayable from the pending list of `a` and postpones what is above it. */
    method FilterPending(a: Address)
      requires Inv(a, map[], {})
      modifies this`pending, this`queue, all, priced
      ensures Inv(a, map[], {}) && SameBut(a, old(pending), pending) && SameBut(a, old(queue), queue)
      ensures ItemsOf(pending, a) == FilterKeeps(true, ItemsOf(old(pending), a), balance(a), maxGas)
      ensures ItemsOf(queue, a)
           == ItemsOf(old(queue), a) + FilterInvalidates(true, ItemsOf(old(pending), a), balance(a), maxGas)
    {
      hide Filed, Covers, Tidy, SameBut, Splits, Part, Payable, Unpaid, FilterKeeps, FilterInvalidates, TxLookup.Valid;
      hide TxPricedList.Valid, TxLookup.Hashes, TxPricedList.Tracked;
      Kept(a);
      var list := ListOf(pending, a, true);
      var cost, gas := balance(a), maxGas;
      var drops, invalids := Unpaid(list.items, cost, gas), FilterInvalidates(true, list.items, cost, gas);
      FilterIgnoresCaps(list, cost, gas);
      SplitsFilter(list.items, cost, gas);
      SplitPart(list.items, Payable(list.items, cost, gas), drops);
      PartValid(list, Payable(list.items, cost, gas));
      DropPending(a, list.With(Payable(list.items, cost, gas)), drops);
      ghost var pending1 := pending;
      SplitsStrict(list.items, cost, gas);
      Postpone(a, list.Filter(cost, gas), invalids);
      SameTrans(a, old(pending), pending1, pending);
    }

    /** Drops the highest pending nonce of `a`. */
    method CapOne(a: Address)
      requires Valid() && |ItemsOf(pending, a)| >= 2
      modifies this`pending, all, priced, pendingNonces
      ensures Valid() && a in LengthsOf(old(pending))
      ensures LengthsOf(pending) == LengthsOf(old(pending))[a := LengthsOf(old(pending))[a] - 1]
      ensures Trimmed(old(pending), pending)
      ensures Spared(stateNonce, old(pending), old(pendingNonces.nonces), pendingNonces.nonces)
      ensures old(Sequential()) ==> Sequential()
      ensures old(Settled()) ==> Settled()
    {
      hide TxPool.Inv, Spared, SameBut, Mixed, MaxKey, Below, Lowest, LengthsOf, NoncesBut, Trimmed, Tidy, CapsOne;
      ghost var nonces := pendingNonces.nonces;
      PendingTidy();
      CutTop(a);
      PendingTidy();
      Fallback();
      CappedOne(Head(), a, nonces, old(pending), queue, pendingNonces.nonces, pending);
    }

    method CutTop(a: Address)
      requires Valid() && |ItemsOf(pending, a)| >= 2
      modifies this`pending, all, priced, pendingNonces
      ensures Valid() && CapsOne(stateNonce, a, old(pendingNonces.nonces), old(pending), pendingNonces.nonces, pending)
    {
      hide Outdated, Filed, Covers, Tidy, SameBut, Splits, Part, MaxKey, Below, Lowest, Excess, NoncesBut;
      hide TxLookup.Valid, TxPricedList.Valid, TxLookup.Hashes, TxPricedList.Tracked;
      Rest(0, a);
      Kept(a);
      var list := ListOf(pending, a, true);
      CapHighest(list.items);
      var top := MaxKey(list.items);
      var caps, rest := Excess(list.items, |list.items| - 1), list.With(Lowest(list.items, |list.items| - 1));
      SplitsCap(list.items, |list.items| - 1);
      SplitPart(list.items, rest.items, caps);
      PartValid(list, rest.items);
      DropPending(a, rest, caps);
      pendingNonces.SetIfLower(a, top);
      Outdate(1, {});
      Rest(a, 0);
    }

    /** One round of `TruncatePending`: drops one transaction of every offender. */
    method CutRound(offenders: seq<Address>, count: nat, ghost l: nat, ghost lens: Lengths) returns (left: nat)
      requires Valid() && LengthsOf(pending) == lens && AllAt(lens, offenders, l) && l >= 2
      requires count == Sum(lens)
      modifies this`pending, all, priced, pendingNonces
      ensures Valid() && LengthsOf(pending) == Lowered(lens, offenders)
      ensures left == Sum(LengthsOf(pending)) && Trimmed(old(pending), pending)
      ensures Spared(stateNonce, old(pending), old(pendingNonces.nonces), pendingNonces.nonces)
      ensures old(Sequential()) ==> Sequential()
      ensures old(Settled()) ==> Settled()
    {
      hide TxPool.Inv, Mixed, LengthsOf, Lowered, AllAt, Sum, Trimmed, Spared;
      left := count;
      LoweredNone(lens);
      TrimmedRefl(pending);
      SparedRefl(stateNonce, pending, pendingNonces.nonces);
      assert offenders[..0] == [];
      for i := 0 to |offenders|
        invariant Valid() && LengthsOf(pending) == Lowered(lens, offenders[..i]) && left == Sum(LengthsOf(pending))
        invariant Trimmed(old(pending), pending)
        invariant Spared(stateNonce, old(pending), old(pendingNonces.nonces), pendingNonces.nonces)
        invariant old(Sequential()) ==> Sequential()
        invariant old(Settled()) ==> Settled()
      {
        ghost var now, before, nonces := LengthsOf(pending), pending, pendingNonces.nonces;
        LoweredMore(lens, offenders, l, i);
        LengthAt(offenders[i]);
        CapOne(offenders[i]);
        SparedTrans(stateNonce, old(pending), before, old(pendingNonces.nonces), nonces, pendingNonces.nonces);
        TrimmedTrans(old(pending), before, pending);
        SumPut(now, offenders[i], l - 1);
        left := left - 1;
      }
      assert offenders[..|offenders|] == offenders;
    }

    lemma LengthAt(a: Address)
      requires a in LengthsOf(pending)
      ensures |ItemsOf(pending, a)| == LengthsOf(pending)[a] && a in pending
    {
    }

    /** Cuts the lists of `group`, which are of equal length, round by round until the pool is within
        its limit or they are down to `floor`. */
    method LowerTo(group: seq<Address>, floor: nat, count: nat, ghost lens: Lengths, ghost l: nat)
      returns (left: nat, ghost l': nat)
      requires Valid() && group != [] && 1 <= floor <= l && GroupAbove(lens, locals, group, floor, l)
      requires LengthsOf(pending) == Level(lens, locals, l) && count == Sum(LengthsOf(pending))
      modifies this`pending, all, priced, pendingNonces
      ensures Valid() && LengthsOf(pending) == Level(lens, locals, l') && left == Sum(LengthsOf(pending))
      ensures floor <= l' <= l && (left <= globalSlots || l' == floor)
      ensures Justified(lens, locals, globalSlots, l, l')
      ensures Trimmed(old(pending), pending)
      ensures Spared(stateNonce, old(pending), old(pendingNonces.nonces), pendingNonces.nonces)
      ensures old(Sequential()) ==> Sequential()
      ensures old(Settled()) ==> Settled()
    {
      hide TxPool.Inv, Mixed, LengthsOf, Lowered, AllAt, Sum, Trimmed, Level, GroupAbove, AtTheTop, Justified, Spared;
      left, l' := count, l;
      TrimmedRefl(pending);
      SparedRefl(stateNonce, pending, pendingNonces.nonces);
      JustifiedStart(lens, locals, globalSlots, l);
      var last := group[|group| - 1];
      AtLength(group, floor, lens, l');
      while left > globalSlots && |pending[last].items| > floor
        invariant Valid() && LengthsOf(pending) == Level(lens, locals, l') && left == Sum(LengthsOf(pending))
        invariant floor <= l' <= l && GroupAbove(lens, locals, group, floor, l')
        invariant last in pending && |pending[last].items| == l'
        invariant Justified(lens, locals, globalSlots, l, l')
        invariant Trimmed(old(pending), pending)
        invariant Spared(stateNonce, old(pending), old(pendingNonces.nonces), pendingNonces.nonces)
        invariant old(Sequential()) ==> Sequential()
        invariant old(Settled()) ==> Settled()
        decreases l'
      {
        ghost var next: nat := l' - 1;
        GroupIsTop(lens, locals, group, floor, l', next);
        JustifiedStep(lens, locals, globalSlots, l, l', next);
        ghost var before, nonces := pending, pendingNonces.nonces;
        left := CutRound(group, left, l', Level(lens, locals, l'));
        SparedTrans(stateNonce, old(pending), before, old(pendingNonces.nonces), nonces, pendingNonces.nonces);
        TrimmedTrans(old(pending), before, pending);
        l' := next;
        AtLength(group, floor, lens, l');
      }
    }

    lemma AtLength(group: seq<Address>, floor: nat, lens: Lengths, l: nat)
      requires GroupAbove(lens, locals, group, floor, l) && group != [] && LengthsOf(pending) == Level(lens, locals, l)
      ensures var a := group[|group| - 1]; a in pending && |pending[a].items| == l
    {
      GroupLength(lens, locals, group, floor, l);
      LengthAt(group[|group| - 1]);
    }

    lemma Sane()
      requires Valid()
      ensures accountSlots >= 1
    {
    }

    /** Cuts the longest lists of remote accounts until the pending transactions are within the limit. */
    method TruncatePending() returns (ghost level: nat)
      requires Valid()
      modifies this`pending, all, priced, pendingNonces
      ensures Valid()
      ensures LengthsOf(pending) == Level(LengthsOf(old(pending)), locals, level)
      ensures Filled(LengthsOf(old(pending)), locals, accountSlots, globalSlots, level) && level >= 1
      ensures Trimmed(old(pending), pending)
      ensures Spared(stateNonce, old(pending), old(pendingNonces.nonces), pendingNonces.nonces)
      ensures old(Sequential()) ==> Sequential()
      ensures old(Settled()) ==> Settled()
    {
      hide TxPool.Inv, Mixed, Sum, Trimmed, Level, GroupAbove, Sharing, Longest, Filled, Spammers, LengthsOf, Justified;
      hide Spared;
      Sane();
      var count := CountAll(pending);
      var lens := LengthsOf(pending);
      TrimmedRefl(pending);
      SparedRefl(stateNonce, pending, pendingNonces.nonces);
      level := accountSlots + Sum(lens);
      SharingStarts(lens, locals, accountSlots, globalSlots, level, count);
      if count <= globalSlots {
        Done(lens, locals, accountSlots, globalSlots, [], Spammers(lens, locals, accountSlots), level, count);
        return;
      }
      var spammers := Spammers(lens, locals, accountSlots);
      var offenders: seq<Address> := [];
      while count > globalSlots && spammers != {}
        invariant Valid() && LengthsOf(pending) == Level(lens, locals, level) && count == Sum(LengthsOf(pending))
        invariant Sharing(lens, locals, accountSlots, globalSlots, offenders, spammers, level, count)
        invariant Trimmed(old(pending), pending)
        invariant Spared(stateNonce, old(pending), old(pendingNonces.nonces), pendingNonces.nonces)
        invariant old(Sequential()) ==> Sequential()
        invariant old(Settled()) ==> Settled()
        decreases |spammers|
      {
        SharingLevel(lens, locals, accountSlots, globalSlots, offenders, spammers, level, count);
        var offender := PopLongest(spammers, lens);
        ghost var before, nonces := pending, pendingNonces.nonces;
        if offenders == [] {
          FirstOffender(lens, locals, accountSlots, globalSlots, spammers, level, count, offender);
          level := lens[offender];
        } else {
          NextOffender(lens, locals, accountSlots, globalSlots, offenders, spammers, level, count, offender);
          LengthAt(offender);
          var threshold := |pending[offender].items|;
          var left;
          ghost var l;
          left, l := LowerTo(offenders, threshold, count, lens, level);
          SparedTrans(stateNonce, old(pending), before, old(pendingNonces.nonces), nonces, pendingNonces.nonces);
          TrimmedTrans(old(pending), before, pending);
          Equalized(lens, locals, accountSlots, globalSlots, offenders, spammers, level, count, offender, l, left);
          count, level := left, l;
        }
        Smaller(spammers, lens, offender);
        assert [] + [offender] == [offender];
        offenders, spammers := offenders + [offender], spammers - {offender};
      }
      SharingLevel(lens, locals, accountSlots, globalSlots, offenders, spammers, level, count);
      if count <= globalSlots {
        Done(lens, locals, accountSlots, globalSlots, offenders, spammers, level, count);
        return;
      }
      AllOffenders(lens, locals, accountSlots, globalSlots, offenders, level, count);
      if offenders == [] {
        level := accountSlots;
      } else {
        ghost var before, nonces := pending, pendingNonces.nonces;
        var left;
        ghost var l;
        left, l := LowerTo(offenders, accountSlots, count, lens, level);
        SparedTrans(stateNonce, old(pending), before, old(pendingNonces.nonces), nonces, pendingNonces.nonces);
        TrimmedTrans(old(pending), before, pending);
        CutToLimit(lens, locals, accountSlots, globalSlots, level, l, left);
        level := l;
      }
    }

    /** Removes a queued transaction. */
    method RemoveQueued(a: Address, tx: Tx)
      requires Valid() && Has(ItemsOf(queue, a), tx)
      modifies this`pending, this`queue, all, priced, pendingNonces
      ensures Valid() && pending == old(pending) && unchanged(pendingNonces)
      ensures ItemsOf(queue, a) == ItemsOf(old(queue), a) - {tx.nonce} && SameBut(a, old(queue), queue)
    {
      hide Filed, Tidy, SameBut, Covers, GenuineEntries, Mixed, AccountFiled, TxLookup.Valid, TxPricedList.Valid;
      hide TxLookup.Hashes, TxPricedList.Tracked;
      Rest(0, a);
      At(a, map[], {});
      QueuedIsKnown(all.origin, all.Hashes(), a, ItemsOf(pending, a), ItemsOf(queue, a), tx);
      ghost var none: set<Hash> := {};
      assert none - {tx.hash} == none;
      RemoveTx(tx.hash, true, 0, none);
    }

    /** Removes all queued transactions of `a`, by rising nonce. */
    method ClearQueue(a: Address)
      requires Valid()
      modifies this`pending, this`queue, all, priced, pendingNonces
      ensures Valid() && pending == old(pending) && unchanged(pendingNonces)
      ensures ItemsOf(queue, a) == map[] && SameBut(a, old(queue), queue)
    {
      hide TxPool.Inv, SameBut, IsFlat, Has, Flat;
      TidyQueue(a);
      var txs := Flat(ItemsOf(queue, a));
      FlatIsFlat(ItemsOf(queue, a));
      SameLists(a, queue);
      assert txs[0..] == txs;
      for i := 0 to |txs|
        invariant Valid() && pending == old(pending) && unchanged(pendingNonces)
        invariant IsFlat(txs[i..], ItemsOf(queue, a)) && SameBut(a, old(queue), queue)
      {
        ghost var before := queue;
        FlatNext(txs, i, ItemsOf(queue, a));
        RemoveQueued(a, txs[i]);
        SameTrans(a, old(queue), before, queue);
      }
      FlatDone(txs, ItemsOf(queue, a));
    }

    lemma TidyQueue(a: Address)
      requires Valid()
      ensures Keyed(ItemsOf(queue, a))
    {
    }

    /** Removes the `drop` highest queued nonces of `a`. */
    method ShortenQueue(a: Address, drop: nat)
      requires Valid() && drop <= |ItemsOf(queue, a)|
      modifies this`pending, this`queue, all, priced, pendingNonces
      ensures Valid() && pending == old(pending) && unchanged(pendingNonces)
      ensures ItemsOf(queue, a) == Lowest(ItemsOf(old(queue), a), |ItemsOf(old(queue), a)| - drop)
      ensures SameBut(a, old(queue), queue)
    {
      hide TxPool.Inv, SameBut, IsFlat, Has, Flat, Lowest;
      TidyQueue(a);
      ghost var q := ItemsOf(queue, a);
      var txs := Flat(ItemsOf(queue, a));
      FlatIsFlat(q);
      FlatUnique(txs, q);
      SameLists(a, queue);
      var i := |txs|;
      assert txs[..i] == txs;
      while i > |txs| - drop
        invariant |txs| - drop <= i <= |txs|
        invariant Valid() && pending == old(pending) && unchanged(pendingNonces)
        invariant IsFlat(txs[..i], ItemsOf(queue, a)) && SameBut(a, old(queue), queue)
      {
        ghost var before := queue;
        var next := i - 1;
        FlatLast(txs, i, next, ItemsOf(queue, a));
        RemoveQueued(a, txs[next]);
        SameTrans(a, old(queue), before, queue);
        i := next;
      }
      LowestComeFirst(q, i, ItemsOf(queue, a));
    }

    /** Drops up to `drop` queued transactions of `addr`; `rest` is what others still have to give. */
    method DrainAccount(addr: Address, drop: nat) returns (rest: nat, ghost keep: nat)
      requires Valid()
      modifies this`pending, this`queue, all, priced, pendingNonces
      ensures Valid() && pending == old(pending) && unchanged(pendingNonces) && SameBut(addr, old(queue), queue)
      ensures keep <= |ItemsOf(old(queue), addr)| && ItemsOf(queue, addr) == Lowest(ItemsOf(old(queue), addr), keep)
      ensures rest + |ItemsOf(old(queue), addr)| == drop + keep && (rest > 0 ==> keep == 0)
    {
      hide TxPool.Inv, SameBut, Lowest;
      var size := |ItemsOf(queue, addr)|;
      if size <= drop {
        LowestNone(ItemsOf(queue, addr));
        ClearQueue(addr);
        rest, keep := drop - size, 0;
      } else {
        keep := size - drop;
        ShortenQueue(addr, drop);
        rest := 0;
      }
    }

    /** Drops queued transactions of remote accounts, most of them account by account, until the queue
        is within its limit. The order of the accounts is that of their heartbeats. */
    method TruncateQueue()
      requires Valid()
      modifies this`pending, this`queue, all, priced, pendingNonces
      ensures Valid() && pending == old(pending) && unchanged(pendingNonces)
      ensures var total, ours := Sum(LengthsOf(old(queue))), Sum(Within(LengthsOf(old(queue)), locals));
              Sum(LengthsOf(queue))
              == if total <= globalQueue then total else if globalQueue < ours then ours else globalQueue
      ensures Trimmed(old(queue), queue)
      ensures forall a :: a in locals ==> ItemsOf(queue, a) == ItemsOf(old(queue), a)
      ensures Sum(LengthsOf(old(queue))) <= globalQueue ==> queue == old(queue)
      ensures old(Settled()) ==> Settled()
      ensures old(Sequential()) ==> Sequential()
    {
      hide Mixed, TxPool.Inv, LengthsOf, Trimmed, Sum, Within, SameBut, Lowest, Draining, Tidy;
      var queued := CountAll(queue);
      TrimmedRefl(queue);
      if queued <= globalQueue {
        return;
      }
      var addresses := queue.Keys - locals;
      var drop: nat := queued - globalQueue;
      QueueTidy();
      DrainStart(queue, locals, globalQueue, drop);
      while drop > 0 && addresses != {}
        invariant Valid() && pending == old(pending) && unchanged(pendingNonces)
        invariant Draining(old(queue), queue, locals, addresses, globalQueue, drop)
        decreases addresses
      {
        var addr :| addr in addresses;
        ghost var before := queue;
        var rest;
        ghost var keep;
        rest, keep := DrainAccount(addr, drop);
        QueueTidy();
        DrainStep(old(queue), before, queue, locals, addresses, globalQueue, drop, addr, keep, rest);
        drop, addresses := rest, addresses - {addr};
      }
      Drained(old(queue), queue, locals, addresses, globalQueue, drop);
      DrainedLocals(old(queue), queue, locals, addresses, globalQueue, drop);
      if old(Settled()) { QueueTrimmed(Demoted, Head(), pendingNonces.nonces, pending, old(queue), queue); }
      if old(Sequential()) { QueueTrimmed(Running, Head(), pendingNonces.nonces, pending, old(queue), queue); }
    }

    lemma QueueTidy()
      requires Valid()
      ensures Tidy(queue, false)
    {
    }

    /** Promotes the executable transactions of the given accounts. */
    method PromoteExecutables(accounts: set<Address>, ghost ph: Phase, ghost ph': Phase)
      requires Valid() && Onward(ph, ph')
      modifies this`pending, this`queue, all, priced, pendingNonces
      ensures Valid()
      ensures old(In(ph)) && (ph == Running || old(queue).Keys <= accounts) ==> In(ph')
      ensures PromotedAll(Head(), locals, accountQueue, accounts, old(pendingNonces.nonces), old(pending), old(queue),
                          pendingNonces.nonces, pending, queue)
    {
      hide TxPool.Inv, SameBut, NoncesBut, Promotes, Mixed, Onward, Tidy, PromotedAt, PromotedAll;
      var left := accounts;
      ghost var done: set<Address> := {};
      PromotedNone(Head(), locals, accountQueue, pendingNonces.nonces, pending, queue);
      if old(In(ph)) { StartMixed(ph, ph', Head(), pendingNonces.nonces, pending, queue); }
      while left != {}
        invariant Valid() && left !! done && left + done == accounts
        invariant old(In(ph)) ==> Mixed(ph, ph', done, Head(), pendingNonces.nonces, pending, queue)
        invariant forall a :: a in queue ==> a in old(queue) || a in done
        invariant PromotedAll(Head(), locals, accountQueue, done, old(pendingNonces.nonces), old(pending), old(queue),
                              pendingNonces.nonces, pending, queue)
        decreases left
      {
        var addr :| addr in left;
        ghost var p, q, nonces := pending, queue, pendingNonces.nonces;
        QueueTidy();
        Fallback();
        EmptyIfAbsent(queue, addr);
        PromoteAccount(addr);
        QueueTidy();
        KeysBut(q, queue, addr, false);
        if old(In(ph)) {
          PromoteStep(ph, ph', done, Head(), locals, accountQueue, addr, nonces, p, q, pendingNonces.nonces, pending,
                      queue);
        }
        PromotedMore(Head(), locals, accountQueue, done, addr, old(pendingNonces.nonces), old(pending), old(queue),
                     nonces, p, q, pendingNonces.nonces, pending, queue);
        left, done := left - {addr}, done + {addr};
      }
      assert done == accounts;
      if old(In(ph)) && (ph == Running || old(queue).Keys <= accounts) {
        AllPromoted(ph, ph', done, Head(), pendingNonces.nonces, pending, queue);
      }
    }

    /** Demotes what the new head made stale or unpayable. */
    method DemoteUnexecutables()
      requires Valid()
      modifies this`pending, this`queue, all, priced
      ensures Valid()
      ensures old(In(Promoted)) ==> Settled()
      ensures DemotedAll(Head(), old(pending).Keys, old(pending), old(queue), pending, queue)
    {
      hide TxPool.Inv, SameBut, Demotes, Mixed, Tidy;
      var left := pending.Keys;
      ghost var done: set<Address> := {};
      if old(In(Promoted)) { StartMixed(Promoted, Demoted, Head(), pendingNonces.nonces, pending, queue); }
      while left != {}
        invariant Valid() && left !! done
        invariant old(In(Promoted)) ==> Mixed(Promoted, Demoted, done, Head(), pendingNonces.nonces, pending, queue)
        invariant forall a :: a in pending ==> a in left || a in done
        invariant left + done == old(pending).Keys && DemotedAll(Head(), done, old(pending), old(queue), pending, queue)
        decreases left
      {
        var addr :| addr in left;
        ghost var p, q := pending, queue;
        PendingTidy();
        DemoteAccount(addr);
        PendingTidy();
        KeysBut(p, pending, addr, true);
        if old(In(Promoted)) {
          DemoteStep(done, Head(), addr, pendingNonces.nonces, p, q, pending, queue);
        }
        DemotedMore(Head(), done, addr, old(pending), old(queue), p, q, pending, queue);
        left, done := left - {addr}, done + {addr};
      }
      assert done == old(pending).Keys;
      if old(In(Promoted)) { AllDemoted(done, Head(), pendingNonces.nonces, pending, queue); }
    }

    lemma Fallback()
      requires Valid()
      ensures pendingNonces.fallback == stateNonce
    {
    }

    lemma PendingTidy()
      requires Valid()
      ensures Tidy(pending, true)
    {
    }

    lemma NumberedNone()
      ensures Numbered(Head(), {}, pending, pendingNonces.nonces, pendingNonces.nonces)
    {
    }

    /** Sets every virtual nonce past the last pending transaction. */
    method UpdateNonces()
      requires Valid()
      modifies pendingNonces
      ensures Valid() && pendingNonces.fallback == old(pendingNonces.fallback)
      ensures Numbered(Head(), pending.Keys, pending, old(pendingNonces.nonces), pendingNonces.nonces)
      ensures old(Settled()) ==> Sequential()
    {
      hide Filed, Covers, SameBut, NoncesBut, Mixed, Tidy, Top, Numbered, TxLookup.Valid, TxPricedList.Valid;
      hide TxLookup.Hashes, TxPricedList.Tracked;
      var left := pending.Keys;
      assert Numbered(Head(), {}, pending, pendingNonces.nonces, pendingNonces.nonces) by {
        NumberedNone();
      }
      ghost var done: set<Address> := {};
      if old(Settled()) { StartMixed(Demoted, Running, Head(), pendingNonces.nonces, pending, queue); }
      while left != {}
        invariant Valid() && left !! done && left + done == pending.Keys
        invariant old(Settled()) ==> Mixed(Demoted, Running, done, Head(), pendingNonces.nonces, pending, queue)
        invariant Numbered(Head(), done, pending, old(pendingNonces.nonces), pendingNonces.nonces)
        decreases left
      {
        var addr :| addr in left;
        ghost var nonces := pendingNonces.nonces;
        ListOfIs(pending, addr, true);
        pendingNonces.Set(addr, Top(pending[addr].items));
        if old(Settled()) {
          NonceStep(done, Head(), addr, nonces, pending, queue, pendingNonces.nonces);
        }
        NumberedMore(Head(), done, addr, pending, old(pendingNonces.nonces), nonces, pendingNonces.nonces);
        left, done := left - {addr}, done + {addr};
      }
      if old(Settled()) { AllRunning(done, Head(), pendingNonces.nonces, pending, queue); }
    }

    /** Adds transactions one by one; `forced` marks wormholes transactions of type 30, which always
        count as local. `rules` is what validateTx says of a transaction, apart from its nonce and size. */
    method AddTxs(txs: seq<Tx>, local: bool, rules: Tx -> Checks, forced: Tx -> bool)
      returns (errs: seq<Option<AddError>>, dirty: set<Address>, ghost log: seq<Entry>)
      requires Valid() && Originals(all.origin, txs)
      modifies this`pending, this`queue, this`locals, all, priced, pendingNonces
      ensures Valid()
      ensures (old(Sequential()) ==> Sequential()) && (old(In(Moved)) ==> In(Moved))
      ensures |errs| == |txs|
      ensures forall a :: a in dirty ==> exists i :: 0 <= i < |txs| && errs[i] == None && txs[i].sender == a
      ensures txs == [] ==> Now() == old(Now())
      ensures Enters(old(all.Hashes()), txs, errs, all.Hashes())
      ensures Refilled(stateNonce, old(Now()), txs, log, Policy(rules, local, forced, priceBump), Now())
      ensures |log| == |txs| && forall i :: 0 <= i < |log| ==> errs[i] == log[i].err
      ensures old(all.slots) + DropSlots(txs) <= Capacity() ==> Quiet(log)
    {
      hide TxPool.Inv, Mixed, Originals, Inserts, Twinless, Enters, TxLookup.Hashes, TxPricedList.Tracked, Slots;
      hide Counted, TxPool.Gives, TxPricedList.Outpriced, Refilled, Steps, Explains, Quiet, DropSlots, NumSlots, Roomy;
      hide AllEvictable;
      errs, dirty, log := [], {}, [];
      ghost var how := Policy(rules, local, forced, priceBump);
      EntersNone(all.Hashes(), txs);
      RefilledNone(stateNonce, Now(), txs, how);
      RoomyNone(txs, all.slots, Capacity());
      for i := 0 to |txs|
        invariant Valid() && (old(Sequential()) ==> Sequential()) && (old(In(Moved)) ==> In(Moved))
        invariant |errs| == i
        invariant forall a :: a in dirty ==> exists j :: 0 <= j < i && errs[j] == None && txs[j].sender == a
        invariant i == 0 ==> Now() == old(Now())
        invariant Enters(old(all.Hashes()), txs, errs, all.Hashes())
        invariant |log| == i && forall j :: 0 <= j < i ==> errs[j] == log[j].err
        invariant Refilled(stateNonce, old(Now()), txs, log, how, Now())
        invariant Roomy(txs, old(all.slots), Capacity(), log, all.slots)
      {
        OriginalAt(all.origin, txs, i);
        ghost var known, now, slots := all.Hashes(), Now(), all.slots;
        var replaced, err;
        ghost var drop;
        replaced, err, drop := Add(txs[i], local || forced(txs[i]), rules(txs[i]));
        ghost var e := Entry(err, drop);
        EntersMore(old(all.Hashes()), txs, errs, known, err, all.Hashes());
        RefilledMore(stateNonce, old(Now()), txs, log, how, now, e, Now());
        RoomyMore(txs, old(all.slots), Capacity(), log, slots, e, all.slots);
        errs, log := errs + [err], log + [e];
        if err == None && !replaced {
          dirty := dirty + {txs[i].sender};
        }
      }
      RoomyAll(txs, old(all.slots), Capacity(), log, all.slots);
    }

    /** Moves the pool to a new head, putting back what an abandoned branch had included. */
    method ResetTo(r: ResetRequest, ghost genesis: Hash)
      returns (ghost outcome: Outcome, ghost log: seq<Entry>, ghost errs: seq<Option<AddError>>)
      requires Valid() && r.Sane() && forall tx :: tx in StoreTxs(r.store) ==> all.origin(tx.hash) == tx
      modifies this`pending, this`queue, this`locals, this`pendingNonces, this`stateNonce, this`balance, this`maxGas,
               all, priced, pendingNonces
      ensures Valid() && (pendingNonces == old(pendingNonces) || fresh(pendingNonces))
      ensures Lands(r, genesis, old(Head()), old(Now()), priceBump, outcome, log, Head(), Now())
      ensures if outcome.Abort? || r.state.None? then unchanged(all) && pendingNonces == old(pendingNonces)
              else Enters(old(all.Hashes()), outcome.reinject, errs, all.Hashes())
      ensures outcome.Proceed? && old(all.slots) + DropSlots(outcome.reinject) <= Capacity() ==> Quiet(log)
      ensures (&& r.state.Some? && outcome == Proceed([]) && old(Sequential())
               && forall a :: old(stateNonce)(a) <= r.state.value.nonce(a)) ==> In(Reset)
      ensures old(Sequential()) ==> In(Moved)
    {
      hide TxPool.Inv, Mixed, AllFrom, Originals, TxsAbove, HighestCommon, TxDifference, Enters, Refilled, Quiet;
      hide DropSlots;
      log, errs := [], [];
      var back := Reinjected(r.store, r.oldHead, r.newHead, genesis);
      outcome := back;
      if old(Sequential()) {
        AnyHeadMoved(Head(), Head(), pendingNonces.nonces, pending, queue);
      }
      NoneIsQuiet();
      if back.Abort? || r.state.None? {
        return;
      }
      MoveHead(r.state.value);
      FromOrigin(r.store, all.origin, back.reinject);
      ghost var moved := Now();
      var added, dirty;
      added, dirty, log := AddTxs(back.reinject, false, r.rules, r.forced);
      errs := added;
    }

    /** Adopts the state of a new head; the virtual nonces start over from it. */
    method MoveHead(env: Env)
      requires Valid()
      modifies this`pendingNonces, this`stateNonce, this`balance, this`maxGas
      ensures Valid() && fresh(pendingNonces) && Head() == env && Now() == old(Now()).(nonces := map[])
      ensures old(Sequential()) ==> In(Moved)
      ensures old(Sequential()) && (forall a :: old(stateNonce)(a) <= env.nonce(a)) ==> In(Reset)
    {
      hide Filed, Covers, Tidy, Mixed, TxLookup.Valid, TxPricedList.Valid, TxLookup.Hashes, TxPricedList.Tracked;
      ghost var before, nonces := Head(), pendingNonces.nonces;
      stateNonce, balance, maxGas := env.nonce, env.balance, env.maxGas;
      pendingNonces := new TxNoncer(env.nonce);
      if old(Sequential()) {
        AnyHeadMoved(before, env, nonces, pending, queue);
      }
      if old(Sequential()) && forall a :: before.nonce(a) <= env.nonce(a) {
        HeadMoved(before, env, nonces, pending, queue);
      }
    }

    /** No nonce is both pending and queued. */
    lemma Apartness()
      requires Valid()
      ensures Disjoint(pending, queue)
    {
      hide Tidy, Covers, TxPricedList.Valid, TxLookup.Valid, TxLookup.Hashes, Filed;
      forall a
        ensures Once(ItemsOf(pending, a), ItemsOf(queue, a), map[])
      {
        Rest(0, a);
        At(a, map[], {});
      }
    }

    /** With room for what is put back, the accounts before promotion are a function of what they were and of it. */
    ghost predicate Determined(r: ResetRequest, before: Found, f: Followed)
      reads this
    {
      f.outcome.Proceed? && r.state.Some? ==>
        forall a :: f.found.At(stateNonce, a)
                 == PutAll(before.(nonces := map[]).At(stateNonce, a), a, stateNonce(a), f.outcome.reinject,
                           r.Handling(priceBump))
    }

    /**
      * A run of the reorg loop: a reset if there is one, then promotion, demotion and truncation. What is
      * pending in the end, and the virtual nonces, are functions of `found`, the accounts right before
      * promotion, and of the water level. The nonces are in sequence after a reset exactly if no account
      * was in trouble then.
      */
    method RunReorg(reset: Option<ResetRequest>, dirty: set<Address>, ghost genesis: Hash) returns (ghost f: Followed)
      requires Valid()
      requires reset.Some? ==>
                reset.value.Sane() && forall tx :: tx in StoreTxs(reset.value.store) ==> all.origin(tx.hash) == tx
      modifies this`pending, this`queue, this`locals, this`pendingNonces, this`stateNonce, this`balance, this`maxGas,
               all, priced, pendingNonces
      ensures Valid() && (pendingNonces == old(pendingNonces) || fresh(pendingNonces))
      ensures Fair(LengthsOf(pending), locals, accountSlots, globalSlots)
      ensures Fair(LengthsOf(queue), locals, 0, globalQueue)
      ensures forall a :: a in pending ==> pendingNonces.Of(a) == Top(pending[a].items)
      ensures reset.None? ==> Head() == old(Head()) && (old(Sequential()) ==> Sequential())
      ensures reset.Some? ==>
                && Lands(reset.value, genesis, old(Head()), old(Now()), priceBump, f.outcome, f.log, Head(), f.found)
                && (f.outcome.Proceed? && old(all.slots) + DropSlots(f.outcome.reinject) <= Capacity() ==>
                      Determined(reset.value, old(Now()), f))
      ensures reset.Some? ==>
                && f.found.locals == locals
                && Filled(SurvivorLengths(Head(), f.found), locals, accountSlots, globalSlots, f.level)
                && forall a :: EndsAt(Head(), f.found, f.level, pendingNonces.nonces, pending, a)
      ensures reset.Some? && old(Sequential()) ==>
                (Sequential() <==> forall a :: !TroubledAt(Head(), f.found, f.level, a))
      ensures reset.Some? && reset.value.Extends() ==>
                Head() == reset.value.state.value && f.found == old(Now()).(nonces := map[])
      ensures (&& reset.Some? && reset.value.Extends() && old(Sequential())
               && forall a :: old(stateNonce)(a) <= reset.value.state.value.nonce(a)) ==> Sequential()
    {
      hide TxPool.Inv, Mixed, Originals, ResetRequest.Sane, Fair, PromotedAll, DemotedAll, Top, Lands, Filled;
      hide SurvivorLengths, EndsAt, TroubledAt, DropSlots, TxPool.Determined;
      if reset.Some? {
        f := FollowHead(reset.value, genesis);
      } else {
        PromoteExecutables(dirty, Running, Running);
        if old(Sequential()) { RunningIsDemoted(Head(), pendingNonces.nonces, pending, queue); }
        ghost var level := Truncate();
        f := Followed(Abort, [], Now(), level);
      }
    }

    method FollowHead(r: ResetRequest, ghost genesis: Hash) returns (ghost f: Followed)
      requires Valid() && r.Sane() && forall tx :: tx in StoreTxs(r.store) ==> all.origin(tx.hash) == tx
      modifies this`pending, this`queue, this`locals, this`pendingNonces, this`stateNonce, this`balance, this`maxGas,
               all, priced, pendingNonces
      ensures Valid() && (pendingNonces == old(pendingNonces) || fresh(pendingNonces))
      ensures Fair(LengthsOf(pending), locals, accountSlots, globalSlots)
      ensures Fair(LengthsOf(queue), locals, 0, globalQueue)
      ensures forall a :: a in pending ==> pendingNonces.Of(a) == Top(pending[a].items)
      ensures Lands(r, genesis, old(Head()), old(Now()), priceBump, f.outcome, f.log, Head(), f.found)
      ensures f.outcome.Proceed? && old(all.slots) + DropSlots(f.outcome.reinject) <= Capacity() ==>
                Determined(r, old(Now()), f)
      ensures f.found.locals == locals
      ensures Filled(SurvivorLengths(Head(), f.found), locals, accountSlots, globalSlots, f.level)
      ensures forall a :: EndsAt(Head(), f.found, f.level, pendingNonces.nonces, pending, a)
      ensures old(Sequential()) ==> (Sequential() <==> forall a :: !TroubledAt(Head(), f.found, f.level, a))
      ensures r.Extends() ==> Head() == r.state.value && f.found == old(Now()).(nonces := map[])
      ensures r.Extends() && old(Sequential()) && (forall a :: old(stateNonce)(a) <= r.state.value.nonce(a)) ==>
                Sequential()
    {
      hide TxPool.Inv, Mixed, Originals, ResetRequest.Sane, Fair, PromotedAll, DemotedAll, Top, FinishedAll, TroubledAt;
      hide Disjoint, Tidy, Lands, Quiet, DropSlots, Filled, SurvivorLengths, EndsAt, TxPool.Determined;
      ghost var outcome, log, found, nonces1, pending1, queue1 := Reposition(r, genesis);
      ghost var pending2, queue2 := pending, queue;
      PendingTidy();
      ghost var level := Truncate();
      f := Followed(outcome, log, found, level);
      LengthsAre(Head(), accountQueue, found, nonces1, pending1, queue1, pending2, queue2);
      AllEnd(Head(), accountQueue, found, level, nonces1, pending1, queue1, pending2, queue2, pendingNonces.nonces,
             pending, queue);
      if old(Sequential()) {
        AllOutcomes(Head(), accountQueue, found, level, nonces1, pending1, queue1, pending2, queue2,
                    pendingNonces.nonces, pending, queue);
      }
      if Quiet(log) {
        QuietIsDetermined(r, genesis, old(Head()), old(Now()), f);
      }
    }

    /** A reset up to truncation. */
    method Reposition(r: ResetRequest, ghost genesis: Hash)
      returns (ghost outcome: Outcome, ghost log: seq<Entry>, ghost found: Found,
               ghost nonces1: map<Address, nat>, ghost pending1: Lists, ghost queue1: Lists)
      requires Valid() && r.Sane() && forall tx :: tx in StoreTxs(r.store) ==> all.origin(tx.hash) == tx
      modifies this`pending, this`queue, this`locals, this`pendingNonces, this`stateNonce, this`balance, this`maxGas,
               all, priced, pendingNonces
      ensures Valid() && (pendingNonces == old(pendingNonces) || fresh(pendingNonces))
      ensures Lands(r, genesis, old(Head()), old(Now()), priceBump, outcome, log, Head(), found)
      ensures found.locals == locals
      ensures outcome.Proceed? && old(all.slots) + DropSlots(outcome.reinject) <= Capacity() ==> Quiet(log)
      ensures PromotedAll(Head(), locals, accountQueue, found.queue.Keys, found.nonces, found.pending, found.queue,
                          nonces1, pending1, queue1)
      ensures Tidy(pending1, true) && DemotedAll(Head(), pending1.Keys, pending1, queue1, pending, queue)
      ensures pendingNonces.nonces == nonces1 && Disjoint(found.pending, found.queue)
      ensures old(Sequential()) ==> AllIn(Moved, Head(), found.nonces, found.pending, found.queue)
      ensures r.Extends() ==> Head() == r.state.value && found == old(Now()).(nonces := map[])
      ensures r.Extends() && old(Sequential()) && (forall a :: old(stateNonce)(a) <= r.state.value.nonce(a)) ==>
                Settled()
    {
      hide TxPool.Inv, Mixed, Originals, ResetRequest.Sane, PromotedAll, DemotedAll, Disjoint, Tidy, Lands, Quiet;
      hide DropSlots, Enters, TxLookup.Hashes;
      ghost var errs;
      outcome, log, errs := ResetTo(r, genesis);
      found := Now();
      LandsWhere(r, genesis, old(Head()), old(Now()), priceBump, outcome, log, Head(), found);
      Apartness();
      PromoteExecutables(queue.Keys, Reset, Promoted);
      nonces1, pending1, queue1 := pendingNonces.nonces, pending, queue;
      PendingTidy();
      DemoteUnexecutables();
      if r.baseFee.Some? {
        Rebase(r.baseFee.value);
      }
    }

    lemma QuietIsDetermined(r: ResetRequest, genesis: Hash, env: Env, before: Found, f: Followed)
      requires Lands(r, genesis, env, before, priceBump, f.outcome, f.log, Head(), f.found) && Quiet(f.log)
      ensures Determined(r, before, f)
    {
      hide Refilled, PutsBack, PutAll, Quiet, Found.At;
      if f.outcome.Proceed? && r.state.Some? {
        RefilledIsPut(stateNonce, before.(nonces := map[]), f.outcome.reinject, f.log, r.Handling(priceBump), f.found);
      }
    }

    /** The end of a reorg run: both limits enforced, then the virtual nonces updated. */
    method Truncate() returns (ghost level: nat)
      requires Valid()
      modifies this`pending, this`queue, all, priced, pendingNonces
      ensures Valid()
      ensures Fair(LengthsOf(pending), locals, accountSlots, globalSlots)
      ensures Fair(LengthsOf(queue), locals, 0, globalQueue)
      ensures forall a :: a in pending ==> pendingNonces.Of(a) == Top(pending[a].items)
      ensures Filled(LengthsOf(old(pending)), locals, accountSlots, globalSlots, level)
      ensures FinishedAll(stateNonce, locals, level, old(pendingNonces.nonces), old(pending), old(queue),
                          pendingNonces.nonces, pending, queue)
      ensures old(Settled()) ==> Sequential()
    {
      hide TxPool.Inv, Mixed, Fair, Filled, Level, LengthsOf, Sum, Within, Trimmed, Tidy, Top, Spared, Numbered;
      hide FinishedAll;
      ghost var lens := LengthsOf(pending);
      PendingTidy();
      Sane();
      level := TruncatePending();
      FilledIsFair(lens, locals, accountSlots, globalSlots, level);
      ghost var before, nonces := queue, pendingNonces.nonces;
      QueueTidy();
      TruncateQueue();
      QueueTidy();
      DrainedIsFair(before, queue, locals, globalQueue);
      UpdateNonces();
      Fallback();
      PendingTidy();
      NumberedIs(Head(), pending, nonces, pendingNonces.nonces);
      TruncatedFinishes(Head(), locals, level, old(pendingNonces.nonces), old(pending), old(queue), nonces,
                        pendingNonces.nonces, pending, queue);
    }

    /** A new base fee reorders the price heaps. */
    method Rebase(fee: int)
      requires Valid()
      modifies priced
      ensures Valid()
    {
      hide Filed, Covers, Tidy, TxLookup.Valid, TxPricedList.Valid, TxLookup.Hashes;
      priced.SetBaseFee(fee);
      AllCovered(all.remotes, {});
    }

    /** Removes a transaction between two other operations. */
    method RemoveOne(hash: Hash, outofbound: bool)
      requires Valid()
      modifies this`pending, this`queue, all, priced, pendingNonces
      ensures Valid() && all.Hashes() == old(all.Hashes()) - {hash}
      ensures old(Sequential()) ==> Sequential()
      ensures all.remotes == old(all.remotes) - {hash} && priced.baseFee == old(priced.baseFee)
      ensures all.slots == old(all.slots) - if hash in old(all.Hashes()) then NumSlots(all.origin(hash)) else 0
      ensures if outofbound && hash in old(all.Hashes()) then
                Outdated(all.remotes, old(priced.urgent), old(priced.floating), old(priced.stales), 1,
                         priced.urgent, priced.floating, priced.stales)
              else unchanged(priced)
      ensures old(Untwinned()) ==> Untwinned()
    {
      hide TxPool.Inv, Mixed, CutOut, SameBut, Outdated, Twinless;
      var none: set<Hash> := {};
      assert none - {hash} == none;
      ghost var was := Register();
      RemoveTx(hash, outofbound, 0, none);
      OutdatedIs(all.remotes, old(priced.urgent), old(priced.floating), old(priced.stales), 1,
                 priced.urgent, priced.floating, priced.stales);
      RemovalTwinless(was.remotes, was.tracked, hash, priced.Tracked());
    }

    /** What a client or the reorg loop asks of the pool is about genuine transactions and blocks. */
    ghost predicate Genuine(op: Op) {
      match op
      case AddOp(txs, _, _, _) => Originals(all.origin, txs)
      case RemoveOp(_, _) => true
      case ReorgOp(reset, _) =>
        reset.Some? ==>
          && reset.value.Sane()
          && forall tx :: tx in StoreTxs(reset.value.store) ==> all.origin(tx.hash) == tx
    }

    /** One operation. */
    method Apply(op: Op, ghost genesis: Hash)
      requires Valid() && Genuine(op)
      modifies this, all, priced, pendingNonces
      ensures Valid() && (pendingNonces == old(pendingNonces) || fresh(pendingNonces))
      ensures old(Sequential()) && Mild(old(Head()), op) ==> Sequential() && Head() == HeadBy(old(Head()), op)
    {
      hide TxPool.Inv, Mixed, Originals, ResetRequest.Sane, TroubledAt, Lands, Refilled, EndsAt, Filled;
      hide SurvivorLengths, TxPool.Determined, DropSlots, Quiet, Enters, TxLookup.Hashes, Fair, Top, Outdated, Twinless;
      match op
      case AddOp(txs, local, rules, forced) =>
        var errs, dirty;
        ghost var log;
        errs, dirty, log := AddTxs(txs, local, rules, forced);
      case RemoveOp(hash, outofbound) =>
        RemoveOne(hash, outofbound);
      case ReorgOp(reset, dirty) =>
        ghost var f := RunReorg(reset, dirty, genesis);
    }

    /**
      * Any run of the pool keeps its structures in agreement. It keeps the nonces in sequence if every new
      * head follows the one before and lowers no nonce, in particular if there is none.
      */
    method Execute(ops: seq<Op>, ghost genesis: Hash)
      requires Valid() && forall i :: 0 <= i < |ops| ==> Genuine(ops[i])
      modifies this, all, priced, pendingNonces
      ensures Valid() && (pendingNonces == old(pendingNonces) || fresh(pendingNonces))
      ensures old(Sequential()) && Follows(old(Head()), ops) ==> Sequential() && Head() == HeadAfter(old(Head()), ops)
      ensures old(Sequential()) && (forall i :: 0 <= i < |ops| ==> !ops[i].NewHead()) ==> Sequential()
    {
      hide TxPool.Inv, Mixed, TxPool.Genuine, Mild, HeadBy;
      ghost var start := Head();
      assert ops[..0] == [];
      for i := 0 to |ops|
        invariant Valid() && (pendingNonces == old(pendingNonces) || fresh(pendingNonces))
        invariant old(Sequential()) && Follows(start, ops[..i]) ==> Sequential() && Head() == HeadAfter(start, ops[..i])
      {
        assert ops[..i + 1][..i] == ops[..i];
        Apply(ops[i], genesis);
      }
      assert ops[..|ops|] == ops;
      if forall i :: 0 <= i < |ops| ==> !ops[i].NewHead() {
        NoneFollow(start, ops);
      }
    }
  }

  /** A new head follows the one before and lowers no nonce. */
  ghost predicate Mild(env: Env, op: Op) {
    op.NewHead() ==> op.reset.value.Extends() && forall a :: env.nonce(a) <= op.reset.value.state.value.nonce(a)
  }

  ghost function HeadBy(env: Env, op: Op): Env {
    if op.NewHead() && op.reset.value.state.Some? then op.reset.value.state.value else env
  }

  /** The state of the last head that a run of the pool has seen. */
  ghost function HeadAfter(env: Env, ops: seq<Op>): Env {
    if ops == [] then env else HeadBy(HeadAfter(env, ops[..|ops| - 1]), ops[|ops| - 1])
  }

  /** Every new head follows the one before and lowers no nonce. */
  ghost predicate Follows(env: Env, ops: seq<Op>) {
    ops == [] ||
      (Follows(env, ops[..|ops| - 1]) && Mild(HeadAfter(env, ops[..|ops| - 1]), ops[|ops| - 1]))
  }

  lemma {:induction false} NoneFollow(env: Env, ops: seq<Op>)
    requires forall i :: 0 <= i < |ops| ==> !ops[i].NewHead()
    ensures Follows(env, ops)
  {
    if ops != [] {
      NoneFollow(env, ops[..|ops| - 1]);
    }
  }

  /** Of what is known after adding the first `|errs|` transactions, those that were not known before are accepted
      ones. */
  ghost predicate Enters(known: set<Hash>, txs: seq<Tx>, errs: seq<Option<AddError>>, known': set<Hash>) {
    && |errs| <= |txs|
    && forall h :: h in known' && h !in known ==>
         exists i :: 0 <= i < |errs| && errs[i] == None && txs[i].hash == h
  }

  lemma EntersNone(known: set<Hash>, txs: seq<Tx>)
    ensures Enters(known, txs, [], known)
  {
  }

  lemma EntersMore(known: set<Hash>, txs: seq<Tx>, errs: seq<Option<AddError>>, known1: set<Hash>,
                   err: Option<AddError>, known': set<Hash>)
    requires Enters(known, txs, errs, known1) && |errs| < |txs|
    requires known' <= known1 + if err == None then {txs[|errs|].hash} else {}
    ensures Enters(known, txs, errs + [err], known')
  {
    var errs' := errs + [err];
    forall h | h in known' && h !in known
      ensures exists i :: 0 <= i < |errs'| && errs'[i] == None && txs[i].hash == h
    {
      if h in known1 {
        var i :| 0 <= i < |errs| && errs[i] == None && txs[i].hash == h;
        assert errs'[i] == None;
      } else {
        assert errs'[|errs|] == None && txs[|errs|].hash == h;
      }
    }
  }

  /** One locked step of the pool. */
  datatype Op =
    | AddOp(txs: seq<Tx>, local: bool, rules: Tx -> Checks, forced: Tx -> bool)
    | RemoveOp(hash: Hash, outofbound: bool)
    | ReorgOp(reset: Option<ResetRequest>, dirty: set<Address>)
  {
    predicate NewHead() {
      ReorgOp? && reset.Some?
    }
  }

  /** What a new chain head brings: the blocks, the two heads, the new state and the next base fee. */
  datatype ResetRequest = ResetRequest(store: Store, oldHead: Option<Header>, newHead: Header, state: Option<Env>,
                                       rules: Tx -> Checks, forced: Tx -> bool, baseFee: Option<int>)
  {
    ghost predicate Sane() {
      StoredByHash(store) && newHead.hash in store && store[newHead.hash].header == newHead
    }

    /** What is put back is added as if it came from other nodes. */
    function Handling(bump: nat): Policy {
      Policy(rules, false, forced, bump)
    }

    /** The new head is a child of the old one and its state is at hand. */
    predicate Extends() {
      state.Some? && (oldHead.None? || oldHead.value.hash == newHead.parent)
    }
  }

  /** What a run of the reorg loop with a reset went through. */
  datatype Followed = Followed(outcome: Outcome, log: seq<Entry>, found: Found, level: nat)

  /**
    * What a reset makes of the accounts: nothing when it gives up; otherwise the virtual nonces start over
    * from the new state, and what is put back is added as the log says.
    */
  ghost predicate Lands(r: ResetRequest, genesis: Hash, env: Env, before: Found, bump: nat, outcome: Outcome,
                        log: seq<Entry>,
                        env': Env, found: Found) {
    && r.Sane() && PutsBack(r.store, r.oldHead, r.newHead, genesis, outcome)
    && if outcome.Abort? || r.state.None? then env' == env && found == before
       else
         var start := before.(nonces := map[]);
         && env' == r.state.value && |log| == |outcome.reinject| && (outcome.reinject == [] ==> found == start)
         && Refilled(env'.nonce, start, outcome.reinject, log, r.Handling(bump), found)
  }

  lemma LandsWhere(r: ResetRequest, genesis: Hash, env: Env, before: Found, bump: nat, outcome: Outcome,
                   log: seq<Entry>,
                   env': Env, found: Found)
    requires Lands(r, genesis, env, before, bump, outcome, log, env', found)
    ensures r.Extends() ==> outcome == Proceed([]) && env' == r.state.value && found == before.(nonces := map[])
  {
  }

  /** As long as all transactions fit, nothing is evicted or refused for want of room. */
  ghost predicate Roomy(txs: seq<Tx>, start: int, capacity: nat, log: seq<Entry>, slots: int) {
    |log| <= |txs| && (start + DropSlots(txs) <= capacity ==> Quiet(log) && slots <= start + DropSlots(txs[..|log|]))
  }

  lemma RoomyNone(txs: seq<Tx>, start: int, capacity: nat)
    ensures Roomy(txs, start, capacity, [], start)
  {
  }

  lemma {:induction false} PrefixSlots(txs: seq<Tx>, k: nat)
    requires k <= |txs|
    ensures DropSlots(txs[..k]) <= DropSlots(txs)
    decreases |txs| - k
  {
    if k == |txs| {
      assert txs[..k] == txs;
    } else {
      assert txs[..k + 1][..k] == txs[..k];
      PrefixSlots(txs, k + 1);
    }
  }

  lemma RoomyMore(txs: seq<Tx>, start: int, capacity: nat, log: seq<Entry>, slots: int, e: Entry, slots': int)
    requires Roomy(txs, start, capacity, log, slots) && |log| < |txs|
    requires var n := NumSlots(txs[|log|]);
             slots + n <= capacity ==>
               e.drop == [] && e.err != Some(Underpriced) && e.err != Some(PoolOverflow) && slots' <= slots + n
    ensures Roomy(txs, start, capacity, log + [e], slots')
  {
    hide NumSlots;
    var k := |log|;
    assert txs[..k + 1][..k] == txs[..k];
    PrefixSlots(txs, k + 1);
  }

  lemma RoomyAll(txs: seq<Tx>, start: int, capacity: nat, log: seq<Entry>, slots: int)
    requires Roomy(txs, start, capacity, log, slots)
    ensures start + DropSlots(txs) <= capacity ==> Quiet(log)
  {
  }

  lemma NoneIsQuiet()
    ensures Quiet([])
  {
  }

  lemma FromOrigin(store: Store, origin: Hash -> Tx, txs: seq<Tx>)
    requires AllFrom(store, txs) && forall tx :: tx in StoreTxs(store) ==> origin(tx.hash) == tx
    ensures Originals(origin, txs)
  {
  }
}
