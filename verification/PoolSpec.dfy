/** What it means for the pool's redundant structures to agree. */
module PoolSpec {
  import opened Transactions
  import opened TxItems
  import opened TxListSpec
  import opened TxNoncers
  import opened TxLookups
  import opened PricedLists

  type Lists = map<Address, ListView>

  function ItemsOf(lists: Lists, a: Address): Items {
    if a in lists then lists[a].items else map[]
  }

  /** Lists are well-formed, of the right kind, and never left behind empty. */
  ghost predicate Tidy(lists: Lists, strict: bool) {
    forall a :: a in lists ==> lists[a].Valid() && lists[a].strict == strict && lists[a].items != map[]
  }

  ghost predicate Has(items: Items, tx: Tx) {
    tx.nonce in items && items[tx.nonce] == tx
  }

  /** No nonce occurs in two of the three. */
  ghost predicate Once(p: Items, q: Items, l: Items) {
    forall n {:trigger n in p} {:trigger n in q} {:trigger n in l} ::
      !(n in p && n in q) && !(n in p && n in l) && !(n in q && n in l)
  }

  /** Everything in `m` was sent by `a`, is filed under its nonce and is known by its hash. */
  ghost predicate Owned(origin: Hash -> Tx, known: set<Hash>, a: Address, m: Items) {
    forall n :: n in m ==> m[n].nonce == n && m[n].sender == a && m[n].hash in known && origin(m[n].hash) == m[n]
  }

  /** The known transactions of `a` are exactly those in `p`, `q` and `l`, each in one of them. */
  ghost predicate AccountFiled(origin: Hash -> Tx, known: set<Hash>, a: Address, p: Items, q: Items, l: Items) {
    && Once(p, q, l)
    && Owned(origin, known, a, p) && Owned(origin, known, a, q) && Owned(origin, known, a, l)
    && forall h :: h in known && origin(h).sender == a ==>
         origin(h).hash == h && (Has(p, origin(h)) || Has(q, origin(h)) || Has(l, origin(h)))
  }

  function LooseOf(acct: Address, l: Items, a: Address): Items {
    if a == acct then l else map[]
  }

  ghost predicate FiledAt(origin: Hash -> Tx, known: set<Hash>, pending: Lists, queue: Lists, acct: Address, l: Items,
                          a: Address) {
    AccountFiled(origin, known, a, ItemsOf(pending, a), ItemsOf(queue, a), LooseOf(acct, l, a))
  }

  /** The lookup holds exactly the pending and the queued transactions, besides those of the
      account `acct` that are in transit between the lists. */
  ghost predicate Filed(origin: Hash -> Tx, known: set<Hash>, pending: Lists, queue: Lists, acct: Address, l: Items) {
    forall a {:trigger FiledAt(origin, known, pending, queue, acct, l, a)} ::
      FiledAt(origin, known, pending, queue, acct, l, a)
  }

  /** The lists of accounts other than `a` are the same. */
  ghost predicate SameBut(a: Address, x: Lists, y: Lists) {
    forall b {:trigger ItemsOf(y, b)} :: b != a ==> ItemsOf(y, b) == ItemsOf(x, b)
  }

  ghost predicate KnownBut(origin: Hash -> Tx, a: Address, known: set<Hash>, known': set<Hash>) {
    forall h :: origin(h).sender != a ==> (h in known <==> h in known')
  }

  /** What happens to one account leaves the others filed. */
  lemma Refile(origin: Hash -> Tx, a: Address,
               known: set<Hash>, pending: Lists, queue: Lists, acct: Address, l: Items,
               known': set<Hash>, pending': Lists, queue': Lists, l': Items)
    requires Filed(origin, known, pending, queue, acct, l) && (acct == a || l == map[])
    requires SameBut(a, pending, pending') && SameBut(a, queue, queue') && KnownBut(origin, a, known, known')
    requires AccountFiled(origin, known', a, ItemsOf(pending', a), ItemsOf(queue', a), l')
    ensures Filed(origin, known', pending', queue', a, l')
  {
    forall b ensures FiledAt(origin, known', pending', queue', a, l', b) {
      if b != a {
        assert FiledAt(origin, known, pending, queue, acct, l, b);
        OthersFiled(origin, a, b, known, known', ItemsOf(pending, b), ItemsOf(queue, b));
      }
    }
  }

  lemma OthersFiled(origin: Hash -> Tx, a: Address, b: Address, known: set<Hash>, known': set<Hash>, p: Items, q: Items)
    requires a != b && KnownBut(origin, a, known, known') && AccountFiled(origin, known, b, p, q, map[])
    ensures AccountFiled(origin, known', b, p, q, map[])
  {
  }

  ghost predicate Held(p: Items, q: Items, l: Items, tx: Tx) {
    Has(p, tx) || Has(q, tx) || Has(l, tx)
  }

  /** The same transactions, spread differently over the three. */
  ghost predicate Repacked(p: Items, q: Items, l: Items, p': Items, q': Items, l': Items) {
    && Once(p', q', l')
    && forall tx {:trigger Held(p', q', l', tx)} {:trigger Held(p, q, l, tx)} ::
         Held(p', q', l', tx) <==> Held(p, q, l, tx)
  }

  lemma Repack(origin: Hash -> Tx, known: set<Hash>, a: Address, p: Items, q: Items, l: Items, p': Items, q': Items,
               l': Items)
    requires AccountFiled(origin, known, a, p, q, l) && Repacked(p, q, l, p', q', l')
    requires Keyed(p') && Keyed(q') && Keyed(l')
    ensures AccountFiled(origin, known, a, p', q', l')
  {
    forall n | n in p' ensures p'[n].sender == a && p'[n].hash in known && origin(p'[n].hash) == p'[n] {
      assert Held(p', q', l', p'[n]);
    }
    forall n | n in q' ensures q'[n].sender == a && q'[n].hash in known && origin(q'[n].hash) == q'[n] {
      assert Held(p', q', l', q'[n]);
    }
    forall n | n in l' ensures l'[n].sender == a && l'[n].hash in known && origin(l'[n].hash) == l'[n] {
      assert Held(p', q', l', l'[n]);
    }
    forall h | h in known && origin(h).sender == a
      ensures origin(h).hash == h && (Has(p', origin(h)) || Has(q', origin(h)) || Has(l', origin(h)))
    {
      assert Held(p, q, l, origin(h));
    }
  }

  /** Forgetting a transaction in transit. */
  lemma Forget(origin: Hash -> Tx, known: set<Hash>, a: Address, p: Items, q: Items, l: Items, tx: Tx)
    requires AccountFiled(origin, known, a, p, q, l) && Has(l, tx)
    ensures AccountFiled(origin, known - {tx.hash}, a, p, q, l - {tx.nonce})
    ensures KnownBut(origin, a, known, known - {tx.hash})
  {
  }

  /** Learning of a transaction whose nonce is free. */
  lemma Learn(origin: Hash -> Tx, known: set<Hash>, a: Address, p: Items, q: Items, tx: Tx)
    requires AccountFiled(origin, known, a, p, q, map[])
    requires tx.sender == a && tx.hash !in known && origin(tx.hash) == tx && tx.nonce !in p && tx.nonce !in q
    ensures AccountFiled(origin, known + {tx.hash}, a, p, q, map[tx.nonce := tx])
    ensures KnownBut(origin, a, known, known + {tx.hash})
  {
  }

  /** Taking the place of the transaction that holds the nonce. */
  lemma Displace(origin: Hash -> Tx, known: set<Hash>, a: Address, p: Items, q: Items, tx: Tx)
    requires AccountFiled(origin, known, a, p, q, map[]) && tx.nonce in q
    requires tx.sender == a && tx.hash !in known && origin(tx.hash) == tx
    ensures var known' := known - {q[tx.nonce].hash} + {tx.hash};
            AccountFiled(origin, known', a, p, q[tx.nonce := tx], map[]) && KnownBut(origin, a, known, known')
    ensures q[tx.nonce].hash in known
  {
    var was := q[tx.nonce];
    var known', q' := known - {was.hash} + {tx.hash}, q[tx.nonce := tx];
    forall h | h in known' && origin(h).sender == a
      ensures origin(h).hash == h && (Has(p, origin(h)) || Has(q', origin(h)))
    {
      if h != tx.hash {
        assert Has(p, origin(h)) || Has(q, origin(h));
      }
    }
    assert forall n :: n in p ==> p[n] != was;
  }

  /** Filing a transaction in transit, under the free nonce it has. */
  lemma FileLoose(origin: Hash -> Tx, known: set<Hash>, a: Address, p: Items, q: Items, l: Items, tx: Tx)
    requires AccountFiled(origin, known, a, p, q, l) && Has(l, tx)
    ensures tx.nonce !in p && tx.nonce !in q && tx.sender == a
    ensures AccountFiled(origin, known, a, p, q[tx.nonce := tx], l - {tx.nonce})
    ensures AccountFiled(origin, known, a, p[tx.nonce := tx], q, l - {tx.nonce})
  {
    var p', q', l' := p[tx.nonce := tx], q[tx.nonce := tx], l - {tx.nonce};
    assert Repacked(p, q, l, p, q', l') by {
      forall t ensures Held(p, q', l', t) <==> Held(p, q, l, t) { }
    }
    assert Repacked(p, q, l, p', q, l') by {
      forall t ensures Held(p', q, l', t) <==> Held(p, q, l, t) { }
    }
    Repack(origin, known, a, p, q, l, p, q', l');
    Repack(origin, known, a, p, q, l, p', q, l');
  }

  /** The lists after `a`'s list became `v`; a list that ran empty is deleted. */
  function SetList(lists: Lists, a: Address, v: ListView): (r: Lists) {
    if v.items == map[] then lists - {a} else lists[a := v]
  }

  lemma SetListIs(lists: Lists, a: Address, v: ListView, strict: bool)
    requires Tidy(lists, strict) && v.Valid() && v.strict == strict
    ensures Tidy(SetList(lists, a, v), strict)
    ensures ItemsOf(SetList(lists, a, v), a) == v.items && SameBut(a, lists, SetList(lists, a, v))
  {
  }

  /** The list of `a`, made when there is none. */
  function ListOf(lists: Lists, a: Address, strict: bool): (v: ListView) {
    if a in lists then lists[a] else EmptyList(strict)
  }

  lemma ListOfIs(lists: Lists, a: Address, strict: bool)
    requires Tidy(lists, strict)
    ensures var v := ListOf(lists, a, strict); v.Valid() && v.strict == strict && v.items == ItemsOf(lists, a)
    ensures a in lists <==> ItemsOf(lists, a) != map[]
  {
  }

  /** Every remote transaction has an entry in a price heap, those in `bare` excepted. */
  ghost predicate Covers(remotes: map<Hash, Tx>, tracked: multiset<Tx>, bare: set<Hash>) {
    forall h :: h in remotes && h !in bare ==> remotes[h] in tracked
  }

  lemma CoversDrop(remotes: map<Hash, Tx>, tracked: multiset<Tx>, bare: set<Hash>, h: Hash)
    requires Covers(remotes, tracked, bare)
    ensures Covers(remotes - {h}, tracked, bare - {h})
    ensures Covers(remotes - {h}, tracked, bare)
  {
  }

  lemma CoversPut(remotes: map<Hash, Tx>, tracked: multiset<Tx>, bare: set<Hash>, tx: Tx)
    requires Covers(remotes, tracked, bare)
    ensures Covers(remotes[tx.hash := tx], tracked + multiset{tx}, bare)
  {
  }

  lemma AllCovered(remotes: map<Hash, Tx>, bare: set<Hash>)
    ensures Covers(remotes, multiset(remotes.Values), bare)
  {
  }

  /** The known hashes once `tx` is queued: a new one enters the lookup and may push one out. */
  ghost function KnownWith(known: set<Hash>, q: Items, tx: Tx, addAll: bool): set<Hash> {
    if !addAll then known
    else (if tx.nonce in q then known - {q[tx.nonce].hash} else known) + {tx.hash}
  }

  lemma Enqueued(origin: Hash -> Tx, known: set<Hash>, a: Address, p: Items, q: Items, l: Items, tx: Tx, addAll: bool)
    requires AccountFiled(origin, known, a, p, q, l) && tx.sender == a
    requires addAll ==> l == map[] && tx.hash !in known && origin(tx.hash) == tx && tx.nonce !in p
    requires !addAll ==> Has(l, tx)
    ensures AccountFiled(origin, KnownWith(known, q, tx, addAll), a, p, q[tx.nonce := tx], l - {tx.nonce})
    ensures KnownBut(origin, a, known, KnownWith(known, q, tx, addAll))
    ensures !addAll ==> tx.nonce !in q
    ensures addAll && tx.nonce in q ==> q[tx.nonce].hash in known && q[tx.nonce].hash != tx.hash
  {
    hide AccountFiled, KnownBut;
    if !addAll {
      FileLoose(origin, known, a, p, q, l, tx);
      SameKnown(origin, a, known);
    } else {
      assert l - {tx.nonce} == map[];
      if tx.nonce in q {
        Displace(origin, known, a, p, q, tx);
      } else {
        Learn(origin, known, a, p, q, tx);
        FileLoose(origin, known + {tx.hash}, a, p, q, map[tx.nonce := tx], tx);
        assert map[tx.nonce := tx] - {tx.nonce} == map[];
      }
    }
  }

  lemma SameKnown(origin: Hash -> Tx, a: Address, known: set<Hash>)
    ensures KnownBut(origin, a, known, known)
  {
  }

  lemma SameLists(a: Address, lists: Lists)
    ensures SameBut(a, lists, lists)
  {
  }

  /** With nothing in transit it does not matter for which account that is said. */
  lemma AtRest(origin: Hash -> Tx, known: set<Hash>, pending: Lists, queue: Lists, acct: Address, a: Address)
    requires Filed(origin, known, pending, queue, acct, map[])
    ensures Filed(origin, known, pending, queue, a, map[])
  {
    forall b ensures FiledAt(origin, known, pending, queue, a, map[], b) {
      assert FiledAt(origin, known, pending, queue, acct, map[], b);
    }
  }

  /** Splitting the pending list of an account in two puts the upper part in transit. */
  lemma PendingCut(origin: Hash -> Tx, known: set<Hash>, a: Address, p: Items, q: Items, t: nat)
    requires AccountFiled(origin, known, a, p, q, map[])
    ensures AccountFiled(origin, known, a, Below(p, t), q, AtLeast(p, t))
    ensures AccountFiled(origin, known, a, AtLeast(p, t), q, Below(p, t))
  {
    forall tx ensures Held(Below(p, t), q, AtLeast(p, t), tx) <==> Held(p, q, map[], tx) { }
    forall tx ensures Held(AtLeast(p, t), q, Below(p, t), tx) <==> Held(p, q, map[], tx) { }
    Repack(origin, known, a, p, q, map[], Below(p, t), q, AtLeast(p, t));
    Repack(origin, known, a, p, q, map[], AtLeast(p, t), q, Below(p, t));
  }

  lemma Mirror(origin: Hash -> Tx, known: set<Hash>, a: Address, p: Items, q: Items, l: Items)
    ensures AccountFiled(origin, known, a, p, q, l) <==> AccountFiled(origin, known, a, q, p, l)
  {
  }

  /** Removing a pending transaction leaves those above it in transit. */
  lemma PendingRemoved(origin: Hash -> Tx, known: set<Hash>, a: Address, p: Items, q: Items, tx: Tx)
    requires AccountFiled(origin, known, a, p, q, map[]) && Has(p, tx)
    ensures AccountFiled(origin, known - {tx.hash}, a, Below(p, tx.nonce), q, AtLeast(p, tx.nonce + 1))
    ensures KnownBut(origin, a, known, known - {tx.hash})
  {
    hide AccountFiled, KnownBut;
    PendingCut(origin, known, a, p, q, tx.nonce);
    Forget(origin, known, a, Below(p, tx.nonce), q, AtLeast(p, tx.nonce), tx);
    assert AtLeast(p, tx.nonce) - {tx.nonce} == AtLeast(p, tx.nonce + 1);
  }

  lemma QueuedRemoved(origin: Hash -> Tx, known: set<Hash>, a: Address, p: Items, q: Items, tx: Tx)
    requires AccountFiled(origin, known, a, p, q, map[]) && Has(q, tx)
    ensures AccountFiled(origin, known - {tx.hash}, a, p, q - {tx.nonce}, map[])
    ensures KnownBut(origin, a, known, known - {tx.hash})
  {
    hide AccountFiled, KnownBut;
    var q', l := q - {tx.nonce}, map[tx.nonce := tx];
    assert AccountFiled(origin, known, a, p, q', l) by {
      Keys3(origin, known, a, p, q, map[]);
      AloneRemoved(p, q, tx);
      Repack(origin, known, a, p, q, map[], p, q', l);
    }
    Forget(origin, known, a, p, q', l, tx);
    assert l - {tx.nonce} == map[];
  }

  lemma Keys3(origin: Hash -> Tx, known: set<Hash>, a: Address, p: Items, q: Items, l: Items)
    requires AccountFiled(origin, known, a, p, q, l)
    ensures Keyed(p) && Keyed(q) && Keyed(l) && Once(p, q, l)
  {
  }

  lemma AloneRemoved(p: Items, q: Items, tx: Tx)
    requires Has(q, tx) && Keyed(q) && Once(p, q, map[])
    ensures Repacked(p, q, map[], p, q - {tx.nonce}, map[tx.nonce := tx])
  {
    forall t ensures Held(p, q - {tx.nonce}, map[tx.nonce := tx], t) <==> Held(p, q, map[], t) { }
  }

  /** Where a known transaction is. */
  lemma Whereabouts(origin: Hash -> Tx, known: set<Hash>, a: Address, p: Items, q: Items, h: Hash)
    requires AccountFiled(origin, known, a, p, q, map[]) && h in known && origin(h).sender == a
    ensures origin(h).hash == h
    ensures origin(h).nonce in p ==> Has(p, origin(h))
    ensures origin(h).nonce !in p ==> Has(q, origin(h))
  {
  }

  /** What is queued when all of `txs` but those in `left` have joined `q`. */
  ghost function Merged(q: Items, txs: Items, left: Items): Items {
    q + (txs - left.Keys)
  }

  ghost predicate Part(left: Items, txs: Items) {
    forall n :: n in left ==> n in txs && left[n] == txs[n]
  }

  lemma MergeStart(q: Items, txs: Items)
    ensures Merged(q, txs, txs) == q && Part(txs, txs)
    ensures Merged(q, txs, map[]) == q + txs
  {
    var none: Items := map[];
    assert txs - none.Keys == txs;
  }

  lemma MergeStep(q: Items, txs: Items, left: Items, n: nat)
    requires n in left && Part(left, txs)
    ensures Merged(q, txs, left)[n := left[n]] == Merged(q, txs, left - {n})
    ensures Part(left - {n}, txs)
  {
  }

  lemma Fewer(m: Items, n: nat)
    requires n in m
    ensures |m - {n}| == |m| - 1
  {
    assert (m - {n}).Keys == m.Keys - {n};
  }

  lemma SameTrans(a: Address, x: Lists, y: Lists, z: Lists)
    requires SameBut(a, x, y) && SameBut(a, y, z)
    ensures SameBut(a, x, z)
  {
    forall b | b != a ensures ItemsOf(z, b) == ItemsOf(x, b) { assert ItemsOf(y, b) == ItemsOf(x, b); }
  }

  lemma LooseIsOwned(origin: Hash -> Tx, known: set<Hash>, a: Address, p: Items, q: Items, l: Items, n: nat)
    requires AccountFiled(origin, known, a, p, q, l) && n in l
    ensures l[n].sender == a && l[n].nonce == n && Has(l, l[n]) && l[n].hash in known
  {
  }

  lemma SameNonces(state: Address -> nat, a: Address, nonces: map<Address, nat>)
    ensures NoncesBut(state, a, nonces, nonces)
  {
  }

  lemma NoncesTrans(state: Address -> nat, a: Address, x: map<Address, nat>, y: map<Address, nat>, z: map<Address, nat>)
    requires NoncesBut(state, a, x, y) && NoncesBut(state, a, y, z)
    ensures NoncesBut(state, a, x, z)
  {
    forall b | b != a ensures Virtual(state, z, b) == Virtual(state, x, b) {
      assert Virtual(state, y, b) == Virtual(state, x, b);
    }
  }

  /** The lists of an account after its transaction of nonce `n` was removed. */
  ghost predicate CutOut(p: Items, q: Items, n: nat, p': Items, q': Items) {
    if n in p then p' == Below(p, n) && q' == q + AtLeast(p, n + 1)
    else p' == p && q' == q - {n}
  }

  lemma FiledIs(origin: Hash -> Tx, known: set<Hash>, pending: Lists, queue: Lists, acct: Address, l: Items)
    requires Filed(origin, known, pending, queue, acct, l)
    ensures AccountFiled(origin, known, acct, ItemsOf(pending, acct), ItemsOf(queue, acct), l)
  {
    assert FiledAt(origin, known, pending, queue, acct, l, acct);
  }

  lemma PartValid(list: ListView, rest: Items)
    requires list.Valid() && Part(rest, list.items)
    ensures list.With(rest).Valid()
  {
  }

  lemma HasCutOut(p: Items, q: Items, tx: Tx)
    requires Has(p, tx)
    ensures CutOut(p, q, tx.nonce, Below(p, tx.nonce), q + AtLeast(p, tx.nonce + 1))
  {
  }

  lemma QueueCutOut(p: Items, q: Items, tx: Tx)
    requires tx.nonce !in p
    ensures CutOut(p, q, tx.nonce, p, q - {tx.nonce})
  {
  }

  lemma NotKnown(locals: map<Hash, Tx>, remotes: map<Hash, Tx>, h: Hash)
    ensures h !in remotes ==> remotes - {h} == remotes
  {
  }

  ghost function HashSet(txs: seq<Tx>): set<Hash> {
    set i | 0 <= i < |txs| :: txs[i].hash
  }

  lemma HashOfListed(txs: seq<Tx>, tx: Tx)
    ensures tx in multiset(txs) ==> tx.hash in HashSet(txs)
  {
  }

  lemma CountTwins(txs: seq<Tx>, j: nat, k: nat)
    requires j < k < |txs|
    ensures txs[j] == txs[k] ==> multiset(txs)[txs[j]] >= 2
  {
    assert txs == txs[..k] + txs[k..];
    assert txs[j] in txs[..k] && txs[k] in txs[k..];
  }

  /** What is set aside is all that loses cover. */
  lemma AfterDiscard(origin: Hash -> Tx, locals: Known, remotes: Known, before: multiset<Tx>, after: multiset<Tx>,
                     drop: seq<Tx>)
    requires Sound(origin, locals, remotes) && Covers(remotes, before, {})
    requires SameLive(remotes, before, after + multiset(drop))
    ensures Covers(remotes, after, HashSet(drop))
  {
    forall h | h in remotes && h !in HashSet(drop) ensures remotes[h] in after {
      var tx := remotes[h];
      assert Live(remotes, tx) && (after + multiset(drop))[tx] == before[tx];
      HashOfListed(drop, tx);
    }
  }

  lemma CoversMore(remotes: Known, tracked: multiset<Tx>, bare: set<Hash>, bare': set<Hash>)
    requires Covers(remotes, tracked, bare) && bare <= bare'
    ensures Covers(remotes, tracked, bare')
  {
  }

  /** No remote transaction is tracked twice. */
  ghost predicate Twinless(remotes: Known, tracked: multiset<Tx>) {
    forall tx {:trigger tracked[tx]} :: Live(remotes, tx) ==> tracked[tx] <= 1
  }

  /** The hashes from `i` on are still in the lookup, and all different. */
  ghost predicate StillThere(remotes: Known, drop: seq<Tx>, i: nat) {
    && (forall j :: i <= j < |drop| ==> drop[j].hash in remotes)
    && (forall j, k :: i <= j < k < |drop| ==> drop[j].hash != drop[k].hash)
  }

  lemma DropRest(remotes: Known, drop: seq<Tx>, i: nat)
    requires i < |drop|
    ensures StillThere(remotes, drop, i) ==>
              drop[i].hash in remotes && StillThere(remotes - {drop[i].hash}, drop, i + 1)
    ensures HashSet(drop[i..]) - {drop[i].hash} <= HashSet(drop[i + 1..])
    ensures DropSlots(drop[..i + 1]) == DropSlots(drop[..i]) + NumSlots(drop[i])
  {
    assert drop[..i + 1][..i] == drop[..i];
    forall h | h in HashSet(drop[i..]) && h != drop[i].hash ensures h in HashSet(drop[i + 1..]) {
      var j :| 0 <= j < |drop[i..]| && drop[i..][j].hash == h;
      assert drop[i + 1..][j - 1].hash == h;
    }
  }

  lemma EmptyDrop()
    ensures HashSet([]) == {} && DropSlots([]) == 0
  {
  }

  lemma RemoteIsKnown(locals: Known, remotes: Known, h: Hash)
    ensures h in remotes ==> h in Joint(locals, remotes)
  {
  }

  ghost predicate Originals(origin: Hash -> Tx, drop: seq<Tx>) {
    forall i :: 0 <= i < |drop| ==> origin(drop[i].hash) == drop[i]
  }

  lemma RemoteIsNotLocal(origin: Hash -> Tx, locals: Known, remotes: Known, drop: seq<Tx>, i: nat)
    requires Sound(origin, locals, remotes) && AllLive(remotes, drop) && i < |drop|
    ensures locals - {drop[i].hash} == locals
  {
    assert Live(remotes, drop[i]);
  }

  lemma AllOriginal(origin: Hash -> Tx, locals: Known, remotes: Known, drop: seq<Tx>)
    requires Sound(origin, locals, remotes) && AllLive(remotes, drop)
    ensures Originals(origin, drop)
  {
  }

  lemma OriginalAt(origin: Hash -> Tx, drop: seq<Tx>, i: nat)
    requires Originals(origin, drop) && i < |drop|
    ensures origin(drop[i].hash) == drop[i]
  {
  }

  /** Popping stale entries takes no cover away and makes no twins. */
  lemma AfterCleaning(origin: Hash -> Tx, locals: Known, remotes: Known, before: multiset<Tx>, after: multiset<Tx>)
    requires Sound(origin, locals, remotes) && Covers(remotes, before, {})
    requires SameLive(remotes, before, after + Single(None))
    ensures Covers(remotes, after, {})
    ensures Twinless(remotes, before) ==> Twinless(remotes, after)
  {
    assert after + Single(None) == after;
    assert multiset([]) == Single(None) && HashSet([]) == {};
    AfterDiscard(origin, locals, remotes, before, after, []);
  }

  lemma CoversFewer(remotes: Known, remotes': Known, tracked: multiset<Tx>, bare: set<Hash>)
    requires Covers(remotes, tracked, bare) && forall h :: h in remotes' ==> h in remotes && remotes'[h] == remotes[h]
    ensures Covers(remotes', tracked, bare)
  {
  }

  /** `m` is shared out between `kept` and `taken`. */
  ghost predicate Splits(m: Items, kept: Items, taken: Items) {
    forall n {:trigger n in m} {:trigger n in kept} {:trigger n in taken} ::
      && (n in m <==> n in kept || n in taken) && !(n in kept && n in taken)
      && (n in kept ==> n in m && kept[n] == m[n]) && (n in taken ==> n in m && taken[n] == m[n])
  }

  lemma SplitsCut(m: Items, t: nat)
    ensures Splits(m, Below(m, t), AtLeast(m, t)) && Splits(m, AtLeast(m, t), Below(m, t))
  {
  }

  lemma SplitsFilter(m: Items, cost: nat, gas: nat)
    ensures Splits(m, Payable(m, cost, gas), Unpaid(m, cost, gas))
  {
  }

  /** What `Cap` drops. */
  function Excess(m: Items, k: nat): Items {
    m - Lowest(m, k).Keys
  }

  lemma SplitsCap(m: Items, k: nat)
    ensures Splits(m, Lowest(m, k), Excess(m, k))
    ensures |Lowest(m, k)| == if |m| <= k then |m| else k
  {
    var t := LowestIsCut(m, k);
  }

  lemma SplitQueue(origin: Hash -> Tx, known: set<Hash>, a: Address, p: Items, q: Items, kept: Items, taken: Items)
    requires AccountFiled(origin, known, a, p, q, map[]) && Splits(q, kept, taken)
    ensures AccountFiled(origin, known, a, p, kept, taken)
  {
    hide AccountFiled, Repacked;
    Keys3(origin, known, a, p, q, map[]);
    SplitHeld(p, q, kept, taken);
    Repack(origin, known, a, p, q, map[], p, kept, taken);
  }

  lemma SplitHeld(p: Items, q: Items, kept: Items, taken: Items)
    requires Splits(q, kept, taken) && Once(p, q, map[]) && Keyed(q)
    ensures Repacked(p, q, map[], p, kept, taken) && Keyed(kept) && Keyed(taken)
  {
    forall tx ensures Held(p, kept, taken, tx) <==> Held(p, q, map[], tx) { }
  }

  lemma FlatNext(s: seq<Tx>, i: nat, left: Items)
    requires i < |s| && IsFlat(s[i..], left)
    ensures Has(left, s[i]) && IsFlat(s[i + 1..], left - {s[i].nonce})
  {
    var r, t := s[i..], s[i].nonce + 1;
    assert r[0] == s[i] && r[1..] == s[i + 1..];
    forall j | 0 < j < |r| ensures r[j].nonce >= t { assert Before(r, 0, j); }
    FlatTail(r, left, t, 1);
    forall n | n in left ensures n != s[i].nonce ==> t <= n { assert Listed(r, left, n); }
    assert AtLeast(left, t) == left - {s[i].nonce};
  }

  lemma HasIt(m: Items, tx: Tx)
    requires Has(m, tx)
    ensures tx.nonce in m && m[tx.nonce] == tx
  {
  }

  lemma FlatDone(s: seq<Tx>, left: Items)
    requires IsFlat(s[|s|..], left)
    ensures left == map[]
  {
    FlatLength(s[|s|..], left);
  }

  lemma FlatTop(s: seq<Tx>, items: Items)
    requires IsFlat(s, items)
    ensures s == [] <==> items == map[]
    ensures s != [] ==> Top(items) == s[|s| - 1].nonce + 1
  {
    FlatLength(s, items);
    if s != [] { PeelLast(s, items); }
  }

  /** What `Ready` takes from a queue that holds nothing below `v`: the run that begins at `v`. */
  lemma ReadyRun(rest: Items, v: nat)
    requires forall n :: n in rest ==> v <= n
    ensures var c := ReadyCut(rest, v);
            && c !in rest
            && (forall n :: n in Below(rest, c) <==> v <= n < c)
            && (c == 0 ==> v !in rest) && (0 < c ==> v < c && Top(Below(rest, c)) == c)
  {
    var c := ReadyCut(rest, v);
    var ready := Below(rest, c);
    if c > 0 {
      assert rest != map[] && MinKey(rest) == v && c == NextGap(rest, v);
      assert v in ready && c - 1 in ready;
      assert MaxKey(ready) == c - 1;
    }
  }

  /** What promoting one account does: the stale and the unpayable go, then the run that begins at the
      virtual nonce `v` becomes pending, and of the rest some may be dropped for number. */
  ghost predicate Promotes(p: Items, q: Items, s: nat, v: nat, cost: nat, gas: nat, p': Items, q': Items, v': nat) {
    var rest := Payable(AtLeast(q, s), cost, gas);
    var ready := Below(rest, ReadyCut(rest, v));
    && p' == p + ready
    && Part(q', AtLeast(rest, ReadyCut(rest, v)))
    && v' == if ready == map[] then v else Top(ready)
  }

  lemma SplitPart(m: Items, kept: Items, taken: Items)
    requires Splits(m, kept, taken)
    ensures Part(kept, m) && Part(taken, m)
  {
  }

  lemma PartKeyed(x: Items, y: Items)
    requires Part(x, y) && Keyed(y)
    ensures Keyed(x)
  {
  }

  lemma PartRefl(x: Items)
    ensures Part(x, x)
  {
  }

  lemma SplitsAll(m: Items)
    ensures Splits(m, map[], m) && Part(map[], m)
  {
  }

  lemma SplitsStrict(m: Items, cost: nat, gas: nat)
    ensures Splits(Payable(m, cost, gas), FilterKeeps(true, m, cost, gas), FilterInvalidates(true, m, cost, gas))
  {
  }

  /** What demoting one account does. */
  ghost predicate Demotes(p: Items, q: Items, s: nat, cost: nat, gas: nat, p': Items, q': Items) {
    var kept := FilterKeeps(true, AtLeast(p, s), cost, gas);
    var invalid := FilterInvalidates(true, AtLeast(p, s), cost, gas);
    if kept != map[] && s !in kept then p' == map[] && q' == q + invalid + kept
    else p' == kept && q' == q + invalid
  }

  lemma FlatLast(s: seq<Tx>, i: nat, next: nat, left: Items)
    requires next + 1 == i <= |s| && IsFlat(s[..i], left)
    ensures Has(left, s[next]) && IsFlat(s[..next], left - {s[next].nonce})
  {
    PeelLast(s[..i], left);
    assert s[..i][..next] == s[..next];
  }

  lemma QueuedIsKnown(origin: Hash -> Tx, known: set<Hash>, a: Address, p: Items, q: Items, tx: Tx)
    requires AccountFiled(origin, known, a, p, q, map[]) && Has(q, tx)
    ensures tx.hash in known && origin(tx.hash) == tx && tx.sender == a && tx.nonce !in p
    ensures forall p', q' :: CutOut(p, q, tx.nonce, p', q') ==> q' == q - {tx.nonce}
  {
  }

  lemma EmptyIfAbsent(lists: Lists, a: Address)
    ensures a !in lists ==> ItemsOf(lists, a) == map[]
  {
  }

  /** The transaction that has the sender and the nonce of `tx`, if there is one. */
  ghost function Standing(pending: Lists, queue: Lists, tx: Tx): Option<Tx> {
    var p, q := ItemsOf(pending, tx.sender), ItemsOf(queue, tx.sender);
    if tx.nonce in p then Some(p[tx.nonce]) else if tx.nonce in q then Some(q[tx.nonce]) else None
  }

  /** What filing a new transaction does: it replaces the one with its nonce if it outbids that, or joins the queue. */
  ghost predicate Inserts(pending: Lists, queue: Lists, pending': Lists, queue': Lists, tx: Tx, bump: nat, ok: bool,
                          replaced: bool) {
    var p, q := ItemsOf(pending, tx.sender), ItemsOf(queue, tx.sender);
    var prev := Standing(pending, queue, tx);
    && ok == (prev.Some? ==> Outbids(prev.value, tx, bump)) && replaced == (ok && prev.Some?)
    && if !ok then pending' == pending && queue' == queue
       else if tx.nonce in p then
         ItemsOf(pending', tx.sender) == p[tx.nonce := tx] && SameBut(tx.sender, pending, pending') && queue' == queue
       else
         ItemsOf(queue', tx.sender) == q[tx.nonce := tx] && SameBut(tx.sender, queue, queue') && pending' == pending
  }
}
