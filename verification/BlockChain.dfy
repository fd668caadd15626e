/** Blocks on top of the header tree: which transactions a chain includes, and what a reorg rewrites. */
module BlockSpec {
  import opened Transactions
  import opened BlockTree
  import opened HeaderSpec

  /** The transaction hashes of every stored block. */
  type Bodies = map<Hash, seq<Hash>>

  function BodyOf(bodies: Bodies, h: Hash): seq<Hash> {
    if h in bodies then bodies[h] else []
  }

  /** The chain of `head` has `tx` in its block of height `n`. */
  ghost predicate Includes(t: Tree, genesis: Hash, bodies: Bodies, head: Hash, tx: Hash, n: nat)
    requires Closed(t, genesis) && head in t
  {
    n <= t[head].number && tx in BodyOf(bodies, AncestorAt(t, genesis, head, n))
  }

  /** The lookup holds exactly the transactions of the chain, each with the height of its block. */
  ghost predicate Indexed(t: Tree, genesis: Hash, bodies: Bodies, head: Hash, lookup: map<Hash, nat>)
    requires Closed(t, genesis) && head in t
  {
    forall tx: Hash, n: nat :: Includes(t, genesis, bodies, head, tx, n) <==> tx in lookup && lookup[tx] == n
  }

  /** The blocks of the chain above height `low` have no transactions. */
  ghost predicate EmptyAbove(t: Tree, genesis: Hash, bodies: Bodies, head: Hash, low: nat)
    requires Closed(t, genesis) && head in t
  {
    forall n: nat :: low < n <= t[head].number ==> BodyOf(bodies, AncestorAt(t, genesis, head, n)) == []
  }

  /** A lookup kept while the head moves down the chain to `h'` is still right exactly if the blocks left behind are
      empty. */
  lemma IndexedBelow(t: Tree, genesis: Hash, bodies: Bodies, head: Hash, lookup: map<Hash, nat>, t': Tree,
                     bodies': Bodies, head': Hash)
    requires Closed(t, genesis) && head in t && Indexed(t, genesis, bodies, head, lookup)
    requires Closed(t', genesis) && head' in t' && t'[head'].number <= t[head].number
    requires forall n: nat :: n <= t'[head'].number ==>
               BodyOf(bodies', AncestorAt(t', genesis, head', n)) == BodyOf(bodies, AncestorAt(t, genesis, head, n))
    ensures Indexed(t', genesis, bodies', head', lookup) <==> EmptyAbove(t, genesis, bodies, head, t'[head'].number)
  {
    hide Closed, AncestorAt, BodyOf;
    var low := t'[head'].number;
    if Indexed(t', genesis, bodies', head', lookup) {
      forall n: nat | low < n <= t[head].number
        ensures BodyOf(bodies, AncestorAt(t, genesis, head, n)) == []
      {
        var body := BodyOf(bodies, AncestorAt(t, genesis, head, n));
        if body != [] {
          var tx := body[0];
          assert Includes(t, genesis, bodies, head, tx, n);
          var found := Includes(t', genesis, bodies', head', tx, n);
        }
      }
    }
    if EmptyAbove(t, genesis, bodies, head, low) {
      forall tx: Hash, n: nat
        ensures Includes(t', genesis, bodies', head', tx, n) <==> Includes(t, genesis, bodies, head, tx, n)
      {
        assert low < n <= t[head].number ==> BodyOf(bodies, AncestorAt(t, genesis, head, n)) == [];
      }
    }
  }

  /** No transaction is in two blocks of one chain (account nonces see to that). */
  ghost predicate NoRepeats(t: Tree, genesis: Hash, bodies: Bodies, head: Hash)
    requires Closed(t, genesis) && head in t
  {
    forall tx: Hash, m: nat, n: nat ::
      Includes(t, genesis, bodies, head, tx, m) && Includes(t, genesis, bodies, head, tx, n) ==> m == n
  }

  /** Some block of the chain in `(low, high]` has `tx`. */
  ghost predicate InRange(t: Tree, genesis: Hash, bodies: Bodies, head: Hash, tx: Hash, low: nat, high: nat)
    requires Closed(t, genesis) && head in t
  {
    exists n: nat :: low < n <= high && Includes(t, genesis, bodies, head, tx, n)
  }

  /** The sequence lists exactly the transactions of the chain in `(low, high]`. */
  ghost predicate Gathered(t: Tree, genesis: Hash, bodies: Bodies, head: Hash, txs: seq<Hash>, low: nat, high: nat)
    requires Closed(t, genesis) && head in t
  {
    forall tx :: tx in txs <==> InRange(t, genesis, bodies, head, tx, low, high)
  }

  lemma GatherMore(t: Tree, genesis: Hash, bodies: Bodies, head: Hash, txs: seq<Hash>, low: nat, high: nat, next: nat)
    requires Closed(t, genesis) && head in t && next == low - 1 && low <= t[head].number
    requires Gathered(t, genesis, bodies, head, txs, low, high) && low <= high
    ensures Gathered(t, genesis, bodies, head, txs + BodyOf(bodies, AncestorAt(t, genesis, head, low)), next, high)
  {
    hide Closed, AncestorAt;
    forall tx: Hash
      ensures InRange(t, genesis, bodies, head, tx, next, high)
         <==> InRange(t, genesis, bodies, head, tx, low, high) || Includes(t, genesis, bodies, head, tx, low)
    {
      if Includes(t, genesis, bodies, head, tx, low) {
        assert next < low <= high;
      }
    }
  }

  /** The headers of a chain from `high` down to just above `low`. */
  ghost predicate Downwards(t: Tree, genesis: Hash, head: Hash, chain: seq<Header>, low: nat)
    requires Closed(t, genesis) && head in t
  {
    && low <= t[head].number && |chain| == t[head].number - low
    && forall i :: 0 <= i < |chain| ==> IsAt(t, genesis, head, chain[i], t[head].number - i)
  }

  ghost predicate IsAt(t: Tree, genesis: Hash, head: Hash, h: Header, n: nat)
    requires Closed(t, genesis) && head in t
  {
    && n <= t[head].number && h.hash == AncestorAt(t, genesis, head, n)
    && h.hash in t && t[h.hash] == h && h.number == n
  }

  lemma StepDownwards(t: Tree, genesis: Hash, head: Hash, chain: seq<Header>, low: nat, next: nat, h: Header)
    requires Closed(t, genesis) && head in t && low == next + 1
    requires Downwards(t, genesis, head, chain, low) && IsAt(t, genesis, head, h, low)
    ensures Downwards(t, genesis, head, chain + [h], next) && h.parent in t
    ensures IsAt(t, genesis, head, t[h.parent], next)
  {
    hide Closed;
    AncestorStep(t, genesis, head, low, next);
    AncestorIs(t, genesis, head, next);
    LinkedUpIs(t, genesis, h.parent);
  }

  /** The highest height up to which two chains agree. */
  ghost predicate ForkAt(t: Tree, genesis: Hash, a: Hash, b: Hash, c: nat)
    requires Closed(t, genesis) && a in t && b in t
  {
    && c <= t[a].number && c <= t[b].number
    && (forall n: nat :: n <= c ==> AncestorAt(t, genesis, a, n) == AncestorAt(t, genesis, b, n))
    && (forall n: nat :: c < n <= t[a].number && n <= t[b].number ==>
          AncestorAt(t, genesis, a, n) != AncestorAt(t, genesis, b, n))
  }

  /** Chains that meet at `c` and not right above it. */
  lemma ForkIs(t: Tree, genesis: Hash, a: Hash, b: Hash, c: nat)
    requires Closed(t, genesis) && a in t && b in t && c <= t[a].number && c <= t[b].number
    requires AncestorAt(t, genesis, a, c) == AncestorAt(t, genesis, b, c)
    requires forall n: nat :: n == c + 1 && n <= t[a].number && n <= t[b].number ==>
               AncestorAt(t, genesis, a, n) != AncestorAt(t, genesis, b, n)
    ensures ForkAt(t, genesis, a, b, c)
  {
    hide Closed, AncestorAt;
    forall n: nat | n <= c
      ensures AncestorAt(t, genesis, a, n) == AncestorAt(t, genesis, b, n)
    {
      AncestorOfAncestor(t, genesis, a, c, n);
      AncestorOfAncestor(t, genesis, b, c, n);
    }
    forall n: nat | c < n <= t[a].number && n <= t[b].number
      ensures AncestorAt(t, genesis, a, n) != AncestorAt(t, genesis, b, n)
    {
      var up: nat := c + 1;
      AncestorOfAncestor(t, genesis, a, n, up);
      AncestorOfAncestor(t, genesis, b, n, up);
    }
  }

  /** The block where two chains fork is their highest common one. */
  lemma ForkIsCommon(t: Tree, genesis: Hash, a: Hash, b: Hash, c: nat)
    requires Closed(t, genesis) && a in t && b in t && ForkAt(t, genesis, a, b, c)
    ensures HighestCommon(t, genesis, a, b, AncestorAt(t, genesis, a, c))
  {
    hide Closed;
    AncestorIs(t, genesis, a, c);
  }

  /** The lookup entries of one block. */
  function Entries(bodies: Bodies, h: Header): map<Hash, nat> {
    map tx | tx in BodyOf(bodies, h.hash) :: h.number
  }

  /** What writing the blocks of a chain in `(low, top]` as heads, lowest first, leaves behind. */
  ghost predicate Replayed(t: Tree, genesis: Hash, bodies: Bodies, head: Hash, low: nat, top: nat,
                           canon: map<nat, Hash>, canon': map<nat, Hash>,
                           lookup: map<Hash, nat>, lookup': map<Hash, nat>, added: seq<Hash>)
    requires Closed(t, genesis) && head in t
  {
    && low <= top <= t[head].number
    && SameOutside(canon, canon', low + 1, top + 1) && Spells(t, genesis, head, canon', low + 1, top + 1)
    && Gathered(t, genesis, bodies, head, added, low, top)
    && forall tx: Hash :: Relooked(t, genesis, bodies, head, low, top, lookup, lookup', tx)
  }

  ghost predicate Relooked(t: Tree, genesis: Hash, bodies: Bodies, head: Hash, low: nat, top: nat,
                           lookup: map<Hash, nat>, lookup': map<Hash, nat>, tx: Hash)
    requires Closed(t, genesis) && head in t
  {
    if InRange(t, genesis, bodies, head, tx, low, top) then
      tx in lookup' && low < lookup'[tx] <= top && Includes(t, genesis, bodies, head, tx, lookup'[tx])
    else (tx in lookup' <==> tx in lookup) && (tx in lookup ==> lookup'[tx] == lookup[tx])
  }

  lemma ReplayStarts(t: Tree, genesis: Hash, bodies: Bodies, head: Hash, low: nat, canon: map<nat, Hash>,
                     lookup: map<Hash, nat>)
    requires Closed(t, genesis) && head in t && low <= t[head].number
    ensures Replayed(t, genesis, bodies, head, low, low, canon, canon, lookup, lookup, [])
  {
  }

  lemma ReplayStep(t: Tree, genesis: Hash, bodies: Bodies, head: Hash, low: nat, top: nat, next: nat,
                   canon: map<nat, Hash>, canon': map<nat, Hash>,
                   lookup: map<Hash, nat>, lookup': map<Hash, nat>, added: seq<Hash>, h: Header)
    requires Closed(t, genesis) && head in t && next == top + 1 && IsAt(t, genesis, head, h, next)
    requires Replayed(t, genesis, bodies, head, low, top, canon, canon', lookup, lookup', added)
    ensures Replayed(t, genesis, bodies, head, low, next, canon, canon'[next := h.hash],
                     lookup, lookup' + Entries(bodies, h), added + BodyOf(bodies, h.hash))
  {
    hide Closed, AncestorAt;
    forall tx: Hash
      ensures InRange(t, genesis, bodies, head, tx, low, next)
         <==> InRange(t, genesis, bodies, head, tx, low, top) || tx in BodyOf(bodies, h.hash)
      ensures Relooked(t, genesis, bodies, head, low, next, lookup, lookup' + Entries(bodies, h), tx)
    {
      RangeStep(t, genesis, bodies, head, low, top, next, tx);
      assert Relooked(t, genesis, bodies, head, low, top, lookup, lookup', tx);
    }
  }

  lemma RangeStep(t: Tree, genesis: Hash, bodies: Bodies, head: Hash, low: nat, top: nat, next: nat, tx: Hash)
    requires Closed(t, genesis) && head in t && next == top + 1 && low <= top
    ensures InRange(t, genesis, bodies, head, tx, low, next)
       <==> InRange(t, genesis, bodies, head, tx, low, top) || Includes(t, genesis, bodies, head, tx, next)
  {
    hide Closed, Includes;
    if Includes(t, genesis, bodies, head, tx, next) {
      assert low < next <= next;
    }
  }

  /** The lookup after a reorg from `a` to `b`: replay, drop what only the old chain had, write the head. */
  lemma IndexedAfter(t: Tree, genesis: Hash, bodies: Bodies, a: Hash, b: Hash, c: nat, top: nat,
                     lookup: map<Hash, nat>, replayed: map<Hash, nat>, deleted: seq<Hash>, added: seq<Hash>)
    requires Closed(t, genesis) && a in t && b in t && ForkAt(t, genesis, a, b, c)
    requires c <= top <= t[b].number <= top + 1
    requires Indexed(t, genesis, bodies, a, lookup) && NoRepeats(t, genesis, bodies, b)
    requires Gathered(t, genesis, bodies, a, deleted, c, t[a].number)
    requires Gathered(t, genesis, bodies, b, added, c, top)
    requires forall tx: Hash :: Relooked(t, genesis, bodies, b, c, top, lookup, replayed, tx)
    ensures Indexed(t, genesis, bodies, b, replayed - (set tx | tx in deleted && tx !in added) + Entries(bodies, t[b]))
  {
    hide Closed, AncestorAt;
    var lookup' := replayed - (set tx | tx in deleted && tx !in added) + Entries(bodies, t[b]);
    LinkedUpIs(t, genesis, b);
    AncestorSelf(t, genesis, b);
    forall tx: Hash, n: nat
      ensures Includes(t, genesis, bodies, b, tx, n) <==> tx in lookup' && lookup'[tx] == n
    {
      IndexedAt(t, genesis, bodies, a, b, c, top, lookup, replayed, deleted, added, tx, n);
    }
  }

  lemma IndexedAt(t: Tree, genesis: Hash, bodies: Bodies, a: Hash, b: Hash, c: nat, top: nat,
                  lookup: map<Hash, nat>, replayed: map<Hash, nat>, deleted: seq<Hash>, added: seq<Hash>, tx: Hash,
                  n: nat)
    requires Closed(t, genesis) && a in t && b in t && ForkAt(t, genesis, a, b, c)
    requires c <= top <= t[b].number <= top + 1
    requires Indexed(t, genesis, bodies, a, lookup) && NoRepeats(t, genesis, bodies, b)
    requires Gathered(t, genesis, bodies, a, deleted, c, t[a].number)
    requires Gathered(t, genesis, bodies, b, added, c, top)
    requires Relooked(t, genesis, bodies, b, c, top, lookup, replayed, tx)
    requires t[b].hash == b && AncestorAt(t, genesis, b, t[b].number) == b
    ensures Includes(t, genesis, bodies, b, tx, n) <==>
              var lookup' := replayed - (set tx | tx in deleted && tx !in added) + Entries(bodies, t[b]);
              tx in lookup' && lookup'[tx] == n
  {
    hide Closed, AncestorAt;
    assert tx in Entries(bodies, t[b]) <==> Includes(t, genesis, bodies, b, tx, t[b].number);
    if n <= c {
      assert Includes(t, genesis, bodies, b, tx, n) <==> Includes(t, genesis, bodies, a, tx, n);
    }
  }

  /** `b` or its parent is on the marked chain. */
  predicate Near(canon: map<nat, Hash>, b: Header) {
    || Marks(canon, b)
    || (b.number > 0 && b.number - 1 in canon && canon[b.number - 1] == b.parent)
  }

  /** Moving the head to `b` leaves markers of a longer old chain behind when fewer than two blocks are replayed. */
  predicate LeavesMarkers(canon: map<nat, Hash>, head: Header, b: Header) {
    b.number < head.number && Near(canon, b)
  }

  lemma NearIs(t: Tree, genesis: Hash, canon: map<nat, Hash>, a: Hash, b: Header, c: nat)
    requires Closed(t, genesis) && Canonical(t, genesis, canon, a)
    requires b.hash in t && t[b.hash] == b && ForkAt(t, genesis, a, b.hash, c)
    ensures Near(canon, b) <==> b.number <= c + 1
    ensures Marks(canon, b) <==> b.number == c
  {
    hide Closed, AncestorAt;
    AncestorSelf(t, genesis, b.hash);
    if b.number > 0 {
      var below: nat := b.number - 1;
      AncestorStep(t, genesis, b.hash, b.number, below);
    }
  }

  /** The markers after a reorg from `a` to `b`: replay up to `top`, clear above the head then, mark `b`. */
  lemma CanonAfter(t: Tree, genesis: Hash, a: Hash, b: Header, c: nat, top: nat,
                   canon: map<nat, Hash>, replayed: map<nat, Hash>, cleared: map<nat, Hash>)
    requires Closed(t, genesis) && Canonical(t, genesis, canon, a)
    requires b.hash in t && t[b.hash] == b && ForkAt(t, genesis, a, b.hash, c)
    requires c <= top <= b.number && top == (if c < b.number then b.number - 1 else c)
    requires SameOutside(canon, replayed, c + 1, top + 1) && Spells(t, genesis, b.hash, replayed, c + 1, top + 1)
    requires forall n: nat :: n in cleared <==> n in replayed && n <= (if top > c then top else t[a].number)
    requires forall n: nat :: n in cleared ==> cleared[n] == replayed[n]
    ensures Canonical(t, genesis, cleared[b.number := b.hash], b.hash) <==> !LeavesMarkers(canon, t[a], b)
  {
    hide Closed, AncestorAt;
    var canon' := cleared[b.number := b.hash];
    NearIs(t, genesis, canon, a, b, c);
    AncestorSelf(t, genesis, b.hash);
    forall n: nat | n <= b.number
      ensures n in canon' && canon'[n] == AncestorAt(t, genesis, b.hash, n)
    {
    }
    var up: nat := b.number + 1;
    if LeavesMarkers(canon, t[a], b) {
      assert up in canon';
    } else {
      forall n: nat | n > b.number
        ensures n !in canon'
      {
      }
    }
  }

  lemma ReplayedDomain(t: Tree, genesis: Hash, bodies: Bodies, a: Hash, b: Hash, c: nat, top: nat,
                       canon: map<nat, Hash>, canon': map<nat, Hash>,
                       lookup: map<Hash, nat>, lookup': map<Hash, nat>, added: seq<Hash>, highest: nat)
    requires Closed(t, genesis) && Canonical(t, genesis, canon, a) && b in t && c <= t[a].number
    requires Replayed(t, genesis, bodies, b, c, top, canon, canon', lookup, lookup', added)
    requires highest == if top > t[a].number then top else t[a].number
    ensures forall n: nat :: n in canon' <==> n <= highest
  {
    hide Closed, AncestorAt, Gathered, Relooked;
  }

  /** Before the new head is written, it is only marked if it was before the reorg. */
  lemma NotYetMarked(t: Tree, genesis: Hash, a: Hash, b: Header, c: nat, top: nat,
                     canon: map<nat, Hash>, replayed: map<nat, Hash>, cleared: map<nat, Hash>)
    requires Closed(t, genesis) && Canonical(t, genesis, canon, a)
    requires b.hash in t && t[b.hash] == b && ForkAt(t, genesis, a, b.hash, c)
    requires c <= top <= b.number && top == (if c < b.number then b.number - 1 else c)
    requires SameOutside(canon, replayed, c + 1, top + 1)
    requires forall n: nat :: n in cleared <==> n in replayed && n <= (if top > c then top else t[a].number)
    requires forall n: nat :: n in cleared ==> cleared[n] == replayed[n]
    ensures Marks(cleared, b) ==> Marks(canon, b) && top == c
  {
    hide Closed, AncestorAt;
    NearIs(t, genesis, canon, a, b, c);
  }

  /** What a chain includes does not change when other blocks are stored. */
  lemma IndexedGrows(t: Tree, t': Tree, genesis: Hash, bodies: Bodies, bodies': Bodies, head: Hash,
                     lookup: map<Hash, nat>)
    requires Closed(t, genesis) && Closed(t', genesis) && Extends(t', t) && head in t
    requires forall h :: h in t ==> BodyOf(bodies', h) == BodyOf(bodies, h)
    requires Indexed(t, genesis, bodies, head, lookup)
    ensures Indexed(t', genesis, bodies', head, lookup)
  {
    hide Closed, AncestorAt;
    forall tx: Hash, n: nat
      ensures Includes(t', genesis, bodies', head, tx, n) <==> Includes(t, genesis, bodies, head, tx, n)
    {
      if n <= t[head].number {
        AncestorGrows(t, t', genesis, head, n);
        AncestorIs(t, genesis, head, n);
      }
    }
  }

  /** A block on top of the head forks off there. */
  lemma ForkOnTop(t: Tree, genesis: Hash, a: Hash, b: Header)
    requires Closed(t, genesis) && a in t && b.hash in t && t[b.hash] == b && b.number > 0 && b.parent == a
    ensures b.number == t[a].number + 1 && ForkAt(t, genesis, a, b.hash, t[a].number)
  {
    hide Closed, AncestorAt;
    LinkedUpIs(t, genesis, b.hash);
    AncestorSelf(t, genesis, b.hash);
    AncestorSelf(t, genesis, a);
    AncestorStep(t, genesis, b.hash, b.number, t[a].number);
    ForkIs(t, genesis, a, b.hash, t[a].number);
  }

  /** The headers up to height `n`. */
  function Upto(t: Tree, n: nat): Tree {
    map h | h in t && t[h].number <= n :: t[h]
  }

  /** The entries of a table by block hash that are up to height `n`. */
  function TableUpto<V>(t: Tree, n: nat, table: map<Hash, V>): map<Hash, V> {
    map h | h in table && h in t && t[h].number <= n :: table[h]
  }

  function TableWithout<V>(t: Tree, nums: set<nat>, table: map<Hash, V>): map<Hash, V> {
    map h | h in table && h in t && t[h].number !in nums :: table[h]
  }

  /** Of the heights in use, `nums` has those above `n`. */
  ghost predicate Dooms(t: Tree, canon: map<nat, Hash>, nums: set<nat>, n: nat) {
    && (forall h :: h in t ==> (t[h].number in nums <==> t[h].number > n))
    && (forall m: nat :: m in canon ==> (m in nums <==> m > n))
  }

  lemma WithoutIsUpto<V>(t: Tree, nums: set<nat>, n: nat, table: map<Hash, V>)
    requires forall h :: h in t ==> (t[h].number in nums <==> t[h].number > n)
    ensures TableWithout(t, nums, table) == TableUpto(t, n, table)
  {
  }

  lemma UptoClosed(t: Tree, genesis: Hash, n: nat)
    requires Closed(t, genesis)
    ensures Closed(Upto(t, n), genesis)
  {
    forall h | h in Upto(t, n)
      ensures LinkedUp(Upto(t, n), genesis, h)
    {
      assert LinkedUp(t, genesis, h);
    }
  }

  lemma UptoWeighed(t: Tree, genesis: Hash, td: map<Hash, nat>, n: nat)
    requires Closed(t, genesis) && Closed(Upto(t, n), genesis) && Weighed(t, genesis, td)
    ensures Weighed(Upto(t, n), genesis, TableUpto(t, n, td)) && TableUpto(t, n, td).Keys == Upto(t, n).Keys
  {
    hide Closed;
    var t' := Upto(t, n);
    forall h | h in t' && h != genesis
      ensures LinkedUp(t', genesis, h) && t'[h].parent in td && td[h] == td[t'[h].parent] + t'[h].difficulty
    {
      LinkedUpIs(t, genesis, h);
      LinkedUpIs(t', genesis, h);
    }
  }

  /** Cutting the top off leaves the lower chains as they were. */
  lemma {:induction false} UptoAncestor(t: Tree, genesis: Hash, h: Hash, n: nat, m: nat)
    requires Closed(t, genesis) && Closed(Upto(t, n), genesis) && h in Upto(t, n) && m <= t[h].number
    ensures AncestorAt(Upto(t, n), genesis, h, m) == AncestorAt(t, genesis, h, m)
    decreases t[h].number
  {
    if t[h].number != m {
      LinkedUpIs(t, genesis, h);
      LinkedUpIs(Upto(t, n), genesis, h);
      UptoAncestor(t, genesis, t[h].parent, n, m);
    }
  }

  function MarksUpto(canon: map<nat, Hash>, n: nat): map<nat, Hash> {
    map m | m in canon && m <= n :: canon[m]
  }

  lemma MarksWithout(canon: map<nat, Hash>, nums: set<nat>, n: nat)
    requires forall m: nat :: m in canon ==> (m in nums <==> m > n)
    ensures canon - nums == MarksUpto(canon, n)
  {
  }

  /** A block of the chain keeps the bodies below it when everything above `n` is deleted. */
  lemma UptoBody(t: Tree, genesis: Hash, bodies: Bodies, n: nat, h: Hash, m: nat)
    requires Closed(t, genesis) && Closed(Upto(t, n), genesis) && h in Upto(t, n) && m <= t[h].number
    ensures Upto(t, n)[h] == t[h]
    ensures BodyOf(TableUpto(t, n, bodies), AncestorAt(Upto(t, n), genesis, h, m))
         == BodyOf(bodies, AncestorAt(t, genesis, h, m))
  {
    hide Closed, AncestorAt;
    UptoAncestor(t, genesis, h, n, m);
    AncestorIs(t, genesis, h, m);
  }

  /** The markers up to `n` spell the chain of the ancestor at `n`. */
  lemma UptoCanonical(t: Tree, genesis: Hash, canon: map<nat, Hash>, head: Hash, h: Hash, n: nat)
    requires Closed(t, genesis) && Closed(Upto(t, n), genesis) && Canonical(t, genesis, canon, head)
    requires n <= t[head].number && h == AncestorAt(t, genesis, head, n)
    ensures h in Upto(t, n) && Canonical(Upto(t, n), genesis, MarksUpto(canon, n), h)
  {
    hide Closed, AncestorAt;
    AncestorIs(t, genesis, head, n);
    forall m: nat | m <= n
      ensures AncestorAt(Upto(t, n), genesis, h, m) == AncestorAt(t, genesis, head, m)
    {
      UptoAncestor(t, genesis, h, n, m);
      AncestorOfAncestor(t, genesis, head, n, m);
    }
  }

  lemma UptoIsAt(t: Tree, genesis: Hash, n: nat, h: Hash, b: Header)
    requires Closed(t, genesis) && Closed(Upto(t, n), genesis) && h in t && t[h].number <= n
    requires IsAt(t, genesis, h, b, b.number)
    ensures IsAt(Upto(t, n), genesis, h, b, b.number) && b.hash in Upto(t, n) && Upto(t, n)[b.hash] == b
  {
    hide Closed, AncestorAt;
    UptoAncestor(t, genesis, h, n, b.number);
  }

  /** Every block of the chain of `h` is stored whole. */
  ghost predicate Whole(t: Tree, genesis: Hash, bodies: Bodies, h: Hash)
    requires Closed(t, genesis) && h in t
  {
    forall m: nat :: m <= t[h].number ==> AncestorAt(t, genesis, h, m) in bodies
  }

  lemma WholeBelow(t: Tree, genesis: Hash, bodies: Bodies, h: Hash, b: Header)
    requires Closed(t, genesis) && h in t && Whole(t, genesis, bodies, h) && IsAt(t, genesis, h, b, b.number)
    ensures Whole(t, genesis, bodies, b.hash) && b.hash in bodies
  {
    hide Closed, AncestorAt;
    forall m: nat | m <= b.number
      ensures AncestorAt(t, genesis, b.hash, m) in bodies
    {
      AncestorOfAncestor(t, genesis, h, b.number, m);
    }
  }

  lemma UptoWhole(t: Tree, genesis: Hash, bodies: Bodies, n: nat, h: Hash)
    requires Closed(t, genesis) && Closed(Upto(t, n), genesis) && h in Upto(t, n) && Whole(t, genesis, bodies, h)
    ensures Whole(Upto(t, n), genesis, TableUpto(t, n, bodies), h)
  {
    hide Closed, AncestorAt;
    forall m: nat | m <= t[h].number
      ensures AncestorAt(Upto(t, n), genesis, h, m) in TableUpto(t, n, bodies)
    {
      UptoAncestor(t, genesis, h, n, m);
      AncestorIs(t, genesis, h, m);
    }
  }

  predicate Inhabited(t: Tree, n: nat) {
    exists h :: h in t && t[h].number == n
  }

  /** Heights are inhabited without gaps. */
  lemma NoGaps(t: Tree, genesis: Hash, m: nat, n: nat)
    requires Closed(t, genesis) && m <= n && Inhabited(t, n)
    ensures Inhabited(t, m)
  {
    hide Closed, AncestorAt;
    var h :| h in t && t[h].number == n;
    AncestorIs(t, genesis, h, m);
  }

  /** The first empty height above a stored header; everything stored is below it. */
  method FirstEmpty(t: Tree, ghost genesis: Hash, low: nat) returns (top: nat)
    requires Closed(t, genesis)
    ensures low <= top && forall n: nat :: low <= n ==> (Inhabited(t, n) <==> n < top)
  {
    hide Closed;
    top := low;
    while Inhabited(t, top)
      invariant low <= top && forall n: nat :: low <= n < top ==> Inhabited(t, n)
      decreases set h | h in t && t[h].number >= top
    {
      ghost var h :| h in t && t[h].number == top;
      ghost var rest, all := set h | h in t && t[h].number >= top + 1, set h | h in t && t[h].number >= top;
      assert h in all && h !in rest && rest <= all;
      top := top + 1;
    }
    forall n: nat | low <= n
      ensures Inhabited(t, n) ==> n < top
    {
      if Inhabited(t, n) && n >= top {
        NoGaps(t, genesis, top, n);
      }
    }
  }

  /** The state root of each block, and the roots whose state can be opened. */
  datatype StateDb = StateDb(rootOf: Hash -> Hash, stored: Hash -> bool) {
    predicate Has(block: Hash) {
      stored(rootOf(block))
    }
  }

  /** A root was asked for and some block of the chain from `n` up to `h` has it, or none was asked for. */
  ghost predicate Passed(t: Tree, genesis: Hash, db: StateDb, h: Hash, root: Hash, n: nat)
    requires Closed(t, genesis) && h in t
  {
    root == EMPTY_HASH || exists m: nat :: n <= m <= t[h].number && db.rootOf(AncestorAt(t, genesis, h, m)) == root
  }

  /** The ancestor at `n` has its state and is past the requested root. */
  ghost predicate Usable(t: Tree, genesis: Hash, db: StateDb, h: Hash, root: Hash, n: nat)
    requires Closed(t, genesis) && h in t && n <= t[h].number
  {
    db.Has(AncestorAt(t, genesis, h, n)) && Passed(t, genesis, db, h, root, n)
  }

  /** Above `n` a block at or below the pivot has no state, so the search gave up there. */
  ghost predicate Skipped(t: Tree, genesis: Hash, db: StateDb, h: Hash, pivot: Option<nat>, n: nat)
    requires Closed(t, genesis) && h in t
  {
    pivot.Some? && exists k: nat :: n < k <= pivot.value && k <= t[h].number && !db.Has(AncestorAt(t, genesis, h, k))
  }

  /** `b` is the highest usable ancestor of `h` the search did not skip, or the genesis. */
  ghost predicate Best(t: Tree, genesis: Hash, db: StateDb, h: Hash, root: Hash, pivot: Option<nat>, b: Header)
    requires Closed(t, genesis) && h in t
  {
    && IsAt(t, genesis, h, b, b.number)
    && (b.number == 0 || (Usable(t, genesis, db, h, root, b.number) && !Skipped(t, genesis, db, h, pivot, b.number)))
    && forall n: nat :: b.number < n <= t[h].number ==>
         !Usable(t, genesis, db, h, root, n) || Skipped(t, genesis, db, h, pivot, n)
  }

  method FindState(t: Tree, genesis: Hash, header: Header, root: Hash, pivot: Option<nat>, db: StateDb)
    returns (b: Header, found: Option<nat>)
    requires Closed(t, genesis) && header.hash in t && t[header.hash] == header
    ensures Best(t, genesis, db, header.hash, root, pivot, b)
    ensures found.Some? ==>
              found.value <= header.number && db.rootOf(AncestorAt(t, genesis, header.hash, found.value)) == root
  {
    hide Closed, AncestorAt;
    GenesisIs(t, genesis);
    AncestorSelf(t, genesis, header.hash);
    AncestorZero(t, genesis, header.hash);
    LinkedUpIs(t, genesis, genesis);
    b, found := header, None;
    var beyond := root == EMPTY_HASH;
    while true
      invariant IsAt(t, genesis, header.hash, b, b.number)
      invariant beyond ==>
                exists m: nat ::
                  && b.number <= m <= header.number
                  && (root == EMPTY_HASH || db.rootOf(AncestorAt(t, genesis, header.hash, m)) == root)
      invariant !beyond ==> root != EMPTY_HASH && forall m: nat :: b.number < m <= header.number ==>
                  db.rootOf(AncestorAt(t, genesis, header.hash, m)) != root
      invariant forall n: nat :: b.number < n <= header.number ==> !Usable(t, genesis, db, header.hash, root, n)
      invariant !Skipped(t, genesis, db, header.hash, pivot, b.number)
      invariant found.Some? ==>
                found.value <= header.number && db.rootOf(AncestorAt(t, genesis, header.hash, found.value)) == root
      decreases b.number
    {
      if root != EMPTY_HASH && !beyond && db.rootOf(b.hash) == root {
        beyond, found := true, Some(b.number);
      }
      if !db.Has(b.hash) {
        if (pivot.None? || b.number > pivot.value) && b.number > 0 {
          Below(t, genesis, header.hash, b);
          b := t[b.parent];
          continue;
        }
        b := t[genesis];
      }
      if beyond || b.number == 0 {
        break;
      }
      Below(t, genesis, header.hash, b);
      b := t[b.parent];
    }
  }

  /** The number reported for the requested root: that of an ancestor of `h` with the root, or zero. */
  ghost predicate RootAt(t: Tree, genesis: Hash, db: StateDb, h: Hash, root: Hash, found: nat)
    requires Closed(t, genesis) && h in t
  {
    found == 0 || (found <= t[h].number && db.rootOf(AncestorAt(t, genesis, h, found)) == root)
  }

  lemma RootAbove(t: Tree, genesis: Hash, db: StateDb, h: Hash, b: Header, root: Hash, found: nat)
    requires Closed(t, genesis) && h in t && IsAt(t, genesis, h, b, b.number)
    requires RootAt(t, genesis, db, b.hash, root, found)
    ensures RootAt(t, genesis, db, h, root, found)
  {
    hide Closed, AncestorAt;
    if found > 0 {
      AncestorOfAncestor(t, genesis, h, b.number, found);
    }
  }

  lemma Below(t: Tree, genesis: Hash, h: Hash, b: Header)
    requires Closed(t, genesis) && h in t && IsAt(t, genesis, h, b, b.number) && b.number > 0
    ensures b.parent in t && IsAt(t, genesis, h, t[b.parent], t[b.parent].number)
    ensures t[b.parent].number + 1 == b.number
  {
    hide Closed, AncestorAt;
    var next: nat := b.number - 1;
    AncestorStep(t, genesis, h, b.number, next);
    AncestorIs(t, genesis, h, next);
    LinkedUpIs(t, genesis, b.parent);
  }
}

/** The block chain: bodies and transaction lookup beside the header database, and the head block. */
module BlockChains {
  import opened Transactions
  import opened BlockTree
  import opened HeaderSpec
  import opened HeaderChains
  import opened BlockSpec

  class BlockChain {
    const hc: HeaderChain
    ghost const contents: Hash -> seq<Hash>
    var bodies: Bodies
    var lookup: map<Hash, nat>
    var head: Header
    var fast: Header

    ghost predicate Valid()
      reads this, hc
    {
      && hc.Stored() && bodies.Keys <= hc.headers.Keys
      && (forall h :: h in bodies ==> bodies[h] == contents(h))
      && head.hash in hc.headers && hc.headers[head.hash] == head
      && fast.hash in hc.headers && hc.headers[fast.hash] == fast
    }

    /** Full sync: the markers, the header head and the transaction lookup all follow the head block. */
    ghost predicate InSync()
      requires Valid()
      reads this, hc
    {
      && Canonical(hc.headers, hc.genesis, hc.canon, head.hash) && hc.current == head
      && Indexed(hc.headers, hc.genesis, bodies, head.hash, lookup)
    }

    /** Every stored header has its block. */
    ghost predicate Complete()
      reads this, hc
    {
      bodies.Keys == hc.headers.Keys
    }

    /** A chain of the genesis block alone, which has no transactions. */
    constructor (genesis: Header, ghost origin: Hash -> Header, ghost contents: Hash -> seq<Hash>)
      requires genesis.number == 0 && Genuine(origin, genesis) && contents(genesis.hash) == []
      ensures Valid() && InSync() && Complete() && fresh(hc)
      ensures hc.origin == origin && this.contents == contents && head == genesis == fast && hc.genesis == genesis.hash
      ensures hc.headers == map[genesis.hash := genesis] && hc.td == map[genesis.hash := genesis.difficulty]
    {
      this.contents := contents;
      hc := new HeaderChain(genesis, origin);
      bodies := map[genesis.hash := []];
      lookup := map[];
      head, fast := genesis, genesis;
    }

    predicate HasBlock(hash: Hash)
      reads this, hc
    {
      hash in hc.headers && hash in bodies
    }

    /**
      * Walks both chains down to their highest common block. Gathers the transactions of the old
      * branch and the blocks of the new one, highest first. Fails when a block is missing.
      */
    method FindFork(oldBlock: Header, newBlock: Header)
      returns (ok: bool, c: nat, deleted: seq<Hash>, newChain: seq<Header>)
      requires Valid()
      requires oldBlock.hash in hc.headers && hc.headers[oldBlock.hash] == oldBlock && newBlock.hash in hc.headers
      requires hc.headers[newBlock.hash] == newBlock
      ensures ok ==> ForkAt(hc.headers, hc.genesis, oldBlock.hash, newBlock.hash, c)
      ensures ok ==> HighestCommon(hc.headers, hc.genesis, oldBlock.hash, newBlock.hash,
                                   AncestorAt(hc.headers, hc.genesis, oldBlock.hash, c))
      ensures ok ==> Gathered(hc.headers, hc.genesis, bodies, oldBlock.hash, deleted, c, oldBlock.number)
      ensures ok ==> Downwards(hc.headers, hc.genesis, newBlock.hash, newChain, c)
      ensures Complete() ==> ok
    {
      hide Closed, AncestorAt, Weighed, AllGenuine, Gathered, Downwards, ForkAt, HighestCommon;
      ghost var t, g := hc.headers, hc.genesis;
      var a, b := oldBlock, newBlock;
      deleted, newChain, c := [], [], 0;
      WalkStarts(oldBlock, newBlock);
      if a.number > b.number {
        while a.number != b.number
          invariant b.number <= a.number && IsAt(t, g, oldBlock.hash, a, a.number)
          invariant Gathered(t, g, bodies, oldBlock.hash, deleted, a.number, oldBlock.number)
        {
          ghost var next: nat := a.number - 1;
          WalkOld(oldBlock, a, next, deleted);
          deleted := deleted + BodyOf(bodies, a.hash);
          if !HasBlock(a.parent) {
            return false, c, deleted, newChain;
          }
          a := hc.headers[a.parent];
        }
      } else {
        while b.number != a.number
          invariant a.number <= b.number && IsAt(t, g, newBlock.hash, b, b.number)
          invariant Downwards(t, g, newBlock.hash, newChain, b.number)
        {
          ghost var next: nat := b.number - 1;
          StepDownwards(t, g, newBlock.hash, newChain, b.number, next, b);
          newChain := newChain + [b];
          if !HasBlock(b.parent) {
            return false, c, deleted, newChain;
          }
          b := hc.headers[b.parent];
        }
      }
      while a.hash != b.hash
        invariant a.number == b.number && IsAt(t, g, oldBlock.hash, a, a.number)
        invariant IsAt(t, g, newBlock.hash, b, a.number)
        invariant Gathered(t, g, bodies, oldBlock.hash, deleted, a.number, oldBlock.number)
        invariant Downwards(t, g, newBlock.hash, newChain, a.number)
        invariant forall n: nat :: n == a.number + 1 && n <= oldBlock.number && n <= newBlock.number ==>
                    AncestorAt(t, g, oldBlock.hash, n) != AncestorAt(t, g, newBlock.hash, n)
        decreases a.number
      {
        GenesisMeets(oldBlock, newBlock, a, b);
        ghost var next: nat := a.number - 1;
        WalkOld(oldBlock, a, next, deleted);
        StepDownwards(t, g, newBlock.hash, newChain, b.number, next, b);
        deleted, newChain := deleted + BodyOf(bodies, a.hash), newChain + [b];
        if !HasBlock(a.parent) || !HasBlock(b.parent) {
          return false, c, deleted, newChain;
        }
        a, b := hc.headers[a.parent], hc.headers[b.parent];
      }
      ForkIs(t, g, oldBlock.hash, newBlock.hash, a.number);
      ForkIsCommon(t, g, oldBlock.hash, newBlock.hash, a.number);
      return true, a.number, deleted, newChain;
    }

    lemma WalkStarts(oldBlock: Header, newBlock: Header)
      requires Valid()
      requires oldBlock.hash in hc.headers && hc.headers[oldBlock.hash] == oldBlock && newBlock.hash in hc.headers
      requires hc.headers[newBlock.hash] == newBlock
      ensures IsAt(hc.headers, hc.genesis, oldBlock.hash, oldBlock, oldBlock.number)
      ensures IsAt(hc.headers, hc.genesis, newBlock.hash, newBlock, newBlock.number)
      ensures Gathered(hc.headers, hc.genesis, bodies, oldBlock.hash, [], oldBlock.number, oldBlock.number)
      ensures Downwards(hc.headers, hc.genesis, newBlock.hash, [], newBlock.number)
    {
      hide Closed;
      AncestorSelf(hc.headers, hc.genesis, oldBlock.hash);
      AncestorSelf(hc.headers, hc.genesis, newBlock.hash);
    }

    lemma WalkOld(oldBlock: Header, a: Header, next: nat, deleted: seq<Hash>)
      requires Valid() && oldBlock.hash in hc.headers && hc.headers[oldBlock.hash] == oldBlock
      requires IsAt(hc.headers, hc.genesis, oldBlock.hash, a, a.number) && next + 1 == a.number
      requires Gathered(hc.headers, hc.genesis, bodies, oldBlock.hash, deleted, a.number, oldBlock.number)
      ensures a.parent in hc.headers && IsAt(hc.headers, hc.genesis, oldBlock.hash, hc.headers[a.parent], next)
      ensures Gathered(hc.headers, hc.genesis, bodies, oldBlock.hash, deleted + BodyOf(bodies, a.hash), next,
                       oldBlock.number)
    {
      hide Closed, Gathered;
      AncestorStep(hc.headers, hc.genesis, oldBlock.hash, a.number, next);
      AncestorIs(hc.headers, hc.genesis, oldBlock.hash, next);
      LinkedUpIs(hc.headers, hc.genesis, a.parent);
      GatherMore(hc.headers, hc.genesis, bodies, oldBlock.hash, deleted, a.number, oldBlock.number, next);
    }

    lemma GenesisMeets(oldBlock: Header, newBlock: Header, a: Header, b: Header)
      requires Valid() && oldBlock.hash in hc.headers && newBlock.hash in hc.headers
      requires IsAt(hc.headers, hc.genesis, oldBlock.hash, a, a.number)
      requires IsAt(hc.headers, hc.genesis, newBlock.hash, b, a.number)
      ensures a.number == 0 ==> a.hash == b.hash
    {
      AncestorZero(hc.headers, hc.genesis, oldBlock.hash);
      AncestorZero(hc.headers, hc.genesis, newBlock.hash);
    }

    /** Makes the block the head: its marker, its lookup entries and, if it was off the marked chain, the other
        heads. */
    method WriteHeadBlock(block: Header)
      requires Valid() && block.hash in hc.headers && hc.headers[block.hash] == block
      modifies this`lookup, this`head, this`fast, hc`canon, hc`current
      ensures Valid() && head == block
      ensures hc.canon == old(hc.canon)[block.number := block.hash]
      ensures lookup == old(lookup) + Entries(bodies, block)
      ensures if Marks(old(hc.canon), block) then hc.current == old(hc.current) && fast == old(fast)
              else hc.current == block && fast == block
    {
      hide Closed, Weighed, AllGenuine, Entries;
      var updateHeads := !Marks(hc.canon, block);
      hc.canon := hc.canon[block.number := block.hash];
      lookup := lookup + Entries(bodies, block);
      if updateHeads {
        hc.current := block;
        fast := block;
      }
      head := block;
    }

    /** Writes the new branch, but for its head, as canonical, lowest block first. */
    method Replay(newBlock: Header, newChain: seq<Header>, ghost c: nat) returns (added: seq<Hash>, ghost top: nat)
      requires Valid() && newBlock.hash in hc.headers && hc.headers[newBlock.hash] == newBlock
      requires Downwards(hc.headers, hc.genesis, newBlock.hash, newChain, c)
      modifies this`lookup, this`head, this`fast, hc`canon, hc`current
      ensures Valid() && top == (if c < newBlock.number then newBlock.number - 1 else c)
      ensures Replayed(hc.headers, hc.genesis, bodies, newBlock.hash, c, top, old(hc.canon), hc.canon, old(lookup),
                       lookup, added)
      ensures if top > c then head.number == top else unchanged(this) && unchanged(hc)
    {
      hide Closed, AncestorAt, Weighed, AllGenuine, Replayed;
      var i := |newChain|;
      assert |newChain| == newBlock.number - c;
      added, top := [], c;
      ReplayStarts(hc.headers, hc.genesis, bodies, newBlock.hash, c, hc.canon, lookup);
      while i > 1
        invariant Valid() && 0 <= i <= |newChain| && top == newBlock.number - i && (i == 0 ==> newChain == [])
        invariant Replayed(hc.headers, hc.genesis, bodies, newBlock.hash, c, top, old(hc.canon), hc.canon, old(lookup),
                           lookup, added)
        invariant if top > c then head.number == top else unchanged(this) && unchanged(hc)
      {
        i := i - 1;
        var block := newChain[i];
        assert IsAt(hc.headers, hc.genesis, newBlock.hash, newChain[i], newBlock.number - i);
        ghost var next := top + 1;
        ReplayStep(hc.headers, hc.genesis, bodies, newBlock.hash, c, top, next, old(hc.canon), hc.canon, old(lookup),
                   lookup, added, block);
        WriteHeadBlock(block);
        added := added + BodyOf(bodies, block.hash);
        top := next;
      }
    }

    /** Drops the lookup entries that only the old branch had, and the markers above the head as it is now. */
    method Prune(deleted: seq<Hash>, added: seq<Hash>, ghost highest: nat)
      requires forall n: nat :: n in hc.canon <==> n <= highest
      modifies this`lookup, hc`canon
      ensures lookup == old(lookup) - (set tx | tx in deleted && tx !in added)
      ensures forall n: nat :: n in hc.canon <==> n in old(hc.canon) && n <= head.number
      ensures forall n: nat :: n in hc.canon ==> hc.canon[n] == old(hc.canon)[n]
    {
      lookup := lookup - (set tx | tx in deleted && tx !in added);
      hc.canon := ClearAbove(hc.canon, highest, head.number);
    }

    /** Moves the marked chain and the lookup over to a stored block, all but writing it as the head. */
    method Reorg(newBlock: Header) returns (ok: bool)
      requires Valid() && InSync() && newBlock.hash in hc.headers && hc.headers[newBlock.hash] == newBlock
      modifies this`lookup, this`head, this`fast, hc`canon, hc`current
      ensures Valid() && (!ok ==> unchanged(this) && unchanged(hc)) && (Complete() ==> ok)
      ensures ok ==>
                (Canonical(hc.headers, hc.genesis, hc.canon[newBlock.number := newBlock.hash], newBlock.hash)
                <==> !LeavesMarkers(old(hc.canon), old(head), newBlock))
      ensures ok && NoRepeats(hc.headers, hc.genesis, bodies, newBlock.hash) ==>
                Indexed(hc.headers, hc.genesis, bodies, newBlock.hash, lookup + Entries(bodies, newBlock))
      ensures ok && Marks(hc.canon, newBlock) ==> Marks(old(hc.canon), newBlock) && hc.current == old(hc.current)
    {
      hide Closed, AncestorAt, Weighed, AllGenuine, Canonical, Gathered, Indexed, NoRepeats, Downwards, ForkAt;
      hide HighestCommon, LeavesMarkers, SameOutside, Spells, Relooked, Entries;
      ghost var t, g, a := hc.headers, hc.genesis, head;
      var newChain, deleted, added;
      ghost var c, top;
      ok, c, deleted, newChain := FindFork(head, newBlock);
      if !ok {
        return;
      }
      ForkBelow(t, g, a.hash, newBlock.hash, c);
      added, top := Replay(newBlock, newChain, c);
      ghost var replayed, relooked := hc.canon, lookup;
      ghost var highest := if top > a.number then top else a.number;
      ReplayedDomain(t, g, bodies, a.hash, newBlock.hash, c, top, old(hc.canon), replayed, old(lookup), relooked,
                     added, highest);
      Prune(deleted, added, highest);
      CanonAfter(t, g, a.hash, newBlock, c, top, old(hc.canon), replayed, hc.canon);
      NotYetMarked(t, g, a.hash, newBlock, c, top, old(hc.canon), replayed, hc.canon);
      if NoRepeats(t, g, bodies, newBlock.hash) {
        IndexedAfter(t, g, bodies, a.hash, newBlock.hash, c, top, old(lookup), relooked, deleted, added);
      }
    }

    static lemma ForkBelow(t: Tree, genesis: Hash, a: Hash, b: Hash, c: nat)
      requires Closed(t, genesis) && a in t && b in t && ForkAt(t, genesis, a, b, c)
      ensures c <= t[a].number && c <= t[b].number
    {
    }

    /** Makes a stored block the head, with a reorg when it is not on top of the head. */
    method WriteKnownBlock(block: Header) returns (ok: bool)
      requires Valid() && InSync() && block.number > 0 && block.hash in hc.headers && hc.headers[block.hash] == block
      modifies this`lookup, this`head, this`fast, hc`canon, hc`current
      ensures Valid() && (!ok ==> unchanged(this) && unchanged(hc)) && (Complete() ==> ok)
      ensures ok ==> head == block && (block.parent == old(head.hash) ==> fast == block || fast == old(fast))
      ensures ok ==> (Canonical(hc.headers, hc.genesis, hc.canon, head.hash) <==>
                      !LeavesMarkers(old(hc.canon), old(head), block))
      ensures ok && NoRepeats(hc.headers, hc.genesis, bodies, block.hash) ==>
                Indexed(hc.headers, hc.genesis, bodies, head.hash, lookup)
      ensures ok && NoRepeats(hc.headers, hc.genesis, bodies, block.hash) ==>
                (InSync() <==> !LeavesMarkers(old(hc.canon), old(head), block))
    {
      hide Closed, AncestorAt, Weighed, AllGenuine, Canonical, Indexed, NoRepeats, Entries;
      ok := true;
      OnMarks(block);
      if block.parent != head.hash {
        ok := Reorg(block);
        if !ok {
          return;
        }
      } else {
        OnTop(block);
      }
      WriteHeadBlock(block);
    }

    /** A marked block that is not below the head is the head. */
    lemma OnMarks(block: Header)
      requires Valid() && InSync() && block.hash in hc.headers && hc.headers[block.hash] == block
      ensures Marks(hc.canon, block) && !LeavesMarkers(hc.canon, head, block) ==> block == head
    {
      AncestorSelf(hc.headers, hc.genesis, head.hash);
    }

    /** On top of the head nothing has to be rewritten. */
    lemma OnTop(block: Header)
      requires Valid() && InSync() && block.number > 0 && block.parent == head.hash
      requires block.hash in hc.headers && hc.headers[block.hash] == block
      ensures Canonical(hc.headers, hc.genesis, hc.canon[block.number := block.hash], block.hash)
      ensures !LeavesMarkers(hc.canon, head, block) && !Marks(hc.canon, block)
      ensures NoRepeats(hc.headers, hc.genesis, bodies, block.hash) ==>
                Indexed(hc.headers, hc.genesis, bodies, block.hash, lookup + Entries(bodies, block))
    {
      hide Closed, AncestorAt, Weighed, AllGenuine, Indexed, NoRepeats, Entries, LeavesMarkers;
      var t, g := hc.headers, hc.genesis;
      ForkOnTop(t, g, head.hash, block);
      var c: nat := head.number;
      NearIs(t, g, hc.canon, head.hash, block, c);
      CanonAfter(t, g, head.hash, block, c, c, hc.canon, hc.canon, hc.canon);
      assert !LeavesMarkers(hc.canon, head, block) by {
        assert block.number > head.number;
        NotBelow(hc.canon, head, block);
      }
      if NoRepeats(t, g, bodies, block.hash) {
        NothingReplayed(t, g, bodies, block.hash, c, lookup);
        NothingReplayed(t, g, bodies, head.hash, c, lookup);
        IndexedAfter(t, g, bodies, head.hash, block.hash, c, c, lookup, lookup, [], []);
        var none: set<Hash> := set tx | tx in [] && tx !in [];
        assert none == {} && lookup - none == lookup;
      }
    }

    static lemma NotBelow(canon: map<nat, Hash>, head: Header, block: Header)
      requires block.number > head.number
      ensures !LeavesMarkers(canon, head, block)
    {
    }

    static lemma NothingReplayed(t: Tree, genesis: Hash, bodies: Bodies, b: Hash, c: nat, lookup: map<Hash, nat>)
      requires Closed(t, genesis) && b in t && c <= t[b].number
      ensures Gathered(t, genesis, bodies, b, [], c, c)
      ensures forall tx: Hash :: Relooked(t, genesis, bodies, b, c, c, lookup, lookup, tx)
    {
      ReplayStarts(t, genesis, bodies, b, c, map[], lookup);
    }

    /** Stores a block and its total difficulty, whatever chain it is on. */
    method StoreBlock(block: Header, txs: seq<Hash>)
      requires Valid() && InSync() && Complete()
      requires Genuine(hc.origin, block) && contents(block.hash) == txs && block.number > 0 && Fits(hc.headers, block)
      modifies this`bodies, hc`headers, hc`td
      ensures Valid() && InSync() && Complete()
      ensures hc.headers == old(hc.headers)[block.hash := block] && Extends(hc.headers, old(hc.headers))
      ensures hc.td == old(hc.td)[block.hash := old(hc.td)[block.parent] + block.difficulty]
      ensures SameWeights(old(hc.td), hc.td)
    {
      hide Closed, AncestorAt, Weighed, Canonical, Indexed, SameWeights, AllGenuine, Extends, BodyOf;
      Stores(block);
      SameBodies(bodies, hc.headers, block.hash, txs);
      hc.td := hc.td[block.hash := hc.td[block.parent] + block.difficulty];
      hc.headers := hc.headers[block.hash := block];
      bodies := bodies[block.hash := txs];
      CanonicalGrows(old(hc.headers), hc.headers, hc.genesis, hc.canon, head.hash);
      IndexedGrows(old(hc.headers), hc.headers, hc.genesis, old(bodies), bodies, head.hash, lookup);
    }

    static lemma SameBodies(bodies: Bodies, t: Tree, h: Hash, txs: seq<Hash>)
      requires h in bodies ==> bodies[h] == txs
      requires bodies.Keys == t.Keys
      ensures forall x :: x in t ==> BodyOf(bodies[h := txs], x) == BodyOf(bodies, x)
    {
    }

    lemma Stores(block: Header)
      requires Valid() && Genuine(hc.origin, block) && block.number > 0 && Fits(hc.headers, block)
      ensures var t, td := hc.headers[block.hash := block], hc.td[block.hash := hc.td[block.parent] + block.difficulty];
        && Closed(t, hc.genesis) && Extends(t, hc.headers) && Weighed(t, hc.genesis, td) && AllGenuine(hc.origin, t)
        && SameWeights(hc.td, td) && head.hash in t && t[head.hash] == head && fast.hash in t && t[fast.hash] == fast
        && hc.current.hash in t && t[hc.current.hash] == hc.current
    {
      hide Closed, Weighed;
      if block.hash in hc.headers {
        WeightOf(hc.headers, hc.genesis, hc.td, block.hash);
        assert hc.headers[block.hash := block] == hc.headers;
        assert hc.td[block.hash := hc.td[block.parent] + block.difficulty] == hc.td;
      } else {
        AddHeader(hc.headers, hc.genesis, block);
        AddWeight(hc.headers, hc.genesis, hc.td, block);
      }
    }

    /** More difficulty wins; on a tie the lower block; at the same height a preserved block, or a coin toss. */
    static predicate Preferred(externTd: nat, localTd: nat, number: nat, head: nat,
                               headPreserved: bool, blockPreserved: bool, coin: bool) {
      || externTd > localTd
      || (externTd == localTd &&
          (number < head || (number == head && !headPreserved && (blockPreserved || coin))))
    }

    /** Stores a processed block and, when it is the better one, makes it the head. */
    method WriteBlock(block: Header, txs: seq<Hash>, headPreserved: bool, blockPreserved: bool, coin: bool)
      returns (status: WriteStatus, err: Option<HeaderError>)
      requires Valid() && InSync() && Complete()
      requires Genuine(hc.origin, block) && contents(block.hash) == txs
      modifies this, hc
      ensures Valid() && Complete()
      ensures err == (if block.number > 0 && Fits(old(hc.headers), block) then None else Some(UnknownAncestor))
      ensures err.Some? ==> status == NonStat && unchanged(this) && unchanged(hc) && InSync()
      ensures err.None? ==>
                && hc.headers == old(hc.headers)[block.hash := block] && SameWeights(old(hc.td), hc.td)
                && hc.td == old(hc.td)[block.hash := old(hc.td)[block.parent] + block.difficulty]
      ensures err.None? ==>
                var better := Preferred(hc.td[block.hash], old(hc.td[head.hash]), block.number, old(head.number),
                                        headPreserved, blockPreserved, coin);
                && status == (if better then CanonStat else SideStat)
                && head == (if better then block else old(head)) && hc.td[head.hash] >= old(hc.td[head.hash])
                && (!better ==> InSync()) && (block.parent == old(head.hash) ==> fast == block || fast == old(fast))
                && (better && NoRepeats(hc.headers, hc.genesis, bodies, block.hash) ==>
                      (InSync() <==> !LeavesMarkers(old(hc.canon), old(head), block)))
    {
      hide Closed, AncestorAt, Weighed, AllGenuine, Canonical, Indexed, NoRepeats, LeavesMarkers, Extends, SameWeights;
      if block.number == 0 || block.parent !in hc.headers || hc.headers[block.parent].number + 1 != block.number {
        return NonStat, Some(UnknownAncestor);
      }
      var externTd, localTd := hc.td[block.parent] + block.difficulty, hc.td[head.hash];
      StoreBlock(block, txs);
      Weights(old(hc.td), hc.td, head.hash);
      var better := Preferred(externTd, localTd, block.number, head.number, headPreserved, blockPreserved, coin);
      if better {
        var ok := WriteKnownBlock(block);
        return CanonStat, None;
      }
      return SideStat, None;
    }

    static lemma Weights(td: map<Hash, nat>, td': map<Hash, nat>, h: Hash)
      requires SameWeights(td, td') && h in td
      ensures h in td' && td'[h] == td[h]
    {
    }

    /** Whole chains of the head blocks, which are on the chain of the header head. */
    ghost predicate Rewindable()
      reads this, hc
    {
      && Valid() && hc.Consistent() && HeadsWhole()
      && IsAt(hc.headers, hc.genesis, hc.current.hash, head, head.number)
      && IsAt(hc.headers, hc.genesis, hc.current.hash, fast, fast.number)
    }

    ghost predicate HeadsWhole()
      requires Valid()
      reads this, hc
    {
      && Whole(hc.headers, hc.genesis, bodies, head.hash)
      && Whole(hc.headers, hc.genesis, bodies, fast.hash)
    }

    /** Takes the head block back to a usable ancestor of `header` unless it is below it, and the fast block to
        `header`. */
    method UpdateHead(header: Header, root: Hash, pivot: Option<nat>, db: StateDb, rootNumber: nat) returns (found: nat)
      requires Valid() && HeadsWhole() && header.hash in hc.headers && hc.headers[header.hash] == header
      requires header.number <= head.number ==> IsAt(hc.headers, hc.genesis, head.hash, header, header.number)
      requires header.number <= fast.number ==> IsAt(hc.headers, hc.genesis, fast.hash, header, header.number)
      modifies this`head, this`fast
      ensures Valid() && HeadsWhole()
      ensures if header.number <= old(head.number) then Best(hc.headers, hc.genesis, db, header.hash, root, pivot, head)
              else head == old(head)
      ensures head.number <= old(head.number)
      ensures fast == if header.number < old(fast.number) then header else old(fast)
      ensures found == rootNumber || RootAt(hc.headers, hc.genesis, db, header.hash, root, found)
    {
      hide Closed, Weighed, AllGenuine, AncestorAt, Usable, Skipped, IsAt, Whole;
      found := rootNumber;
      if header.number <= head.number {
        WholeBelow(hc.headers, hc.genesis, bodies, head.hash, header);
        assert HasBlock(header.hash);
        var newHead, at := FindState(hc.headers, hc.genesis, header, root, pivot, db);
        WholeBelow(hc.headers, hc.genesis, bodies, header.hash, newHead);
        IsAtSelf(hc.headers, hc.genesis, header.hash, newHead, newHead.number);
        head := newHead;
        if at.Some? {
          found := at.value;
        }
      }
      if header.number < fast.number {
        WholeBelow(hc.headers, hc.genesis, bodies, fast.hash, header);
        fast := header;
      }
    }

    /** The head block has its state or is the genesis. */
    ghost predicate Sound(db: StateDb)
      reads this
    {
      head.number == 0 || db.Has(head.hash)
    }

    /** Deletes every header, total difficulty, body and marker of the given heights. */
    method Wipe(nums: set<nat>, target: nat, ghost start: Hash)
      requires Valid() && HeadsWhole() && start in hc.headers && Canonical(hc.headers, hc.genesis, hc.canon, start)
      requires IsAt(hc.headers, hc.genesis, start, hc.current, target)
      requires IsAt(hc.headers, hc.genesis, hc.current.hash, head, head.number)
      requires IsAt(hc.headers, hc.genesis, hc.current.hash, fast, fast.number)
      requires Dooms(hc.headers, hc.canon, nums, target)
      modifies this`bodies, hc`headers, hc`td, hc`canon
      ensures Rewindable() && WipedAbove(target, old(hc.headers), old(hc.td), old(hc.canon), old(bodies))
    {
      hide Closed, Weighed, AncestorAt, Canonical, Upto, TableUpto, TableWithout, AllGenuine, IsAt, MarksUpto, Whole;
      var t := hc.headers;
      IsAtSelf(t, hc.genesis, start, hc.current, target);
      WithoutIsUpto(t, nums, target, t);
      WithoutIsUpto(t, nums, target, hc.td);
      WithoutIsUpto(t, nums, target, bodies);
      UptoClosed(t, hc.genesis, target);
      UptoWeighed(t, hc.genesis, hc.td, target);
      UptoIsAt(t, hc.genesis, target, hc.current.hash, head);
      UptoIsAt(t, hc.genesis, target, hc.current.hash, fast);
      UptoTables(t, target, bodies, hc.origin);
      UptoWhole(t, hc.genesis, bodies, target, head.hash);
      UptoWhole(t, hc.genesis, bodies, target, fast.hash);
      UptoIsAt(t, hc.genesis, target, hc.current.hash, hc.current);
      MarksWithout(hc.canon, nums, target);
      UptoCanonical(t, hc.genesis, hc.canon, start, hc.current.hash, target);
      hc.headers := TableWithout(t, nums, t);
      hc.td := TableWithout(t, nums, hc.td);
      bodies := TableWithout(t, nums, bodies);
      hc.canon := hc.canon - nums;
    }

    static lemma IsAtSelf(t: Tree, genesis: Hash, start: Hash, b: Header, n: nat)
      requires Closed(t, genesis) && start in t && IsAt(t, genesis, start, b, n)
      ensures b.number == n <= t[start].number && b.hash == AncestorAt(t, genesis, start, n)
      ensures b.hash in t && t[b.hash] == b && IsAt(t, genesis, b.hash, b, n)
    {
      hide Closed;
      AncestorSelf(t, genesis, b.hash);
    }

    static lemma UptoTables(t: Tree, n: nat, bodies: Bodies, origin: Hash -> Header)
      requires AllGenuine(origin, t) && bodies.Keys <= t.Keys
      ensures AllGenuine(origin, Upto(t, n)) && Upto(t, n) == TableUpto(t, n, t)
      ensures TableUpto(t, n, bodies).Keys <= Upto(t, n).Keys
      ensures forall h :: h in TableUpto(t, n, bodies) ==> h in bodies && TableUpto(t, n, bodies)[h] == bodies[h]
    {
    }

    /** No header, total difficulty, body or marker is left above `n`, on any fork, and all below are as they were. */
    ghost predicate WipedAbove(n: nat, headers: Tree, td: map<Hash, nat>, canon: map<nat, Hash>, bodies: Bodies)
      reads this, hc
    {
      && hc.headers == Upto(headers, n) && hc.td == TableUpto(headers, n, td)
      && this.bodies == TableUpto(headers, n, bodies)
      && hc.canon == MarksUpto(canon, n)
    }

    /** The head blocks are on the chain of the header head, itself on the chain of `start`. */
    ghost predicate Descending(start: Hash)
      reads this, hc
    {
      && Valid() && HeadsWhole() && start in hc.headers
      && IsAt(hc.headers, hc.genesis, start, hc.current, hc.current.number)
      && IsAt(hc.headers, hc.genesis, hc.current.hash, head, head.number)
      && IsAt(hc.headers, hc.genesis, hc.current.hash, fast, fast.number)
    }

    /** Moves all heads one block down. */
    method StepBack(root: Hash, pivot: Option<nat>, db: StateDb, rootNumber: nat, ghost start: Hash)
      returns (found: nat)
      requires Descending(start) && hc.current.number > 0 && RootAt(hc.headers, hc.genesis, db, start, root, rootNumber)
      modifies this`head, this`fast, hc`current
      ensures Descending(start) && hc.current.number == old(hc.current.number) - 1
      ensures RootAt(hc.headers, hc.genesis, db, start, root, found)
      ensures fast.number == Least(old(fast.number), hc.current.number)
      ensures if hc.current.number <= old(head.number) then
                Best(hc.headers, hc.genesis, db, hc.current.hash, root, pivot, head)
              else head == old(head)
      ensures head.number <= old(head.number)
    {
      hide Closed, Weighed, AllGenuine, AncestorAt, Usable, Skipped, IsAt, RootAt;
      ParentAt(start);
      var parent := hc.headers[hc.current.parent];
      Between(parent, head);
      Between(parent, fast);
      found := UpdateHead(parent, root, pivot, db, rootNumber);
      Between(old(head), parent);
      Between(old(fast), parent);
      IsAtSelf(hc.headers, hc.genesis, start, parent, parent.number);
      if found != rootNumber {
        RootAbove(hc.headers, hc.genesis, db, start, parent, root, found);
      }
      hc.current := parent;
    }

    static function Least(a: nat, b: nat): nat {
      if a < b then a else b
    }

    /** Of two blocks on the current chain, the lower is an ancestor of the higher. */
    lemma Between(b: Header, above: Header)
      requires hc.Stored() && above.hash in hc.headers && hc.headers[above.hash] == above
      requires IsAt(hc.headers, hc.genesis, hc.current.hash, b, b.number)
      requires IsAt(hc.headers, hc.genesis, hc.current.hash, above, above.number)
      ensures b.number <= above.number ==> IsAt(hc.headers, hc.genesis, above.hash, b, b.number)
    {
      hide Closed, Weighed, AllGenuine, AncestorAt;
      if b.number <= above.number {
        AncestorOfAncestor(hc.headers, hc.genesis, hc.current.hash, above.number, b.number);
      }
    }

    lemma ParentAt(start: Hash)
      requires Descending(start) && hc.current.number > 0
      ensures hc.current.parent in hc.headers
      ensures var parent := hc.headers[hc.current.parent];
        && parent.hash == hc.current.parent && parent.number + 1 == hc.current.number
        && IsAt(hc.headers, hc.genesis, start, parent, parent.number)
        && IsAt(hc.headers, hc.genesis, hc.current.hash, parent, parent.number)
    {
      hide Closed, Weighed, AllGenuine, AncestorAt;
      Below(hc.headers, hc.genesis, start, hc.current);
      IsAtSelf(hc.headers, hc.genesis, start, hc.current, hc.current.number);
      Below(hc.headers, hc.genesis, hc.current.hash, hc.current);
      LinkedUpIs(hc.headers, hc.genesis, hc.current.parent);
    }

    /** Between `low` and `n`, no block of the chain of `start` has its state. */
    static ghost predicate NoneAbove(db: StateDb, t: Tree, genesis: Hash, start: Hash, low: nat, n: nat)
      requires Closed(t, genesis) && start in t && n <= t[start].number
    {
      forall m: nat :: low < m <= n ==> !db.Has(AncestorAt(t, genesis, start, m))
    }

    static lemma NoneAboveLower(db: StateDb, t: Tree, genesis: Hash, start: Hash, low: nat, n: nat, below: nat)
      requires Closed(t, genesis) && start in t && below <= n <= t[start].number
      ensures NoneAbove(db, t, genesis, start, low, n) ==> NoneAbove(db, t, genesis, start, low, below)
    {
    }

    /** With no root and no pivot asked for, the head found is the highest block with state. */
    lemma BestIsHighest(db: StateDb, start: Hash)
      requires Descending(start) && Best(hc.headers, hc.genesis, db, hc.current.hash, EMPTY_HASH, None, head)
      ensures NoneAbove(db, hc.headers, hc.genesis, start, head.number, hc.current.number)
    {
      hide Closed, Weighed, AllGenuine, AncestorAt;
      forall m: nat | head.number < m <= hc.current.number
        ensures !db.Has(AncestorAt(hc.headers, hc.genesis, start, m))
      {
        AncestorOfAncestor(hc.headers, hc.genesis, start, hc.current.number, m);
        assert !Usable(hc.headers, hc.genesis, db, hc.current.hash, EMPTY_HASH, m);
      }
    }

    lemma BestIsSound(db: StateDb, root: Hash, pivot: Option<nat>)
      requires Valid() && Best(hc.headers, hc.genesis, db, hc.current.hash, root, pivot, head)
      ensures Sound(db)
    {
    }

    lemma HeadBelow(start: Hash)
      requires Descending(start)
      ensures IsAt(hc.headers, hc.genesis, start, head, head.number)
    {
      hide Closed, Weighed, AllGenuine, AncestorAt;
      AncestorOfAncestor(hc.headers, hc.genesis, start, hc.current.number, head.number);
    }

    /** How far the heads have come down from height `num`, where the head block was `was`. */
    ghost predicate Lowered(db: StateDb, root: Hash, pivot: Option<nat>, start: Hash, num: nat, was: Header)
      reads this, hc
    {
      && Descending(start) && hc.current.number <= num && num <= hc.headers[start].number && head.number <= was.number
      && (hc.current.number == num || hc.current.number > was.number ==> head == was)
      && (hc.current.number == num || (head == was && head.number < hc.current.number) || Sound(db))
      && (root == EMPTY_HASH && pivot.None? && hc.current.number < num && hc.current.number <= was.number ==>
            NoneAbove(db, hc.headers, hc.genesis, start, head.number, hc.current.number))
    }

    /** Takes the heads down to `target`. */
    method Descend(target: nat, root: Hash, pivot: Option<nat>, db: StateDb, ghost start: Hash, ghost num: nat,
                   ghost was: Header)
      returns (found: nat)
      requires Lowered(db, root, pivot, start, num, was) && target <= hc.current.number
      requires fast.number <= hc.current.number
      modifies this`head, this`fast, hc`current
      ensures Lowered(db, root, pivot, start, num, was) && hc.current.number == target
      ensures RootAt(hc.headers, hc.genesis, db, start, root, found) && fast.number == Least(old(fast.number), target)
    {
      hide Closed, Weighed, AllGenuine, AncestorAt, Usable, Skipped, IsAt, Best, NoneAbove;
      found := 0;
      while hc.current.number > target
        invariant Lowered(db, root, pivot, start, num, was) && target <= hc.current.number
        invariant RootAt(hc.headers, hc.genesis, db, start, root, found)
        invariant fast.number == Least(old(fast.number), hc.current.number)
        decreases hc.current.number
      {
        ghost var prev, at := head, hc.current.number;
        found := StepBack(root, pivot, db, found, start);
        if hc.current.number <= prev.number {
          BestIsSound(db, root, pivot);
          if root == EMPTY_HASH && pivot.None? {
            BestIsHighest(db, start);
          }
        }
        NoneAboveLower(db, hc.headers, hc.genesis, start, head.number, at, hc.current.number);
      }
    }

    /**
      * Rewinds the header chain to `target`, the block heads with it, and deletes what is above on
      * all forks. All deletions are flushed in one batch at the end.
      */
    method Rewind(target: nat, root: Hash, pivot: Option<nat>, db: StateDb) returns (found: nat)
      requires Rewindable() && head.number != target
      modifies this, hc
      ensures Rewindable()
      ensures old(hc.current.number) <= target ==> unchanged(this) && unchanged(hc)
      ensures old(hc.current.number) > target ==>
                && hc.current.number == target
                && IsAt(old(hc.headers), hc.genesis, old(hc.current.hash), hc.current, target)
                && WipedAbove(target, old(hc.headers), old(hc.td), old(hc.canon), old(bodies))
      ensures Sound(db) || (head == old(head) && head.number < target)
      ensures head.number <= old(head.number)
      ensures IsAt(old(hc.headers), hc.genesis, old(hc.current.hash), head, head.number)
      ensures root == EMPTY_HASH && pivot.None? && target < old(head.number) ==>
                NoneAbove(db, old(hc.headers), hc.genesis, old(hc.current.hash), head.number, target)
      ensures lookup == old(lookup) && fast.number == Least(old(fast.number), target)
      ensures RootAt(old(hc.headers), hc.genesis, db, old(hc.current.hash), root, found)
    {
      hide Closed, Weighed, AllGenuine, AncestorAt, IsAt, Canonical, NoneAbove, WipedAbove, Dooms;
      found := 0;
      ghost var start := hc.current;
      StartsDown();
      if hc.current.number <= target {
        return;
      }
      var nums := Doomed(target);
      found := Descend(target, root, pivot, db, start.hash, start.number, head);
      HeadBelow(start.hash);
      Wipe(nums, target, start.hash);
    }

    /** The heights to wipe: from the target up to the highest stored header. */
    method Doomed(target: nat) returns (nums: set<nat>)
      requires hc.Stored() && hc.Consistent() && target < hc.current.number
      ensures Dooms(hc.headers, hc.canon, nums, target)
    {
      hide Closed, Weighed, AllGenuine, AncestorAt;
      var above := hc.current.number + 1;
      var top := FirstEmpty(hc.headers, hc.genesis, above);
      nums := {};
      for n := target + 1 to top
        invariant forall m: nat :: m in nums <==> target < m < n
      {
        nums := nums + {n};
      }
      forall h | h in hc.headers
        ensures hc.headers[h].number < top
      {
        assert Inhabited(hc.headers, hc.headers[h].number);
      }
    }

    lemma StartsDown()
      requires Rewindable()
      ensures Descending(hc.current.hash) && head.number <= hc.current.number && fast.number <= hc.current.number
    {
      AncestorSelf(hc.headers, hc.genesis, hc.current.hash);
    }

    /**
      * Rewinds the chain to `target`, and beyond the block with the requested root if one is given.
      * When the head block is already there the call only repairs it: the header chain is not touched,
      * even if it reaches higher.
      */
    method SetHeadBeyondRoot(target: nat, root: Hash, pivot: Option<nat>, db: StateDb) returns (found: nat)
      requires Rewindable()
      modifies this, hc
      ensures Rewindable() && lookup == old(lookup) && fast.number == Least(old(fast.number), target)
      ensures RootAt(old(hc.headers), hc.genesis, db, old(hc.current.hash), root, found)
      ensures hc.current.number == target <==>
                old(hc.current.number) == target || (old(hc.current.number) > target && old(head.number) != target)
      ensures if old(head.number) == target || old(hc.current.number) <= target then
                unchanged(hc) && bodies == old(bodies)
              else
                && IsAt(old(hc.headers), hc.genesis, old(hc.current.hash), hc.current, target)
                && WipedAbove(target, old(hc.headers), old(hc.td), old(hc.canon), old(bodies))
      ensures Sound(db) || (head == old(head) && head.number < target)
      ensures head.number <= old(head.number)
      ensures old(Indexed(hc.headers, hc.genesis, bodies, head.hash, lookup)) ==>
                (Indexed(hc.headers, hc.genesis, bodies, head.hash, lookup)
                 <==> EmptyAbove(old(hc.headers), hc.genesis, old(bodies), old(head.hash), head.number))
      ensures root == EMPTY_HASH && pivot.None? && target <= old(head.number) ==>
                NoneAbove(db, old(hc.headers), hc.genesis, old(hc.current.hash), head.number, target)
    {
      hide Closed, Weighed, AllGenuine, AncestorAt, IsAt, Canonical, NoneAbove, Usable, Skipped, Upto, TableUpto;
      hide MarksUpto, Indexed, EmptyAbove;
      StartsDown();
      if head.number == target {
        ghost var block := head;
        Between(head, head);
        Between(head, fast);
        found := UpdateHead(head, root, pivot, db, 0);
        Repaired(block, root, pivot, db);
        if found != 0 {
          RootAbove(hc.headers, hc.genesis, db, hc.current.hash, block, root, found);
        }
      } else {
        found := Rewind(target, root, pivot, db);
      }
      LookupBelow(old(hc.headers), old(bodies), old(hc.current.hash), old(head), target);
    }

    /** A head lower on the same chain has the same bodies below it, whether or not those above `n` were deleted. */
    lemma BodiesBelow(t: Tree, was: Bodies, current: Hash, block: Header, n: nat)
      requires Valid() && Closed(t, hc.genesis) && current in t && block.hash in t && t[block.hash] == block
      requires IsAt(t, hc.genesis, current, block, block.number) && head.number <= block.number
      requires (hc.headers == t && bodies == was) || (hc.headers == Upto(t, n) && bodies == TableUpto(t, n, was))
      requires IsAt(t, hc.genesis, current, head, head.number)
      ensures forall m: nat :: m <= head.number ==>
                BodyOf(bodies, AncestorAt(hc.headers, hc.genesis, head.hash, m))
                == BodyOf(was, AncestorAt(t, hc.genesis, block.hash, m))
    {
      hide Closed, Weighed, AllGenuine, AncestorAt, BodyOf, Upto, TableUpto;
      forall m: nat | m <= head.number
        ensures BodyOf(bodies, AncestorAt(hc.headers, hc.genesis, head.hash, m))
             == BodyOf(was, AncestorAt(t, hc.genesis, block.hash, m))
      {
        AncestorOfAncestor(t, hc.genesis, current, block.number, m);
        AncestorOfAncestor(t, hc.genesis, current, head.number, m);
        if hc.headers != t || bodies != was {
          UptoBody(t, hc.genesis, was, n, head.hash, m);
        }
      }
    }

    lemma LookupBelow(t: Tree, was: Bodies, current: Hash, block: Header, n: nat)
      requires Valid() && Closed(t, hc.genesis) && current in t && block.hash in t && t[block.hash] == block
      requires IsAt(t, hc.genesis, current, block, block.number) && head.number <= block.number
      requires (hc.headers == t && bodies == was) || (hc.headers == Upto(t, n) && bodies == TableUpto(t, n, was))
      requires IsAt(t, hc.genesis, current, head, head.number)
      ensures Indexed(t, hc.genesis, was, block.hash, lookup) ==>
                (Indexed(hc.headers, hc.genesis, bodies, head.hash, lookup)
                 <==> EmptyAbove(t, hc.genesis, was, block.hash, head.number))
    {
      hide Closed, Weighed, AllGenuine, AncestorAt, BodyOf, Upto, TableUpto, Indexed, EmptyAbove, IsAt;
      BodiesBelow(t, was, current, block, n);
      if Indexed(t, hc.genesis, was, block.hash, lookup) {
        IndexedBelow(t, hc.genesis, was, block.hash, lookup, hc.headers, bodies, head.hash);
      }
    }

    /** The repaired head is an ancestor of the block it was, and so of the header head. */
    lemma Repaired(block: Header, root: Hash, pivot: Option<nat>, db: StateDb)
      requires Valid() && IsAt(hc.headers, hc.genesis, hc.current.hash, block, block.number)
      requires Best(hc.headers, hc.genesis, db, block.hash, root, pivot, head)
      ensures IsAt(hc.headers, hc.genesis, hc.current.hash, head, head.number) && Sound(db)
      ensures root == EMPTY_HASH && pivot.None? ==>
                NoneAbove(db, hc.headers, hc.genesis, hc.current.hash, head.number, block.number)
    {
      hide Closed, Weighed, AllGenuine, AncestorAt;
      AncestorOfAncestor(hc.headers, hc.genesis, hc.current.hash, block.number, head.number);
      if root == EMPTY_HASH && pivot.None? {
        forall m: nat | head.number < m <= block.number
          ensures !db.Has(AncestorAt(hc.headers, hc.genesis, hc.current.hash, m))
        {
          AncestorOfAncestor(hc.headers, hc.genesis, hc.current.hash, block.number, m);
          assert !Usable(hc.headers, hc.genesis, db, block.hash, EMPTY_HASH, m);
        }
      }
    }

    ghost predicate NoTransactions()
      reads this
    {
      forall h :: contents(h) == []
    }

    lemma NothingRepeats(h: Hash)
      requires Valid() && NoTransactions() && h in hc.headers
      ensures NoRepeats(hc.headers, hc.genesis, bodies, h)
    {
      hide Closed, AncestorAt;
    }

    /** Puts an empty block on top of the head. */
    method Grow(block: Header)
      requires Valid() && InSync() && Complete() && NoTransactions()
      requires Genuine(hc.origin, block) && block.parent == head.hash && block.number == head.number + 1
      requires block.difficulty > 0
      modifies this, hc
      ensures Valid() && InSync() && Complete() && head == block
      ensures hc.headers == old(hc.headers)[block.hash := block]
      ensures hc.td == old(hc.td)[block.hash := old(hc.td)[block.parent] + block.difficulty]
    {
      hide Closed, Weighed, AllGenuine, AncestorAt, Canonical, Indexed, NoRepeats, SameWeights;
      var _, _ := WriteBlock(block, [], false, false, false);
      NothingRepeats(block.hash);
    }

    /** A block on the genesis, as heavy as the chain of two blocks beside it, becomes the head; the higher marker
        stays. */
    method TieLower(block: Header)
      requires Valid() && InSync() && Complete() && NoTransactions()
      requires Genuine(hc.origin, block) && block.number == 1 && block.parent == hc.genesis && head.number == 2
      requires hc.genesis in hc.td && hc.td[hc.genesis] + block.difficulty == hc.td[head.hash]
      modifies this, hc
      ensures Valid() && Complete() && head == block && !InSync()
    {
      hide Closed, Weighed, AllGenuine, AncestorAt, Canonical, Indexed, NoRepeats, SameWeights;
      GenesisIs(hc.headers, hc.genesis);
      CanonicalZero(hc.headers, hc.genesis, hc.canon, head.hash, hc.genesis);
      var _, _ := WriteBlock(block, [], false, false, false);
      NothingRepeats(block.hash);
    }

    static method LowerTie() returns (bc: BlockChain)
      ensures fresh(bc) && bc.Valid() && bc.Complete() && !bc.InSync()
    {
      hide BlockChain.Valid, BlockChain.InSync, BlockChain.Complete;
      var g, a, aa, b := Header(1, 0, 0, 1), Header(2, 1, 1, 1), Header(3, 2, 2, 1), Header(4, 1, 1, 2);
      var origin := x => if x == 1 then g else if x == 2 then a else if x == 3 then aa else b;
      bc := new BlockChain(g, origin, x => []);
      bc.Grow(a);
      bc.Grow(aa);
      bc.TieLower(b);
    }

    /** A header arrives ahead of its block. */
    method HeaderAhead(h: Header)
      requires Valid() && InSync() && Genuine(hc.origin, h) && h.number == 1 && h.parent == hc.genesis
      requires h.difficulty > 0
      requires head.hash == hc.genesis && head == fast && hc.genesis in bodies && h.hash !in hc.headers
      modifies hc
      ensures Rewindable() && hc.current == h && head == old(head)
    {
      hide Closed, Weighed, AllGenuine, AncestorAt, Canonical, Indexed;
      hc.WriteChild(h, false);
      GenesisIs(hc.headers, hc.genesis);
      AncestorZero(hc.headers, hc.genesis, h.hash);
      AncestorZero(hc.headers, hc.genesis, hc.genesis);
    }

    /** A header is known above the only block; a rewind to that block's height leaves the header head where it is. */
    static method RepairOnly() returns (bc: BlockChain)
      ensures fresh(bc) && bc.Rewindable() && bc.hc.current.number == 1
    {
      hide BlockChain.Valid, BlockChain.InSync, BlockChain.Rewindable, BlockChain.WipedAbove, BlockChain.NoneAbove;
      hide IsAt;
      var g, a := Header(1, 0, 0, 1), Header(2, 1, 1, 1);
      bc := new BlockChain(g, x => if x == 1 then g else a, x => []);
      bc.HeaderAhead(a);
      var _ := bc.SetHeadBeyondRoot(0, EMPTY_HASH, None, StateDb(x => x, x => true));
    }

    /** Puts the first block, which has transactions, on the genesis. */
    method FirstBlock(block: Header, txs: seq<Hash>)
      requires Valid() && InSync() && Complete() && head == fast && head.hash == hc.genesis && contents(head.hash) == []
      requires Genuine(hc.origin, block) && block.parent == head.hash && block.number == head.number + 1
      requires block.difficulty > 0
      requires contents(block.hash) == txs != []
      modifies this, hc
      ensures Rewindable() && InSync() && head == block && head.number == 1
      ensures !EmptyAbove(hc.headers, hc.genesis, bodies, head.hash, 0)
    {
      hide Closed, Weighed, AllGenuine, AncestorAt, Canonical, Indexed, SameWeights;
      GenesisIs(hc.headers, hc.genesis);
      var _, _ := WriteBlock(block, txs, false, false, false);
      AncestorZero(hc.headers, hc.genesis, block.hash);
      AncestorZero(hc.headers, hc.genesis, hc.genesis);
      AncestorSelf(hc.headers, hc.genesis, block.hash);
      assert BodyOf(bodies, block.hash) == txs;
    }

    /** Takes the only block above the genesis back. */
    method TakeBack()
      requires Rewindable() && InSync() && head.number == 1 && !EmptyAbove(hc.headers, hc.genesis, bodies, head.hash, 0)
      modifies this, hc
      ensures Rewindable() && head.number == 0 && !Indexed(hc.headers, hc.genesis, bodies, head.hash, lookup)
    {
      hide Closed, Weighed, AllGenuine, AncestorAt, Canonical, Indexed, EmptyAbove, WipedAbove, NoneAbove, Whole;
      var _ := SetHeadBeyondRoot(0, EMPTY_HASH, None, StateDb(x => x, x => true));
    }

    /** A block with a transaction is taken back, and the lookup still has the transaction. */
    static method StaleLookup() returns (bc: BlockChain)
      ensures fresh(bc) && bc.Rewindable() && bc.head.number == 0
      ensures !Indexed(bc.hc.headers, bc.hc.genesis, bc.bodies, bc.head.hash, bc.lookup)
    {
      hide BlockChain.InSync, IsAt, Closed, Weighed, AllGenuine, AncestorAt, Canonical, Indexed, EmptyAbove, Whole;
      var g, a := Header(1, 0, 0, 1), Header(2, 1, 1, 1);
      bc := new BlockChain(g, x => if x == 1 then g else a, x => if x == 2 then [7] else []);
      bc.FirstBlock(a, [7]);
      bc.TakeBack();
    }
  }
}
