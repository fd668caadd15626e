/** Headers linked by parent hashes, and the ancestor chains they form. */
module BlockTree {
  import opened Transactions

  datatype Header = Header(hash: Hash, parent: Hash, number: nat, difficulty: nat)

  type Tree = map<Hash, Header>

  /** Every header is stored under its hash and, but for the genesis, together with its parent. */
  ghost predicate Closed(t: Tree, genesis: Hash) {
    && genesis in t && t[genesis].number == 0
    && forall h :: h in t ==> LinkedUp(t, genesis, h)
  }

  ghost predicate LinkedUp(t: Tree, genesis: Hash, h: Hash)
    requires h in t
  {
    && t[h].hash == h && (t[h].number == 0 <==> h == genesis)
    && (t[h].number > 0 ==> t[h].parent in t && t[t[h].parent].number + 1 == t[h].number)
  }

  /** The ancestor of `h` at height `n`, found by walking parent links. */
  ghost function AncestorAt(t: Tree, genesis: Hash, h: Hash, n: nat): Hash
    requires Closed(t, genesis) && h in t && n <= t[h].number
    decreases t[h].number
  {
    if t[h].number == n then h else
      assert LinkedUp(t, genesis, h);
      AncestorAt(t, genesis, t[h].parent, n)
  }

  lemma {:induction false} AncestorIs(t: Tree, genesis: Hash, h: Hash, n: nat)
    requires Closed(t, genesis) && h in t && n <= t[h].number
    ensures AncestorAt(t, genesis, h, n) in t && t[AncestorAt(t, genesis, h, n)].number == n
    decreases t[h].number
  {
    if t[h].number != n {
      assert LinkedUp(t, genesis, h);
      AncestorIs(t, genesis, t[h].parent, n);
    }
  }

  /** Ancestors of ancestors are ancestors. */
  lemma {:induction false} AncestorOfAncestor(t: Tree, genesis: Hash, h: Hash, m: nat, n: nat)
    requires Closed(t, genesis) && h in t && n <= m <= t[h].number
    ensures AncestorAt(t, genesis, h, m) in t && t[AncestorAt(t, genesis, h, m)].number == m
    ensures AncestorAt(t, genesis, AncestorAt(t, genesis, h, m), n) == AncestorAt(t, genesis, h, n)
    decreases t[h].number
  {
    AncestorIs(t, genesis, h, m);
    if t[h].number != m {
      assert LinkedUp(t, genesis, h);
      AncestorOfAncestor(t, genesis, t[h].parent, m, n);
    }
  }

  lemma {:induction false} AncestorZero(t: Tree, genesis: Hash, h: Hash)
    requires Closed(t, genesis) && h in t
    ensures AncestorAt(t, genesis, h, 0) == genesis
  {
    AncestorIs(t, genesis, h, 0);
    assert LinkedUp(t, genesis, AncestorAt(t, genesis, h, 0));
  }

  /** `c` is on both chains, and the chains part right above it. */
  ghost predicate HighestCommon(t: Tree, genesis: Hash, a: Hash, b: Hash, c: Hash)
    requires Closed(t, genesis) && a in t && b in t
  {
    && c in t
    && var n := t[c].number;
       && n <= t[a].number && n <= t[b].number
       && AncestorAt(t, genesis, a, n) == c == AncestorAt(t, genesis, b, n)
       && (n < t[a].number && n < t[b].number ==>
             AncestorAt(t, genesis, a, n + 1) != AncestorAt(t, genesis, b, n + 1))
  }

  /** The number-to-hash map says exactly the ancestor chain of `head`. */
  ghost predicate Canonical(t: Tree, genesis: Hash, canon: map<nat, Hash>, head: Hash)
    requires Closed(t, genesis)
  {
    && head in t
    && (forall n: nat :: n in canon <==> n <= t[head].number)
    && (forall n :: n in canon ==> canon[n] == AncestorAt(t, genesis, head, n))
  }

  /** The tree only grows, so ancestors stay. */
  lemma {:induction false} AncestorGrows(t: Tree, t': Tree, genesis: Hash, h: Hash, n: nat)
    requires Closed(t, genesis) && Closed(t', genesis) && h in t && n <= t[h].number
    requires forall x :: x in t ==> x in t' && t'[x] == t[x]
    ensures h in t' && AncestorAt(t', genesis, h, n) == AncestorAt(t, genesis, h, n)
    decreases t[h].number
  {
    if t[h].number != n {
      assert LinkedUp(t, genesis, h);
      AncestorGrows(t, t', genesis, t[h].parent, n);
    }
  }
}
