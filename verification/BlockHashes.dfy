/** Looking up the hashes of earlier blocks by number, with a cache that grows along the parent links. */
module BlockHashes {
  import opened Transactions
  import opened BlockTree

  /** The hash at height `n`, walking down from the block `h` at height `number`; the empty hash if a header is
      missing. */
  function Walk(t: Tree, h: Hash, number: nat, n: nat): Hash
    decreases number
  {
    if number == n then h
    else if number == 0 || h !in t || t[h].number != number then EMPTY_HASH
    else Walk(t, t[h].parent, number - 1, n)
  }

  /** In a linked tree the walk finds the ancestor. */
  lemma {:induction false} WalkIsAncestor(t: Tree, genesis: Hash, h: Hash, n: nat)
    requires Closed(t, genesis) && h in t && n <= t[h].number
    ensures Walk(t, h, t[h].number, n) == AncestorAt(t, genesis, h, n)
    decreases t[h].number
  {
    if t[h].number != n {
      assert LinkedUp(t, genesis, h);
      WalkIsAncestor(t, genesis, t[h].parent, n);
    }
  }

  /** A walk can be resumed from any block it passes. */
  lemma {:induction false} WalkOn(t: Tree, h: Hash, number: nat, m: nat, n: nat)
    requires n <= m <= number && Reaches(t, h, number, m)
    ensures Walk(t, h, number, n) == Walk(t, Walk(t, h, number, m), m, n)
    decreases number
  {
    if number != m {
      WalkOn(t, t[h].parent, number - 1, m, n);
    }
  }

  /** Every header on the walk from `number` down to `m`, but for the last, is there. */
  predicate Reaches(t: Tree, h: Hash, number: nat, m: nat)
    decreases number
  {
    number == m || (number > m && h in t && t[h].number == number && Reaches(t, t[h].parent, number - 1, m))
  }

  lemma {:induction false} ReachesMore(t: Tree, h: Hash, number: nat, m: nat, less: nat)
    requires Reaches(t, h, number, m) && m == less + 1
    requires Walk(t, h, number, m) in t && t[Walk(t, h, number, m)].number == m
    ensures Reaches(t, h, number, less) && Walk(t, h, number, less) == t[Walk(t, h, number, m)].parent
    decreases number
  {
    if number != m {
      ReachesMore(t, t[h].parent, number - 1, m, less);
    }
  }

  /** The walk ends where a header is missing. */
  lemma {:induction false} WalkStops(t: Tree, h: Hash, number: nat, n: nat)
    requires n < number && (h !in t || t[h].number != number)
    ensures Walk(t, h, number, n) == EMPTY_HASH
  {
  }

  class HashCache {
    const ref: Header
    const chain: Tree
    var cache: seq<Hash>

    /** The cache lists the hashes below the reference block, highest first. */
    ghost predicate Valid()
      reads this
    {
      && |cache| <= ref.number
      && forall i :: 0 <= i < |cache| ==> Cached(ref.number - 1 - i, cache[i])
    }

    ghost predicate Cached(n: nat, h: Hash)
      requires ref.number > 0
    {
      Reaches(chain, ref.parent, ref.number - 1, n) && h == Walk(chain, ref.parent, ref.number - 1, n)
    }

    constructor (ref: Header, chain: Tree)
      ensures Valid() && this.ref == ref && this.chain == chain
    {
      this.ref, this.chain, cache := ref, chain, [];
    }

    /** Any query below the reference block gives the hash a walk from it would find. */
    method GetHash(n: nat) returns (h: Hash)
      requires Valid() && n < ref.number
      modifies this
      ensures Valid() && h == Walk(chain, ref.parent, ref.number - 1, n)
    {
      hide Walk, Reaches;
      if |cache| == 0 {
        Begins();
        cache := [ref.parent];
      }
      var idx := ref.number - n - 1;
      if idx < |cache| {
        assert Cached(ref.number - 1 - idx, cache[idx]);
        return cache[idx];
      }
      var hash, number := cache[|cache| - 1], ref.number - |cache|;
      assert Cached(ref.number - 1 - (|cache| - 1), cache[|cache| - 1]);
      while true
        invariant Valid() && 0 < |cache| && number == ref.number - |cache| && n < number && hash == cache[|cache| - 1]
        invariant Cached(number, hash)
        decreases number
      {
        WalkOn(chain, ref.parent, ref.number - 1, number, n);
        if hash !in chain || chain[hash].number != number {
          WalkStops(chain, hash, number, n);
          break;
        }
        ghost var less: nat := number - 1;
        ReachesMore(chain, ref.parent, ref.number - 1, number, less);
        cache := cache + [chain[hash].parent];
        hash, number := chain[hash].parent, number - 1;
        if n == number {
          return hash;
        }
      }
      return EMPTY_HASH;
    }

    lemma Begins()
      requires ref.number > 0
      ensures Cached(ref.number - 1, ref.parent)
    {
    }
  }
}
