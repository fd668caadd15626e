/** A nonce-to-transaction map with a heap of its nonces and a cached sorted view. */
module TxSortedMaps {
  import opened Transactions
  import opened TxItems
  import Heap

  predicate Less(a: nat, b: nat) { a < b }

  lemma LessIsOrder()
    ensures Heap.StrictOrder(Less)
  {
    forall x: nat, y: nat, z: nat
      ensures !Less(x, x) && (Less(x, y) && Less(y, z) ==> Less(x, z)) && (Less(x, z) ==> Less(x, y) || Less(y, z))
    {
    }
  }

  /** The heap holds each nonce of the map exactly once. */
  ghost predicate Indexes(index: seq<nat>, items: Items) {
    multiset(index) == multiset(items.Keys)
  }

  lemma IndexesAt(index: seq<nat>, items: Items, n: nat)
    requires Indexes(index, items)
    ensures n in items <==> n in index
    ensures |index| == |items|
  {
    assert n in index <==> n in multiset(index);
    assert |multiset(items.Keys)| == |items.Keys|;
  }

  lemma IndexesRemoved(index: seq<nat>, items: Items, n: nat, rest: seq<nat>)
    requires Indexes(index, items) && multiset(index) == multiset(rest) + multiset{n}
    ensures n in items && Indexes(rest, items - {n})
  {
    assert n in multiset(index);
    assert (items - {n}).Keys == items.Keys - {n};
    assert multiset(items.Keys - {n}) == multiset(items.Keys) - multiset{n};
    assert multiset(rest) == multiset(index) - multiset{n};
  }

  lemma IndexesAdded(index: seq<nat>, items: Items, tx: Tx, more: seq<nat>)
    requires Indexes(index, items) && tx.nonce !in items && multiset(more) == multiset(index) + multiset{tx.nonce}
    ensures Indexes(more, items[tx.nonce := tx])
  {
    assert items[tx.nonce := tx].Keys == items.Keys + {tx.nonce};
  }

  /** The head of the heap is the lowest nonce. */
  lemma HeadIsLowest(index: seq<nat>, items: Items)
    requires Indexes(index, items) && Heap.IsHeap(index, Less) && index != []
    ensures index[0] in items && forall n :: n in items ==> index[0] <= n
  {
    LessIsOrder();
    IndexesAt(index, items, index[0]);
    forall n | n in items ensures index[0] <= n {
      IndexesAt(index, items, n);
      var k :| 0 <= k < |index| && index[k] == n;
      Heap.RootIsLeast(index, k, Less);
    }
  }

  /** Taking the lowest of the items from `cut` upwards moves the cut just past it. */
  lemma CutPast(items: Items, cut: nat, n: nat)
    requires n in items && cut <= n && forall m :: m in AtLeast(items, cut) ==> n <= m
    ensures AtLeast(items, n + 1) == AtLeast(items, cut) - {n}
    ensures Below(items, n + 1) == Below(items, cut)[n := items[n]]
  {
    forall m | m in items && cut <= m ensures n <= m { assert m in AtLeast(items, cut); }
  }

  lemma ValuesAdded(items: Items, tx: Tx)
    requires Keyed(items) && tx.nonce !in items
    ensures multiset(items[tx.nonce := tx].Values) == multiset(items.Values) + multiset{tx}
  {
    var more := items[tx.nonce := tx];
    assert tx !in items.Values;
    assert more.Values == items.Values + {tx} by {
      forall v | v in items.Values ensures v in more.Values {
        var n :| n in items && items[n] == v;
        assert more[n] == v;
      }
      assert more[tx.nonce] == tx;
    }
  }

  lemma NothingMatched(items: Items, p: Tx -> bool)
    requires |Matching(items, p).Values| == 0
    ensures Others(items, p) == items
  {
    var m := Matching(items, p);
    assert forall n :: n in m ==> m[n] in m.Values;
    assert forall n :: n in items && p(items[n]) ==> n in m;
  }

  /** What is kept while the nonces in `left` have not been looked at, and what is gone by then. */
  ghost function Kept(all: Items, left: set<nat>, p: Tx -> bool): Items {
    map n | n in all && (n in left || !p(all[n])) :: all[n]
  }

  ghost function Gone(all: Items, left: set<nat>, p: Tx -> bool): Items {
    map n | n in all && n !in left && p(all[n]) :: all[n]
  }

  lemma LookedAt(all: Items, left: set<nat>, n: nat, p: Tx -> bool)
    requires n in left && n in all
    ensures n in Kept(all, left, p) && Kept(all, left, p)[n] == all[n] && n !in Gone(all, left, p)
    ensures p(all[n]) ==> Kept(all, left - {n}, p) == Kept(all, left, p) - {n}
    ensures p(all[n]) ==> Gone(all, left - {n}, p) == Gone(all, left, p)[n := all[n]]
    ensures !p(all[n]) ==> Kept(all, left - {n}, p) == Kept(all, left, p)
    ensures !p(all[n]) ==> Gone(all, left - {n}, p) == Gone(all, left, p)
  {
  }

  ghost predicate Rising(s: seq<nat>) {
    forall i, j :: 0 <= i < j < |s| ==> s[i] <= s[j]
  }

  /** sort.Sort on a slice of nonces. */
  method Sort(s: seq<nat>) returns (r: seq<nat>)
    ensures Rising(r) && multiset(r) == multiset(s)
  {
    r := [];
    for k := 0 to |s|
      invariant Rising(r) && multiset(r) == multiset(s[..k])
    {
      var i := 0;
      while i < |r| && r[i] <= s[k]
        invariant i <= |r| && forall j :: 0 <= j < i ==> r[j] <= s[k]
      {
        i := i + 1;
      }
      assert r == r[..i] + r[i..] && s[..k + 1] == s[..k] + [s[k]];
      r := r[..i] + [s[k]] + r[i..];
    }
    assert s[..|s|] == s;
  }

  lemma NoRepeat(s: seq<nat>, i: nat, j: nat)
    requires i < j < |s| && s[i] == s[j]
    ensures multiset(s)[s[i]] >= 2
  {
    assert s == s[..j] + s[j..];
    assert s[i] in s[..j] && s[i] in s[j..];
  }

  lemma {:induction false} NoncesIndex(ns: seq<nat>, s: seq<Tx>, items: Items)
    requires IsFlat(s, items) && |ns| == |s| && forall i :: 0 <= i < |s| ==> ns[i] == s[i].nonce
    ensures Indexes(ns, items)
  {
    if s == [] {
      FlatLength(s, items);
    } else {
      PeelLast(s, items);
      var k := |s| - 1;
      NoncesIndex(ns[..k], s[..k], items - {ns[k]});
      assert (items - {ns[k]}).Keys == items.Keys - {ns[k]};
      assert ns == ns[..k] + [ns[k]];
      assert multiset(items.Keys) == multiset(items.Keys - {ns[k]}) + multiset{ns[k]};
    }
  }

  lemma HighestDropped(flat: seq<Tx>, size: nat, items: Items)
    requires 0 < size <= |flat| && |items| == size && IsFlat(flat[..size], items)
    ensures var n := flat[size - 1].nonce;
            && n in items && items[n] == flat[size - 1] && |items - {n}| == size - 1
            && IsFlat(flat[..size - 1], items - {n})
  {
    var n := flat[size - 1].nonce;
    PeelLast(flat[..size], items);
    assert flat[..size][..size - 1] == flat[..size - 1];
    assert (items - {n}).Keys == items.Keys - {n};
  }

  /** Sorting the heap lists the nonces in the order of the sorted view. */
  lemma SortedNonces(sorted: seq<nat>, index: seq<nat>, items: Items)
    requires Rising(sorted) && multiset(sorted) == multiset(index) && Indexes(index, items) && Keyed(items)
    ensures |sorted| == |Flat(items)| == |items|
    ensures forall i :: 0 <= i < |sorted| ==> sorted[i] in items && Flat(items)[i] == items[sorted[i]]
  {
    forall i | 0 <= i < |sorted| ensures sorted[i] in items {
      assert sorted[i] in multiset(sorted);
    }
    var s := seq(|sorted|, i requires 0 <= i < |sorted| => items[sorted[i]]);
    forall i, j | 0 <= i < j < |sorted| ensures sorted[i] < sorted[j] {
      if sorted[i] == sorted[j] { NoRepeat(sorted, i, j); }
    }
    forall n | n in items ensures Listed(s, items, n) {
      assert n in multiset(sorted);
      var i :| 0 <= i < |sorted| && sorted[i] == n;
      assert s[i] == items[n];
    }
    forall i: nat, j: nat | i < j < |s| ensures Before(s, i, j) { assert sorted[i] < sorted[j]; }
    FlatUnique(s, items);
  }

  class TxSortedMap {
    var items: Items
    var index: seq<nat>
    var cache: Option<seq<Tx>>

    ghost predicate Valid()
      reads this
    {
      && Keyed(items)
      && Heap.IsHeap(index, Less)
      && Indexes(index, items)
      && (cache.Some? ==> IsFlat(cache.value, items))
    }

    constructor ()
      ensures Valid() && items == map[]
    {
      items, index, cache := map[], [], None;
    }

    method Put(tx: Tx)
      requires Valid()
      modifies this
      ensures Valid() && items == old(items)[tx.nonce := tx]
    {
      if tx.nonce !in items {
        LessIsOrder();
        var h := Heap.Push(index, tx.nonce, Less);
        IndexesAdded(index, items, tx, h);
        index := h;
      } else {
        assert items[tx.nonce := tx].Keys == items.Keys;
      }
      items, cache := items[tx.nonce := tx], None;
    }

    /** Pops the lowest nonce off the heap and deletes its transaction. `taken` lists what was
        taken from `all` before, all of it below `cut`. */
    method PopLowest(ghost all: Items, ghost cut: nat, ghost taken: seq<Tx>) returns (tx: Tx)
      requires Keyed(all) && Heap.IsHeap(index, Less) && Indexes(index, items) && index != []
      requires items == AtLeast(all, cut) && IsFlat(taken, Below(all, cut))
      modifies this`items, this`index
      ensures Heap.IsHeap(index, Less) && Indexes(index, items) && |index| < |old(index)|
      ensures tx.nonce == old(index[0]) && cut <= tx.nonce && tx.nonce in all
      ensures items == AtLeast(all, tx.nonce + 1) && IsFlat(taken + [tx], Below(all, tx.nonce + 1))
    {
      LessIsOrder();
      HeadIsLowest(index, items);
      var nonce, h := Heap.Pop(index, Less);
      assert |multiset(index)| == |multiset(h)| + 1;
      IndexesRemoved(index, items, nonce, h);
      tx := items[nonce];
      CutPast(all, cut, nonce);
      PutLast(taken, Below(all, cut), tx);
      index, items := h, items - {nonce};
    }

    /** What the emptied or stopped heap says about the items left. */
    lemma Stopped(t: nat)
      requires Heap.IsHeap(index, Less) && Indexes(index, items)
      ensures |index| == 0 || index[0] >= t ==> forall n :: n in items ==> t <= n
      ensures |index| == 0 || index[0] != t ==> t !in items || exists n :: n in items && n < t
      ensures |index| == 0 <==> items == map[]
    {
      IndexesAt(index, items, 0);
      if |index| > 0 { HeadIsLowest(index, items); }
    }

    method Forward(threshold: nat) returns (removed: seq<Tx>)
      requires Valid()
      modifies this
      ensures Valid() && items == AtLeast(old(items), threshold)
      ensures IsFlat(removed, Below(old(items), threshold))
    {
      removed := [];
      ghost var cut: nat := 0;
      ghost var all := items;
      while |index| > 0 && index[0] < threshold
        invariant Heap.IsHeap(index, Less) && Indexes(index, items) && cache == old(cache)
        invariant items == AtLeast(all, cut) && IsFlat(removed, Below(all, cut)) && cut <= threshold
        decreases |index|
      {
        var tx := PopLowest(all, cut, removed);
        removed, cut := removed + [tx], tx.nonce + 1;
      }
      Stopped(threshold);
      assert forall n :: n in all && cut <= n ==> n in items;
      assert AtLeast(all, cut) == AtLeast(all, threshold);
      assert Below(all, cut) == Below(all, threshold);
      if cache.Some? {
        ghost var k := FlatSplit(cache.value, all, threshold);
        FlatLength(removed, Below(all, threshold));
        cache := Some(cache.value[|removed|..]);
      }
    }

    /** Returns the transactions that run on from the lowest nonce, if that is not above `start`. */
    method Ready(start: nat) returns (ready: seq<Tx>)
      requires Valid()
      modifies this
      ensures Valid() && items == AtLeast(old(items), ReadyCut(old(items), start))
      ensures IsFlat(ready, Below(old(items), ReadyCut(old(items), start)))
    {
      ready := [];
      ghost var all := items;
      Stopped(0);
      if |index| > 0 { HeadIsLowest(index, items); }
      if |index| == 0 || index[0] > start {
        assert AtLeast(all, 0) == all && Below(all, 0) == map[];
        return;
      }
      ghost var low := index[0];
      assert MinKey(items) == low;
      var next: nat := index[0];
      assert Below(all, low) == map[] && AtLeast(all, low) == all;
      while |index| > 0 && index[0] == next
        invariant Heap.IsHeap(index, Less) && Indexes(index, items)
        invariant items == AtLeast(all, next) && IsFlat(ready, Below(all, next))
        invariant NextGap(all, next) == NextGap(all, low)
        decreases |index|
      {
        var tx := PopLowest(all, next, ready);
        ready, next := ready + [tx], next + 1;
      }
      Stopped(next);
      assert NextGap(all, next) == next by { assert next in all ==> next in items; }
      cache := None;
    }

    /** Rebuilds the heap from the keys of the map, in whatever order they come. */
    method Reheap()
      requires Keyed(items)
      modifies this`index, this`cache
      ensures Valid() && cache == None
    {
      var h: seq<nat> := [];
      var left := items.Keys;
      while left != {}
        invariant left <= items.Keys && multiset(h) == multiset(items.Keys - left)
        decreases |left|
      {
        var n :| n in left;
        assert items.Keys - (left - {n}) == (items.Keys - left) + {n};
        h, left := h + [n], left - {n};
      }
      assert items.Keys - left == items.Keys;
      LessIsOrder();
      index := Heap.Init(h, Less);
      cache := None;
    }

    /** Deletes what `p` accepts, in whatever order the map is ranged over, and leaves the heap stale. */
    method FilterItems(p: Tx -> bool) returns (removed: seq<Tx>)
      requires Keyed(items)
      modifies this`items, this`cache
      ensures items == Others(old(items), p)
      ensures multiset(removed) == multiset(Matching(old(items), p).Values)
      ensures cache == if removed == [] then old(cache) else None
    {
      removed := [];
      ghost var all := items;
      var left := items.Keys;
      assert items == Kept(all, left, p);
      while left != {}
        invariant left <= all.Keys && items == Kept(all, left, p) && cache == old(cache)
        invariant multiset(removed) == multiset(Gone(all, left, p).Values)
        decreases |left|
      {
        var n :| n in left;
        LookedAt(all, left, n, p);
        if p(items[n]) {
          ValuesAdded(Gone(all, left, p), items[n]);
          removed, items := removed + [items[n]], items - {n};
        }
        left := left - {n};
      }
      assert Gone(all, left, p) == Matching(all, p);
      if |removed| > 0 {
        cache := None;
      }
    }

    method Filter(p: Tx -> bool) returns (removed: seq<Tx>)
      requires Valid()
      modifies this
      ensures Valid() && items == Others(old(items), p)
      ensures multiset(removed) == multiset(Matching(old(items), p).Values)
    {
      removed := FilterItems(p);
      if |removed| > 0 {
        Reheap();
      } else {
        NothingMatched(old(items), p);
      }
    }

    /** The loop of `Cap`: deletes the highest nonces until `threshold` are left. */
    method DropHighest(sorted: seq<nat>, threshold: nat, ghost flat: seq<Tx>) returns (drops: seq<Tx>)
      requires IsFlat(flat, items) && |flat| == |items| == |sorted| && threshold <= |items|
      requires forall i :: 0 <= i < |flat| ==> sorted[i] == flat[i].nonce
      modifies this`items
      ensures IsFlat(flat[..threshold], items)
      ensures drops == Reversed(flat[threshold..])
    {
      drops := [];
      var size := |items|;
      assert flat[..size] == flat;
      while size > threshold
        invariant threshold <= size <= |flat| && |items| == size && IsFlat(flat[..size], items)
        invariant drops == Reversed(flat[size..])
      {
        assert flat[size - 1..][1..] == flat[size..];
        var nonce := sorted[size - 1];
        HighestDropped(flat, size, items);
        drops, items, size := drops + [items[nonce]], items - {nonce}, size - 1;
      }
    }

    /** Keeps the `threshold` lowest nonces and returns the others, highest first. */
    method Cap(threshold: nat) returns (drops: seq<Tx>)
      requires Valid()
      modifies this
      ensures Valid() && items == Lowest(old(items), threshold)
      ensures |items| <= |Flat(old(items))| && drops == Reversed(Flat(old(items))[|items|..])
    {
      ghost var flat := Flat(items);
      FlatIsFlat(items);
      FlatUnique(flat, items);
      if |items| <= threshold {
        return [];
      }
      var sorted := Sort(index);
      SortedNonces(sorted, index, items);
      drops := DropHighest(sorted, threshold, flat);
      FlatLength(flat[..threshold], items);
      LowestComeFirst(old(items), threshold, items);
      NoncesIndex(sorted[..threshold], flat[..threshold], items);
      LessIsOrder();
      index := Heap.Init(sorted[..threshold], Less);
      if cache.Some? {
        FlatUnique(cache.value, old(items));
        cache := Some(cache.value[..|cache.value| - |drops|]);
      }
    }

    /** The loop of `Remove`: takes `nonce` out of the heap. */
    method Unindex(nonce: nat)
      requires Heap.IsHeap(index, Less) && Indexes(index, items) && nonce in items
      modifies this`index
      ensures Heap.IsHeap(index, Less) && Indexes(index, items - {nonce})
    {
      IndexesAt(index, items, nonce);
      var i := 0;
      while index[i] != nonce
        invariant i < |index| && nonce !in index[..i]
        decreases |index| - i
      {
        i := i + 1;
      }
      LessIsOrder();
      var x, h := Heap.Remove(index, i, Less);
      IndexesRemoved(index, items, nonce, h);
      index := h;
    }

    method Remove(nonce: nat) returns (found: bool)
      requires Valid()
      modifies this
      ensures Valid() && found == (nonce in old(items)) && items == old(items) - {nonce}
    {
      if nonce !in items {
        return false;
      }
      Unindex(nonce);
      items, cache := items - {nonce}, None;
      found := true;
    }

    /** The sorted view, taken from the cache when there is one. */
    method Flatten() returns (txs: seq<Tx>)
      requires Valid()
      modifies this`cache
      ensures Valid() && txs == Flat(items)
    {
      if cache == None {
        FlatIsFlat(items);
        cache := Some(Flat(items));
      }
      FlatUnique(cache.value, items);
      txs := cache.value;
    }

    method LastElement() returns (tx: Tx)
      requires Valid() && items != map[]
      modifies this`cache
      ensures Valid() && tx.nonce in items && items[tx.nonce] == tx
      ensures forall n :: n in items ==> n <= tx.nonce
    {
      var txs := Flatten();
      FlatIsFlat(items);
      FlatLength(txs, items);
      PeelLast(txs, items);
      tx := txs[|txs| - 1];
    }
  }
}
