/** The operations of Go's container/heap, on a slice held as a sequence.

    The nonce index of a sorted transaction map and the two price heaps of the
    pool are all driven through these operations, each with its own ordering. */
module Heap {

  /** Names a triple at which the laws of an ordering are wanted. */
  ghost predicate At<T>(x: T, y: T, z: T) { true }

  /** `less` is a strict weak ordering, as heap.Interface expects of Less. */
  ghost predicate StrictOrder<T(!new)>(less: (T, T) -> bool) {
    forall x, y, z {:trigger At(x, y, z)} ::
      && !less(x, x)
      && (less(x, y) && less(y, z) ==> less(x, z))
      && (less(x, z) ==> less(x, y) || less(y, z))
  }

  /** "Not above" is transitive, and what is below something is not above it. */
  lemma Order<T(!new)>(less: (T, T) -> bool, x: T, y: T, z: T)
    requires StrictOrder(less)
    ensures !less(y, x) && !less(z, y) ==> !less(z, x)
    ensures less(x, y) ==> !less(y, x)
  {
    assert At(z, y, x) && At(x, y, x);
  }

  function Parent(i: int): int {
    if i <= 0 then -1 else (i - 1) / 2
  }

  /** The element at `i` is not below its parent. */
  ghost predicate Sorted<T(!new)>(h: seq<T>, i: int, less: (T, T) -> bool) {
    0 < i < |h| ==> !less(h[i], h[Parent(i)])
  }

  ghost predicate IsHeap<T(!new)>(h: seq<T>, less: (T, T) -> bool) {
    forall i :: 0 < i < |h| ==> Sorted(h, i, less)
  }

  /** The children of `i` that lie below `n` are at least the parent of `i`. */
  ghost predicate Bridged<T(!new)>(h: seq<T>, n: nat, i: int, less: (T, T) -> bool) {
    0 < i < n <= |h| ==> forall c :: 0 < c < n && Parent(c) == i ==> !less(h[c], h[Parent(i)])
  }

  /** The state between two rounds of `up`: only the pair of `j` and its parent may be wrong. */
  ghost predicate Rising<T(!new)>(h: seq<T>, j: int, less: (T, T) -> bool) {
    && 0 <= j < |h|
    && (forall i :: 0 < i < |h| && i != j ==> Sorted(h, i, less))
    && Bridged(h, |h|, j, less)
  }

  /** The state between two rounds of `down` that began at `at`, on the prefix of length `n`,
      for the pairs whose parent is at least `low`: the pairs of `i` and its children may be
      wrong, and so may the pair of `at` and its parent while nothing has moved. */
  ghost predicate Sinking<T(!new)>(h: seq<T>, n: nat, low: nat, at: nat, i: nat, less: (T, T) -> bool) {
    && low <= at <= i < n <= |h|
    && (forall k {:trigger Sorted(h, k, less)} ::
          0 < k < n && low <= Parent(k) != i && !(k == at == i) ==> Sorted(h, k, less))
    && (low < i ==> low <= Parent(i) && Bridged(h, n, i, less))
  }

  function Swap<T>(h: seq<T>, i: nat, j: nat): (r: seq<T>)
    requires i < |h| && j < |h|
    ensures |r| == |h| && multiset(r) == multiset(h)
    ensures r[i] == h[j] && r[j] == h[i] && forall k :: 0 <= k < |h| && k != i && k != j ==> r[k] == h[k]
  {
    h[i := h[j]][j := h[i]]
  }

  /** The root of a heap is a least element. */
  lemma {:induction false} RootIsLeast<T(!new)>(h: seq<T>, k: nat, less: (T, T) -> bool)
    requires StrictOrder(less) && IsHeap(h, less) && k < |h|
    ensures !less(h[k], h[0])
  {
    if k > 0 {
      RootIsLeast(h, Parent(k), less);
      assert Sorted(h, k, less);
      Order(less, h[0], h[Parent(k)], h[k]);
    } else {
      assert At(h[0], h[0], h[0]);
    }
  }

  lemma RiseStep<T(!new)>(h: seq<T>, j: nat, less: (T, T) -> bool)
    requires StrictOrder(less) && Rising(h, j, less)
    requires 0 < j && less(h[j], h[Parent(j)])
    ensures Rising(Swap(h, Parent(j), j), Parent(j), less)
  {
    var p := Parent(j);
    var r := Swap(h, p, j);
    forall i | 0 < i < |r| && i != p
      ensures Sorted(r, i, less)
    {
      assert Sorted(h, i, less) || i == j;
      Order(less, h[j], h[p], h[i]);
    }
    forall c | 0 < c < |r| && Parent(c) == p && 0 < p
      ensures !less(r[c], r[Parent(p)])
    {
      assert Sorted(h, p, less) && (c == j || Sorted(h, c, less));
      Order(less, h[Parent(p)], h[p], h[c]);
    }
  }

  lemma SinkStep<T(!new)>(h: seq<T>, n: nat, low: nat, at: nat, i: nat, j: nat, less: (T, T) -> bool)
    requires StrictOrder(less) && Sinking(h, n, low, at, i, less)
    requires 0 < j < n && Parent(j) == i && less(h[j], h[i])
    requires forall c :: 0 < c < n && Parent(c) == i ==> !less(h[c], h[j])
    ensures Sinking(Swap(h, i, j), n, low, at, j, less) && Swap(h, i, j)[n..] == h[n..]
  {
    var r := Swap(h, i, j);
    forall k | 0 < k < n && low <= Parent(k) != j
      ensures Sorted(r, k, less)
    {
      if Parent(k) == i {
        Order(less, h[j], h[i], h[k]);
      } else if k == i {
        assert Bridged(h, n, i, less);
      } else {
        assert Sorted(h, k, less);
      }
    }
    forall c | 0 < c < n && Parent(c) == j
      ensures !less(r[c], r[Parent(j)])
    {
      assert Sorted(h, c, less);
    }
  }

  /** The child that `down` looks at is the least of them. */
  lemma LesserChild<T(!new)>(h: seq<T>, n: nat, i: nat, j: nat, less: (T, T) -> bool)
    requires StrictOrder(less) && n <= |h|
    requires i < j < n
    requires j == if 2 * i + 2 < n && less(h[2 * i + 2], h[2 * i + 1]) then 2 * i + 2 else 2 * i + 1
    ensures Parent(j) == i
    ensures forall c :: 0 < c < n && Parent(c) == i ==> !less(h[c], h[j])
    ensures !less(h[j], h[i]) ==> forall c :: 0 < c < n && Parent(c) == i ==> !less(h[c], h[i])
  {
    forall c | 0 < c < n && Parent(c) == i
      ensures !less(h[c], h[j]) && (!less(h[j], h[i]) ==> !less(h[c], h[i]))
    {
      assert c == 2 * i + 1 || c == 2 * i + 2;
      assert At(h[c], h[c], h[c]);
      Order(less, h[j], h[c], h[j]);
      Order(less, h[i], h[j], h[c]);
    }
  }

  /** `down` stops at a leaf or above children that are in order. */
  lemma Sunk<T(!new)>(h: seq<T>, n: nat, low: nat, at: nat, i: nat, less: (T, T) -> bool)
    requires Sinking(h, n, low, at, i, less)
    requires forall c :: 0 < c < n && Parent(c) == i ==> !less(h[c], h[i])
    ensures forall k :: 0 < k < n && low <= Parent(k) && (k != at || at < i) ==> Sorted(h, k, less)
  {
  }

  method Up<T(!new)>(h: seq<T>, at: nat, less: (T, T) -> bool) returns (r: seq<T>)
    requires StrictOrder(less) && Rising(h, at, less)
    ensures IsHeap(r, less) && multiset(r) == multiset(h)
  {
    r := h;
    var j := at;
    while j > 0 && less(r[j], r[Parent(j)])
      invariant Rising(r, j, less) && multiset(r) == multiset(h)
    {
      RiseStep(r, j, less);
      r, j := Swap(r, Parent(j), j), Parent(j);
    }
  }

  method Down<T(!new)>(h: seq<T>, at: nat, n: nat, less: (T, T) -> bool, ghost low: nat)
    returns (r: seq<T>, moved: bool)
    requires StrictOrder(less) && Sinking(h, n, low, at, at, less)
    ensures |r| == |h| && multiset(r) == multiset(h)
    ensures r[n..] == h[n..]
    ensures forall i {:trigger Sorted(r, i, less)} ::
              0 < i < n && low <= Parent(i) && (i != at || moved) ==> Sorted(r, i, less)
    ensures !moved ==> r == h
  {
    r := h;
    var i := at;
    while 2 * i + 1 < n
      invariant |r| == |h| && multiset(r) == multiset(h)
      invariant Sinking(r, n, low, at, i, less)
      invariant r[n..] == h[n..]
      invariant i == at ==> r == h
      decreases n - i
    {
      var j := 2 * i + 1;
      if j + 1 < n && less(r[j + 1], r[j]) {
        j := j + 1;
      }
      LesserChild(r, n, i, j, less);
      if !less(r[j], r[i]) {
        break;
      }
      SinkStep(r, n, low, at, i, j, less);
      r, i := Swap(r, i, j), j;
    }
    Sunk(r, n, low, at, i, less);
    moved := i > at;
  }

  method Init<T(!new)>(h: seq<T>, less: (T, T) -> bool) returns (r: seq<T>)
    requires StrictOrder(less)
    ensures IsHeap(r, less) && |r| == |h| && multiset(r) == multiset(h)
  {
    r := h;
    var i := |h| / 2;
    while i > 0
      invariant 0 <= i <= |h| / 2 && |r| == |h| && multiset(r) == multiset(h)
      invariant forall k :: 0 < k < |r| && i <= Parent(k) ==> Sorted(r, k, less)
    {
      i := i - 1;
      var moved;
      r, moved := Down(r, i, |r|, less, i);
    }
  }

  method Push<T(!new)>(h: seq<T>, x: T, less: (T, T) -> bool) returns (r: seq<T>)
    requires StrictOrder(less) && IsHeap(h, less)
    ensures IsHeap(r, less) && multiset(r) == multiset(h) + multiset{x}
  {
    var g := h + [x];
    assert forall i :: 0 < i < |h| ==> (Sorted(h, i, less) <==> Sorted(g, i, less));
    r := Up(g, |h|, less);
  }

  /** Cuts off the last element, which `Pop` and `Remove` have swapped to the end. */
  lemma CutLast<T(!new)>(h: seq<T>, less: (T, T) -> bool)
    requires |h| > 0
    ensures multiset(h) == multiset(h[..|h| - 1]) + multiset{h[|h| - 1]}
    ensures (forall i :: 0 < i < |h| - 1 ==> Sorted(h, i, less)) ==> IsHeap(h[..|h| - 1], less)
  {
    var c := h[..|h| - 1];
    assert h == c + [h[|h| - 1]];
    assert forall i :: 0 < i < |c| ==> (Sorted(h, i, less) <==> Sorted(c, i, less));
  }

  /** Swapping the last element into the place of `at` leaves work for `down` only. */
  lemma SwapLast<T(!new)>(h: seq<T>, at: nat, less: (T, T) -> bool)
    requires StrictOrder(less) && IsHeap(h, less) && at < |h| - 1
    ensures Sinking(Swap(h, at, |h| - 1), |h| - 1, 0, at, at, less)
  {
    var n := |h| - 1;
    var g := Swap(h, at, n);
    forall k | 0 < k < n && Parent(k) != at && k != at ensures Sorted(g, k, less) {
      assert Sorted(h, k, less);
      assert g[k] == h[k] && g[Parent(k)] == h[Parent(k)];
    }
    assert Bridged(g, n, at, less) by {
      forall c | 0 < c < n && Parent(c) == at && 0 < at ensures !less(g[c], g[Parent(at)]) {
        assert Sorted(h, c, less) && Sorted(h, at, less);
        Order(less, h[Parent(at)], h[at], h[c]);
        assert g[c] == h[c] && g[Parent(at)] == h[Parent(at)];
      }
    }
  }

  method Remove<T(!new)>(h: seq<T>, at: nat, less: (T, T) -> bool) returns (x: T, r: seq<T>)
    requires StrictOrder(less) && IsHeap(h, less) && at < |h|
    ensures x == h[at] && IsHeap(r, less) && multiset(h) == multiset(r) + multiset{x}
  {
    var n := |h| - 1;
    if at == n {
      CutLast(h, less);
      return h[n], h[..n];
    }
    SwapLast(h, at, less);
    var g := Swap(h, at, n);
    var d, moved := Down(g, at, n, less, 0);
    assert d[n..][0] == h[at];
    CutLast(d, less);
    x, r := d[n], d[..n];
    if !moved {
      Settled(g, n, at, less);
      r := Up(r, at, less);
    }
  }

  /** When `down` moved nothing, what is left is a job for `up`. */
  lemma Settled<T(!new)>(g: seq<T>, n: nat, at: nat, less: (T, T) -> bool)
    requires Sinking(g, n, 0, at, at, less)
    requires forall i :: 0 < i < n && i != at ==> Sorted(g, i, less)
    ensures Rising(g[..n], at, less)
  {
    forall i | 0 < i < n && i != at ensures Sorted(g[..n], i, less) {
      assert Sorted(g, i, less);
    }
  }

  /** Removes the root; at the root the `up` of `Remove` has nothing to do. */
  method Pop<T(!new)>(h: seq<T>, less: (T, T) -> bool) returns (x: T, r: seq<T>)
    requires StrictOrder(less) && IsHeap(h, less) && |h| > 0
    ensures x == h[0] && forall k :: 0 <= k < |h| ==> !less(h[k], x)
    ensures IsHeap(r, less) && multiset(h) == multiset(r) + multiset{x}
  {
    forall k | 0 <= k < |h| ensures !less(h[k], h[0]) { RootIsLeast(h, k, less); }
    x, r := Remove(h, 0, less);
  }
}
