/** Transactions as the pool sees them. */
module Transactions {

  /** A 32-byte hash; zero stands for `common.Hash{}`. */
  type Hash = nat
  const EMPTY_HASH: Hash := 0

  type Address = nat

  datatype Option<+T> = None | Some(value: T)

  /** `type4` marks a wormholes transaction of type 4, whose value is paid from a pledge. */
  datatype Tx = Tx(hash: Hash, sender: Address, nonce: nat, gas: nat, cost: nat,
                   feeCap: nat, tip: nat, size: nat, type4: bool)

  /** No value occurs twice. */
  ghost predicate Distinct<T>(s: seq<T>) {
    forall i, j :: 0 <= i < j < |s| ==> s[i] != s[j]
  }

  const TX_SLOT_SIZE: nat := 32 * 1024

  function NumSlots(tx: Tx): nat {
    (tx.size + TX_SLOT_SIZE - 1) / TX_SLOT_SIZE
  }
}

/** One account's transactions by nonce, and the views of them that the pool asks for. */
module TxItems {
  import opened Transactions

  type Items = map<nat, Tx>

  ghost predicate Keyed(items: Items) {
    forall n :: n in items ==> items[n].nonce == n
  }

  ghost predicate Before(s: seq<Tx>, i: nat, j: nat) {
    i < j < |s| ==> s[i].nonce < s[j].nonce
  }

  ghost predicate Increasing(s: seq<Tx>) {
    forall i: nat, j: nat {:trigger Before(s, i, j)} :: i < j < |s| ==> Before(s, i, j)
  }

  ghost predicate Listed(s: seq<Tx>, items: Items, n: nat) {
    n in items && items[n] in s
  }

  /** `s` lists all of `items` and nothing else, by rising nonce. */
  ghost predicate IsFlat(s: seq<Tx>, items: Items) {
    && Keyed(items) && Increasing(s)
    && (forall i :: 0 <= i < |s| ==> s[i].nonce in items && items[s[i].nonce] == s[i])
    && (forall n {:trigger Listed(s, items, n)} :: n in items ==> Listed(s, items, n))
  }

  function Below(items: Items, threshold: nat): (r: Items) {
    map n | n in items && n < threshold :: items[n]
  }

  function AtLeast(items: Items, threshold: nat): (r: Items) {
    map n | n in items && n >= threshold :: items[n]
  }

  function Matching(items: Items, p: Tx -> bool): (r: Items) {
    map n | n in items && p(items[n]) :: items[n]
  }

  function Others(items: Items, p: Tx -> bool): (r: Items) {
    map n | n in items && !p(items[n]) :: items[n]
  }

  lemma {:induction false} MaxExists(ns: set<nat>)
    requires ns != {}
    ensures exists m :: m in ns && forall n :: n in ns ==> n <= m
  {
    var x :| x in ns;
    if ns == {x} {
      assert x in ns;
    } else {
      var rest := ns - {x};
      MaxExists(rest);
      var y :| y in rest && forall n :: n in rest ==> n <= y;
      assert forall n :: n in ns ==> n == x || n in rest;
      var m := if x < y then y else x;
      assert m in ns && forall n :: n in ns ==> n <= m;
    }
  }

  function MaxKey(items: Items): (m: nat)
    requires |items| > 0
    ensures m in items && forall n :: n in items ==> n <= m
  {
    assert items.Keys != {};
    MaxExists(items.Keys);
    var m :| m in items && forall n :: n in items ==> n <= m;
    m
  }

  lemma {:induction false} MinExists(ns: set<nat>)
    requires ns != {}
    ensures exists m :: m in ns && forall n :: n in ns ==> m <= n
  {
    var x :| x in ns;
    if ns == {x} {
      assert x in ns;
    } else {
      var rest := ns - {x};
      MinExists(rest);
      var y :| y in rest && forall n :: n in rest ==> y <= n;
      assert forall n :: n in ns ==> n == x || n in rest;
      var m := if y < x then y else x;
      assert m in ns && forall n :: n in ns ==> m <= n;
    }
  }

  function MinKey(items: Items): (m: nat)
    requires items != map[]
    ensures m in items && forall n :: n in items ==> m <= n
  {
    assert items.Keys != {};
    MinExists(items.Keys);
    var m :| m in items && forall n :: n in items ==> m <= n;
    m
  }

  /** The nonce-sorted sequence of all items. */
  function Flat(items: Items): (s: seq<Tx>)
    decreases |items|
  {
    if |items| == 0 then [] else
      var m := MaxKey(items);
      var rest := items - {m};
      assert rest.Keys == items.Keys - {m};
      Flat(rest) + [items[m]]
  }

  lemma {:induction false} FlatIsFlat(items: Items)
    requires Keyed(items)
    ensures IsFlat(Flat(items), items)
    decreases |items|
  {
    if |items| > 0 {
      var m := MaxKey(items);
      var rest := items - {m};
      assert rest.Keys == items.Keys - {m};
      FlatIsFlat(rest);
      PutLast(Flat(rest), rest, items[m]);
      assert rest[m := items[m]] == items;
    }
  }

  lemma PrefixIncreasing(s: seq<Tx>, k: nat)
    requires Increasing(s) && k <= |s|
    ensures Increasing(s[..k]) && Increasing(s[k..])
  {
    forall i: nat, j: nat | i < j < k ensures Before(s[..k], i, j) { assert Before(s, i, j); }
    forall i: nat, j: nat | i < j < |s| - k ensures Before(s[k..], i, j) { assert Before(s, k + i, k + j); }
  }

  lemma PeelLast(s: seq<Tx>, items: Items)
    requires IsFlat(s, items) && s != []
    ensures var last := s[|s| - 1];
            && last.nonce in items && (forall n :: n in items ==> n <= last.nonce)
            && IsFlat(s[..|s| - 1], items - {last.nonce})
  {
    var last, rest := s[|s| - 1], items - {s[|s| - 1].nonce};
    forall n | n in items ensures n <= last.nonce && (n != last.nonce ==> items[n] in s[..|s| - 1]) {
      assert Listed(s, items, n);
      var i :| 0 <= i < |s| && s[i] == items[n];
      assert i < |s| - 1 ==> s[..|s| - 1][i] == s[i];
      assert Before(s, i, |s| - 1);
    }
    PrefixIncreasing(s, |s| - 1);
    forall i | 0 <= i < |s| - 1 ensures s[i].nonce in rest { assert Before(s, i, |s| - 1); }
  }

  lemma PutLast(s: seq<Tx>, items: Items, tx: Tx)
    requires IsFlat(s, items) && forall n :: n in items ==> n < tx.nonce
    ensures IsFlat(s + [tx], items[tx.nonce := tx])
  {
    var t, more := s + [tx], items[tx.nonce := tx];
    forall i: nat, j: nat | i < j < |t| ensures Before(t, i, j) { assert Before(s, i, j); }
    forall n | n in more ensures more[n] in t {
      if n == tx.nonce {
        assert t[|s|] == tx;
      } else {
        assert Listed(s, items, n);
        var i :| 0 <= i < |s| && s[i] == items[n];
        assert t[i] == s[i];
      }
    }
  }

  lemma {:induction false} FlatLength(s: seq<Tx>, items: Items)
    requires IsFlat(s, items)
    ensures |s| == |items|
  {
    if s == [] {
      assert forall n :: n in items ==> Listed(s, items, n);
      assert items.Keys == {};
    } else {
      PeelLast(s, items);
      var rest := items - {s[|s| - 1].nonce};
      assert rest.Keys == items.Keys - {s[|s| - 1].nonce};
      FlatLength(s[..|s| - 1], rest);
    }
  }

  /** There is only one such listing. */
  lemma {:induction false} FlatUnique(s: seq<Tx>, items: Items)
    requires IsFlat(s, items)
    ensures s == Flat(items) && |s| == |items|
  {
    FlatLength(s, items);
    if s != [] {
      PeelLast(s, items);
      var init, last := s[..|s| - 1], s[|s| - 1];
      assert MaxKey(items) == last.nonce;
      FlatUnique(init, items - {last.nonce});
      assert s == init + [last];
    }
  }

  function Reversed(s: seq<Tx>): (r: seq<Tx>)
    ensures |r| == |s|
  {
    if s == [] then [] else Reversed(s[1..]) + [s[0]]
  }

  lemma FlatHead(s: seq<Tx>, items: Items, t: nat, k: nat)
    requires IsFlat(s, items) && k <= |s|
    requires forall i :: 0 <= i < |s| ==> (i < k <==> s[i].nonce < t)
    ensures IsFlat(s[..k], Below(items, t))
  {
    var b := Below(items, t);
    PrefixIncreasing(s, k);
    forall n | n in b ensures Listed(s[..k], b, n) {
      assert Listed(s, items, n);
      var i :| 0 <= i < |s| && s[i] == items[n];
      assert s[..k][i] == b[n];
    }
  }

  lemma FlatTail(s: seq<Tx>, items: Items, t: nat, k: nat)
    requires IsFlat(s, items) && k <= |s|
    requires forall i :: 0 <= i < |s| ==> (i < k <==> s[i].nonce < t)
    ensures IsFlat(s[k..], AtLeast(items, t))
  {
    var a := AtLeast(items, t);
    PrefixIncreasing(s, k);
    forall n | n in a ensures Listed(s[k..], a, n) {
      assert Listed(s, items, n);
      var i :| 0 <= i < |s| && s[i] == items[n];
      assert s[k..][i - k] == a[n];
    }
  }

  /** A listing cut at the nonce `t` lists the items below `t` and then the others. */
  lemma {:induction false} FlatSplit(s: seq<Tx>, items: Items, t: nat) returns (k: nat)
    requires IsFlat(s, items)
    ensures k == |Below(items, t)| <= |s|
    ensures IsFlat(s[..k], Below(items, t)) && IsFlat(s[k..], AtLeast(items, t))
  {
    k := 0;
    while k < |s| && s[k].nonce < t
      invariant k <= |s| && forall i :: 0 <= i < k ==> s[i].nonce < t
    {
      k := k + 1;
    }
    forall i | k < i < |s| ensures s[i].nonce >= t { assert Before(s, k, i); }
    FlatHead(s, items, t, k);
    FlatTail(s, items, t, k);
    FlatLength(s[..k], Below(items, t));
  }

  /** The first nonce from `n` upwards that is not taken. */
  function NextGap(items: Items, n: nat): (r: nat)
    ensures n <= r && r !in items && forall k :: n <= k < r ==> k in items
    decreases |AtLeast(items, n)|
  {
    if n in items then
      assert AtLeast(items, n).Keys == AtLeast(items, n + 1).Keys + {n};
      NextGap(items, n + 1)
    else n
  }

  /** Where `Ready` stops: past the run that begins at the lowest nonce, or below everything
      when the lowest nonce lies above `start`. */
  function ReadyCut(items: Items, start: nat): (r: nat) {
    if items == map[] || MinKey(items) > start then 0 else NextGap(items, MinKey(items))
  }

  /** The nonce above all items. */
  function Top(items: Items): (t: nat)
    ensures forall n :: n in items ==> n < t
  {
    if items == map[] then 0 else MaxKey(items) + 1
  }

  lemma BelowAll(items: Items, t: nat)
    requires forall n :: n in items ==> n < t
    ensures Below(items, t) == items && AtLeast(items, t) == map[]
  {
  }

  /** The `k` items of lowest nonce, or all of them when there are fewer. */
  function Lowest(items: Items, k: nat): (r: Items)
    decreases |items|
  {
    if |items| <= k then items else
      assert (items - {MaxKey(items)}).Keys == items.Keys - {MaxKey(items)};
      Lowest(items - {MaxKey(items)}, k)
  }

  lemma {:induction false} LowestIsCut(items: Items, k: nat) returns (t: nat)
    ensures Lowest(items, k) == Below(items, t)
    ensures |Lowest(items, k)| == if |items| <= k then |items| else k
    decreases |items|
  {
    if |items| <= k {
      t := Top(items);
      BelowAll(items, t);
    } else {
      var m := MaxKey(items);
      var rest := items - {m};
      assert rest.Keys == items.Keys - {m};
      var u := LowestIsCut(rest, k);
      t := if u <= m then u else m;
      BelowMax(items, m, u, t);
    }
  }

  /** The `k` lowest items are those that come first in the sorted view. */
  lemma {:induction false} LowestComeFirst(all: Items, k: nat, r: Items)
    requires Keyed(all) && k <= |all| && |Flat(all)| == |all| && IsFlat(Flat(all)[..k], r)
    ensures r == Lowest(all, k)
    decreases |all|
  {
    var s := Flat(all);
    FlatIsFlat(all);
    if k == |all| {
      assert s[..k] == s;
      SameItems(s, r, all);
    } else {
      PeelLast(s, all);
      var rest := all - {MaxKey(all)};
      assert rest.Keys == all.Keys - {MaxKey(all)};
      assert s[..|s| - 1] == Flat(rest);
      assert s[..k] == Flat(rest)[..k];
      LowestComeFirst(rest, k, r);
    }
  }

  lemma SameItems(s: seq<Tx>, a: Items, b: Items)
    requires IsFlat(s, a) && IsFlat(s, b)
    ensures a == b
  {
    forall n | n in a ensures n in b && a[n] == b[n] { assert Listed(s, a, n); }
    forall n | n in b ensures n in a { assert Listed(s, b, n); }
  }

  lemma BelowMax(items: Items, m: nat, u: nat, t: nat)
    requires forall n :: n in items ==> n <= m
    requires t == if u <= m then u else m
    ensures Below(items - {m}, u) == Below(items, t)
  {
  }
}
