/** What the operations of an account's transaction list do to the list as a value. */
module TxListSpec {
  import opened Transactions
  import opened TxItems

  /** `costcap` and `gascap` are the cached bounds that let `Filter` skip its scan. */
  datatype ListView = ListView(strict: bool, items: Items, costcap: nat, gascap: nat)
  {
    /** Every transaction is filed under its nonce, and the caps bound all that `Filter` may remove. */
    ghost predicate Valid() {
      && Keyed(items)
      && forall n :: n in items && !items[n].type4 ==> items[n].cost <= costcap && items[n].gas <= gascap
    }

    predicate Accepts(tx: Tx, priceBump: nat) {
      tx.nonce in items ==> Outbids(items[tx.nonce], tx, priceBump)
    }

    function Put(tx: Tx): (r: ListView)
      ensures Valid() ==> r.Valid()
    {
      ListView(strict, items[tx.nonce := tx], Max(costcap, tx.cost), Max(gascap, tx.gas))
    }

    function Filter(costLimit: nat, gasLimit: nat): (r: ListView)
      ensures Valid() ==> r.Valid()
    {
      if costcap <= costLimit && gascap <= gasLimit then this
      else ListView(strict, FilterKeeps(strict, items, costLimit, gasLimit), costLimit, gasLimit)
    }

    /** The list with some of its transactions gone and its caps as they were. */
    function With(rest: Items): (r: ListView)
    {
      this.(items := rest)
    }
  }

  function EmptyList(strict: bool): (r: ListView)
    ensures r.Valid()
  {
    ListView(strict, map[], 0, 0)
  }

  function Max(a: nat, b: nat): nat { if a < b then b else a }

  /** A replacement must beat both prices of the old transaction, and by the price bump. */
  predicate Outbids(prev: Tx, tx: Tx, priceBump: nat) {
    && prev.feeCap < tx.feeCap
    && prev.tip < tx.tip
    && prev.feeCap * (100 + priceBump) / 100 <= tx.feeCap
    && prev.tip * (100 + priceBump) / 100 <= tx.tip
  }

  /** What a limit on funds and gas removes: wormholes transactions of type 4 are exempt. */
  predicate Unpayable(tx: Tx, costLimit: nat, gasLimit: nat) {
    !tx.type4 && (tx.gas > gasLimit || tx.cost > costLimit)
  }

  function Unpaid(items: Items, costLimit: nat, gasLimit: nat): (r: Items) {
    map n | n in items && Unpayable(items[n], costLimit, gasLimit) :: items[n]
  }

  function Payable(items: Items, costLimit: nat, gasLimit: nat): (r: Items) {
    map n | n in items && !Unpayable(items[n], costLimit, gasLimit) :: items[n]
  }

  /** What a filtered list keeps: in strict mode nothing above the lowest removed nonce. */
  function FilterKeeps(strict: bool, items: Items, costLimit: nat, gasLimit: nat): (r: Items) {
    var unpaid := Unpaid(items, costLimit, gasLimit);
    if strict && unpaid != map[] then Below(Payable(items, costLimit, gasLimit), MinKey(unpaid))
    else Payable(items, costLimit, gasLimit)
  }

  /** What a strict list gives up besides: the payable transactions above the lowest removed nonce. */
  function FilterInvalidates(strict: bool, items: Items, costLimit: nat, gasLimit: nat): (r: Items) {
    var unpaid := Unpaid(items, costLimit, gasLimit);
    if strict && unpaid != map[] then AtLeast(Payable(items, costLimit, gasLimit), MinKey(unpaid)) else map[]
  }

  /** The caps only short-cut: skipping the scan removes what the scan would have removed. */
  lemma FilterIgnoresCaps(l: ListView, costLimit: nat, gasLimit: nat)
    requires l.Valid()
    ensures l.Filter(costLimit, gasLimit).items == FilterKeeps(l.strict, l.items, costLimit, gasLimit)
    ensures l.costcap <= costLimit && l.gascap <= gasLimit ==>
              && Unpaid(l.items, costLimit, gasLimit) == map[]
              && FilterInvalidates(l.strict, l.items, costLimit, gasLimit) == map[]
  {
    if l.costcap <= costLimit && l.gascap <= gasLimit {
      assert forall n :: n in l.items ==> !Unpayable(l.items[n], costLimit, gasLimit);
    }
  }

  /** Kept, unpayable and invalidated transactions share out the list. */
  lemma FilterPartitions(strict: bool, items: Items, costLimit: nat, gasLimit: nat)
    ensures var k, u, v := FilterKeeps(strict, items, costLimit, gasLimit),
                           Unpaid(items, costLimit, gasLimit),
                           FilterInvalidates(strict, items, costLimit, gasLimit);
            && k.Keys !! u.Keys !! v.Keys && k + u + v == items
            && (forall n, m :: n in k && m in v ==> n < m)
            && (strict ==> forall n, m :: n in k && m in u ==> n < m)
  {
  }

  /** A list of consecutive nonces stays one under a strict filter. */
  lemma FilterKeepsRuns(items: Items, costLimit: nat, gasLimit: nat, low: nat, high: nat) returns (top: nat)
    requires low <= high && forall n :: n in items <==> low <= n < high
    ensures low <= top <= high
    ensures forall n :: n in FilterKeeps(true, items, costLimit, gasLimit) <==> low <= n < top
  {
    var unpaid := Unpaid(items, costLimit, gasLimit);
    top := if unpaid == map[] then high else MinKey(unpaid);
    forall n ensures n in FilterKeeps(true, items, costLimit, gasLimit) <==> low <= n < top {
      if low <= n < top {
        assert n in items && n !in unpaid;
      }
    }
  }
}

/** An account's list of transactions: contiguous (strict) for pending, gapped for queued ones. */
module TxLists {
  import opened Transactions
  import opened TxItems
  import opened TxListSpec
  import opened TxSortedMaps

  class TxList {
    const strict: bool
    const txs: TxSortedMap
    var costcap: nat
    var gascap: nat

    ghost function View(): ListView
      reads this, txs
    {
      ListView(strict, txs.items, costcap, gascap)
    }

    ghost predicate Valid()
      reads this, txs
    {
      txs.Valid() && View().Valid()
    }

    constructor (strict: bool)
      ensures Valid() && View() == EmptyList(strict) && fresh(txs)
    {
      this.strict := strict;
      var m := new TxSortedMap();
      txs := m;
      costcap, gascap := 0, 0;
    }

    method Add(tx: Tx, priceBump: nat) returns (inserted: bool, replaced: Option<Tx>)
      requires Valid()
      modifies this, txs
      ensures Valid() && inserted == old(View()).Accepts(tx, priceBump)
      ensures View() == if inserted then old(View()).Put(tx) else old(View())
      ensures replaced == if inserted && tx.nonce in old(txs.items) then Some(old(txs.items)[tx.nonce]) else None
    {
      if tx.nonce in txs.items {
        var prev := txs.items[tx.nonce];
        if prev.feeCap >= tx.feeCap || prev.tip >= tx.tip {
          return false, None;
        }
        var a := 100 + priceBump;
        var thresholdFeeCap, thresholdTip := prev.feeCap * a / 100, prev.tip * a / 100;
        if tx.feeCap < thresholdFeeCap || tx.tip < thresholdTip {
          return false, None;
        }
        replaced := Some(prev);
      } else {
        replaced := None;
      }
      txs.Put(tx);
      if costcap < tx.cost {
        costcap := tx.cost;
      }
      if gascap < tx.gas {
        gascap := tx.gas;
      }
      inserted := true;
    }

    method Filter(costLimit: nat, gasLimit: nat) returns (removed: seq<Tx>, invalids: seq<Tx>)
      requires Valid()
      modifies this, txs
      ensures Valid() && View() == old(View()).Filter(costLimit, gasLimit)
      ensures txs.items == FilterKeeps(strict, old(txs.items), costLimit, gasLimit)
      ensures multiset(removed) == multiset(Unpaid(old(txs.items), costLimit, gasLimit).Values)
      ensures multiset(invalids) == multiset(FilterInvalidates(strict, old(txs.items), costLimit, gasLimit).Values)
    {
      FilterIgnoresCaps(View(), costLimit, gasLimit);
      if costcap <= costLimit && gascap <= gasLimit {
        return [], [];
      }
      costcap, gascap := costLimit, gasLimit;
      removed, invalids := Scan(costLimit, gasLimit);
    }

    /** The part of `Filter` behind the short circuit. */
    method Scan(costLimit: nat, gasLimit: nat) returns (removed: seq<Tx>, invalids: seq<Tx>)
      requires txs.Valid()
      modifies txs
      ensures txs.Valid() && txs.items == FilterKeeps(strict, old(txs.items), costLimit, gasLimit)
      ensures multiset(removed) == multiset(Unpaid(old(txs.items), costLimit, gasLimit).Values)
      ensures multiset(invalids) == multiset(FilterInvalidates(strict, old(txs.items), costLimit, gasLimit).Values)
    {
      ghost var unpaid := Unpaid(txs.items, costLimit, gasLimit);
      var poor := (tx: Tx) => Unpayable(tx, costLimit, gasLimit);
      PoorAreUnpaid(txs.items, costLimit, gasLimit, poor);
      removed := txs.Filter(poor);
      invalids := [];
      if |removed| == 0 {
        NoValues(unpaid);
        return;
      }
      if strict {
        var lowest := LowestNonce(removed, unpaid);
        assert lowest !in txs.items;
        var above := (tx: Tx) => tx.nonce > lowest;
        AboveIsCut(txs.items, lowest, above);
        invalids := txs.FilterItems(above);
      }
      txs.Reheap();
    }

    /** Removes the transaction filed under the nonce of `tx`; a strict list gives up all later ones. */
    method Remove(tx: Tx) returns (removed: bool, invalids: seq<Tx>)
      requires Valid()
      modifies this, txs
      ensures Valid() && removed == (tx.nonce in old(txs.items))
      ensures View() == old(View()).With(
                          if !removed then old(txs.items)
                          else if strict then Below(old(txs.items), tx.nonce) else old(txs.items) - {tx.nonce})
      ensures multiset(invalids) == if removed && strict
                                    then multiset(AtLeast(old(txs.items), tx.nonce + 1).Values) else multiset{}
    {
      invalids := [];
      WithoutOne(txs.items, tx.nonce);
      removed := txs.Remove(tx.nonce);
      if removed && strict {
        var nonce := tx.nonce;
        var above := (t: Tx) => t.nonce > nonce;
        AboveIsCut(txs.items, nonce, above);
        invalids := txs.Filter(above);
      }
    }

    method Forward(threshold: nat) returns (removed: seq<Tx>)
      requires Valid()
      modifies txs
      ensures Valid() && View() == old(View()).With(AtLeast(old(txs.items), threshold))
      ensures IsFlat(removed, Below(old(txs.items), threshold))
    {
      removed := txs.Forward(threshold);
    }

    method Cap(threshold: nat) returns (drops: seq<Tx>)
      requires Valid()
      modifies txs
      ensures Valid() && View() == old(View()).With(Lowest(old(txs.items), threshold))
      ensures |txs.items| <= |Flat(old(txs.items))| && drops == Reversed(Flat(old(txs.items))[|txs.items|..])
    {
      ghost var t := LowestIsCut(txs.items, threshold);
      drops := txs.Cap(threshold);
    }

    method Ready(start: nat) returns (ready: seq<Tx>)
      requires Valid()
      modifies txs
      ensures Valid() && View() == old(View()).With(AtLeast(old(txs.items), ReadyCut(old(txs.items), start)))
      ensures IsFlat(ready, Below(old(txs.items), ReadyCut(old(txs.items), start)))
    {
      ready := txs.Ready(start);
    }
  }

  lemma AboveIsCut(items: Items, n: nat, above: Tx -> bool)
    requires Keyed(items) && n !in items && forall tx :: above(tx) <==> tx.nonce > n
    ensures Matching(items, above) == AtLeast(items, n) && Others(items, above) == Below(items, n)
  {
  }

  lemma PoorAreUnpaid(items: Items, costLimit: nat, gasLimit: nat, poor: Tx -> bool)
    requires forall tx :: poor(tx) <==> Unpayable(tx, costLimit, gasLimit)
    ensures Matching(items, poor) == Unpaid(items, costLimit, gasLimit)
    ensures Others(items, poor) == Payable(items, costLimit, gasLimit)
  {
  }

  lemma WithoutOne(items: Items, n: nat)
    ensures n !in items ==> items - {n} == items
    ensures Below(items - {n}, n) == Below(items, n)
    ensures AtLeast(items - {n}, n) == AtLeast(items, n + 1)
  {
  }

  lemma NoValues(items: Items)
    requires |items.Values| == 0
    ensures items == map[]
  {
    assert forall n :: n in items ==> items[n] in items.Values;
  }

  method LowestNonce(removed: seq<Tx>, ghost unpaid: Items) returns (lowest: nat)
    requires removed != [] && Keyed(unpaid) && multiset(removed) == multiset(unpaid.Values)
    ensures unpaid != map[] && lowest == MinKey(unpaid)
  {
    assert forall i :: 0 <= i < |removed| ==> removed[i] in multiset(removed);
    lowest := removed[0].nonce;
    for i := 0 to |removed|
      invariant lowest in unpaid && forall j :: 0 <= j < i ==> lowest <= removed[j].nonce
    {
      if lowest > removed[i].nonce {
        lowest := removed[i].nonce;
      }
    }
    forall n | n in unpaid ensures lowest <= n {
      assert unpaid[n] in multiset(removed);
    }
  }
}
