/** What the header database says as a value: linked batches, total difficulties and markers. */
module HeaderSpec {
  import opened Transactions
  import opened BlockTree

  /** Each header of the batch is the parent of the next. */
  ghost predicate Linked(hs: seq<Header>) {
    forall i, j :: 0 <= i && j == i + 1 && j < |hs| ==> hs[j].parent == hs[i].hash && hs[j].number == hs[i].number + 1
  }

  ghost predicate Extends(t': Tree, t: Tree) {
    forall h :: h in t ==> h in t' && t'[h] == t[h]
  }

  /** The total difficulty of a header is that of its parent plus its own. */
  ghost predicate Weighed(t: Tree, genesis: Hash, td: map<Hash, nat>)
    requires Closed(t, genesis)
  {
    && td.Keys == t.Keys
    && forall h :: h in t && h != genesis ==>
         LinkedUp(t, genesis, h) && td[h] == td[t[h].parent] + t[h].difficulty
  }

  /** Headers are known by their hash: nothing else hashes to it, and it is not the empty hash. */
  ghost predicate Genuine(origin: Hash -> Header, h: Header) {
    h.hash != EMPTY_HASH && origin(h.hash) == h
  }

  ghost predicate AllGenuine(origin: Hash -> Header, t: Tree) {
    forall h :: h in t ==> Genuine(origin, t[h]) && t[h].hash == h
  }

  /** The header has its parent, one lower, in the tree. */
  ghost predicate Fits(t: Tree, h: Header) {
    h.parent in t && t[h.parent].number + 1 == h.number
  }

  lemma AddHeader(t: Tree, genesis: Hash, h: Header)
    requires Closed(t, genesis) && Fits(t, h) && h.hash !in t
    ensures Closed(t[h.hash := h], genesis) && Extends(t[h.hash := h], t)
  {
    var t' := t[h.hash := h];
    forall x | x in t'
      ensures LinkedUp(t', genesis, x)
    {
      if x != h.hash {
        assert LinkedUp(t, genesis, x);
      }
    }
  }

  lemma AddWeight(t: Tree, genesis: Hash, td: map<Hash, nat>, h: Header)
    requires Closed(t, genesis) && Closed(t[h.hash := h], genesis)
    requires Weighed(t, genesis, td) && Fits(t, h) && h.hash !in t
    ensures Weighed(t[h.hash := h], genesis, td[h.hash := td[h.parent] + h.difficulty])
  {
    hide Closed;
    var t', td' := t[h.hash := h], td[h.hash := td[h.parent] + h.difficulty];
    forall x | x in t' && x != genesis
      ensures LinkedUp(t', genesis, x) && td'[x] == td'[t'[x].parent] + t'[x].difficulty
    {
      LinkedUpIs(t', genesis, x);
      if x != h.hash {
        LinkedUpIs(t, genesis, x);
      }
    }
  }

  lemma LinkedUpIs(t: Tree, genesis: Hash, h: Hash)
    requires Closed(t, genesis) && h in t
    ensures LinkedUp(t, genesis, h)
  {
  }

  /** Of a linked batch, the headers already stored are the first ones. */
  lemma {:induction false} KnownFirst(t: Tree, genesis: Hash, origin: Hash -> Header, hs: seq<Header>, i: nat)
    requires Closed(t, genesis) && AllGenuine(origin, t) && Linked(hs) && 0 < i < |hs|
    requires hs[0].number > 0 && Genuine(origin, hs[i])
    requires hs[i].hash in t
    ensures hs[i - 1].hash in t
  {
    NumberAt(hs, i);
    assert t[hs[i].hash] == hs[i];
    assert LinkedUp(t, genesis, hs[i].hash);
  }

  lemma {:induction false} NumberAt(hs: seq<Header>, i: nat)
    requires Linked(hs) && i < |hs|
    ensures hs[i].number == hs[0].number + i
  {
    if i > 0 {
      NumberAt(hs, i - 1);
    }
  }

  /** The batch was validated before: its headers are linked and their hashes are their own. */
  ghost predicate Validated(origin: Hash -> Header, hs: seq<Header>) {
    Linked(hs) && forall i :: 0 <= i < |hs| ==> Genuine(origin, hs[i])
  }

  /** The stored headers of the batch are its first `k`. */
  ghost predicate FirstNew(t: Tree, hs: seq<Header>, k: nat) {
    && k <= |hs|
    && (forall i :: 0 <= i < k ==> hs[i].hash in t)
    && (forall i :: k <= i < |hs| ==> hs[i].hash !in t)
  }

  /** The tree has what it had, and the batch. */
  ghost predicate Gained(t: Tree, hs: seq<Header>, t': Tree) {
    && Extends(t', t) && Holds(t', hs)
    && forall h :: h in t' ==> h in t || exists i :: 0 <= i < |hs| && hs[i].hash == h
  }

  ghost predicate SameWeights(td: map<Hash, nat>, td': map<Hash, nat>) {
    forall h :: h in td ==> h in td' && td'[h] == td[h]
  }

  /** The pending batch after `i` headers, the first `k` of them known before; `sum` is the chain's difficulty. */
  ghost predicate Batched(t: Tree, td: map<Hash, nat>, genesis: Hash, origin: Hash -> Header, hs: seq<Header>,
                          i: nat, k: nat, t': Tree, td': map<Hash, nat>, sum: nat)
  {
    && i <= |hs| && k <= i && FirstNew(t, hs[..i], k)
    && Closed(t', genesis) && AllGenuine(origin, t') && Weighed(t', genesis, td')
    && Gained(t, hs[..i], t') && SameWeights(td, td')
    && (k == i ==> t' == t)
    && (i < |hs| ==> Fits(t', hs[i]) && sum == td'[hs[i].parent])
    && (i > 0 ==> hs[i - 1].hash in t' && sum == td'[hs[i - 1].hash])
  }

  lemma BatchStarts(t: Tree, td: map<Hash, nat>, genesis: Hash, origin: Hash -> Header, hs: seq<Header>)
    requires Closed(t, genesis) && AllGenuine(origin, t) && Weighed(t, genesis, td)
    requires hs != [] && Fits(t, hs[0])
    ensures Batched(t, td, genesis, origin, hs, 0, 0, t, td, td[hs[0].parent])
  {
  }

  lemma KnownStep(t: Tree, td: map<Hash, nat>, genesis: Hash, origin: Hash -> Header, hs: seq<Header>,
                  i: nat, next: nat, t': Tree, td': map<Hash, nat>, sum: nat)
    requires Batched(t, td, genesis, origin, hs, i, i, t', td', sum) && Validated(origin, hs)
    requires i < |hs| && next == i + 1 && hs[i].hash in t && hs[i].number > 0
    ensures Batched(t, td, genesis, origin, hs, next, next, t', td', sum + hs[i].difficulty)
  {
    hide Closed, Weighed;
    WeightOf(t, genesis, td', hs[i].hash);
    assert hs[..next] == hs[..i] + [hs[i]];
    assert FirstNew(t, hs[..next], next);
    assert Gained(t, hs[..next], t');
  }

  lemma WeightOf(t: Tree, genesis: Hash, td: map<Hash, nat>, h: Hash)
    requires Closed(t, genesis) && Weighed(t, genesis, td) && h in t && t[h].number > 0
    ensures Fits(t, t[h]) && td[h] == td[t[h].parent] + t[h].difficulty
  {
    LinkedUpIs(t, genesis, h);
  }

  lemma NewHash(t: Tree, td: map<Hash, nat>, genesis: Hash, origin: Hash -> Header, hs: seq<Header>,
                i: nat, k: nat, t': Tree, td': map<Hash, nat>, sum: nat)
    requires Closed(t, genesis) && AllGenuine(origin, t)
    requires Batched(t, td, genesis, origin, hs, i, k, t', td', sum) && Validated(origin, hs)
    requires i < |hs| && hs[0].number > 0 && (k == i ==> hs[i].hash !in t)
    ensures hs[i].hash !in t && hs[i].hash !in t'
  {
    hide Closed, Weighed;
    if hs[i].hash in t {
      KnownFirst(t, genesis, origin, hs, i);
    }
    forall j | 0 <= j < i
      ensures hs[..i][j].hash != hs[i].hash
    {
      NumberAt(hs, i);
      NumberAt(hs, j);
    }
  }

  lemma NewStep(t: Tree, td: map<Hash, nat>, genesis: Hash, origin: Hash -> Header, hs: seq<Header>,
                i: nat, next: nat, k: nat, t': Tree, td': map<Hash, nat>, sum: nat)
    requires Batched(t, td, genesis, origin, hs, i, k, t', td', sum) && Validated(origin, hs)
    requires i < |hs| && next == i + 1 && hs[i].hash !in t && hs[i].hash !in t' && td.Keys == t.Keys
    ensures Batched(t, td, genesis, origin, hs, next, k, t'[hs[i].hash := hs[i]],
                    td'[hs[i].hash := sum + hs[i].difficulty], sum + hs[i].difficulty)
  {
    hide Closed, Weighed;
    AddHeader(t', genesis, hs[i]);
    AddWeight(t', genesis, td', hs[i]);
    assert hs[..next] == hs[..i] + [hs[i]];
    assert Holds(t'[hs[i].hash := hs[i]], hs[..next]);
  }

  lemma BatchRead(t: Tree, origin: Hash -> Header, hs: seq<Header>, i: nat)
    requires AllGenuine(origin, t) && Validated(origin, hs) && i < |hs| && hs[0].number > 0
    ensures (i + 1 < |hs| ==> hs[i + 1].parent == hs[i].hash) && hs[i].number > 0
    ensures hs[i].hash in t ==> t[hs[i].hash] == hs[i]
  {
    NumberAt(hs, i);
  }

  lemma BatchEnds(t: Tree, td: map<Hash, nat>, genesis: Hash, origin: Hash -> Header, hs: seq<Header>,
                  k: nat, t': Tree, td': map<Hash, nat>, sum: nat)
    requires hs != [] && Batched(t, td, genesis, origin, hs, |hs|, k, t', td', sum)
    ensures Closed(t', genesis) && AllGenuine(origin, t') && Weighed(t', genesis, td')
    ensures FirstNew(t, hs, k) && Gained(t, hs, t') && SameWeights(td, td')
    ensures hs[|hs| - 1].hash in td' && sum == td'[hs[|hs| - 1].hash]
    ensures td'.Keys == t'.Keys && forall h :: h in t ==> h in t' && t'[h] == t[h]
  {
    hide Closed;
    assert hs[..|hs|] == hs;
  }

  /** Every header of the batch is in the tree. */
  ghost predicate Holds(t: Tree, hs: seq<Header>) {
    forall i :: 0 <= i < |hs| ==> hs[i].hash in t && t[hs[i].hash] == hs[i]
  }

  /** A batch in the tree is the top of its last header's ancestor chain. */
  lemma {:induction false} BatchAncestor(t: Tree, genesis: Hash, hs: seq<Header>, i: nat, n: nat)
    requires Closed(t, genesis) && Linked(hs) && Holds(t, hs) && i < |hs| && hs[0].number > 0
    requires n <= hs[0].number + i
    ensures hs[i].number == hs[0].number + i && hs[i].hash in t
    ensures Fits(t, hs[0])
    ensures AncestorAt(t, genesis, hs[i].hash, n)
         == if n >= hs[0].number then hs[n - hs[0].number].hash else AncestorAt(t, genesis, hs[0].parent, n)
    decreases i
  {
    NumberAt(hs, i);
    assert LinkedUp(t, genesis, hs[0].hash) && LinkedUp(t, genesis, hs[i].hash);
    if i > 0 && n < hs[i].number {
      BatchAncestor(t, genesis, hs, i - 1, n);
    }
  }

  /** The markers right after a batch was adopted: `all` headers of it were marked, or those from `from`. */
  ghost predicate Remarked(t: Tree, genesis: Hash, hs: seq<Header>, from: nat, canon: map<nat, Hash>,
                           canon': map<nat, Hash>)
    requires Closed(t, genesis) && |hs| > 0 && Fits(t, hs[0])
  {
    forall n: nat :: MarkAt(t, genesis, hs, from, canon, canon', n)
  }

  ghost predicate MarkAt(t: Tree, genesis: Hash, hs: seq<Header>, from: nat, canon: map<nat, Hash>,
                         canon': map<nat, Hash>, n: nat)
    requires Closed(t, genesis) && |hs| > 0 && Fits(t, hs[0])
  {
    var first := hs[0].number;
    if n < first then n in canon' && canon'[n] == AncestorAt(t, genesis, hs[0].parent, n)
    else if n < first + from && n < first + |hs| then
      (n in canon' <==> n in canon) && (n in canon ==> canon'[n] == canon[n])
    else if n < first + |hs| then n in canon' && canon'[n] == hs[n - first].hash
    else n !in canon'
  }

  /** Such markers spell the batch's chain exactly when those not written were right before. */
  lemma RemarkedIs(t: Tree, genesis: Hash, hs: seq<Header>, from: nat, canon: map<nat, Hash>, canon': map<nat, Hash>)
    requires Closed(t, genesis) && Linked(hs) && Holds(t, hs) && |hs| > 0 && hs[0].number > 0 && Fits(t, hs[0])
    requires Remarked(t, genesis, hs, from, canon, canon')
    ensures Canonical(t, genesis, canon', hs[|hs| - 1].hash) <==> MarkedTo(canon, hs, from)
  {
    hide Closed, AncestorAt, MarkAt, Canonical, MarkedTo, Remarked;
    if MarkedTo(canon, hs, from) {
      RemarkedRight(t, genesis, hs, from, canon, canon');
    }
    if Canonical(t, genesis, canon', hs[|hs| - 1].hash) {
      RemarkedNeeds(t, genesis, hs, from, canon, canon');
    }
  }

  ghost predicate MarkedTo(canon: map<nat, Hash>, hs: seq<Header>, from: nat) {
    forall i :: 0 <= i < from && i < |hs| ==> Marks(canon, hs[i])
  }

  lemma RemarkedRight(t: Tree, genesis: Hash, hs: seq<Header>, from: nat, canon: map<nat, Hash>, canon': map<nat, Hash>)
    requires Closed(t, genesis) && Linked(hs) && Holds(t, hs) && |hs| > 0 && hs[0].number > 0 && Fits(t, hs[0])
    requires Remarked(t, genesis, hs, from, canon, canon') && MarkedTo(canon, hs, from)
    ensures Canonical(t, genesis, canon', hs[|hs| - 1].hash)
  {
    hide Closed, AncestorAt;
    var last := hs[|hs| - 1];
    NumberAt(hs, |hs| - 1);
    forall n: nat
      ensures n in canon' <==> n <= last.number
    {
      assert MarkAt(t, genesis, hs, from, canon, canon', n);
      if hs[0].number <= n <= last.number {
        NumberAt(hs, n - hs[0].number);
      }
    }
    forall n | n in canon'
      ensures canon'[n] == AncestorAt(t, genesis, last.hash, n)
    {
      assert MarkAt(t, genesis, hs, from, canon, canon', n);
      BatchAncestor(t, genesis, hs, |hs| - 1, n);
      if hs[0].number <= n {
        NumberAt(hs, n - hs[0].number);
      }
    }
  }

  lemma RemarkedNeeds(t: Tree, genesis: Hash, hs: seq<Header>, from: nat, canon: map<nat, Hash>, canon': map<nat, Hash>)
    requires Closed(t, genesis) && Linked(hs) && Holds(t, hs) && |hs| > 0 && hs[0].number > 0 && Fits(t, hs[0])
    requires Remarked(t, genesis, hs, from, canon, canon') && Canonical(t, genesis, canon', hs[|hs| - 1].hash)
    ensures MarkedTo(canon, hs, from)
  {
    hide Closed, AncestorAt;
    NumberAt(hs, |hs| - 1);
    forall i | 0 <= i < from && i < |hs|
      ensures Marks(canon, hs[i])
    {
      NumberAt(hs, i);
      assert MarkAt(t, genesis, hs, from, canon, canon', hs[i].number);
      BatchAncestor(t, genesis, hs, |hs| - 1, hs[i].number);
    }
  }

  /** `h` is the canonical header of its height. */
  predicate Marks(canon: map<nat, Hash>, h: Header) {
    h.number in canon && canon[h.number] == h.hash
  }

  /** With one header of a linked batch canonical, the ones before it are too. */
  lemma {:induction false} MarksDown(t: Tree, genesis: Hash, canon: map<nat, Hash>, head: Hash, hs: seq<Header>,
                                     i: nat, j: nat)
    requires Closed(t, genesis) && Canonical(t, genesis, canon, head)
    requires Linked(hs) && Holds(t, hs) && i <= j < |hs| && hs[0].number > 0
    requires Marks(canon, hs[j])
    ensures Marks(canon, hs[i])
  {
    NumberAt(hs, i);
    NumberAt(hs, j);
    AncestorOfAncestor(t, genesis, head, hs[j].number, hs[i].number);
    BatchAncestor(t, genesis, hs, j, hs[i].number);
  }

  /** Canonical chains stay canonical when headers are only added. */
  lemma CanonicalGrows(t: Tree, t': Tree, genesis: Hash, canon: map<nat, Hash>, head: Hash)
    requires Closed(t, genesis) && Closed(t', genesis) && Extends(t', t)
    requires Canonical(t, genesis, canon, head)
    ensures Canonical(t', genesis, canon, head)
  {
    forall n | n in canon
      ensures canon[n] == AncestorAt(t', genesis, head, n)
    {
      AncestorGrows(t, t', genesis, head, n);
    }
  }

  /** Below a common ancestor two chains are one. */
  lemma CommonBelow(t: Tree, genesis: Hash, canon: map<nat, Hash>, head: Hash, h: Hash, m: nat, n: nat)
    requires Closed(t, genesis) && Canonical(t, genesis, canon, head) && h in t && n <= m <= t[h].number
    requires m in canon && canon[m] == AncestorAt(t, genesis, h, m)
    ensures n in canon && canon[n] == AncestorAt(t, genesis, h, n)
  {
    AncestorOfAncestor(t, genesis, head, m, n);
    AncestorOfAncestor(t, genesis, h, m, n);
  }

  /** What must hold beforehand for adopting the batch, `k` headers of it known, to mark its whole chain. */
  predicate Adoptable(canon: map<nat, Hash>, head: Hash, hs: seq<Header>, k: nat)
    requires hs != []
  {
    if hs[0].parent == head then k == 0 else k < |hs| || Marks(canon, hs[|hs| - 1])
  }

  /** The first header whose marker is written. */
  function FirstMarked(head: Hash, hs: seq<Header>, k: nat): nat
    requires hs != []
  {
    if hs[0].parent == head then k else if k < |hs| then 0 else |hs|
  }

  lemma AdoptableIs(t: Tree, genesis: Hash, canon: map<nat, Hash>, head: Hash, hs: seq<Header>, k: nat)
    requires Closed(t, genesis) && Canonical(t, genesis, canon, head)
    requires Linked(hs) && Holds(t, hs) && hs != [] && hs[0].number > 0 && k <= |hs|
    ensures MarkedTo(canon, hs, FirstMarked(head, hs, k)) <==> Adoptable(canon, head, hs, k)
  {
    hide Closed, AncestorAt, Linked, Holds;
    if hs[0].parent == head {
      HeadsUp(t, genesis, canon, head, hs);
    } else if k == |hs| && Marks(canon, hs[|hs| - 1]) {
      forall i | 0 <= i < |hs|
        ensures Marks(canon, hs[i])
      {
        MarksDown(t, genesis, canon, head, hs, i, |hs| - 1);
      }
    }
  }

  lemma HeadsUp(t: Tree, genesis: Hash, canon: map<nat, Hash>, head: Hash, hs: seq<Header>)
    requires Closed(t, genesis) && Canonical(t, genesis, canon, head)
    requires Holds(t, hs) && hs != [] && hs[0].number > 0 && hs[0].parent == head
    ensures !Marks(canon, hs[0])
  {
    LinkedUpIs(t, genesis, hs[0].hash);
  }

  /** Piling a batch onto the head leaves the markers below it alone. */
  lemma PiledUp(t: Tree, genesis: Hash, canon: map<nat, Hash>, head: Hash, hs: seq<Header>, k: nat,
                canon': map<nat, Hash>)
    requires Closed(t, genesis) && Canonical(t, genesis, canon, head)
    requires Linked(hs) && Holds(t, hs) && hs != [] && hs[0].number > 0 && Fits(t, hs[0]) && hs[0].parent == head
    requires k <= |hs| && SameOutside(canon, canon', hs[0].number + k, hs[0].number + |hs|)
    requires forall i :: k <= i < |hs| ==> Marks(canon', hs[i])
    ensures Remarked(t, genesis, hs, k, canon, canon')
  {
    hide Closed, AncestorAt;
    forall n: nat
      ensures MarkAt(t, genesis, hs, k, canon, canon', n)
    {
      if hs[0].number + k <= n < hs[0].number + |hs| {
        NumberAt(hs, n - hs[0].number);
      }
    }
  }

  /** Rewriting the chain below the batch, and all of it that is marked. */
  lemma Rewritten(t: Tree, genesis: Hash, canon: map<nat, Hash>, hs: seq<Header>, from: nat,
                  cleared: map<nat, Hash>, below: map<nat, Hash>, canon': map<nat, Hash>)
    requires Closed(t, genesis) && Linked(hs) && Holds(t, hs) && hs != [] && hs[0].number > 0 && Fits(t, hs[0])
    requires forall n: nat :: n in cleared <==> n in canon && n <= hs[|hs| - 1].number
    requires forall n: nat :: n in cleared ==> cleared[n] == canon[n]
    requires Spells(t, genesis, hs[0].parent, below, 0, hs[0].number)
    requires SameOutside(cleared, below, 0, hs[0].number)
    requires from <= |hs| && SameOutside(below, canon', hs[0].number + from, hs[0].number + |hs|)
    requires forall i :: from <= i < |hs| ==> Marks(canon', hs[i])
    ensures Remarked(t, genesis, hs, from, canon, canon')
  {
    hide Closed, AncestorAt;
    NumberAt(hs, |hs| - 1);
    forall n: nat
      ensures MarkAt(t, genesis, hs, from, canon, canon', n)
    {
      if hs[0].number + from <= n < hs[0].number + |hs| {
        NumberAt(hs, n - hs[0].number);
      }
    }
  }

  lemma {:induction false} WeightGrows(t: Tree, genesis: Hash, td: map<Hash, nat>, hs: seq<Header>, i: nat, j: nat)
    requires Closed(t, genesis) && Weighed(t, genesis, td)
    requires Linked(hs) && Holds(t, hs) && i <= j < |hs| && hs[0].number > 0
    ensures td[hs[i].hash] <= td[hs[j].hash]
  {
    hide Closed, Weighed;
    if i < j {
      NumberAt(hs, j);
      WeightOf(t, genesis, td, hs[j].hash);
      WeightGrows(t, genesis, td, hs, i, j - 1);
    }
  }

  /** No stored header is heavier than `head`. */
  ghost predicate Heaviest(td: map<Hash, nat>, head: Hash) {
    head in td && forall h :: h in td ==> td[h] <= td[head]
  }

  lemma HeaviestKept(t: Tree, t': Tree, genesis: Hash, td: map<Hash, nat>, td': map<Hash, nat>, hs: seq<Header>,
                     head: Hash, head': Hash)
    requires Closed(t', genesis) && Weighed(t', genesis, td') && td.Keys == t.Keys
    requires hs != [] && hs[0].number > 0 && Linked(hs) && Gained(t, hs, t') && SameWeights(td, td')
    requires Heaviest(td, head) && head' in td' && td'[head] <= td'[head'] && td'[hs[|hs| - 1].hash] <= td'[head']
    ensures Heaviest(td', head')
  {
    hide Closed;
    forall h | h in td'
      ensures td'[h] <= td'[head']
    {
      if h !in t {
        var i :| 0 <= i < |hs| && hs[i].hash == h;
        WeightGrows(t', genesis, td', hs, i, |hs| - 1);
      }
    }
  }

  /** Nothing known sits on top of the heaviest header. */
  lemma NothingOnTop(t: Tree, genesis: Hash, td: map<Hash, nat>, h: Header, head: Hash)
    requires Closed(t, genesis) && Weighed(t, genesis, td) && Heaviest(td, head)
    requires h.hash in t && t[h.hash] == h && h.number > 0 && h.difficulty > 0
    ensures h.parent != head
  {
    WeightOf(t, genesis, td, h.hash);
  }

  lemma AdoptableIfNew(t: Tree, genesis: Hash, td: map<Hash, nat>, canon: map<nat, Hash>, head: Hash, hs: seq<Header>,
                       k: nat)
    requires Closed(t, genesis) && Weighed(t, genesis, td) && Heaviest(td, head)
    requires hs != [] && hs[0].number > 0 && hs[0].difficulty > 0 && FirstNew(t, hs, k) && k < |hs|
    requires hs[0].hash in t ==> t[hs[0].hash] == hs[0]
    ensures Adoptable(canon, head, hs, k)
  {
    hide Closed, Weighed, Heaviest;
    if k > 0 {
      NothingOnTop(t, genesis, td, hs[0], head);
    }
  }

  /** `canon'` is `canon` outside `[low, high)`. */
  ghost predicate SameOutside(canon: map<nat, Hash>, canon': map<nat, Hash>, low: nat, high: nat) {
    forall n: nat :: n < low || high <= n ==>
      (n in canon' <==> n in canon) && (n in canon ==> canon'[n] == canon[n])
  }

  /** In `[low, high)` the markers spell the chain of `h`. */
  ghost predicate Spells(t: Tree, genesis: Hash, h: Hash, canon: map<nat, Hash>, low: nat, high: nat)
    requires Closed(t, genesis) && h in t && high <= t[h].number + 1
  {
    forall n: nat :: low <= n < high ==> n in canon && canon[n] == AncestorAt(t, genesis, h, n)
  }

  /** Takes out every marker above `last`. */
  method ClearAbove(canon: map<nat, Hash>, ghost head: nat, last: nat) returns (marks: map<nat, Hash>)
    requires forall n: nat :: n in canon <==> n <= head
    ensures forall n: nat :: n in marks <==> n in canon && n <= last
    ensures forall n: nat :: n in marks ==> marks[n] == canon[n]
  {
    marks := canon;
    var i := last + 1;
    while i in canon
      invariant last < i
      invariant forall n: nat :: n in marks <==> n in canon && !(last < n < i)
      invariant forall n: nat :: n in marks ==> marks[n] == canon[n]
      decreases head + 1 - i
    {
      marks := marks - {i};
      i := i + 1;
    }
  }

  lemma AncestorStep(t: Tree, genesis: Hash, hash: Hash, n: nat, below: nat)
    requires Closed(t, genesis) && hash in t && n <= t[hash].number && n == below + 1
    ensures AncestorAt(t, genesis, hash, n) in t && t[AncestorAt(t, genesis, hash, n)].number == n
    ensures Fits(t, t[AncestorAt(t, genesis, hash, n)])
    ensures AncestorAt(t, genesis, hash, below) == t[AncestorAt(t, genesis, hash, n)].parent
  {
    AncestorOfAncestor(t, genesis, hash, n, below);
    LinkedUpIs(t, genesis, AncestorAt(t, genesis, hash, n));
  }

  lemma GenesisIs(t: Tree, genesis: Hash)
    requires Closed(t, genesis)
    ensures genesis in t && t[genesis].number == 0
  {
  }

  lemma HeadMarked(t: Tree, genesis: Hash, canon: map<nat, Hash>, head: Hash)
    requires Closed(t, genesis) && Canonical(t, genesis, canon, head)
    ensures t[head].number in canon && canon[t[head].number] == head
  {
    AncestorSelf(t, genesis, head);
  }

  lemma AncestorSelf(t: Tree, genesis: Hash, hash: Hash)
    requires Closed(t, genesis) && hash in t
    ensures AncestorAt(t, genesis, hash, t[hash].number) == hash
  {
  }

  /** Every chain starts at the canonical genesis. */
  lemma CanonicalZero(t: Tree, genesis: Hash, canon: map<nat, Hash>, head: Hash, h: Hash)
    requires Closed(t, genesis) && Canonical(t, genesis, canon, head) && h in t
    ensures t[h].number == 0 ==> 0 in canon && canon[0] == h
  {
    LinkedUpIs(t, genesis, h);
    AncestorZero(t, genesis, head);
  }

  /** Marks the chain of `hash`, downwards, until it meets the markers of `canon`. */
  method MarkDown(t: Tree, ghost genesis: Hash, ghost head: Hash, canon: map<nat, Hash>, hash: Hash, number: nat,
                  marks: map<nat, Hash>) returns (marks': map<nat, Hash>)
    requires Closed(t, genesis) && Canonical(t, genesis, canon, head)
    requires hash in t && t[hash].number == number
    requires forall n: nat :: n <= number ==> (n in marks <==> n in canon) && (n in canon ==> marks[n] == canon[n])
    ensures Spells(t, genesis, hash, marks', 0, number + 1)
    ensures SameOutside(marks, marks', 0, number + 1)
  {
    hide Closed, Canonical, AncestorAt;
    var h, n := hash, number;
    marks' := marks;
    AncestorSelf(t, genesis, hash);
    while !(n in canon && canon[n] == h)
      invariant h in t && t[h].number == n && n <= number && h == AncestorAt(t, genesis, hash, n)
      invariant Spells(t, genesis, hash, marks', n + 1, number + 1)
      invariant SameOutside(marks, marks', n + 1, number + 1)
      decreases n
    {
      CanonicalZero(t, genesis, canon, head, h);
      ghost var below: nat := n - 1;
      AncestorStep(t, genesis, hash, n, below);
      marks' := marks'[n := h];
      h, n := t[h].parent, n - 1;
    }
    forall m: nat | m <= n
      ensures m in canon && canon[m] == AncestorAt(t, genesis, hash, m)
    {
      CommonBelow(t, genesis, canon, head, hash, n, m);
    }
  }

  /** Marks the headers of the batch from `low` on. */
  method MarkBatch(hs: seq<Header>, low: nat, high: nat, marks: map<nat, Hash>) returns (marks': map<nat, Hash>)
    requires Linked(hs) && low <= high <= |hs| && hs != []
    ensures SameOutside(marks, marks', hs[0].number + low, hs[0].number + high)
    ensures forall i :: low <= i < high ==> Marks(marks', hs[i])
  {
    marks' := marks;
    for i := low to high
      invariant SameOutside(marks, marks', hs[0].number + low, hs[0].number + i)
      invariant forall j :: low <= j < i ==> Marks(marks', hs[j])
    {
      NumberAt(hs, i);
      forall j | low <= j < i
        ensures hs[j].number != hs[i].number
      {
        NumberAt(hs, j);
      }
      marks' := marks'[hs[i].number := hs[i].hash];
    }
  }
}

/** The database of headers, total difficulties and canonical markers, and the current head header. */
module HeaderChains {
  import opened Transactions
  import opened BlockTree
  import opened HeaderSpec

  datatype WriteStatus = NonStat | CanonStat | SideStat
  datatype HeaderError = UnknownAncestor | Aborted
  datatype WriteResult = WriteResult(status: WriteStatus, ignored: nat, imported: nat, last: Option<Header>)

  class HeaderChain {
    const genesis: Hash
    ghost const origin: Hash -> Header
    var headers: Tree
    var td: map<Hash, nat>
    var canon: map<nat, Hash>
    var current: Header

    /** The stored headers are linked down to the genesis, and every total difficulty is the sum down its chain. */
    ghost predicate Stored()
      reads this
    {
      && Closed(headers, genesis) && AllGenuine(origin, headers) && Weighed(headers, genesis, td)
      && td.Keys == headers.Keys && current.hash in headers && headers[current.hash] == current
    }

    /** The markers spell the chain of the current header, with nothing above it. */
    ghost predicate Consistent()
      requires Stored()
      reads this
    {
      Canonical(headers, genesis, canon, current.hash)
    }

    constructor (genesis: Header, ghost origin: Hash -> Header)
      requires genesis.number == 0 && Genuine(origin, genesis)
      ensures this.genesis == genesis.hash && this.origin == origin
      ensures Stored() && Consistent() && current == genesis
      ensures headers == map[genesis.hash := genesis] && td == map[genesis.hash := genesis.difficulty]
    {
      this.genesis := genesis.hash;
      this.origin := origin;
      headers := map[genesis.hash := genesis];
      td := map[genesis.hash := genesis.difficulty];
      canon := map[0 := genesis.hash];
      current := genesis;
    }

    /** Stores the headers that are not known yet, with their total difficulties, in one batch. */
    method StoreBatch(hs: seq<Header>, ptd: nat) returns (k: nat, newTd: nat)
      requires Stored() && Validated(origin, hs) && hs != [] && hs[0].number > 0
      requires Fits(headers, hs[0]) && ptd == td[hs[0].parent]
      modifies this`headers, this`td
      ensures Stored() && FirstNew(old(headers), hs, k) && Gained(old(headers), hs, headers)
      ensures SameWeights(old(td), td) && newTd == td[hs[|hs| - 1].hash]
    {
      hide Closed, Weighed, AllGenuine, Batched, Validated, Gained, SameWeights;
      var newHeaders: Tree, newTds: map<Hash, nat> := headers, td;
      var parentKnown := true;
      newTd := ptd;
      k := 0;
      BatchStarts(headers, td, genesis, origin, hs);
      for i := 0 to |hs|
        modifies {}
        invariant k <= i && (parentKnown <==> k == i)
        invariant Batched(headers, td, genesis, origin, hs, i, k, newHeaders, newTds, newTd)
      {
        var header := hs[i];
        var hash := if i < |hs| - 1 then hs[i + 1].parent else header.hash;
        BatchRead(headers, origin, hs, i);
        ghost var next: nat := i + 1;
        var alreadyKnown := parentKnown && HasHeader(hash, header.number);
        if alreadyKnown {
          KnownStep(headers, td, genesis, origin, hs, i, next, newHeaders, newTds, newTd);
          k := k + 1;
        } else {
          NewHash(headers, td, genesis, origin, hs, i, k, newHeaders, newTds, newTd);
          NewStep(headers, td, genesis, origin, hs, i, next, k, newHeaders, newTds, newTd);
          newHeaders := newHeaders[hash := header];
          newTds := newTds[hash := newTd + header.difficulty];
        }
        newTd := newTd + header.difficulty;
        parentKnown := alreadyKnown;
      }
      BatchEnds(headers, td, genesis, origin, hs, k, newHeaders, newTds, newTd);
      headers, td := newHeaders, newTds;
    }

    predicate HasHeader(hash: Hash, number: nat)
      reads this
    {
      hash in headers && headers[hash].number == number
    }

    /** Rewrites the markers for a heavier batch, in one batch of marker writes, and moves the head. */
    method Adopt(hs: seq<Header>, k: nat)
      requires Stored() && Consistent() && Linked(hs) && Holds(headers, hs)
      requires hs != [] && hs[0].number > 0 && k <= |hs|
      modifies this`canon, this`current
      ensures Stored() && current == hs[|hs| - 1]
      ensures Consistent() <==> Adoptable(old(canon), old(current.hash), hs, k)
    {
      hide Closed, Weighed, AllGenuine, AncestorAt, MarkAt, MarkedTo, SameOutside, Spells, Remarked, Adoptable;
      var first, last := hs[0], hs[|hs| - 1];
      LinkedUpIs(headers, genesis, first.hash);
      AdoptableIs(headers, genesis, canon, current.hash, hs, k);
      var marks;
      if first.parent == current.hash {
        marks := MarkBatch(hs, k, |hs|, canon);
        PiledUp(headers, genesis, canon, current.hash, hs, k, marks);
      } else {
        marks := Reroute(hs, k);
      }
      RemarkedIs(headers, genesis, hs, FirstMarked(current.hash, hs, k), canon, marks);
      canon := marks;
      current := last;
    }

    method Reroute(hs: seq<Header>, k: nat) returns (marks: map<nat, Hash>)
      requires Stored() && Consistent() && Linked(hs) && Holds(headers, hs)
      requires hs != [] && hs[0].number > 0 && k <= |hs| && Fits(headers, hs[0])
      ensures Remarked(headers, genesis, hs, if k < |hs| then 0 else |hs|, canon, marks)
    {
      hide Closed, Weighed, AllGenuine, AncestorAt, Spells, Remarked;
      var first, last := hs[0], hs[|hs| - 1];
      NumberAt(hs, |hs| - 1);
      var cleared := ClearAbove(canon, current.number, last.number);
      var below := MarkDown(headers, genesis, current.hash, canon, first.parent, first.number - 1, cleared);
      var firstInserted := if k < |hs| then k else 0;
      marks := MarkBatch(hs, 0, firstInserted, below);
      ghost var known := marks;
      marks := MarkBatch(hs, k, |hs|, marks);
      Joined(hs, k, below, known, marks);
      Rewritten(headers, genesis, canon, hs, if k < |hs| then 0 else |hs|, cleared, below, marks);
    }

    /** The known and the new part of the batch, marked one after the other. */
    static lemma Joined(hs: seq<Header>, k: nat, below: map<nat, Hash>, known: map<nat, Hash>, marks: map<nat, Hash>)
      requires Linked(hs) && hs != [] && k <= |hs|
      requires SameOutside(below, known, hs[0].number, hs[0].number + if k < |hs| then k else 0)
      requires k < |hs| ==> forall i :: 0 <= i < k ==> Marks(known, hs[i])
      requires SameOutside(known, marks, hs[0].number + k, hs[0].number + |hs|)
      requires forall i :: k <= i < |hs| ==> Marks(marks, hs[i])
      ensures k < |hs| ==> SameOutside(below, marks, hs[0].number, hs[0].number + |hs|)
      ensures k < |hs| ==> forall i :: 0 <= i < |hs| ==> Marks(marks, hs[i])
      ensures k == |hs| ==> SameOutside(below, marks, hs[0].number + |hs|, hs[0].number + |hs|)
    {
      if k < |hs| {
        forall i | 0 <= i < k
          ensures Marks(marks, hs[i])
        {
          NumberAt(hs, i);
        }
      }
    }

    /** The head moves for more difficulty, or for as much at a lower height, or on a coin toss at the same height. */
    static predicate Chosen(newTd: nat, localTd: nat, last: nat, head: nat, coin: bool) {
      newTd > localTd || (newTd == localTd && (last < head || (last == head && coin)))
    }

    /**
      * Stores a validated batch of headers and, when it is the better chain, makes it canonical.
      * The result's `ignored` headers were known before; they come first.
      */
    method WriteHeaders(hs: seq<Header>, interrupted: bool, coin: bool)
      returns (res: WriteResult, err: Option<HeaderError>)
      requires Stored() && Consistent() && Validated(origin, hs)
      modifies this
      ensures Stored()
      ensures err == if hs == [] then None
                     else if hs[0].number == 0 || !Fits(old(headers), hs[0]) then Some(UnknownAncestor)
                     else if interrupted then Some(Aborted) else None
      ensures err.Some? || hs == [] ==>
                Consistent() && unchanged(this) && res == WriteResult(NonStat, 0, 0, None)
      ensures err.None? && hs != [] ==>
                && Gained(old(headers), hs, headers) && SameWeights(old(td), td)
                && FirstNew(old(headers), hs, res.ignored)
                && res.imported == |hs| - res.ignored && res.last == Some(hs[|hs| - 1])
      ensures err.None? && hs != [] ==>
                var reorg := Chosen(td[hs[|hs| - 1].hash], old(td[current.hash]), hs[|hs| - 1].number,
                                    old(current.number), coin);
                && current == (if reorg then hs[|hs| - 1] else old(current)) && (!reorg ==> canon == old(canon))
                && td[current.hash] >= old(td[current.hash])
                && res.status == (if res.imported == 0 then NonStat else if reorg then CanonStat else SideStat)
                && (Consistent() <==> !reorg || Adoptable(old(canon), old(current.hash), hs, res.ignored))
      ensures old(Heaviest(td, current.hash)) ==> Heaviest(td, current.hash)
      ensures (&& old(Heaviest(td, current.hash)) && res.imported > 0
               && forall i :: 0 <= i < |hs| ==> hs[i].difficulty > 0) ==>
                Consistent()
    {
      hide Closed, Weighed, AllGenuine, Heaviest, Canonical, Adoptable, Extends, Holds, Linked;
      res, err := WriteResult(NonStat, 0, 0, None), None;
      if hs == [] {
        return;
      }
      var parent := hs[0].parent;
      if hs[0].number == 0 || parent !in headers || headers[parent].number + 1 != hs[0].number {
        return res, Some(UnknownAncestor);
      }
      if interrupted {
        return res, Some(Aborted);
      }
      var last := hs[|hs| - 1];
      var localTd := td[current.hash];
      var k, newTd := StoreBatch(hs, td[parent]);
      CanonicalGrows(old(headers), headers, genesis, canon, current.hash);
      var reorg := Chosen(newTd, localTd, last.number, current.number, coin);
      if reorg {
        Adopt(hs, k);
      }
      var status := if k == |hs| then NonStat else if reorg then CanonStat else SideStat;
      res := WriteResult(status, k, |hs| - k, Some(last));
      if old(Heaviest(td, current.hash)) {
        HeaviestKept(old(headers), headers, genesis, old(td), td, hs, old(current.hash), current.hash);
        if k < |hs| && forall i :: 0 <= i < |hs| ==> hs[i].difficulty > 0 {
          BatchRead(old(headers), origin, hs, 0);
          AdoptableIfNew(old(headers), genesis, old(td), old(canon), old(current.hash), hs, k);
        }
      }
    }

    /**
      * Any run of uninterrupted imports from a chain whose head is the heaviest header, up to the first
      * batch that brings nothing new, keeps the markers on the chain of the head and the head the heaviest.
      */
    method Import(batches: seq<seq<Header>>, coins: nat -> bool) returns (count: nat)
      requires Stored() && Consistent() && Heaviest(td, current.hash)
      requires forall i :: 0 <= i < |batches| ==> Validated(origin, batches[i]) && Positive(batches[i])
      modifies this
      ensures Stored() && Consistent() && Heaviest(td, current.hash)
      ensures count <= |batches| && (count < |batches| ==> AllKnown(batches[count]))
      ensures td[current.hash] >= old(td[current.hash])
    {
      hide Closed, Weighed, AllGenuine, Heaviest, Canonical, Adoptable, Extends, SameWeights, Validated;
      for i := 0 to |batches|
        invariant Stored() && Consistent() && Heaviest(td, current.hash) && td[current.hash] >= old(td[current.hash])
      {
        var hs := batches[i];
        if AllKnown(hs) {
          return i;
        }
        var res, err := WriteHeaders(hs, false, coins(i));
      }
      return |batches|;
    }

    static ghost predicate Positive(hs: seq<Header>) {
      forall i :: 0 <= i < |hs| ==> hs[i].difficulty > 0
    }

    /** A batch that brings no new header. */
    predicate AllKnown(hs: seq<Header>)
      reads this
    {
      hs != [] && forall i :: 0 <= i < |hs| ==> hs[i].hash in headers
    }

    predicate OnCanon(hash: Hash, number: nat)
      reads this
    {
      number in canon && canon[number] == hash
    }

    function ReadCanonicalHash(number: nat): Hash
      reads this
    {
      if number in canon then canon[number] else EMPTY_HASH
    }

    /**
      * The `ancestor`-th ancestor of a block, read off the markers once the walk is on the canonical
      * chain. At most `budget` steps are walked off that chain; the empty hash says there were more.
      */
    method GetAncestor(hash: Hash, number: nat, ancestor: nat, budget: nat) returns (h: Hash, n: nat, left: nat)
      requires Stored() && Consistent()
      ensures h != EMPTY_HASH ==> ancestor <= number && n == number - ancestor
      ensures hash != EMPTY_HASH && h != EMPTY_HASH && ancestor > 0 ==>
                HasHeader(hash, number) && h == AncestorAt(headers, genesis, hash, n)
      ensures ancestor == 0 ==> h == hash
      ensures HasHeader(hash, number) && ancestor <= number ==>
                (h == EMPTY_HASH <==>
                  && ancestor > 1 && budget < ancestor
                  && forall m :: number - budget <= m <= number ==> !OnCanon(AncestorAt(headers, genesis, hash, m), m))
      ensures left <= budget && budget - left <= ancestor && (ancestor <= 1 ==> left == budget)
      ensures HasHeader(hash, number) && 1 < ancestor <= number ==>
                && (forall m :: number - (budget - left) < m <= number ==>
                      !OnCanon(AncestorAt(headers, genesis, hash, m), m))
                && (h != EMPTY_HASH && budget - left < ancestor ==>
                      OnCanon(AncestorAt(headers, genesis, hash, number - (budget - left)), number - (budget - left)))
      ensures hash == EMPTY_HASH && number !in canon && 1 < ancestor <= number ==>
                h == ReadCanonicalHash(number - ancestor)
    {
      hide Closed, Weighed, AllGenuine, Canonical, AncestorAt;
      left := budget;
      if ancestor > number {
        return EMPTY_HASH, 0, left;
      }
      if ancestor == 1 {
        if HasHeader(hash, number) {
          ParentIs(hash, number, number - 1);
          return headers[hash].parent, number - 1, left;
        }
        return EMPTY_HASH, 0, left;
      }
      var rest: nat := ancestor;
      h, n := hash, number;
      Known(hash, number);
      while rest != 0
        invariant rest <= ancestor && n == number - (ancestor - rest) && left == budget - (ancestor - rest)
        invariant rest < ancestor ==> HasHeader(hash, number)
        invariant HasHeader(hash, number) ==> h == AncestorAt(headers, genesis, hash, n)
        invariant (h == EMPTY_HASH ==> hash == EMPTY_HASH) && (rest == ancestor ==> h == hash)
        invariant HasHeader(hash, number) ==>
                    forall m :: n < m <= number ==> !OnCanon(AncestorAt(headers, genesis, hash, m), m)
        invariant hash == EMPTY_HASH && number !in canon ==> rest == ancestor
      {
        if ReadCanonicalHash(n) == h {
          var target := n - rest;
          if hash != EMPTY_HASH {
            ShortCut(hash, number, h, n, target);
          }
          return ReadCanonicalHash(target), target, left;
        }
        if left == 0 {
          return EMPTY_HASH, 0, left;
        }
        left := left - 1;
        rest := rest - 1;
        Walked(hash, number, h, n);
        if !HasHeader(h, n) {
          return EMPTY_HASH, 0, left;
        }
        ParentIs(h, n, n - 1);
        Walk(hash, number, n, n - 1);
        h, n := headers[h].parent, n - 1;
      }
    }

    lemma Known(hash: Hash, number: nat)
      requires Stored()
      ensures HasHeader(hash, number) ==> hash == AncestorAt(headers, genesis, hash, number) != EMPTY_HASH
    {
    }

    lemma ParentIs(hash: Hash, number: nat, below: nat)
      requires Stored() && HasHeader(hash, number) && below + 1 == number
      ensures headers[hash].parent == AncestorAt(headers, genesis, hash, below) && headers[hash].parent != EMPTY_HASH
    {
      hide Closed;
      AncestorSelf(headers, genesis, hash);
      AncestorStep(headers, genesis, hash, number, below);
    }

    lemma Walk(hash: Hash, number: nat, n: nat, below: nat)
      requires Stored() && HasHeader(hash, number) && n <= number && below + 1 == n
      ensures AncestorAt(headers, genesis, hash, n) in headers
      ensures AncestorAt(headers, genesis, hash, below) == headers[AncestorAt(headers, genesis, hash, n)].parent
    {
      AncestorStep(headers, genesis, hash, n, below);
    }

    lemma Walked(hash: Hash, number: nat, h: Hash, n: nat)
      requires Stored() && n <= number && (HasHeader(hash, number) ==> h == AncestorAt(headers, genesis, hash, n))
      requires !HasHeader(hash, number) ==> h == hash && n == number
      ensures HasHeader(h, n) <==> HasHeader(hash, number)
    {
      if HasHeader(hash, number) {
        AncestorIs(headers, genesis, hash, n);
      }
    }

    /** On the canonical chain, the markers say the rest of the walk. */
    lemma ShortCut(hash: Hash, number: nat, h: Hash, n: nat, target: nat)
      requires Stored() && Consistent() && target <= n <= number && ReadCanonicalHash(n) == h != EMPTY_HASH
      requires HasHeader(hash, number) ==> h == AncestorAt(headers, genesis, hash, n)
      requires !HasHeader(hash, number) ==> h == hash && n == number
      ensures HasHeader(hash, number) && OnCanon(h, n)
      ensures ReadCanonicalHash(target) == AncestorAt(headers, genesis, hash, target) != EMPTY_HASH
    {
      hide Closed;
      AncestorIs(headers, genesis, current.hash, n);
      if !HasHeader(hash, number) {
        AncestorSelf(headers, genesis, hash);
      }
      CommonBelow(headers, genesis, canon, current.hash, hash, n, target);
      AncestorIs(headers, genesis, hash, target);
    }

    /** A new header straight on top of the genesis. */
    method WriteChild(h: Header, coin: bool)
      requires Stored() && Consistent() && Genuine(origin, h) && h.number == 1 && h.parent == genesis
      modifies this
      ensures Stored() && headers == old(headers)[h.hash := h] && SameWeights(old(td), td)
      ensures td[h.hash] == td[genesis] + h.difficulty
      ensures Chosen(td[h.hash], old(td[current.hash]), 1, old(current.number), coin) ==>
                && current == h
                && (Consistent() <==> if genesis == old(current.hash) then h.hash !in old(headers)
                                      else h.hash !in old(headers) || Marks(old(canon), h))
      ensures !Chosen(td[h.hash], old(td[current.hash]), 1, old(current.number), coin) ==>
                current == old(current) && canon == old(canon) && Consistent()
    {
      hide Closed, Weighed, AllGenuine, Heaviest, AncestorAt, Canonical;
      assert Fits(headers, h) by {
        GenesisIs(headers, genesis);
      }
      var hs := [h];
      var res, err := WriteHeaders(hs, false, coin);
      assert hs[0].hash in headers && headers[h.hash] == h;
      WeightOf(headers, genesis, td, h.hash);
    }

    /**
      * Two blocks tie on top of the genesis: the second is stored aside, and adopted when it is sent
      * again. It brings no new header then, so its marker is not written.
      */
    static method KnownTie() returns (hc: HeaderChain)
      ensures fresh(hc) && hc.Stored() && !hc.Consistent()
    {
      hide Closed, Weighed, AllGenuine, Canonical;
      var g, a, b := Header(1, 0, 0, 1), Header(2, 1, 1, 1), Header(3, 1, 1, 1);
      hc := new HeaderChain(g, x => if x == 1 then g else if x == 2 then a else b);
      hc.WriteChild(a, false);
      assert Marks(hc.canon, a) by {
        HeadMarked(hc.headers, 1, hc.canon, 2);
      }
      hc.WriteChild(b, false);
      hc.WriteChild(b, true);
    }
  }
}
