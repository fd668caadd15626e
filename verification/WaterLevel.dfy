/** The water-filling rule by which the pool shares out its pending slots. */
module WaterLevel {
  import opened Transactions
  import opened Sums
  import opened TxItems
  import opened PoolSpec

  type Lengths = map<Address, nat>

  function LengthsOf(lists: Lists): Lengths {
    map a | a in lists :: |lists[a].items|
  }

  /** Everyone but the locals cut down to `l`. */
  ghost function Level(lens: Lengths, locals: set<Address>, l: nat): Lengths {
    map a | a in lens :: if a in locals || lens[a] <= l then lens[a] else l
  }

  /** `l` is the water level: no lower than `slots`, low enough for the total to meet the limit unless
      it is `slots`, and not lower than it had to be. */
  ghost predicate Filled(lens: Lengths, locals: set<Address>, slots: nat, limit: nat, l: nat) {
    && slots <= l
    && (Sum(Level(lens, locals, l)) <= limit || l == slots)
    && (Level(lens, locals, l) == lens || Sum(Level(lens, locals, l + 1)) > limit)
  }

  lemma LevelRises(lens: Lengths, locals: set<Address>, l: nat, l': nat)
    requires l <= l'
    ensures Sum(Level(lens, locals, l)) <= Sum(Level(lens, locals, l'))
    ensures Level(lens, locals, l) == lens ==> Level(lens, locals, l') == lens
  {
    SumLeq(Level(lens, locals, l), Level(lens, locals, l'));
    if Level(lens, locals, l) == lens {
      forall a | a in lens
        ensures a in locals || lens[a] <= l'
      {
        assert Level(lens, locals, l)[a] == lens[a];
      }
    }
  }

  /** The water level determines what every account keeps. */
  lemma FilledOnce(lens: Lengths, locals: set<Address>, slots: nat, limit: nat, l: nat, l': nat)
    requires Filled(lens, locals, slots, limit, l) && Filled(lens, locals, slots, limit, l')
    ensures Level(lens, locals, l) == Level(lens, locals, l')
  {
    hide Sum, Level;
    if l < l' {
      LevelRises(lens, locals, l, l');
      LevelRises(lens, locals, l + 1, l');
    } else if l' < l {
      LevelRises(lens, locals, l', l);
      LevelRises(lens, locals, l' + 1, l);
    }
  }

  ghost function Lowered(lens: Lengths, offenders: seq<Address>): Lengths {
    map a | a in lens :: if a in offenders && lens[a] > 0 then lens[a] - 1 else lens[a]
  }

  lemma LoweredNone(lens: Lengths)
    ensures Lowered(lens, []) == lens
  {
  }

  /** The offenders are different accounts, each of length `l`. */
  ghost predicate AllAt(lens: Lengths, offenders: seq<Address>, l: nat) {
    Distinct(offenders) && forall i :: 0 <= i < |offenders| ==> offenders[i] in lens && lens[offenders[i]] == l
  }

  lemma LoweredMore(lens: Lengths, offenders: seq<Address>, l: nat, i: nat)
    requires i < |offenders| && AllAt(lens, offenders, l) && l > 0
    ensures offenders[i] in Lowered(lens, offenders[..i])
    ensures Lowered(lens, offenders[..i])[offenders[i]] == l
    ensures Lowered(lens, offenders[..i + 1]) == Lowered(lens, offenders[..i])[offenders[i] := l - 1]
  {
    assert offenders[..i + 1] == offenders[..i] + [offenders[i]];
    assert offenders[i] !in offenders[..i];
  }

  /** The offenders are exactly the accounts that stand at the level. */
  ghost predicate AtTheTop(lens: Lengths, locals: set<Address>, l: nat, offenders: seq<Address>) {
    && Distinct(offenders)
    && forall a :: a in offenders <==> a in lens && a !in locals && lens[a] >= l
  }

  /** Cutting one from each of them lowers the level by one. */
  lemma RoundLowersLevel(lens: Lengths, locals: set<Address>, l: nat, offenders: seq<Address>)
    requires 0 < l && AtTheTop(lens, locals, l, offenders)
    ensures Lowered(Level(lens, locals, l), offenders) == Level(lens, locals, l - 1)
  {
  }

  /** One account's list changed: one length changed. */
  lemma LengthsBut(x: Lists, y: Lists, a: Address)
    requires Tidy(x, true) && Tidy(y, true) && SameBut(a, x, y) && ItemsOf(x, a) != map[] && ItemsOf(y, a) != map[]
    ensures LengthsOf(y) == LengthsOf(x)[a := |ItemsOf(y, a)|]
    ensures a in LengthsOf(x) && LengthsOf(x)[a] == |ItemsOf(x, a)|
  {
    forall b | b != a ensures (b in x <==> b in y) && (b in x ==> x[b].items == y[b].items) {
      assert ItemsOf(y, b) == ItemsOf(x, b);
    }
  }

  /** Capping a list to one less drops its highest nonce. */
  lemma CapHighest(m: Items)
    requires |m| >= 2
    ensures var top := MaxKey(m);
            && Lowest(m, |m| - 1) == Below(m, top) != map[] && Excess(m, |m| - 1) == map[top := m[top]]
            && |Below(m, top)| == |m| - 1
  {
    var top := MaxKey(m);
    Fewer(m, top);
    var rest := m - {top};
    assert Lowest(m, |m| - 1) == rest;
    assert rest == Below(m, top);
    assert m - rest.Keys == map[top := m[top]];
  }

  lemma {:induction false} LowestTwice(m: Items, k: nat, j: nat)
    requires j <= k
    ensures Lowest(Lowest(m, k), j) == Lowest(m, j)
    decreases |m|
  {
    if |m| > k {
      Fewer(m, MaxKey(m));
      LowestTwice(m - {MaxKey(m)}, k, j);
    }
  }

  /** Every list of `y` is the low end of the list in `x`. */
  ghost predicate Trimmed(x: Lists, y: Lists) {
    forall a {:trigger ItemsOf(y, a)} ::
      |ItemsOf(y, a)| <= |ItemsOf(x, a)| && ItemsOf(y, a) == Lowest(ItemsOf(x, a), |ItemsOf(y, a)|)
  }

  lemma TrimmedRefl(x: Lists)
    ensures Trimmed(x, x)
  {
  }

  lemma TrimmedTrans(x: Lists, y: Lists, z: Lists)
    requires Trimmed(x, y) && Trimmed(y, z)
    ensures Trimmed(x, z)
  {
    forall a ensures |ItemsOf(z, a)| <= |ItemsOf(x, a)| && ItemsOf(z, a) == Lowest(ItemsOf(x, a), |ItemsOf(z, a)|) {
      assert |ItemsOf(y, a)| <= |ItemsOf(x, a)|;
      LowestTwice(ItemsOf(x, a), |ItemsOf(y, a)|, |ItemsOf(z, a)|);
    }
  }

  lemma TrimmedOne(x: Lists, y: Lists, a: Address)
    requires SameBut(a, x, y) && |ItemsOf(x, a)| >= 2 && ItemsOf(y, a) == Lowest(ItemsOf(x, a), |ItemsOf(x, a)| - 1)
    requires |ItemsOf(y, a)| == |ItemsOf(x, a)| - 1
    ensures Trimmed(x, y)
  {
  }

  /** The group stands at or above `l` and every other account that may be cut at or below `floor`. */
  ghost predicate GroupAbove(lens: Lengths, locals: set<Address>, group: seq<Address>, floor: nat, l: nat) {
    && Distinct(group)
    && (forall a :: a in group ==> a in lens && a !in locals && lens[a] >= l)
    && (forall a :: a in lens && a !in locals && a !in group ==> lens[a] <= floor)
  }

  lemma GroupIsTop(lens: Lengths, locals: set<Address>, group: seq<Address>, floor: nat, l: nat, next: nat)
    requires GroupAbove(lens, locals, group, floor, l) && floor < l && next + 1 == l
    ensures AtTheTop(lens, locals, l, group) && AllAt(Level(lens, locals, l), group, l)
    ensures Lowered(Level(lens, locals, l), group) == Level(lens, locals, next)
    ensures GroupAbove(lens, locals, group, floor, next)
  {
    RoundLowersLevel(lens, locals, l, group);
  }

  lemma GroupLength(lens: Lengths, locals: set<Address>, group: seq<Address>, floor: nat, l: nat)
    requires GroupAbove(lens, locals, group, floor, l) && group != []
    ensures var a := group[|group| - 1]; a in Level(lens, locals, l) && Level(lens, locals, l)[a] == l
  {
    assert group[|group| - 1] in group;
  }

  /** Going down from `l` to `l'` did not go lower than it had to. */
  ghost predicate Justified(lens: Lengths, locals: set<Address>, limit: nat, l: nat, l': nat) {
    l' == l || Sum(Level(lens, locals, l' + 1)) > limit
  }

  lemma JustifiedStart(lens: Lengths, locals: set<Address>, limit: nat, l: nat)
    ensures Justified(lens, locals, limit, l, l)
  {
  }

  lemma JustifiedStep(lens: Lengths, locals: set<Address>, limit: nat, l: nat, l': nat, next: nat)
    requires Sum(Level(lens, locals, l')) > limit && next + 1 == l'
    ensures Justified(lens, locals, limit, l, next)
  {
  }

  /** The accounts that may be cut. */
  function Spammers(lens: Lengths, locals: set<Address>, slots: nat): set<Address> {
    set a | a in lens && a !in locals && lens[a] > slots
  }

  /** The state between two rounds of the outer loop. */
  ghost predicate Sharing(lens: Lengths, locals: set<Address>, slots: nat, limit: nat,
                          offenders: seq<Address>, spammers: set<Address>, l: nat, count: nat)
  {
    && slots <= l && Distinct(offenders)
    && (forall a :: a in Spammers(lens, locals, slots) <==> a in offenders || a in spammers)
    && (forall a :: a in offenders ==> a !in spammers)
    && (forall a :: a in spammers ==> lens[a] <= l)
    && (count > limit ==> forall a :: a in offenders ==> lens[a] >= l)
    && (offenders == [] ==> Level(lens, locals, l) == lens)
    && (Level(lens, locals, l) == lens || Sum(Level(lens, locals, l + 1)) > limit)
  }

  lemma {:induction false} BelowSum(lens: Lengths, a: Address)
    requires a in lens
    ensures lens[a] <= Sum(lens)
  {
    SumSplit(lens, a);
  }

  lemma SharingStarts(lens: Lengths, locals: set<Address>, slots: nat, limit: nat, l: nat, count: nat)
    requires l == slots + Sum(lens)
    ensures Sharing(lens, locals, slots, limit, [], Spammers(lens, locals, slots), l, count)
    ensures Level(lens, locals, l) == lens
  {
    forall a | a in lens ensures lens[a] <= l { BelowSum(lens, a); }
  }

  /** The next offender is the longest list left. */
  ghost predicate Longest(lens: Lengths, spammers: set<Address>, o: Address) {
    o in spammers && o in lens && forall a :: a in spammers ==> a in lens && lens[a] <= lens[o]
  }

  lemma FirstOffender(lens: Lengths, locals: set<Address>, slots: nat, limit: nat, spammers: set<Address>, l: nat,
                      count: nat, o: Address)
    requires Sharing(lens, locals, slots, limit, [], spammers, l, count) && Longest(lens, spammers, o)
    ensures Level(lens, locals, lens[o]) == lens == Level(lens, locals, l)
    ensures Sharing(lens, locals, slots, limit, [o], spammers - {o}, lens[o], count)
  {
    forall a | a in lens && a !in locals ensures lens[a] <= lens[o] {
      assert lens[a] > slots ==> a in Spammers(lens, locals, slots);
    }
  }

  lemma NextOffender(lens: Lengths, locals: set<Address>, slots: nat, limit: nat, offenders: seq<Address>,
                     spammers: set<Address>, l: nat, count: nat, o: Address)
    requires Sharing(lens, locals, slots, limit, offenders, spammers, l, count) && Longest(lens, spammers, o)
    requires count > limit
    ensures GroupAbove(lens, locals, offenders, lens[o], l) && slots <= lens[o] <= l
    ensures o in Level(lens, locals, l) && Level(lens, locals, l)[o] == lens[o]
  {
    assert o in Spammers(lens, locals, slots);
    forall a | a in lens && a !in locals && a !in offenders ensures lens[a] <= lens[o] {
      assert lens[a] > slots ==> a in Spammers(lens, locals, slots);
    }
    forall a | a in offenders ensures a in lens && a !in locals { assert a in Spammers(lens, locals, slots); }
  }

  lemma Equalized(lens: Lengths, locals: set<Address>, slots: nat, limit: nat, offenders: seq<Address>,
                  spammers: set<Address>, l: nat, count: nat, o: Address, l': nat, count': nat)
    requires Sharing(lens, locals, slots, limit, offenders, spammers, l, count) && Longest(lens, spammers, o)
    requires count > limit && lens[o] <= l' <= l && (count' <= limit || l' == lens[o])
    requires Justified(lens, locals, limit, l, l')
    requires slots <= lens[o] && offenders != []
    ensures Sharing(lens, locals, slots, limit, offenders + [o], spammers - {o}, l', count')
  {
    hide Level, Sum, Spammers, Distinct;
    DistinctMore(offenders, o);
  }

  lemma DistinctMore(offenders: seq<Address>, o: Address)
    requires Distinct(offenders) && o !in offenders
    ensures Distinct(offenders + [o]) && forall a :: a in offenders + [o] <==> a in offenders || a == o
  {
  }

  lemma AllOffenders(lens: Lengths, locals: set<Address>, slots: nat, limit: nat, offenders: seq<Address>, l: nat,
                     count: nat)
    requires Sharing(lens, locals, slots, limit, offenders, {}, l, count) && count > limit
    ensures GroupAbove(lens, locals, offenders, slots, l)
    ensures offenders == [] ==>
              Level(lens, locals, slots) == lens == Level(lens, locals, l) && Filled(lens, locals, slots, limit, slots)
  {
    forall a | a in lens && a !in locals && a !in offenders ensures lens[a] <= slots {
      assert lens[a] > slots ==> a in Spammers(lens, locals, slots);
    }
    forall a | a in offenders ensures a in lens && a !in locals { assert a in Spammers(lens, locals, slots); }
  }

  /** Takes the longest list off the priority queue. */
  method PopLongest(spammers: set<Address>, lens: Lengths) returns (o: Address)
    requires spammers != {} && spammers <= lens.Keys
    ensures Longest(lens, spammers, o)
  {
    o :| o in spammers;
    var left := spammers;
    while left != {}
      invariant left <= spammers && o in spammers
      invariant forall a :: a in spammers && a !in left ==> lens[a] <= lens[o]
      decreases |left|
    {
      var a :| a in left;
      if lens[a] > lens[o] {
        o := a;
      }
      left := left - {a};
    }
  }

  lemma Smaller(spammers: set<Address>, lens: Lengths, o: Address)
    requires Longest(lens, spammers, o)
    ensures |spammers - {o}| < |spammers| && o in lens
  {
  }

  /** Adds up the lengths of all lists. */
  method CountAll(lists: Lists) returns (count: nat)
    ensures count == Sum(LengthsOf(lists))
  {
    count := 0;
    var lens := LengthsOf(lists);
    var left := lens;
    while left != map[]
      invariant count + Sum(left) == Sum(lens)
      decreases |left|
    {
      var a :| a in left;
      SumSplit(left, a);
      assert (left - {a}).Keys == left.Keys - {a};
      count, left := count + left[a], left - {a};
    }
  }

  lemma Done(lens: Lengths, locals: set<Address>, slots: nat, limit: nat, offenders: seq<Address>,
             spammers: set<Address>, l: nat, count: nat)
    requires Sharing(lens, locals, slots, limit, offenders, spammers, l, count) && count <= limit
    requires count == Sum(Level(lens, locals, l))
    ensures Filled(lens, locals, slots, limit, l)
  {
  }

  lemma CutToLimit(lens: Lengths, locals: set<Address>, slots: nat, limit: nat, l: nat, l': nat, count': nat)
    requires Level(lens, locals, l) == lens || Sum(Level(lens, locals, l + 1)) > limit
    requires slots <= l' <= l && count' == Sum(Level(lens, locals, l')) && (count' <= limit || l' == slots)
    requires Justified(lens, locals, limit, l, l')
    ensures Filled(lens, locals, slots, limit, l')
  {
  }

  lemma SharingLevel(lens: Lengths, locals: set<Address>, slots: nat, limit: nat, offenders: seq<Address>,
                     spammers: set<Address>, l: nat, count: nat)
    requires Sharing(lens, locals, slots, limit, offenders, spammers, l, count)
    ensures slots <= l && (Level(lens, locals, l) == lens || Sum(Level(lens, locals, l + 1)) > limit)
    ensures spammers <= lens.Keys
  {
    forall a | a in spammers ensures a in lens { assert a in Spammers(lens, locals, slots); }
  }

  /** The lengths of the given accounts only. */
  ghost function Within(lens: Lengths, accounts: set<Address>): Lengths {
    map a | a in lens && a in accounts :: lens[a]
  }

  lemma WithinPart(lens: Lengths, accounts: set<Address>)
    ensures Sum(Within(lens, accounts)) <= Sum(lens)
    ensures lens.Keys <= accounts ==> Within(lens, accounts) == lens
  {
    var rest := map a | a in lens && a !in accounts :: lens[a];
    SumUnion(Within(lens, accounts), rest);
    assert Within(lens, accounts) + rest == lens;
  }

  /** When the given accounts make up the total, the others have nothing. */
  lemma AllWithin(lens: Lengths, accounts: set<Address>, a: Address)
    requires Sum(lens) == Sum(Within(lens, accounts)) && a in lens && a !in accounts
    ensures lens[a] == 0
  {
    var rest := map b | b in lens && b !in accounts :: lens[b];
    SumUnion(Within(lens, accounts), rest);
    assert Within(lens, accounts) + rest == lens;
    SumSplit(rest, a);
  }

  /** The total is within the limit, or every account that is not exempt is within its own. */
  ghost predicate Fair(lens: Lengths, locals: set<Address>, own: nat, limit: nat) {
    Sum(lens) <= limit || forall a :: a in lens && a !in locals ==> lens[a] <= own
  }

  lemma FilledIsFair(lens: Lengths, locals: set<Address>, slots: nat, limit: nat, l: nat)
    requires Filled(lens, locals, slots, limit, l)
    ensures Fair(Level(lens, locals, l), locals, slots, limit)
  {
  }

  lemma DrainedIsFair(x: Lists, y: Lists, locals: set<Address>, limit: nat)
    requires Tidy(x, false) && Tidy(y, false) && forall a :: a in locals ==> ItemsOf(y, a) == ItemsOf(x, a)
    requires Sum(LengthsOf(y)) <= limit || Sum(LengthsOf(y)) == Sum(Within(LengthsOf(x), locals))
    ensures Fair(LengthsOf(y), locals, 0, limit)
  {
    if Sum(LengthsOf(y)) > limit {
      assert Within(LengthsOf(x), locals) == Within(LengthsOf(y), locals) by {
        SameWithin(x, y, locals, false);
      }
      forall a | a in LengthsOf(y) && a !in locals
        ensures LengthsOf(y)[a] <= 0
      {
        AllWithin(LengthsOf(y), locals, a);
      }
    }
  }

  /** What one account's change of length does to the total. */
  lemma SumBut(x: Lists, y: Lists, a: Address, strict: bool)
    requires Tidy(x, strict) && Tidy(y, strict) && SameBut(a, x, y)
    ensures Sum(LengthsOf(y)) + |ItemsOf(x, a)| == Sum(LengthsOf(x)) + |ItemsOf(y, a)|
  {
    var lx, ly := LengthsOf(x), LengthsOf(y);
    OthersSame(x, y, a, strict);
    SumAt(x, a, strict);
    SumAt(y, a, strict);
  }

  lemma OthersSame(x: Lists, y: Lists, a: Address, strict: bool)
    requires Tidy(x, strict) && Tidy(y, strict) && SameBut(a, x, y)
    ensures LengthsOf(x) - {a} == LengthsOf(y) - {a}
  {
    forall b | b != a ensures (b in x <==> b in y) && (b in x ==> x[b].items == y[b].items) {
      assert ItemsOf(y, b) == ItemsOf(x, b);
    }
  }

  lemma SumAt(x: Lists, a: Address, strict: bool)
    requires Tidy(x, strict)
    ensures Sum(LengthsOf(x)) == |ItemsOf(x, a)| + Sum(LengthsOf(x) - {a})
  {
    if a in x {
      SumSplit(LengthsOf(x), a);
    } else {
      assert LengthsOf(x) - {a} == LengthsOf(x);
    }
  }

  lemma SameWithin(x: Lists, y: Lists, accounts: set<Address>, strict: bool)
    requires Tidy(x, strict) && Tidy(y, strict)
    requires forall a :: a in accounts ==> ItemsOf(y, a) == ItemsOf(x, a)
    ensures Within(LengthsOf(x), accounts) == Within(LengthsOf(y), accounts)
  {
    forall a | a in accounts ensures (a in x <==> a in y) && (a in x ==> |x[a].items| == |y[a].items|) {
      assert ItemsOf(y, a) == ItemsOf(x, a);
    }
  }

  lemma TrimmedBut(x: Lists, y: Lists, a: Address, k: nat)
    requires SameBut(a, x, y) && k <= |ItemsOf(x, a)| && ItemsOf(y, a) == Lowest(ItemsOf(x, a), k)
    ensures Trimmed(x, y) && |ItemsOf(y, a)| == k
  {
    var t := LowestIsCut(ItemsOf(x, a), k);
  }

  lemma LowestNone(m: Items)
    ensures Lowest(m, 0) == map[]
  {
    var t := LowestIsCut(m, 0);
  }

  /** The queue while it is drained: `drop` transactions still have to go, from the accounts in `addresses`. */
  ghost predicate Draining(x: Lists, y: Lists, locals: set<Address>, addresses: set<Address>, limit: nat, drop: nat) {
    && Tidy(y, false) && Sum(LengthsOf(y)) == limit + drop
    && (forall a :: a in addresses ==> a !in locals)
    && (drop > 0 ==> forall a :: a in y ==> a in locals || a in addresses)
    && (forall a {:trigger ItemsOf(y, a)} :: a in locals ==> ItemsOf(y, a) == ItemsOf(x, a))
    && Trimmed(x, y)
  }

  lemma DrainStep(x: Lists, y: Lists, z: Lists, locals: set<Address>, addresses: set<Address>, limit: nat, drop: nat,
                  a: Address, keep: nat, drop': nat)
    requires Draining(x, y, locals, addresses, limit, drop) && a in addresses && drop > 0
    requires SameBut(a, y, z) && Tidy(z, false)
    requires keep <= |ItemsOf(y, a)| && ItemsOf(z, a) == Lowest(ItemsOf(y, a), keep)
    requires drop' + |ItemsOf(y, a)| == drop + keep && (drop' > 0 ==> keep == 0)
    ensures Draining(x, z, locals, addresses - {a}, limit, drop')
  {
    hide Sum, LengthsOf, Lowest, Trimmed;
    TrimmedBut(y, z, a, keep);
    TrimmedTrans(x, y, z);
    SumBut(y, z, a, false);
    if drop' > 0 {
      LowestNone(ItemsOf(y, a));
      forall b | b in z ensures b in locals || b in addresses - {a} {
        assert b != a ==> ItemsOf(z, b) == ItemsOf(y, b);
      }
    }
    forall b | b in locals ensures ItemsOf(z, b) == ItemsOf(x, b) {
      assert ItemsOf(z, b) == ItemsOf(y, b);
    }
  }

  lemma Drained(x: Lists, y: Lists, locals: set<Address>, addresses: set<Address>, limit: nat, drop: nat)
    requires Draining(x, y, locals, addresses, limit, drop) && Tidy(x, false) && (drop == 0 || addresses == {})
    ensures var ours := Sum(Within(LengthsOf(x), locals)); Sum(LengthsOf(y)) == if limit < ours then ours else limit
  {
    hide Sum, Trimmed;
    SameWithin(x, y, locals, false);
    WithinPart(LengthsOf(y), locals);
  }

  lemma DrainStart(x: Lists, locals: set<Address>, limit: nat, drop: nat)
    requires Tidy(x, false) && Sum(LengthsOf(x)) == limit + drop
    ensures Draining(x, x, locals, x.Keys - locals, limit, drop)
  {
    TrimmedRefl(x);
  }

  lemma DrainedLocals(x: Lists, y: Lists, locals: set<Address>, addresses: set<Address>, limit: nat, drop: nat)
    requires Draining(x, y, locals, addresses, limit, drop)
    ensures Trimmed(x, y) && forall a :: a in locals ==> ItemsOf(y, a) == ItemsOf(x, a)
  {
  }
}
