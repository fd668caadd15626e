/** When a new head leaves the nonces of an account out of sequence. */
module ResetGaps {
  import opened Transactions
  import opened TxItems
  import opened TxListSpec
  import opened TxNoncers
  import opened PoolSpec
  import opened PoolRuns
  import opened WaterLevel
  import opened Refills

  /** What of a queue is executable at all. */
  function Candidates(q: Items, s: nat, cost: nat, gas: nat): Items {
    Payable(AtLeast(q, s), cost, gas)
  }

  /** A run that begins at the lowered state nonce ends before the pending nonces, and nothing takes those away. */
  ghost predicate Gapped(p: Items, q: Items, s: nat, cost: nat, gas: nat) {
    var rest := Candidates(q, s, cost, gas);
    p != map[] && s in rest && NextGap(rest, s) < MinKey(p) && !Unpayable(p[MinKey(p)], cost, gas)
  }

  /**
    * What keeps an account out of sequence after a reset that finds it with virtual nonce `v`: a virtual
    * nonce that fell behind, a first transaction that cannot be paid while the head does not move, or a
    * gap that truncation to `bound` does not cut off.
    */
  ghost predicate Troubled(p: Items, q: Items, s: nat, v: nat, cost: nat, gas: nat, bound: Option<nat>) {
    || v < s
    || (v > s && s in p && Unpayable(p[s], cost, gas))
    || (v == s && Gapped(p, q, s, cost, gas)
        && (bound.None? || NextGap(Candidates(q, s, cost, gas), s) - s < bound.value))
  }

  /** The account that a lowered nonce leaves with a gap is in trouble if it may keep more than one transaction. */
  lemma GapIsTrouble(level: nat)
    ensures Troubled(BEFORE, BACK, 3, 3, 0, 0, None)
    ensures Troubled(BEFORE, BACK, 3, 3, 0, 0, Some(level)) <==> level > 1
  {
    BackIsReady();
    assert NextGap(BACK, 3) == 4;
    assert 5 in BEFORE && MinKey(BEFORE) == 5;
  }

  lemma {:induction false} RunSize(m: Items, s: nat, t: nat)
    requires s <= t && forall n: nat :: n in m <==> s <= n < t
    ensures |m| == t - s
    decreases t - s
  {
    if s == t {
      assert m.Keys == {};
    } else {
      var less := m - {s};
      RunSize(less, s + 1, t);
      assert less.Keys == m.Keys - {s};
      assert |m.Keys| == |less.Keys| + 1;
      assert |m| == |m.Keys| && |less| == |less.Keys|;
    }
  }

  lemma NoMore(x: Items, y: Items)
    requires forall n :: n in x ==> n in y
    ensures |x| <= |y| && (|x| == |y| ==> x.Keys == y.Keys)
  {
    assert x.Keys <= y.Keys;
    SubsetSize(x.Keys, y.Keys);
  }

  lemma {:induction false} SubsetSize(a: set<nat>, b: set<nat>)
    requires a <= b
    ensures |a| <= |b| && (|a| == |b| ==> a == b)
  {
    assert b == a + (b - a);
    assert |b| == |a| + |b - a|;
  }

  /** What truncation to `bound` and the last update of the virtual nonce make of lists that demotion has left. */
  ghost predicate Finished(p: Items, q: Items, v: nat, bound: Option<nat>, p': Items, q': Items, v': nat) {
    && p' == Capped(p, bound) && (p' == map[] <==> p == map[]) && q' == Lowest(q, |q'|)
    && v' == if p' == map[] then v else Top(p')
  }

  lemma CappedIs(p: Items, bound: Option<nat>)
    ensures var p' := Capped(p, bound);
            && p' == Lowest(p, |p'|) && |p'| <= |p|
            && |p'| == if bound.None? || |p| <= bound.value then |p| else bound.value
  {
    if bound.Some? {
      var t := LowestIsCut(p, bound.value);
    }
  }

  /** Demoted lists end as a run exactly if what stays ends before the first gap. */
  lemma FinishedRuns(p: Items, q: Items, s: nat, v: nat, bound: Option<nat>, p': Items, q': Items, v': nat)
    requires (forall n :: n in p ==> s <= n) && (p != map[] ==> s in p) && (forall n :: n in q ==> NextGap(p, s) <= n)
    requires Finished(p, q, v, bound, p', q', v')
    ensures |p'| <= |p|
    ensures Run(p', q', s, v') <==> if p == map[] then v == s else |p'| <= NextGap(p, s) - s
  {
    hide NextGap, Lowest, Top, Below, Run, Capped;
    CappedIs(p, bound);
    var c := NextGap(p, s);
    var t := LowestIsCut(p, |p'|);
    var u := LowestIsCut(q, |q'|);
    CutRunsOn(q, u, c);
    if p == map[] {
      NoRun(p', q', s, v');
    } else {
      RunIs(p', q', s, c, v');
      if |p'| <= c - s {
        ShortIsRun(p, s, c, t, p');
      } else {
        LongIsNoRun(p, s, c, t, p', v');
      }
    }
  }

  lemma CutRunsOn(q: Items, u: nat, c: nat)
    requires forall n :: n in q ==> c <= n
    ensures forall n :: n in Below(q, u) ==> c <= n
  {
  }

  lemma NoRun(p: Items, q: Items, s: nat, v: nat)
    requires p == map[] && forall n :: n in q ==> s <= n
    ensures Run(p, q, s, v) <==> v == s
  {
    assert s < v ==> s !in p;
  }

  lemma RunIs(p: Items, q: Items, s: nat, c: nat, v: nat)
    requires forall n :: n in q ==> c <= n
    ensures s <= v <= c && (forall n :: n in p <==> s <= n < v) ==> Run(p, q, s, v)
    ensures Run(p, q, s, v) ==> forall n :: n in p <==> s <= n < v
  {
  }

  lemma LongIsNoRun(p: Items, s: nat, c: nat, t: nat, p': Items, v: nat)
    requires s <= c && c !in p && (forall n: nat :: s <= n < c ==> n in p)
    requires p' == Below(p, t) && |p'| > c - s
    ensures !forall n :: n in p' <==> s <= n < v
  {
    if forall n :: n in p' <==> s <= n < v {
      assert c !in p';
      var run := AtLeast(Below(p, c), s);
      RunSize(run, s, c);
      NoMore(p', run);
      assert false;
    }
  }

  /** A cut no longer than the first run is a run. */
  lemma ShortIsRun(p: Items, s: nat, c: nat, t: nat, p': Items)
    requires (forall n :: n in p ==> s <= n) && s < c && c !in p && (forall n: nat :: s <= n < c ==> n in p)
    requires p' == Below(p, t) && p' != map[] && |p'| <= c - s
    ensures s < Top(p') <= c && forall n :: n in p' <==> s <= n < Top(p')
  {
    var run := Below(p, c);
    RunSize(run, s, c);
    if t > c {
      NoMore(run, p');
    }
    var end := if t > c then c else t;
    assert forall n :: n in p' <==> s <= n < end;
    assert end - 1 in p' by { assert p' != map[]; }
  }

  // what demotion does to the pending list

  ghost predicate IsRun(m: Items, s: nat, t: nat) {
    s <= t && forall n: nat :: n in m <==> s <= n < t
  }

  ghost predicate From(q: Items, t: nat) {
    forall n :: n in q ==> t <= n
  }

  /** Demotion of one account, which is left out when nothing is pending. */
  ghost predicate DemotesAny(p: Items, q: Items, s: nat, cost: nat, gas: nat, p': Items, q': Items) {
    if p == map[] then p' == p && q' == q else Demotes(p, q, s, cost, gas, p', q')
  }

  lemma DemotesAnyway(p: Items, q: Items, s: nat, cost: nat, gas: nat, p': Items, q': Items)
    requires DemotesAny(p, q, s, cost, gas, p', q')
    ensures Demotes(p, q, s, cost, gas, p', q')
  {
    if p == map[] {
      assert AtLeast(p, s) == map[];
    }
  }

  /** A run stays one, up to its first unpayable transaction. */
  lemma DemotedRun(p: Items, q: Items, s: nat, w: nat, cost: nat, gas: nat, p': Items, q': Items) returns (top: nat)
    requires Demotes(p, q, s, cost, gas, p', q') && IsRun(AtLeast(p, s), s, w) && From(q, w)
    ensures IsRun(p', s, top) && From(q', top)
    ensures top == s <==> s == w || (s in p && Unpayable(p[s], cost, gas))
  {
    var m := AtLeast(p, s);
    top := FilterKeepsRuns(m, cost, gas, s, w);
    FilterPartitions(true, m, cost, gas);
    var kept := FilterKeeps(true, m, cost, gas);
    assert s in kept <==> s < top;
    assert s < w ==> s in m && m[s] == p[s];
  }

  /** Pending nonces without the state nonce all go back to the queue. */
  lemma DemotedAbove(p: Items, q: Items, s: nat, cost: nat, gas: nat, p': Items, q': Items)
    requires Demotes(p, q, s, cost, gas, p', q') && s !in p && From(q, s)
    ensures p' == map[] && From(q', s)
  {
    FilterPartitions(true, AtLeast(p, s), cost, gas);
  }

  /** Two runs with a gap between them stay so, unless the second cannot start. */
  lemma DemotedGap(p: Items, q: Items, s: nat, c: nat, low: nat, high: nat, cost: nat, gas: nat, p': Items, q': Items)
    requires Demotes(p, q, s, cost, gas, p', q') && s < c < low < high && From(q, c)
    requires forall n: nat :: n in p <==> s <= n < c || low <= n < high
    requires forall n: nat :: s <= n < c ==> !Unpayable(p[n], cost, gas)
    ensures From(q', c) && From(p', s) && s in p' && NextGap(p', s) == c
    ensures if Unpayable(p[low], cost, gas) then IsRun(p', s, c) else low in p'
  {
    hide FilterKeeps, FilterInvalidates, Unpayable, NextGap;
    assert AtLeast(p, s) == p;
    GapKept(p, s, c, low, high, cost, gas);
    FilterGivesUp(p, cost, gas, c);
    assert p' == FilterKeeps(true, p, cost, gas) && q' == q + FilterInvalidates(true, p, cost, gas);
  }

  lemma GapKept(p: Items, s: nat, c: nat, low: nat, high: nat, cost: nat, gas: nat)
    requires s < c < low < high && forall n: nat :: n in p <==> s <= n < c || low <= n < high
    requires forall n: nat :: s <= n < c ==> !Unpayable(p[n], cost, gas)
    ensures var kept := FilterKeeps(true, p, cost, gas);
            && From(kept, s) && s in kept && NextGap(kept, s) == c
            && if Unpayable(p[low], cost, gas) then IsRun(kept, s, c) else low in kept
  {
    hide FilterKeeps, Unpayable, NextGap;
    var kept := FilterKeeps(true, p, cost, gas);
    forall n: nat | s <= n < c
      ensures n in kept
    {
      Keeps(p, cost, gas, n);
    }
    forall n: nat | n in kept
      ensures n in p && (Unpayable(p[low], cost, gas) ==> n < low)
    {
      Kept(p, cost, gas, n, low);
    }
    GapIs(kept, s, c);
    if !Unpayable(p[low], cost, gas) {
      Keeps(p, cost, gas, low);
    }
  }

  lemma Keeps(m: Items, cost: nat, gas: nat, n: nat)
    requires n in m && forall k :: k in m && k <= n ==> !Unpayable(m[k], cost, gas)
    ensures n in FilterKeeps(true, m, cost, gas)
  {
  }

  lemma Kept(m: Items, cost: nat, gas: nat, n: nat, k: nat)
    requires n in FilterKeeps(true, m, cost, gas)
    ensures n in m && (k in m && Unpayable(m[k], cost, gas) ==> n < k)
  {
    assert k in m && Unpayable(m[k], cost, gas) ==> k in Unpaid(m, cost, gas);
  }

  lemma FilterGivesUp(m: Items, cost: nat, gas: nat, c: nat)
    requires forall n :: n in m && n < c ==> !Unpayable(m[n], cost, gas)
    ensures From(FilterInvalidates(true, m, cost, gas), c)
  {
    var unpaid := Unpaid(m, cost, gas);
    assert unpaid != map[] ==> c <= MinKey(unpaid);
  }

  // what promotion does before

  /** The run that promotion moves from the virtual nonce `v` on ends at `w`. */
  ghost predicate Moves(p: Items, v: nat, w: nat, cost: nat, gas: nat, p': Items) {
    && v <= w && (forall n: nat :: n in p' <==> n in p || v <= n < w)
    && (forall n: nat :: v <= n < w ==> n in p' && !Unpayable(p'[n], cost, gas))
    && (forall n: nat :: n in p && !(v <= n < w) ==> n in p' && p'[n] == p[n])
  }

  lemma PromotedRun(p: Items, q: Items, s: nat, v: nat, cost: nat, gas: nat, limit: Option<nat>, p': Items, q': Items,
                    v': nat)
    returns (w: nat)
    requires PromotesExactly(p, q, s, v, cost, gas, limit, p', q', v') && From(Candidates(q, s, cost, gas), v)
    ensures w == NextGap(Candidates(q, s, cost, gas), v) && Moves(p, v, w, cost, gas, p') && v' == w && From(q', w)
    ensures forall n :: n in q' ==> n in q && s <= n
  {
    hide Top, ReadyCut, NextGap, Capped, Payable, AtLeast, Below;
    var rest := Candidates(q, s, cost, gas);
    w := NextGap(rest, v);
    CandidatesIs(q, s, cost, gas);
    if q == map[] {
      GapIs(rest, v, v);
    } else {
      ReadyGap(rest, v, q');
    }
  }

  lemma CandidatesIs(q: Items, s: nat, cost: nat, gas: nat)
    ensures forall n :: n in Candidates(q, s, cost, gas) ==>
              n in q && s <= n && !Unpayable(Candidates(q, s, cost, gas)[n], cost, gas)
  {
  }

  lemma ReadyGap(rest: Items, v: nat, part: Items)
    requires From(rest, v) && Part(part, AtLeast(rest, ReadyCut(rest, v)))
    ensures var ready, w := Below(rest, ReadyCut(rest, v)), NextGap(rest, v);
            && IsRun(ready, v, w) && (forall n :: n in ready ==> n in rest && ready[n] == rest[n])
            && w == (if ready == map[] then v else Top(ready))
            && From(part, w) && forall n :: n in part ==> n in rest
  {
    hide Top, ReadyCut, NextGap;
    var c := ReadyCut(rest, v);
    ReadyRun(rest, v);
    var w := if c > 0 then c else v;
    forall n: nat | v <= n < w
      ensures n in rest
    {
      assert n in Below(rest, c);
    }
    GapIs(rest, v, w);
    if c > 0 {
      assert v in Below(rest, c);
    }
  }

  /** A virtual nonce behind the state nonce promotes nothing. */
  lemma PromotedBehind(p: Items, q: Items, s: nat, v: nat, cost: nat, gas: nat, limit: Option<nat>, p': Items,
                       q': Items, v': nat)
    requires PromotesExactly(p, q, s, v, cost, gas, limit, p', q', v') && v < s
    ensures p' == p && v' == v && From(q', s)
  {
    hide Top, NextGap, Capped;
    var rest := Candidates(q, s, cost, gas);
    if q != map[] {
      assert ReadyCut(rest, v) == 0;
      assert Below(rest, 0) == map[];
    }
  }

  /** What demotion has made of an account, and whether it can end as a run with `k` transactions left. */
  ghost predicate Settles(p: Items, q: Items, s: nat, v: nat, k: nat, trouble: bool) {
    && From(p, s) && (p != map[] ==> s in p) && From(q, NextGap(p, s))
    && (k <= |p| && (k == 0 <==> p == map[]) ==> (trouble <==> if p == map[] then v != s else k > NextGap(p, s) - s))
  }

  lemma RunSettles(p: Items, q: Items, s: nat, t: nat, v: nat, k: nat)
    requires IsRun(p, s, t) && From(q, t)
    ensures Settles(p, q, s, v, k, s == t && v != s)
  {
    RunSize(p, s, t);
    GapIs(p, s, t);
    assert s < t ==> s in p;
  }

  lemma BehindSettles(p: Items, q: Items, s: nat, v: nat, cost: nat, gas: nat, limit: Option<nat>,
                      p1: Items, q1: Items, v1: nat, p2: Items, q2: Items, k: nat)
    requires InPhase(Moved, p, q, s, v, cost, gas) && v < s
    requires PromotesExactly(p, q, s, v, cost, gas, limit, p1, q1, v1) && Demotes(p1, q1, s, cost, gas, p2, q2)
    ensures Settles(p2, q2, s, v1, k, true)
  {
    hide PromotesExactly, Demotes, Settles, Top, MinKey;
    PromotedBehind(p, q, s, v, cost, gas, limit, p1, q1, v1);
    assert s !in p;
    DemotedAbove(p1, q1, s, cost, gas, p2, q2);
    RunSettles(p2, q2, s, s, v1, k);
  }

  /** A head that does not move: the run goes on, and stops at the first transaction that cannot be paid. */
  lemma AheadSettles(p: Items, q: Items, s: nat, v: nat, cost: nat, gas: nat, limit: Option<nat>,
                     p1: Items, q1: Items, v1: nat, p2: Items, q2: Items, k: nat)
    requires InPhase(Moved, p, q, s, v, cost, gas) && v > s && Once(p, q, map[])
    requires PromotesExactly(p, q, s, v, cost, gas, limit, p1, q1, v1) && Demotes(p1, q1, s, cost, gas, p2, q2)
    ensures s in p && Settles(p2, q2, s, v1, k, Unpayable(p[s], cost, gas))
  {
    hide PromotesExactly, Demotes, Settles, Unpayable;
    assert IsRun(p, s, v);
    var w := PromotedRun(p, q, s, v, cost, gas, limit, p1, q1, v1);
    assert IsRun(AtLeast(p1, s), s, w);
    var top := DemotedRun(p1, q1, s, w, cost, gas, p2, q2);
    RunSettles(p2, q2, s, top, v1, k);
  }

  /** The state nonce is pending or above everything pending. */
  lemma RaisedSettles(p: Items, q: Items, s: nat, cost: nat, gas: nat, limit: Option<nat>,
                      p1: Items, q1: Items, v1: nat, p2: Items, q2: Items, k: nat)
    requires InPhase(Moved, p, q, s, s, cost, gas) && Once(p, q, map[]) && (p == map[] || MinKey(p) <= s)
    requires PromotesExactly(p, q, s, s, cost, gas, limit, p1, q1, v1) && Demotes(p1, q1, s, cost, gas, p2, q2)
    ensures Settles(p2, q2, s, v1, k, false)
  {
    hide PromotesExactly, Demotes, Settles, Unpayable, Moves, NextGap, Once;
    var w := PromotedRun(p, q, s, s, cost, gas, limit, p1, q1, v1);
    CandidatesIs(q, s, cost, gas);
    var t := RaisedRun(p, q, s, w, cost, gas, p1, q1);
    var top := DemotedRun(p1, q1, s, t, cost, gas, p2, q2);
    RunSettles(p2, q2, s, top, v1, k);
  }

  lemma RaisedRun(p: Items, q: Items, s: nat, w: nat, cost: nat, gas: nat, p1: Items, q1: Items) returns (t: nat)
    requires Interval(p) && (p == map[] || MinKey(p) <= s) && Once(p, q, map[])
    requires Moves(p, s, w, cost, gas, p1) && (s < w ==> s in q) && From(q1, w)
    requires forall n :: n in q1 ==> n in q && s <= n
    ensures IsRun(AtLeast(p1, s), s, t) && From(q1, t) && (t == s ==> w == s)
    ensures s < w ==> s in p1 && !Unpayable(p1[s], cost, gas)
  {
    hide Unpayable, Top, MinKey;
    t := w;
    if s in p {
      t := Top(p);
      assert w == s;
      forall n | n in q1
        ensures t <= n
      {
        assert n !in p;
      }
    } else {
      assert forall n :: n in p ==> n < s;
    }
  }

  /** All pending nonces are above the state nonce. */
  lemma LoweredSettles(p: Items, q: Items, s: nat, cost: nat, gas: nat, limit: Option<nat>,
                       p1: Items, q1: Items, v1: nat, p2: Items, q2: Items, k: nat)
    requires InPhase(Moved, p, q, s, s, cost, gas) && Once(p, q, map[]) && p != map[] && s < MinKey(p)
    requires PromotesExactly(p, q, s, s, cost, gas, limit, p1, q1, v1) && Demotes(p1, q1, s, cost, gas, p2, q2)
    ensures Settles(p2, q2, s, v1, k, Gapped(p, q, s, cost, gas) && NextGap(Candidates(q, s, cost, gas), s) - s < k)
    ensures Gapped(p, q, s, cost, gas) ==> |p2| > NextGap(Candidates(q, s, cost, gas), s) - s
  {
    hide PromotesExactly, Demotes, Settles, Unpayable, NextGap, InPhase, Candidates, Moves;
    var rest := Candidates(q, s, cost, gas);
    CandidatesIs(q, s, cost, gas);
    var w := PromotedRun(p, q, s, s, cost, gas, limit, p1, q1, v1);
    IntervalIs(p, q, s, s, cost, gas);
    if w == s {
      NothingMoves(p, s, cost, gas, p1);
      DemotedAbove(p1, q1, s, cost, gas, p2, q2);
      RunSettles(p2, q2, s, s, v1, k);
    } else if w == MinKey(p) {
      MovesUpTo(p, s, w, cost, gas, p1, q, q1);
      var top := DemotedRun(p1, q1, s, Top(p), cost, gas, p2, q2);
      RunSettles(p2, q2, s, top, v1, k);
    } else {
      MovesBelow(p, s, w, cost, gas, p1);
      DemotedGap(p1, q1, s, w, MinKey(p), Top(p), cost, gas, p2, q2);
      if Unpayable(p[MinKey(p)], cost, gas) {
        RunSettles(p2, q2, s, w, v1, k);
      } else {
        GapSettles(p2, q2, s, v1, k);
        GapIsLong(p2, s, w, MinKey(p));
      }
    }
  }

  /** More than the first run is there when there is something beyond a gap. */
  lemma GapIsLong(p: Items, s: nat, w: nat, low: nat)
    requires w == NextGap(p, s) && From(p, s) && w < low && low in p
    ensures |p| > w - s
  {
    hide NextGap;
    var run := AtLeast(Below(p, w), s);
    RunSize(run, s, w);
    NoMore(run, p);
    assert low !in run;
  }

  lemma IntervalIs(p: Items, q: Items, s: nat, v: nat, cost: nat, gas: nat)
    requires InPhase(Moved, p, q, s, v, cost, gas) && p != map[]
    ensures MinKey(p) < Top(p) && IsRun(p, MinKey(p), Top(p))
  {
  }

  lemma NothingMoves(p: Items, s: nat, cost: nat, gas: nat, p': Items)
    requires Moves(p, s, s, cost, gas, p') && s !in p
    ensures s !in p'
  {
  }

  lemma MovesUpTo(p: Items, s: nat, w: nat, cost: nat, gas: nat, p': Items, q: Items, q': Items)
    requires Moves(p, s, w, cost, gas, p') && IsRun(p, w, Top(p)) && s < w < Top(p)
    requires Once(p, q, map[]) && From(q', w) && forall n :: n in q' ==> n in q
    ensures IsRun(AtLeast(p', s), s, Top(p)) && s in p' && !Unpayable(p'[s], cost, gas) && From(q', Top(p))
  {
    hide Top, Unpayable;
    forall n | n in q'
      ensures Top(p) <= n
    {
      assert n !in p;
    }
  }

  lemma MovesBelow(p: Items, s: nat, w: nat, cost: nat, gas: nat, p': Items)
    requires Moves(p, s, w, cost, gas, p') && p != map[] && IsRun(p, MinKey(p), Top(p)) && s < w < MinKey(p)
    ensures forall n: nat :: n in p' <==> s <= n < w || MinKey(p) <= n < Top(p)
    ensures forall n: nat :: s <= n < w ==> !Unpayable(p'[n], cost, gas)
    ensures p'[MinKey(p)] == p[MinKey(p)]
  {
  }

  lemma GapSettles(p: Items, q: Items, s: nat, v: nat, k: nat)
    requires From(p, s) && s in p && From(q, NextGap(p, s))
    ensures Settles(p, q, s, v, k, NextGap(p, s) - s < k)
  {
  }

  /**
    * The outcome of a reset for one account, from the lists it is found with to the end of the run of
    * the reorg loop: its nonces are in sequence exactly if it is not in trouble.
    */
  lemma ResetOutcome(p: Items, q: Items, s: nat, v: nat, cost: nat, gas: nat, limit: Option<nat>,
                     p1: Items, q1: Items, v1: nat, p2: Items, q2: Items, bound: Option<nat>,
                     p3: Items, q3: Items, v3: nat)
    requires InPhase(Moved, p, q, s, v, cost, gas) && Once(p, q, map[])
    requires PromotesExactly(p, q, s, v, cost, gas, limit, p1, q1, v1) && DemotesAny(p1, q1, s, cost, gas, p2, q2)
    requires Finished(p2, q2, v1, bound, p3, q3, v3)
    ensures Run(p3, q3, s, v3) <==> !Troubled(p, q, s, v, cost, gas, bound)
  {
    hide InPhase, PromotesExactly, Demotes, DemotesAny, Run, Gapped, Unpayable, NextGap, Lowest, Once, Finished, Capped;
    var k := |p3|;
    DemotesAnyway(p1, q1, s, cost, gas, p2, q2);
    FinishedIs(p2, q2, v1, bound, p3, q3, v3);
    CappedIs(p2, bound);
    if v < s {
      BehindSettles(p, q, s, v, cost, gas, limit, p1, q1, v1, p2, q2, k);
    } else if v > s {
      AheadSettles(p, q, s, v, cost, gas, limit, p1, q1, v1, p2, q2, k);
    } else if p == map[] || MinKey(p) <= s {
      RaisedSettles(p, q, s, cost, gas, limit, p1, q1, v1, p2, q2, k);
      RaisedHasNoGap(p, q, s, cost, gas);
    } else {
      LoweredSettles(p, q, s, cost, gas, limit, p1, q1, v1, p2, q2, k);
    }
    FinishedRuns(p2, q2, s, v1, bound, p3, q3, v3);
  }

  lemma RaisedHasNoGap(p: Items, q: Items, s: nat, cost: nat, gas: nat)
    requires p == map[] || MinKey(p) <= s
    ensures !Gapped(p, q, s, cost, gas)
  {
  }

  lemma FinishedIs(p: Items, q: Items, v: nat, bound: Option<nat>, p': Items, q': Items, v': nat)
    requires Finished(p, q, v, bound, p', q', v')
    ensures p' == Capped(p, bound) && (|p'| == 0 <==> p == map[])
  {
  }

  // the whole pool

  /** The virtual nonces of accounts with nothing pending are the same. */
  ghost predicate Spared(state: Address -> nat, pending: Lists, nonces: map<Address, nat>, nonces': map<Address, nat>) {
    forall a {:trigger Virtual(state, nonces', a)} ::
      ItemsOf(pending, a) == map[] ==> Virtual(state, nonces', a) == Virtual(state, nonces, a)
  }

  lemma SparedRefl(state: Address -> nat, pending: Lists, nonces: map<Address, nat>)
    ensures Spared(state, pending, nonces, nonces)
  {
  }

  lemma SparedBut(state: Address -> nat, pending: Lists, a: Address, nonces: map<Address, nat>,
                  nonces': map<Address, nat>)
    requires NoncesBut(state, a, nonces, nonces') && ItemsOf(pending, a) != map[]
    ensures Spared(state, pending, nonces, nonces')
  {
  }

  /** The highest pending nonce of `a` is gone, and its virtual nonce is no higher. */
  ghost predicate CapsOne(state: Address -> nat, a: Address, nonces: map<Address, nat>, pending: Lists,
                          nonces': map<Address, nat>, pending': Lists) {
    var p, v := ItemsOf(pending, a), Virtual(state, nonces, a);
    && SameBut(a, pending, pending') && NoncesBut(state, a, nonces, nonces') && |p| >= 2
    && ItemsOf(pending', a) == Lowest(p, |p| - 1) == Below(p, MaxKey(p)) != map[] && |ItemsOf(pending', a)| == |p| - 1
    && Virtual(state, nonces', a) == if MaxKey(p) < v then MaxKey(p) else v
  }

  lemma CappedOne(env: Env, a: Address, nonces: map<Address, nat>, pending: Lists, queue: Lists,
                  nonces': map<Address, nat>, pending': Lists)
    requires Tidy(pending, true) && Tidy(pending', true) && CapsOne(env.nonce, a, nonces, pending, nonces', pending')
    ensures a in LengthsOf(pending) && LengthsOf(pending') == LengthsOf(pending)[a := LengthsOf(pending)[a] - 1]
    ensures Trimmed(pending, pending') && Spared(env.nonce, pending, nonces, nonces')
    ensures AllIn(Running, env, nonces, pending, queue) ==> AllIn(Running, env, nonces', pending', queue)
    ensures AllIn(Demoted, env, nonces, pending, queue) ==> AllIn(Demoted, env, nonces', pending', queue)
  {
    hide SameBut, NoncesBut, AllIn, MaxKey, Below, Lowest, Tidy, LengthsOf, Trimmed, Spared, Virtual;
    SparedBut(env.nonce, pending, a, nonces, nonces');
    LengthsBut(pending, pending', a);
    TrimmedOne(pending, pending', a);
    CapKeeps(env, a, nonces, pending, queue, nonces', pending', MaxKey(ItemsOf(pending, a)));
  }

  lemma SparedTrans(state: Address -> nat, pending: Lists, pending1: Lists,
                    nonces: map<Address, nat>, nonces1: map<Address, nat>, nonces': map<Address, nat>)
    requires Trimmed(pending, pending1) && Spared(state, pending, nonces, nonces1)
    requires Spared(state, pending1, nonces1, nonces')
    ensures Spared(state, pending, nonces, nonces')
  {
    hide Lowest;
    forall a | ItemsOf(pending, a) == map[]
      ensures Virtual(state, nonces', a) == Virtual(state, nonces, a)
    {
      assert |ItemsOf(pending1, a)| <= |ItemsOf(pending, a)|;
      assert Virtual(state, nonces1, a) == Virtual(state, nonces, a);
    }
  }

  /** The number of pending transactions that truncation to the water level leaves an account, if there is a bound. */
  function Bound(locals: set<Address>, level: nat, a: Address): Option<nat> {
    if a in locals then None else Some(level)
  }

  /** How the end of a run of the reorg loop leaves an account. */
  ghost predicate FinishedAt(state: Address -> nat, bound: Option<nat>, nonces: map<Address, nat>, pending: Lists,
                             queue: Lists,
                             nonces': map<Address, nat>, pending': Lists, queue': Lists, a: Address) {
    Finished(ItemsOf(pending, a), ItemsOf(queue, a), Virtual(state, nonces, a), bound,
             ItemsOf(pending', a), ItemsOf(queue', a), Virtual(state, nonces', a))
  }

  ghost predicate FinishedAll(state: Address -> nat, locals: set<Address>, level: nat,
                              nonces: map<Address, nat>, pending: Lists, queue: Lists,
                              nonces': map<Address, nat>, pending': Lists, queue': Lists) {
    forall a {:trigger FinishedAt(state, Bound(locals, level, a), nonces, pending, queue, nonces', pending', queue',
                                  a)} ::
      FinishedAt(state, Bound(locals, level, a), nonces, pending, queue, nonces', pending', queue', a)
  }

  lemma CappedAt(pending: Lists, pending': Lists, locals: set<Address>, level: nat, a: Address)
    requires Tidy(pending, true) && Tidy(pending', true) && Trimmed(pending, pending') && level >= 1
    requires LengthsOf(pending') == Level(LengthsOf(pending), locals, level)
    ensures ItemsOf(pending', a) == Capped(ItemsOf(pending, a), Bound(locals, level, a))
    ensures ItemsOf(pending', a) == map[] <==> ItemsOf(pending, a) == map[]
  {
    hide Lowest, ListView.Valid;
    var p, p', lens := ItemsOf(pending, a), ItemsOf(pending', a), LengthsOf(pending);
    assert p' == Lowest(p, |p'|);
    assert a in LengthsOf(pending') <==> a in lens;
    LowestAll(p);
    if a in lens && lens[a] <= level {
      LowestMore(p, level);
    }
  }

  lemma LowestAll(p: Items)
    ensures Lowest(p, |p|) == p && (p == map[] ==> forall k: nat :: Lowest(p, k) == p)
  {
  }

  lemma LowestMore(p: Items, k: nat)
    requires |p| <= k
    ensures Lowest(p, k) == p
  {
  }

  /** Truncation leaves every list its lowest nonces, and the update sets the virtual nonces of those with any. */
  lemma TruncatedFinishes(env: Env, locals: set<Address>, level: nat, nonces: map<Address, nat>, pending: Lists,
                          queue: Lists,
                          nonces1: map<Address, nat>, nonces': map<Address, nat>, pending': Lists, queue': Lists)
    requires Tidy(pending, true) && Tidy(pending', true)
    requires LengthsOf(pending') == Level(LengthsOf(pending), locals, level) && level >= 1
    requires Trimmed(pending, pending') && Trimmed(queue, queue')
    requires Spared(env.nonce, pending, nonces, nonces1) && Numbered(env, pending'.Keys, pending', nonces1, nonces')
    ensures FinishedAll(env.nonce, locals, level, nonces, pending, queue, nonces', pending', queue')
  {
    hide Lowest, Top, ListView.Valid, Capped, LengthsOf, Level, Bound;
    forall a
      ensures FinishedAt(env.nonce, Bound(locals, level, a), nonces, pending, queue, nonces', pending', queue', a)
    {
      CappedAt(pending, pending', locals, level, a);
      assert ItemsOf(queue', a) == Lowest(ItemsOf(queue, a), |ItemsOf(queue', a)|);
      assert Virtual(env.nonce, nonces1, a) == Virtual(env.nonce, nonces1, a);
    }
  }

  // the outcome as a function of what a reset leaves before promotion

  /** What promotion makes pending. */
  ghost function Ready(q: Items, s: nat, v: nat, cost: nat, gas: nat): Items {
    var rest := Candidates(q, s, cost, gas);
    Below(rest, ReadyCut(rest, v))
  }

  /** What is pending after promotion and demotion. */
  ghost function Survivors(p: Items, q: Items, s: nat, v: nat, cost: nat, gas: nat): Items {
    var kept := FilterKeeps(true, AtLeast(p + Ready(q, s, v, cost, gas), s), cost, gas);
    if s in kept then kept else map[]
  }

  /** The virtual nonce of an account that ends with `left` pending. */
  ghost function NonceAfter(q: Items, s: nat, v: nat, cost: nat, gas: nat, left: Items): nat {
    var ready := Ready(q, s, v, cost, gas);
    if left != map[] then Top(left) else if ready == map[] then v else Top(ready)
  }

  lemma SurvivorsAre(p: Items, q: Items, s: nat, v: nat, cost: nat, gas: nat, limit: Option<nat>,
                     p1: Items, q1: Items, v1: nat, p2: Items, q2: Items)
    requires PromotesExactly(p, q, s, v, cost, gas, limit, p1, q1, v1) && DemotesAny(p1, q1, s, cost, gas, p2, q2)
    ensures p2 == Survivors(p, q, s, v, cost, gas)
    ensures v1 == NonceAfter(q, s, v, cost, gas, map[])
  {
    hide Top, Capped, ReadyCut, FilterKeeps, FilterInvalidates, Demotes;
    DemotesAnyway(p1, q1, s, cost, gas, p2, q2);
    var ready := Ready(q, s, v, cost, gas);
    if q == map[] {
      assert ready == map[] && p + ready == p;
    }
    assert p1 == p + ready;
    DemotesSurvivors(p1, q1, s, cost, gas, p2, q2);
  }

  lemma DemotesSurvivors(p: Items, q: Items, s: nat, cost: nat, gas: nat, p': Items, q': Items)
    requires Demotes(p, q, s, cost, gas, p', q')
    ensures var kept := FilterKeeps(true, AtLeast(p, s), cost, gas); p' == if s in kept then kept else map[]
  {
    hide FilterKeeps, FilterInvalidates;
  }

  ghost function SurvivorsAt(env: Env, found: Found, a: Address): Items {
    var acc := found.At(env.nonce, a);
    Survivors(acc.p, acc.q, env.nonce(a), acc.v, env.balance(a), env.maxGas)
  }

  /** How many transactions of each account are pending when truncation starts. */
  ghost function SurvivorLengths(env: Env, found: Found): Lengths {
    map a | a in found.pending.Keys + found.queue.Keys && SurvivorsAt(env, found, a) != map[] ::
      |SurvivorsAt(env, found, a)|
  }

  lemma NoSurvivors(s: nat, v: nat, cost: nat, gas: nat)
    ensures Survivors(map[], map[], s, v, cost, gas) == map[]
  {
    assert Ready(map[], s, v, cost, gas) == map[];
    assert AtLeast(map[] + Ready(map[], s, v, cost, gas), s) == map[];
  }

  /** What is pending of an account in the end, and its virtual nonce. */
  ghost predicate EndsAt(env: Env, found: Found, level: nat, nonces: map<Address, nat>, pending: Lists, a: Address) {
    var acc, left := found.At(env.nonce, a), ItemsOf(pending, a);
    && left == Capped(SurvivorsAt(env, found, a), Bound(found.locals, level, a))
    && Virtual(env.nonce, nonces, a) == NonceAfter(acc.q, env.nonce(a), acc.v, env.balance(a), env.maxGas, left)
  }

  /** An account that a reset found in trouble. */
  ghost predicate TroubledAt(env: Env, found: Found, level: nat, a: Address) {
    var acc := found.At(env.nonce, a);
    Troubled(acc.p, acc.q, env.nonce(a), acc.v, env.balance(a), env.maxGas, Bound(found.locals, level, a))
  }

  ghost predicate Disjoint(pending: Lists, queue: Lists) {
    forall a {:trigger ItemsOf(pending, a), ItemsOf(queue, a)} :: Once(ItemsOf(pending, a), ItemsOf(queue, a), map[])
  }

  /** Promotion of one account as a relation between its lists, whether or not it had any queued. */
  lemma PromotedAnyway(env: Env, limit: nat, found: Found, nonces1: map<Address, nat>, pending1: Lists, queue1: Lists,
                       a: Address)
    requires PromotedIf(env, found.locals, limit, a in found.queue, found.nonces, found.pending, found.queue,
                        nonces1, pending1, queue1, a)
    ensures PromotesExactly(ItemsOf(found.pending, a), ItemsOf(found.queue, a), env.nonce(a),
                            Virtual(env.nonce, found.nonces, a),
                            env.balance(a), env.maxGas, if a in found.locals then None else Some(limit),
                            ItemsOf(pending1, a), ItemsOf(queue1, a), Virtual(env.nonce, nonces1, a))
  {
    hide Promotes, Virtual, Capped;
  }

  lemma DemotedAnyway(env: Env, pending1: Lists, queue1: Lists, pending2: Lists, queue2: Lists, a: Address)
    requires Tidy(pending1, true) && DemotedAt(env, a in pending1, pending1, queue1, pending2, queue2, a)
    ensures DemotesAny(ItemsOf(pending1, a), ItemsOf(queue1, a), env.nonce(a), env.balance(a), env.maxGas,
                       ItemsOf(pending2, a), ItemsOf(queue2, a))
  {
    hide Demotes;
  }

  lemma SurvivorsHere(env: Env, limit: nat, found: Found, nonces1: map<Address, nat>, pending1: Lists, queue1: Lists,
                      pending2: Lists, queue2: Lists, a: Address)
    requires PromotedIf(env, found.locals, limit, a in found.queue, found.nonces, found.pending, found.queue,
                        nonces1, pending1, queue1, a)
    requires Tidy(pending1, true) && DemotedAt(env, a in pending1, pending1, queue1, pending2, queue2, a)
    ensures ItemsOf(pending2, a) == SurvivorsAt(env, found, a)
    ensures var acc := found.At(env.nonce, a);
            Virtual(env.nonce, nonces1, a) == NonceAfter(acc.q, env.nonce(a), acc.v, env.balance(a), env.maxGas, map[])
  {
    hide Survivors, NonceAfter, PromotesExactly, DemotesAny, PromotedIf, DemotedAt, Tidy, Virtual;
    PromotedAnyway(env, limit, found, nonces1, pending1, queue1, a);
    DemotedAnyway(env, pending1, queue1, pending2, queue2, a);
    SurvivorsAre(ItemsOf(found.pending, a), ItemsOf(found.queue, a), env.nonce(a), Virtual(env.nonce, found.nonces, a),
                 env.balance(a), env.maxGas, if a in found.locals then None else Some(limit),
                 ItemsOf(pending1, a), ItemsOf(queue1, a), Virtual(env.nonce, nonces1, a), ItemsOf(pending2, a),
                 ItemsOf(queue2, a));
  }

  /** The lengths that truncation starts from. */
  lemma LengthsAre(env: Env, limit: nat, found: Found, nonces1: map<Address, nat>, pending1: Lists, queue1: Lists,
                   pending2: Lists, queue2: Lists)
    requires PromotedAll(env, found.locals, limit, found.queue.Keys, found.nonces, found.pending, found.queue, nonces1,
                         pending1, queue1)
    requires Tidy(pending1, true) && DemotedAll(env, pending1.Keys, pending1, queue1, pending2, queue2)
    requires Tidy(pending2, true)
    ensures LengthsOf(pending2) == SurvivorLengths(env, found)
  {
    hide PromotedIf, DemotedAt, Survivors, ListView.Valid;
    forall a
      ensures ItemsOf(pending2, a) == SurvivorsAt(env, found, a)
      ensures a in pending2 ==> a in found.pending.Keys + found.queue.Keys
    {
      assert PromotedIf(env, found.locals, limit, a in found.queue.Keys, found.nonces, found.pending, found.queue,
                        nonces1, pending1, queue1, a);
      assert DemotedAt(env, a in pending1.Keys, pending1, queue1, pending2, queue2, a);
      SurvivorsHere(env, limit, found, nonces1, pending1, queue1, pending2, queue2, a);
      NoSurvivors(env.nonce(a), Virtual(env.nonce, found.nonces, a), env.balance(a), env.maxGas);
    }
    LengthsByItems(env, found, pending2);
  }

  lemma LengthsByItems(env: Env, found: Found, pending: Lists)
    requires Tidy(pending, true) && forall a :: ItemsOf(pending, a) == SurvivorsAt(env, found, a)
    requires forall a :: a in pending ==> a in found.pending.Keys + found.queue.Keys
    ensures LengthsOf(pending) == SurvivorLengths(env, found)
  {
    hide SurvivorsAt, ListView.Valid;
    forall a
      ensures a in SurvivorLengths(env, found) <==> a in pending
    {
      assert ItemsOf(pending, a) == SurvivorsAt(env, found, a);
    }
  }

  /** One account, from promotion to the end. */
  lemma OutcomeAt(env: Env, limit: nat, found: Found, level: nat,
                  nonces1: map<Address, nat>, pending1: Lists, queue1: Lists, pending2: Lists, queue2: Lists,
                  nonces': map<Address, nat>, pending': Lists, queue': Lists, a: Address)
    requires PhaseAt(Moved, env, found.nonces, found.pending, found.queue, a)
    requires Once(ItemsOf(found.pending, a), ItemsOf(found.queue, a), map[])
    requires PromotedIf(env, found.locals, limit, a in found.queue, found.nonces, found.pending, found.queue,
                        nonces1, pending1, queue1, a)
    requires Tidy(pending1, true) && DemotedAt(env, a in pending1, pending1, queue1, pending2, queue2, a)
    requires FinishedAt(env.nonce, Bound(found.locals, level, a), nonces1, pending2, queue2, nonces', pending', queue',
                        a)
    ensures PhaseAt(Running, env, nonces', pending', queue', a) <==> !TroubledAt(env, found, level, a)
  {
    hide Demotes, DemotesAny, Finished, Troubled, Once, Virtual, PromotesExactly, PromotedIf, DemotedAt, Run, InPhase;
    hide Tidy;
    InRun(ItemsOf(pending', a), ItemsOf(queue', a), env.nonce(a), Virtual(env.nonce, nonces', a), env.balance(a),
          env.maxGas);
    PromotedAnyway(env, limit, found, nonces1, pending1, queue1, a);
    DemotedAnyway(env, pending1, queue1, pending2, queue2, a);
    ResetOutcome(ItemsOf(found.pending, a), ItemsOf(found.queue, a), env.nonce(a), Virtual(env.nonce, found.nonces, a),
                 env.balance(a), env.maxGas, if a in found.locals then None else Some(limit),
                 ItemsOf(pending1, a), ItemsOf(queue1, a), Virtual(env.nonce, nonces1, a),
                 ItemsOf(pending2, a), ItemsOf(queue2, a), Bound(found.locals, level, a),
                 ItemsOf(pending', a), ItemsOf(queue', a), Virtual(env.nonce, nonces', a));
  }

  /** After a reset the pool is in sequence exactly if no account was found in trouble. */
  lemma AllOutcomes(env: Env, limit: nat, found: Found, level: nat,
                    nonces1: map<Address, nat>, pending1: Lists, queue1: Lists, pending2: Lists, queue2: Lists,
                    nonces': map<Address, nat>, pending': Lists, queue': Lists)
    requires AllIn(Moved, env, found.nonces, found.pending, found.queue) && Disjoint(found.pending, found.queue)
    requires PromotedAll(env, found.locals, limit, found.queue.Keys, found.nonces, found.pending, found.queue, nonces1,
                         pending1, queue1)
    requires Tidy(pending1, true) && DemotedAll(env, pending1.Keys, pending1, queue1, pending2, queue2)
    requires FinishedAll(env.nonce, found.locals, level, nonces1, pending2, queue2, nonces', pending', queue')
    ensures AllIn(Running, env, nonces', pending', queue') <==> forall a :: !TroubledAt(env, found, level, a)
  {
    hide PhaseAt, PromotedIf, DemotedAt, FinishedAt, TroubledAt, Tidy, Once;
    forall a
      ensures PhaseAt(Running, env, nonces', pending', queue', a) <==> !TroubledAt(env, found, level, a)
    {
      assert PhaseAt(if a in {} then Moved else Moved, env, found.nonces, found.pending, found.queue, a);
      assert PromotedIf(env, found.locals, limit, a in found.queue.Keys, found.nonces, found.pending, found.queue,
                        nonces1, pending1, queue1, a);
      assert DemotedAt(env, a in pending1.Keys, pending1, queue1, pending2, queue2, a);
      assert FinishedAt(env.nonce, Bound(found.locals, level, a), nonces1, pending2, queue2, nonces', pending', queue',
                        a);
      OutcomeAt(env, limit, found, level, nonces1, pending1, queue1, pending2, queue2, nonces', pending', queue', a);
    }
  }

  /** What is pending in the end, and the virtual nonces, in terms of what the reset left before promotion. */
  lemma AllEnd(env: Env, limit: nat, found: Found, level: nat,
               nonces1: map<Address, nat>, pending1: Lists, queue1: Lists, pending2: Lists, queue2: Lists,
               nonces': map<Address, nat>, pending': Lists, queue': Lists)
    requires PromotedAll(env, found.locals, limit, found.queue.Keys, found.nonces, found.pending, found.queue, nonces1,
                         pending1, queue1)
    requires Tidy(pending1, true) && DemotedAll(env, pending1.Keys, pending1, queue1, pending2, queue2)
    requires FinishedAll(env.nonce, found.locals, level, nonces1, pending2, queue2, nonces', pending', queue')
    ensures forall a :: EndsAt(env, found, level, nonces', pending', a)
  {
    hide PromotedIf, DemotedAt, Tidy, Survivors, SurvivorsAt, Capped, Top, Ready, Virtual, Lowest;
    forall a
      ensures EndsAt(env, found, level, nonces', pending', a)
    {
      assert PromotedIf(env, found.locals, limit, a in found.queue.Keys, found.nonces, found.pending, found.queue,
                        nonces1, pending1, queue1, a);
      assert DemotedAt(env, a in pending1.Keys, pending1, queue1, pending2, queue2, a);
      assert FinishedAt(env.nonce, Bound(found.locals, level, a), nonces1, pending2, queue2, nonces', pending', queue',
                        a);
      SurvivorsHere(env, limit, found, nonces1, pending1, queue1, pending2, queue2, a);
    }
  }
}
