/** What swapping and deleting in a list of cases does to its active and its finished part. */
module CaseSpec {
  datatype Case = RemoveSub | Sub(channel: nat)

  /** The subscriptions among `s[low..high]`. */
  ghost function Part(s: seq<Case>, low: nat, high: nat): multiset<Case>
    requires low <= high <= |s|
  {
    multiset(s[low..high])
  }

  lemma PartSplit(s: seq<Case>, low: nat, mid: nat, high: nat)
    requires low <= mid <= high <= |s|
    ensures Part(s, low, high) == Part(s, low, mid) + Part(s, mid, high)
  {
    assert s[low..high] == s[low..mid] + s[mid..high];
  }

  lemma PartOne(s: seq<Case>, i: nat, next: nat)
    requires i < |s| && next == i + 1
    ensures Part(s, i, next) == multiset{s[i]}
  {
    assert s[i..next] == [s[i]];
  }

  lemma PartAppend(s: seq<Case>, t: seq<Case>, low: nat, all: seq<Case>)
    requires low <= |s| && all == s + t
    ensures Part(all, low, |all|) == Part(s, low, |s|) + multiset(t)
  {
    assert all[low..|all|] == s[low..|s|] + t;
  }

  /** `s` with the cases at `i` and `last` swapped. */
  function Swapped(s: seq<Case>, i: nat, last: nat): seq<Case>
    requires i < |s| && last < |s|
  {
    s[i := s[last]][last := s[i]]
  }

  function Without(s: seq<Case>, i: nat): seq<Case>
    requires i < |s|
  {
    s[..i] + s[i + 1..]
  }

  /** A part, taken apart at one of its cases. */
  lemma PartAround(s: seq<Case>, low: nat, i: nat, next: nat, high: nat)
    requires low <= i < high <= |s| && next == i + 1
    ensures s[i] in Part(s, low, high)
    ensures Part(s, low, high) == Part(s, low, i) + multiset{s[i]} + Part(s, next, high)
  {
    hide Part;
    PartSplit(s, low, i, high);
    PartSplit(s, i, next, high);
    PartOne(s, i, next);
  }

  /** Equal stretches hold the same cases. */
  lemma SameStretch(s: seq<Case>, low: nat, high: nat, s': seq<Case>, low': nat, high': nat)
    requires low <= high <= |s| && low' <= high' <= |s'| && high - low == high' - low'
    requires forall k :: low <= k < high ==> s[k] == s'[k - low + low']
    ensures Part(s, low, high) == Part(s', low', high')
  {
    assert s[low..high] == s'[low'..high'];
  }

  lemma Exchange(a: multiset<Case>, b: multiset<Case>, x: Case, y: Case)
    ensures a + multiset{y} + b == a + multiset{x} + (b + multiset{y}) - multiset{x}
    ensures a == a + multiset{x} + multiset{} - multiset{x}
  {
  }

  /** Moving an active case to the end of the active part, which then ends before it. */
  lemma SwappedActive(s: seq<Case>, low: nat, i: nat, last: nat, end: nat)
    requires low <= i <= last < |s| && end == last + 1
    ensures s[i] in Part(s, low, end)
    ensures Part(Swapped(s, i, last), low, last) == Part(s, low, end) - multiset{s[i]}
  {
    hide Part, Swapped;
    var next := i + 1;
    PartAround(s, low, i, next, end);
    if i < last {
      SwappedInside(s, low, i, last);
      PartSplit(s, next, last, end);
      PartOne(s, last, end);
      Exchange(Part(s, low, i), Part(s, next, last), s[i], s[last]);
    } else {
      assert Swapped(s, i, i) == s by {
        SwappedSelf(s, i);
      }
      PartNone(s, end);
      Exchange(Part(s, low, i), multiset{}, s[i], s[i]);
    }
  }

  lemma SwappedSelf(s: seq<Case>, i: nat)
    requires i < |s|
    ensures Swapped(s, i, i) == s
  {
  }

  lemma SwappedInside(s: seq<Case>, low: nat, i: nat, last: nat)
    requires low <= i < last < |s|
    ensures Part(Swapped(s, i, last), low, last) == Part(s, low, i) + multiset{s[last]} + Part(s, i + 1, last)
  {
    hide Part;
    var s', next := Swapped(s, i, last), i + 1;
    SameStretch(s, low, i, s', low, i);
    SameStretch(s, next, last, s', next, last);
    PartAround(s', low, i, next, last);
  }

  lemma PartNone(s: seq<Case>, i: nat)
    requires i <= |s|
    ensures Part(s, i, i) == multiset{}
  {
  }

  lemma SwappedDone(s: seq<Case>, i: nat, last: nat, end: nat)
    requires i <= last < |s| && end == last + 1
    ensures Part(Swapped(s, i, last), last, |s|) == Part(s, end, |s|) + multiset{s[i]}
  {
    hide Part;
    var s' := Swapped(s, i, last);
    PartAround(s', last, last, end, |s|);
    PartNone(s', last);
    SameStretch(s, end, |s|, s', end, |s|);
  }

  lemma WithoutPart(s: seq<Case>, low: nat, i: nat, high: nat, less: nat)
    requires low <= i < high <= |s| && less + 1 == high
    ensures s[i] in Part(s, low, high)
    ensures Part(Without(s, i), low, less) == Part(s, low, high) - multiset{s[i]}
  {
    hide Part;
    var s', next := Without(s, i), i + 1;
    PartAround(s, low, i, next, high);
    PartSplit(s', low, i, less);
    SameStretch(s, low, i, s', low, i);
    SameStretch(s, next, high, s', i, less);
  }

  /** Deleting an active case leaves the finished part alone, and the other way round. */
  lemma WithoutOther(s: seq<Case>, low: nat, active: nat, i: nat, less: nat)
    requires low <= i < |s| && low <= active <= |s| && less + 1 == |s|
    ensures i >= active ==> Part(Without(s, i), low, active) == Part(s, low, active)
    ensures forall shorter: nat :: shorter + 1 == active && i < active ==>
              Part(Without(s, i), shorter, less) == Part(s, active, |s|)
  {
    hide Part;
    if i >= active {
      SameStretch(s, low, active, Without(s, i), low, active);
    } else {
      SameStretch(s, active, |s|, Without(s, i), active - 1, less);
    }
  }

  /** The outcome of a send so far: delivered, removed before delivery, and removed after it. */
  datatype Ledger = Ledger(start: multiset<Case>, delivered: multiset<Case>, missed: multiset<Case>,
                           dropped: multiset<Case>)

  /**
    * Every subscription the send started with is still owed the value, got it, or was removed before
    * that; the finished cases are those that got it and were not removed since.
    */
  ghost predicate Accounts(owed: multiset<Case>, done: multiset<Case>, l: Ledger) {
    forall c: Case ::
      && l.start[c] == owed[c] + l.delivered[c] + l.missed[c]
      && l.delivered[c] == done[c] + l.dropped[c]
  }

  lemma OnDeliver(owed: multiset<Case>, done: multiset<Case>, l: Ledger, c: Case)
    requires Accounts(owed, done, l) && c in owed
    ensures Accounts(owed - multiset{c}, done + multiset{c}, l.(delivered := l.delivered + multiset{c}))
    ensures |l.delivered + multiset{c}| == |l.delivered| + 1
  {
  }

  lemma OnCancel(owed: multiset<Case>, done: multiset<Case>, l: Ledger, c: Case)
    requires Accounts(owed, done, l)
    ensures c in owed ==> Accounts(owed - multiset{c}, done, l.(missed := l.missed + multiset{c}))
    ensures c in done ==> Accounts(owed, done - multiset{c}, l.(dropped := l.dropped + multiset{c}))
  {
  }

  /** Waiting and served subscriptions are the live ones and those leaving; only served ones are leaving. */
  ghost predicate Balanced(inbox: multiset<Case>, subs: multiset<Case>, live: multiset<Case>, leaving: multiset<Case>) {
    forall c: Case :: inbox[c] + subs[c] == live[c] + leaving[c] && leaving[c] <= subs[c]
  }

  lemma OnSubscribe(inbox: multiset<Case>, subs: multiset<Case>, live: multiset<Case>, leaving: multiset<Case>, c: Case)
    requires Balanced(inbox, subs, live, leaving)
    ensures Balanced(inbox + multiset{c}, subs, live + multiset{c}, leaving)
  {
  }

  lemma OnUnsubscribe(inbox: multiset<Case>, subs: multiset<Case>, live: multiset<Case>, leaving: multiset<Case>,
                      c: Case)
    requires Balanced(inbox, subs, live, leaving) && c in live
    ensures c in inbox ==> Balanced(inbox - multiset{c}, subs, live - multiset{c}, leaving)
    ensures c !in inbox ==> Balanced(inbox, subs, live - multiset{c}, leaving + multiset{c})
  {
  }

  lemma OnRemove(inbox: multiset<Case>, subs: multiset<Case>, live: multiset<Case>, leaving: multiset<Case>, c: Case)
    requires Balanced(inbox, subs, live, leaving) && c in leaving
    ensures Balanced(inbox, subs - multiset{c}, live, leaving - multiset{c})
  {
  }

  lemma OnCollect(inbox: multiset<Case>, subs: multiset<Case>, live: multiset<Case>, leaving: multiset<Case>)
    requires Balanced(inbox, subs, live, leaving)
    ensures Balanced(multiset{}, subs + inbox, live, leaving)
  {
  }

  /**
    * The first case receives removals; the others are subscriptions. The inbox and the cases together
    * hold the live subscriptions and those whose removal is on its way, which are all among the cases.
    */
  ghost predicate Sound(s: seq<Case>, inbox: seq<Case>, live: multiset<Case>, leaving: multiset<Case>) {
    && |s| >= 1 && s[0] == RemoveSub && RemoveSub !in Part(s, 1, |s|) && RemoveSub !in inbox
    && Balanced(multiset(inbox), Part(s, 1, |s|), live, leaving)
  }

  lemma SoundSubscribe(s: seq<Case>, inbox: seq<Case>, live: multiset<Case>, leaving: multiset<Case>, c: Case)
    requires Sound(s, inbox, live, leaving) && c.Sub?
    ensures Sound(s, inbox + [c], live + multiset{c}, leaving)
  {
    hide Part, Balanced;
    OnSubscribe(multiset(inbox), Part(s, 1, |s|), live, leaving, c);
    assert multiset(inbox + [c]) == multiset(inbox) + multiset{c};
  }

  lemma SoundUnsubscribe(s: seq<Case>, inbox: seq<Case>, live: multiset<Case>, leaving: multiset<Case>, c: Case, i: int)
    requires Sound(s, inbox, live, leaving) && c.Sub? && c in live
    requires -1 <= i < |inbox| && (i == -1 <==> c !in inbox) && (i >= 0 ==> inbox[i] == c)
    ensures i >= 0 ==> multiset(Without(inbox, i)) == multiset(inbox) - multiset{c}
    ensures i >= 0 ==> Sound(s, Without(inbox, i), live - multiset{c}, leaving)
    ensures i == -1 ==> Sound(s, inbox, live - multiset{c}, leaving + multiset{c})
  {
    hide Part, Balanced, Without;
    OnUnsubscribe(multiset(inbox), Part(s, 1, |s|), live, leaving, c);
    if i >= 0 {
      WithoutOne(inbox, i);
    }
  }

  lemma WithoutOne(s: seq<Case>, i: nat)
    requires i < |s|
    ensures multiset(Without(s, i)) == multiset(s) - multiset{s[i]}
    ensures RemoveSub in Without(s, i) ==> RemoveSub in s
  {
    assert s == s[..i] + [s[i]] + s[i + 1..];
  }

  lemma SoundCollect(s: seq<Case>, inbox: seq<Case>, live: multiset<Case>, leaving: multiset<Case>)
    requires Sound(s, inbox, live, leaving)
    ensures Sound(s + inbox, [], live, leaving)
    ensures Part(s + inbox, 1, |s + inbox|) == Part(s, 1, |s|) + multiset(inbox)
  {
    hide Part, Balanced;
    PartAppend(s, inbox, 1, s + inbox);
    OnCollect(multiset(inbox), Part(s, 1, |s|), live, leaving);
    var none: seq<Case> := [];
    assert multiset(none) == multiset{};
  }

  lemma SoundSwap(s: seq<Case>, inbox: seq<Case>, live: multiset<Case>, leaving: multiset<Case>, i: nat, last: nat)
    requires Sound(s, inbox, live, leaving) && 1 <= i <= last < |s|
    ensures Sound(Swapped(s, i, last), inbox, live, leaving)
  {
    hide Part, Balanced;
    var end, s' := last + 1, Swapped(s, i, last);
    SwappedActive(s, 1, i, last, end);
    SwappedDone(s, i, last, end);
    PartSplit(s, 1, end, |s|);
    PartSplit(s', 1, last, |s|);
    assert Part(s', 1, |s|) == Part(s, 1, |s|);
  }

  lemma SoundDelete(s: seq<Case>, inbox: seq<Case>, live: multiset<Case>, leaving: multiset<Case>, c: Case, i: nat)
    requires Sound(s, inbox, live, leaving) && 1 <= i < |s| && s[i] == c && c in leaving
    ensures Sound(Without(s, i), inbox, live, leaving - multiset{c})
  {
    hide Part, Balanced;
    var less: nat := |s| - 1;
    WithoutPart(s, 1, i, |s|, less);
    OnRemove(multiset(inbox), Part(s, 1, |s|), live, leaving, c);
  }

  /** A case that is leaving is among the subscriptions. */
  lemma LeavingIsServed(s: seq<Case>, inbox: seq<Case>, live: multiset<Case>, leaving: multiset<Case>, c: Case)
    requires Sound(s, inbox, live, leaving) && c in leaving
    ensures c in s && c.Sub?
  {
    assert Part(s, 1, |s|)[c] > 0;
    assert c in s[1..|s|];
  }

  /** A send in progress: the first `active` cases are still owed the value, and `nsent` got it. */
  ghost predicate Sending(s: seq<Case>, active: nat, l: Ledger, nsent: nat) {
    && 1 <= active <= |s| && nsent == |l.delivered|
    && Accounts(Part(s, 1, active), Part(s, active, |s|), l)
  }

  lemma SendStarts(s: seq<Case>)
    requires |s| >= 1
    ensures Sending(s, |s|, Ledger(Part(s, 1, |s|), multiset{}, multiset{}, multiset{}), 0)
  {
  }

  lemma DeliverStep(s: seq<Case>, active: nat, l: Ledger, nsent: nat, i: nat, last: nat)
    requires Sending(s, active, l, nsent) && 1 <= i < active && last + 1 == active
    ensures Sending(Swapped(s, i, last), last, l.(delivered := l.delivered + multiset{s[i]}), nsent + 1)
  {
    hide Part, Accounts, Swapped;
    SwappedActive(s, 1, i, last, active);
    SwappedDone(s, i, last, active);
    OnDeliver(Part(s, 1, active), Part(s, active, |s|), l, s[i]);
    SwappedLength(s, i, last);
  }

  lemma SwappedLength(s: seq<Case>, i: nat, last: nat)
    requires i < |s| && last < |s|
    ensures |Swapped(s, i, last)| == |s|
  {
  }

  /** Removing an active case is a miss; removing a finished one changes nothing that was delivered. */
  lemma CancelStep(s: seq<Case>, active: nat, l: Ledger, nsent: nat, i: nat, less: nat)
    requires Sending(s, active, l, nsent) && 1 <= i < |s| && less + 1 == active
    ensures i < active ==> Sending(Without(s, i), less, l.(missed := l.missed + multiset{s[i]}), nsent)
    ensures i >= active ==> Sending(Without(s, i), active, l.(dropped := l.dropped + multiset{s[i]}), nsent)
  {
    hide Part, Accounts, Without;
    var short: nat := |s| - 1;
    OnCancel(Part(s, 1, active), Part(s, active, |s|), l, s[i]);
    WithoutOther(s, 1, active, i, short);
    WithoutLength(s, i);
    if i < active {
      WithoutPart(s, 1, i, active, less);
    } else {
      WithoutPart(s, active, i, |s|, short);
    }
  }

  lemma WithoutLength(s: seq<Case>, i: nat)
    requires i < |s|
    ensures |Without(s, i)| + 1 == |s|
  {
  }

  /** When nothing is owed, whoever was not removed has as many copies as subscriptions. */
  lemma AllServed(s: seq<Case>, l: Ledger, nsent: nat)
    requires Sending(s, 1, l, nsent)
    ensures nsent == |l.delivered|
    ensures l.start == l.delivered + l.missed
    ensures l.start == Part(s, 1, |s|) + l.missed + l.dropped
    ensures forall c :: c !in l.missed ==> l.delivered[c] == l.start[c]
  {
    var owed := Part(s, 1, 1);
    assert forall c :: owed[c] == 0;
  }

  /** What another goroutine may do while a send is in progress. */
  datatype Op = Subscribing(c: Case) | Unsubscribing(c: Case)

  /** An operation that has an effect: only channels are subscribed, and only live subscriptions are ended. */
  predicate Effective(live: multiset<Case>, op: Op) {
    op.c.Sub? && (op.Unsubscribing? ==> op.c in live)
  }

  /** The live subscriptions after one operation. */
  function Applied(live: multiset<Case>, op: Op): multiset<Case> {
    if !Effective(live, op) then live
    else if op.Subscribing? then live + multiset{op.c} else live - multiset{op.c}
  }

  /** The subscription that an operation ends, if any. */
  function Ended(live: multiset<Case>, op: Op): multiset<Case> {
    if op.Unsubscribing? && Effective(live, op) then multiset{op.c} else multiset{}
  }

  /** The live subscriptions after the operations. */
  ghost function After(live: multiset<Case>, ops: seq<Op>): multiset<Case> {
    if ops == [] then live else Applied(After(live, ops[..|ops| - 1]), ops[|ops| - 1])
  }

  /** The subscriptions the operations end. */
  ghost function Cancelled(live: multiset<Case>, ops: seq<Op>): multiset<Case> {
    if ops == [] then multiset{}
    else Cancelled(live, ops[..|ops| - 1]) + Ended(After(live, ops[..|ops| - 1]), ops[|ops| - 1])
  }

  /** The subscriptions the operations add. */
  ghost function Added(ops: seq<Op>): multiset<Case> {
    if ops == [] then multiset{}
    else
      var op := ops[|ops| - 1];
      Added(ops[..|ops| - 1]) + if op.Subscribing? && op.c.Sub? then multiset{op.c} else multiset{}
  }

  /** Live subscriptions change by exactly what is added and what is cancelled. */
  lemma {:induction false} AfterIs(live: multiset<Case>, ops: seq<Op>, c: Case)
    ensures After(live, ops)[c] + Cancelled(live, ops)[c] == live[c] + Added(ops)[c]
  {
    if ops != [] {
      AfterIs(live, ops[..|ops| - 1], c);
    }
  }

  /** Operations in two lots are operations in one. */
  lemma {:induction false} AfterBoth(live: multiset<Case>, a: seq<Op>, b: seq<Op>)
    ensures After(live, a + b) == After(After(live, a), b)
    ensures Cancelled(live, a + b) == Cancelled(live, a) + Cancelled(After(live, a), b)
    decreases |b|
  {
    hide Applied, Ended;
    if b == [] {
      assert a + b == a;
    } else {
      var init, op := b[..|b| - 1], b[|b| - 1];
      AfterBoth(live, a, init);
      AfterLast(live, a + b, a + init, op);
      AfterLast(After(live, a), b, init, op);
    }
  }

  lemma AfterLast(live: multiset<Case>, ops: seq<Op>, init: seq<Op>, op: Op)
    requires ops == init + [op]
    ensures After(live, ops) == Applied(After(live, init), op)
    ensures Cancelled(live, ops) == Cancelled(live, init) + Ended(After(live, init), op)
  {
    assert ops[..|ops| - 1] == init;
  }

  /** What others do in the first `rounds` rounds. */
  function History(script: nat -> seq<Op>, rounds: nat): seq<Op> {
    if rounds == 0 then [] else History(script, rounds - 1) + script(rounds - 1)
  }

  /** Of the cases offered in this order, the first being offer number `k`, those whose receiver was ready. */
  function Taken(offers: seq<Case>, ready: nat -> bool, k: nat): seq<Case> {
    if offers == [] then []
    else
      Taken(offers[..|offers| - 1], ready, k) + if ready(k + |offers| - 1) then [offers[|offers| - 1]] else []
  }

  lemma TakenOne(offers: seq<Case>, ready: nat -> bool, k: nat, c: Case, n: nat)
    requires n == k + |offers|
    ensures Taken(offers + [c], ready, k) == Taken(offers, ready, k) + if ready(n) then [c] else []
  {
    assert (offers + [c])[..|offers|] == offers;
  }

  lemma {:induction false} TakenBoth(a: seq<Case>, b: seq<Case>, ready: nat -> bool, k: nat, n: nat)
    requires n == k + |a|
    ensures Taken(a + b, ready, k) == Taken(a, ready, k) + Taken(b, ready, n)
    decreases |b|
  {
    if b == [] {
      assert a + b == a;
    } else {
      TakenBoth(a, b[..|b| - 1], ready, k, n);
      assert (a + b)[..|a + b| - 1] == a + b[..|b| - 1];
    }
  }

  /** One more of the cases that remain to be offered. */
  lemma OfferedMore(offered: multiset<Case>, rest: multiset<Case>, all: multiset<Case>, c: Case)
    requires offered + rest == all && c in rest
    ensures (offered + multiset{c}) + (rest - multiset{c}) == all
  {
    assert forall x :: (offered + rest)[x] == all[x];
  }

  /** Where a round of offers stands: `offered` of `all` cases had their turn, and those `taken` got the value. */
  ghost predicate Tried(ready: nat -> bool, first: nat, all: multiset<Case>, rest: multiset<Case>,
                        l: Ledger, l': Ledger, offered: seq<Case>, taken: seq<Case>) {
    && multiset(offered) + rest == all && taken == Taken(offered, ready, first)
    && l' == l.(delivered := l.delivered + multiset(taken))
  }

  lemma TriedNone(ready: nat -> bool, first: nat, all: multiset<Case>, l: Ledger)
    ensures Tried(ready, first, all, all, l, l, [], [])
  {
  }

  lemma TriedOne(ready: nat -> bool, first: nat, all: multiset<Case>, rest: multiset<Case>,
                 l: Ledger, l': Ledger, offered: seq<Case>, taken: seq<Case>, c: Case, n: nat)
    requires Tried(ready, first, all, rest, l, l', offered, taken) && c in rest && n == first + |offered|
    ensures ready(n) ==>
      Tried(ready, first, all, rest - multiset{c}, l, l'.(delivered := l'.delivered + multiset{c}), offered + [c],
            taken + [c])
    ensures !ready(n) ==> Tried(ready, first, all, rest - multiset{c}, l, l', offered + [c], taken)
  {
    hide Taken;
    TakenOne(offered, ready, first, c, n);
    OfferedMore(multiset(offered), rest, all, c);
    assert multiset(offered + [c]) == multiset(offered) + multiset{c};
    assert multiset(taken + [c]) == multiset(taken) + multiset{c};
    assert taken + [] == taken;
    assert l.delivered + multiset(taken + [c]) == l.delivered + multiset(taken) + multiset{c};
  }

  lemma TriedAll(ready: nat -> bool, first: nat, all: multiset<Case>, rest: multiset<Case>,
                 l: Ledger, l': Ledger, offered: seq<Case>, taken: seq<Case>)
    requires Tried(ready, first, all, rest, l, l', offered, taken) && rest == multiset{}
    ensures multiset(offered) == all && taken == Taken(offered, ready, first)
    ensures l' == l.(delivered := l.delivered + multiset(taken))
  {
  }

  /** What remains to be offered when the case at `i` was served, or not. */
  lemma OneLess(s: seq<Case>, i: nat, next: nat, active: nat, last: nat)
    requires i <= last < |s| && last + 1 == active && next == i + 1
    ensures s[i] in Part(s, i, active)
    ensures Part(Swapped(s, i, last), i, last) == Part(s, i, active) - multiset{s[i]}
    ensures Part(s, next, active) == Part(s, i, active) - multiset{s[i]}
  {
    hide Part, Swapped;
    SwappedLength(s, i, last);
    SwappedActive(s, i, i, last, active);
    PartAround(s, i, i, next, active);
    PartNone(s, i);
  }

  /** Whoever is leaving or was taken out was leaving before or has been cancelled since. */
  ghost predicate Excused(leaving: multiset<Case>, l: Ledger, before: multiset<Case>, cancelled: multiset<Case>) {
    forall c: Case :: leaving[c] + l.missed[c] + l.dropped[c] <= before[c] + cancelled[c]
  }

  lemma ExcusedMore(leaving: multiset<Case>, l: Ledger, before: multiset<Case>, cancelled: multiset<Case>,
                    leaving': multiset<Case>, more: multiset<Case>)
    requires Excused(leaving, l, before, cancelled) && leaving' <= leaving + more
    ensures Excused(leaving', l, before, cancelled + more)
  {
  }

  lemma ExcusedOut(leaving: multiset<Case>, l: Ledger, before: multiset<Case>, cancelled: multiset<Case>, c: Case)
    requires Excused(leaving, l, before, cancelled) && c in leaving
    ensures Excused(leaving - multiset{c}, l.(missed := l.missed + multiset{c}), before, cancelled)
    ensures Excused(leaving - multiset{c}, l.(dropped := l.dropped + multiset{c}), before, cancelled)
  {
  }

  /** The first offers were made to every subscription in `start`. */
  ghost predicate OfferedTo(offers: seq<Case>, start: multiset<Case>) {
    |start| <= |offers| && multiset(offers[..|start|]) == start
  }

  lemma OffersGoOn(from: nat, tries: seq<Case>, tries': seq<Case>, start: multiset<Case>)
    requires from <= |tries| && tries <= tries'
    requires (|tries| == from && multiset(tries'[from..]) == start) || OfferedTo(tries[from..], start)
    ensures OfferedTo(tries'[from..], start)
  {
    var offers, offers' := tries[from..], tries'[from..];
    if OfferedTo(offers, start) {
      assert offers'[..|start|] == offers[..|start|];
    } else {
      assert |multiset(offers')| == |offers'|;
      assert offers'[..|start|] == offers';
    }
  }

  /** The log of a send: who was sent the value, and who was offered it, in how many rounds. */
  ghost predicate Logged(ready: nat -> bool, first: nat, offers: seq<Case>, sends: seq<Case>, rounds: nat, l: Ledger) {
    multiset(sends) == l.delivered && |sends| <= |Taken(offers, ready, first)| + rounds
  }

  lemma LoggedOffers(ready: nat -> bool, first: nat, offers: seq<Case>, sends: seq<Case>, rounds: nat, l: Ledger,
                     more: seq<Case>, n: nat, taken: seq<Case>, l': Ledger)
    requires Logged(ready, first, offers, sends, rounds, l) && n == first + |offers| && taken == Taken(more, ready, n)
    requires l'.delivered == l.delivered + multiset(taken)
    ensures Logged(ready, first, offers + more, sends + taken, rounds, l')
  {
    hide Taken;
    TakenBoth(offers, more, ready, first, n);
    assert multiset(sends + taken) == multiset(sends) + multiset(taken);
  }

  /** What a send changes besides the cases. */
  datatype Snapshot = Snapshot(sent: seq<Case>, tries: seq<Case>, live: multiset<Case>, leaving: multiset<Case>)

  /** How far a send has come since `was`: the logs of both kinds of sends, and who has come and gone. */
  ghost predicate Progress(ready: nat -> bool, was: Snapshot, now: Snapshot, ops: seq<Op>, rounds: nat, l: Ledger) {
    && was.tries <= now.tries && was.sent <= now.sent
    && Logged(ready, |was.tries|, now.tries[|was.tries|..], now.sent[|was.sent|..], rounds, l)
    && now.live == After(was.live, ops) && Excused(now.leaving, l, was.leaving, Cancelled(was.live, ops))
  }

  lemma ProgressNone(ready: nat -> bool, was: Snapshot, l: Ledger)
    requires l.delivered == l.missed == l.dropped == multiset{}
    ensures Progress(ready, was, was, [], 0, l)
  {
  }

  lemma Longer(all: seq<Case>, from: nat, all': seq<Case>)
    requires from <= |all| && all <= all'
    ensures all'[from..] == all[from..] + all'[|all|..]
  {
  }

  lemma ProgressOffers(ready: nat -> bool, was: Snapshot, now: Snapshot, ops: seq<Op>, rounds: nat, l: Ledger,
                       now': Snapshot, l': Ledger)
    requires Progress(ready, was, now, ops, rounds, l) && now.tries <= now'.tries && now.sent <= now'.sent
    requires now'.sent[|now.sent|..] == Taken(now'.tries[|now.tries|..], ready, |now.tries|)
    requires l'.delivered == l.delivered + multiset(now'.sent[|now.sent|..]) && l'.missed == l.missed
    requires l'.dropped == l.dropped
    requires now'.live == now.live && now'.leaving == now.leaving
    ensures Progress(ready, was, now', ops, rounds, l')
  {
    hide After, Cancelled, Taken, Logged;
    Longer(now.tries, |was.tries|, now'.tries);
    Longer(now.sent, |was.sent|, now'.sent);
    LoggedOffers(ready, |was.tries|, now.tries[|was.tries|..], now.sent[|was.sent|..], rounds, l,
                 now'.tries[|now.tries|..], |now.tries|, now'.sent[|now.sent|..], l');
  }

  lemma ProgressMeanwhile(ready: nat -> bool, was: Snapshot, now: Snapshot, ops: seq<Op>, rounds: nat, l: Ledger,
                          now': Snapshot, more: seq<Op>)
    requires Progress(ready, was, now, ops, rounds, l) && now'.live == After(now.live, more)
    requires now' == now.(live := now'.live, leaving := now'.leaving)
    requires now'.leaving <= now.leaving + Cancelled(now.live, more)
    ensures Progress(ready, was, now', ops + more, rounds, l)
  {
    hide After, Cancelled, Logged, Excused;
    AfterBoth(was.live, ops, more);
    ExcusedMore(now.leaving, l, was.leaving, Cancelled(was.live, ops), now'.leaving, Cancelled(now.live, more));
  }

  lemma ProgressDelivered(ready: nat -> bool, was: Snapshot, now: Snapshot, ops: seq<Op>, rounds: nat, l: Ledger,
                          now': Snapshot, c: Case)
    requires Progress(ready, was, now, ops, rounds, l) && now' == now.(sent := now.sent + [c])
    ensures Progress(ready, was, now', ops, rounds + 1, l.(delivered := l.delivered + multiset{c}))
  {
    hide After, Cancelled, Taken;
    var sends := now.sent[|was.sent|..];
    assert now'.sent[|was.sent|..] == sends + [c];
    assert multiset(sends + [c]) == multiset(sends) + multiset{c};
  }

  lemma ProgressRemoved(ready: nat -> bool, was: Snapshot, now: Snapshot, ops: seq<Op>, rounds: nat, l: Ledger,
                        now': Snapshot, c: Case, l': Ledger)
    requires Progress(ready, was, now, ops, rounds, l) && c in now.leaving
    requires now' == now.(leaving := now.leaving - multiset{c})
    requires l' == l.(missed := l.missed + multiset{c}) || l' == l.(dropped := l.dropped + multiset{c})
    ensures Progress(ready, was, now', ops, rounds + 1, l')
  {
    hide After, Cancelled, Taken, Excused;
    ExcusedOut(now.leaving, l, was.leaving, Cancelled(was.live, ops), c);
  }

  /** Who was neither leaving before nor cancelled since was not removed. */
  lemma NotExcused(leaving: multiset<Case>, l: Ledger, before: multiset<Case>, cancelled: multiset<Case>)
    requires Excused(leaving, l, before, cancelled)
    ensures forall c :: c !in before && c !in cancelled ==> c !in l.missed && c !in l.dropped
  {
    forall c | c !in before && c !in cancelled
      ensures c !in l.missed && c !in l.dropped
    {
      assert leaving[c] + l.missed[c] + l.dropped[c] <= before[c] + cancelled[c];
    }
  }

  /** When the send loop ends, everyone who did not leave has been sent the value once a subscription. */
  lemma SendDone(s: seq<Case>, nsent: nat, ready: nat -> bool, was: Snapshot, now: Snapshot, ops: seq<Op>, rounds: nat,
                 l: Ledger)
    requires Sending(s, 1, l, nsent) && Progress(ready, was, now, ops, rounds, l)
    ensures l.start == l.delivered + l.missed && Part(s, 1, |s|) + l.missed + l.dropped == l.start
    ensures was.sent <= now.sent && nsent == |now.sent| - |was.sent| && multiset(now.sent[|was.sent|..]) == l.delivered
    ensures was.tries <= now.tries && nsent <= |Taken(now.tries[|was.tries|..], ready, |was.tries|)| + rounds
    ensures now.live == After(was.live, ops) && Excused(now.leaving, l, was.leaving, Cancelled(was.live, ops))
    ensures forall c ::
              c !in was.leaving && c !in Cancelled(was.live, ops) ==> multiset(now.sent[|was.sent|..])[c] == l.start[c]
  {
    hide After, Cancelled, Taken, Excused, Part, Accounts;
    AllServed(s, l, nsent);
    var sends := now.sent[|was.sent|..];
    assert |multiset(sends)| == |sends|;
    NotExcused(now.leaving, l, was.leaving, Cancelled(was.live, ops));
  }
}

/** One-to-many delivery on channels, with subscriptions coming and going during a send. */
module Feeds {
  import opened CaseSpec

  /** What one blocking select ends with. */
  datatype Pick = Delivered(index: nat) | Removed(index: nat)

  class Feed {
    var sendCases: array<Case>
    var len: nat
    var inbox: seq<Case>
    /** Subscriptions not given up yet, and removals on their way to the send loop. */
    var live: multiset<Case>
    var leaving: multiset<Case>
    /** The channels that were sent a value, and those that were offered one without blocking. */
    var sent: seq<Case>
    var tries: seq<Case>

    ghost function Cases(): seq<Case>
      reads this, sendCases
      requires len <= sendCases.Length
    {
      sendCases[..len]
    }

    ghost predicate Valid()
      reads this, sendCases
    {
      len <= sendCases.Length && Sound(Cases(), inbox, live, leaving)
    }

    ghost function Subs(): multiset<Case>
      reads this, sendCases
      requires Valid()
    {
      Part(Cases(), 1, len)
    }

    constructor ()
      ensures Valid() && fresh(sendCases) && live == multiset{} && leaving == multiset{} && sent == tries == []
    {
      sendCases := new Case[1](_ => RemoveSub);
      len, inbox, leaving, live, sent, tries := 1, [], multiset{}, multiset{}, [], [];
    }

    /** New channels wait in the inbox for the next send. */
    method Subscribe(c: Case)
      requires Valid() && c.Sub?
      modifies this`inbox, this`live
      ensures Valid() && live == old(live) + multiset{c} && inbox == old(inbox) + [c]
    {
      hide Sound;
      SoundSubscribe(Cases(), inbox, live, leaving, c);
      inbox := inbox + [c];
      live := live + multiset{c};
    }

    /** The index of the first case of the channel. */
    static method Find(s: seq<Case>, c: Case) returns (index: int)
      ensures -1 <= index < |s| && (index == -1 <==> c !in s)
      ensures index >= 0 ==> s[index] == c && c !in s[..index]
    {
      for i := 0 to |s|
        invariant c !in s[..i]
      {
        if s[i] == c {
          return i;
        }
      }
      return -1;
    }

    /** Ends a subscription: at once if it is in the inbox, or else its removal is on its way. */
    method Unsubscribe(c: Case)
      requires Valid() && c in live && c.Sub?
      modifies this`inbox, this`live, this`leaving
      ensures Valid() && live == old(live) - multiset{c}
      ensures if c in old(inbox) then leaving == old(leaving) && multiset(inbox) == multiset(old(inbox)) - multiset{c}
              else inbox == old(inbox) && leaving == old(leaving) + multiset{c}
    {
      hide Sound, Without;
      var index := Find(inbox, c);
      SoundUnsubscribe(Cases(), inbox, live, leaving, c, index);
      live := live - multiset{c};
      if index != -1 {
        inbox := Without(inbox, index);
      } else {
        leaving := leaving + multiset{c};
      }
    }

    /** Moves an active case behind the active ones. */
    method Deactivate(i: nat, active: nat) returns (last: nat)
      requires Valid() && 1 <= i < active <= len
      modifies sendCases
      ensures Valid() && last == active - 1 && Cases() == Swapped(old(Cases()), i, last)
    {
      hide Sound;
      last := active - 1;
      SoundSwap(Cases(), inbox, live, leaving, i, last);
      sendCases[i], sendCases[last] := sendCases[last], sendCases[i];
      assert Cases() == Swapped(old(Cases()), i, last);
    }

    /** Closes the gap of a deleted case, in place. */
    method Delete(index: nat)
      requires index < len <= sendCases.Length
      modifies this`len, sendCases
      ensures len == old(len) - 1 && Cases() == Without(old(Cases()), index)
    {
      var i := index;
      while i + 1 < len
        invariant index <= i < len == old(len)
        invariant forall k :: 0 <= k < index || i < k < len ==> sendCases[k] == old(sendCases[k])
        invariant forall k :: index <= k < i ==> sendCases[k] == old(sendCases[k + 1])
      {
        sendCases[i] := sendCases[i + 1];
        i := i + 1;
      }
      len := len - 1;
    }

    /** Takes a leaving subscription out of the cases: the first case of its channel. */
    method Remove(c: Case) returns (index: nat)
      requires Valid() && c in leaving
      modifies this`len, this`leaving, sendCases
      ensures Valid() && leaving == old(leaving) - multiset{c}
      ensures 1 <= index < old(len) && old(Cases())[index] == c && len == old(len) - 1
      ensures Cases() == Without(old(Cases()), index)
    {
      hide Sound, Without;
      LeavingIsServed(Cases(), inbox, live, leaving, c);
      index := Find(sendCases[..len], c);
      FirstIsReceive();
      SoundDelete(Cases(), inbox, live, leaving, c, index);
      Delete(index);
      leaving := leaving - multiset{c};
    }

    lemma FirstIsReceive()
      requires Valid()
      ensures 1 <= len && sendCases[0] == RemoveSub
    {
    }

    /** Moves the cases to a buffer of at least `total` places. */
    method Reserve(total: nat)
      requires len <= sendCases.Length
      modifies this`sendCases
      ensures len <= sendCases.Length && total <= sendCases.Length && Cases() == old(Cases())
      ensures sendCases == old(sendCases) || fresh(sendCases)
    {
      if total > sendCases.Length {
        var small := sendCases;
        var bigger := new Case[total](_ => RemoveSub);
        for k := 0 to len
          invariant sendCases == small && small[..] == old(sendCases[..]) && bigger[..k] == small[..k]
        {
          bigger[k] := small[k];
        }
        sendCases := bigger;
      }
    }

    /** Appends the inbox to the cases. */
    method Collect()
      requires Valid()
      modifies this`sendCases, this`len, this`inbox, sendCases
      ensures Valid() && inbox == [] && (sendCases == old(sendCases) || fresh(sendCases))
      ensures Cases() == old(Cases()) + old(inbox)
      ensures Subs() == old(Subs()) + multiset(old(inbox))
    {
      hide Sound, Part;
      SoundCollect(Cases(), inbox, live, leaving);
      Reserve(len + |inbox|);
      Fill();
      len, inbox := len + |inbox|, [];
      assert Cases() == old(Cases()) + old(inbox);
    }

    method Fill()
      requires len + |inbox| <= sendCases.Length
      modifies sendCases
      ensures sendCases[..len] == old(sendCases[..len]) && sendCases[len..len + |inbox|] == inbox
    {
      for k := 0 to |inbox|
        invariant sendCases[..len] == old(sendCases[..len]) && sendCases[len..len + k] == inbox[..k]
      {
        sendCases[len + k] := inbox[k];
      }
    }

    /**
      * Offers the value to every active case once, without blocking. Exactly those whose receiver is
      * ready get it: `ready(k)` says so of offer number `k`.
      */
    method TryAll(ready: nat -> bool, active: nat, nsent: nat, ghost l: Ledger)
      returns (active': nat, nsent': nat, ghost l': Ledger)
      requires Valid() && Sending(Cases(), active, l, nsent)
      modifies this`sent, this`tries, sendCases
      ensures Valid() && Sending(Cases(), active', l', nsent') && active' <= active && l'.start == l.start
      ensures l'.missed == l.missed && l'.dropped == l.dropped
      ensures old(tries) <= tries && multiset(tries[|old(tries)|..]) == Part(old(Cases()), 1, active)
      ensures sent == old(sent) + Taken(tries[|old(tries)|..], ready, |old(tries)|)
      ensures l'.delivered == l.delivered + multiset(sent[|old(sent)|..])
    {
      hide Sound, Part, Accounts, Swapped, Taken, Tried;
      active', nsent', l' := active, nsent, l;
      var i: nat := 1;
      ghost var all, first := Part(Cases(), 1, active), |tries|;
      ghost var offered: seq<Case>, taken: seq<Case> := [], [];
      TriedNone(ready, first, all, l);
      while i < active'
        invariant Valid() && Sending(Cases(), active', l', nsent') && 1 <= i <= active' <= active
        invariant tries == old(tries) + offered && sent == old(sent) + taken
        invariant Tried(ready, first, all, Part(Cases(), i, active'), l, l', offered, taken)
        decreases active' - i
      {
        var c, offer := sendCases[i], |tries|;
        ghost var next: nat, last: nat := i + 1, active' - 1;
        OneLess(Cases(), i, next, active', last);
        TriedOne(ready, first, all, Part(Cases(), i, active'), l, l', offered, taken, c, offer);
        tries, offered := tries + [c], offered + [c];
        if ready(offer) {
          DeliverStep(Cases(), active', l', nsent', i, last);
          l', taken := l'.(delivered := l'.delivered + multiset{c}), taken + [c];
          nsent', sent := nsent' + 1, sent + [c];
          active' := Deactivate(i, active');
        } else {
          i := i + 1;
        }
      }
      PartNone(Cases(), i);
      TriedAll(ready, first, all, Part(Cases(), i, active'), l, l', offered, taken);
      assert tries[|old(tries)|..] == offered && sent[|old(sent)|..] == taken;
    }

    /** What others do meanwhile: new subscriptions wait in the inbox, and only cancelled ones start leaving. */
    method Interfere(ops: seq<Op>)
      requires Valid()
      modifies this`inbox, this`live, this`leaving
      ensures Valid() && live == After(old(live), ops)
      ensures old(leaving) <= leaving <= old(leaving) + Cancelled(old(live), ops)
    {
      hide Sound;
      for i := 0 to |ops|
        invariant Valid() && live == After(old(live), ops[..i])
        invariant old(leaving) <= leaving <= old(leaving) + Cancelled(old(live), ops[..i])
      {
        assert ops[..i + 1][..i] == ops[..i];
        var op := ops[i];
        if Effective(live, op) {
          match op
          case Subscribing(c) => Subscribe(c);
          case Unsubscribing(c) => Unsubscribe(c);
        }
      }
      assert ops[..|ops|] == ops;
    }

    /** Waits for one active channel to take the value, or for one subscription that is leaving. */
    method Select(active: nat, nsent: nat, ghost l: Ledger)
      returns (pick: Pick, active': nat, nsent': nat, ghost l': Ledger)
      requires Valid() && Sending(Cases(), active, l, nsent) && active > 1
      modifies this`sent, this`len, this`leaving, sendCases
      ensures Valid() && Sending(Cases(), active', l', nsent') && active' <= active && l'.start == l.start
      ensures 1 <= pick.index < old(len)
      ensures var c := old(Cases())[pick.index];
        match pick
        case Delivered(i) =>
          && i < active && active' == active - 1 && nsent' == nsent + 1
          && l' == l.(delivered := l.delivered + multiset{c})
          && sent == old(sent) + [c] && leaving == old(leaving) && Cases() == Swapped(old(Cases()), i, active')
        case Removed(i) =>
          && c in old(leaving) && leaving == old(leaving) - multiset{c} && sent == old(sent) && nsent' == nsent
          && Cases() == Without(old(Cases()), i) && active' == (if i < active then active - 1 else active)
          && l' == if i < active then l.(missed := l.missed + multiset{c}) else l.(dropped := l.dropped + multiset{c})
    {
      hide Sound, Part, Accounts, Swapped, Without;
      ghost var next: nat := active - 1;
      var removal: bool := *;
      if removal && leaving != multiset{} {
        var c :| c in leaving;
        ghost var was := Cases();
        var index := Remove(c);
        CancelStep(was, active, l, nsent, index, next);
        if index < active {
          return Removed(index), active - 1, nsent, l.(missed := l.missed + multiset{c});
        }
        return Removed(index), active, nsent, l.(dropped := l.dropped + multiset{c});
      }
      var chosen :| 1 <= chosen < active;
      DeliverStep(Cases(), active, l, nsent, chosen, next);
      pick, l' := Delivered(chosen), l.(delivered := l.delivered + multiset{sendCases[chosen]});
      sent := sent + [sendCases[chosen]];
      active' := Deactivate(chosen, active);
      nsent' := nsent + 1;
    }

    ghost function Now(): Snapshot
      reads this
    {
      Snapshot(sent, tries, live, leaving)
    }

    /** Lets others act, then blocks until one channel takes the value or one subscription is removed. */
    method Wait(ready: nat -> bool, ops: seq<Op>, active: nat, nsent: nat, ghost l: Ledger,
                ghost was: Snapshot, ghost before: seq<Op>, ghost rounds: nat)
      returns (active': nat, nsent': nat, ghost l': Ledger)
      requires Valid() && Sending(Cases(), active, l, nsent) && active > 1
      requires Progress(ready, was, Now(), before, rounds, l)
      modifies this`sent, this`len, this`leaving, this`inbox, this`live, sendCases
      ensures Valid() && Sending(Cases(), active', l', nsent') && l'.start == l.start
      ensures active' + len < active + old(len)
      ensures Progress(ready, was, Now(), before + ops, rounds + 1, l')
    {
      hide Sound, Part, Accounts, Swapped, Without, Progress, After, Cancelled;
      ghost var now := Now();
      Interfere(ops);
      ProgressMeanwhile(ready, was, now, before, rounds, l, Now(), ops);
      ghost var cases := Cases();
      now := Now();
      var pick: Pick;
      pick, active', nsent', l' := Select(active, nsent, l);
      if pick.Removed? {
        WithoutLength(cases, pick.index);
        ProgressRemoved(ready, was, now, before + ops, rounds, l, Now(), cases[pick.index], l');
      } else {
        SwappedLength(cases, pick.index, active');
        ProgressDelivered(ready, was, now, before + ops, rounds, l, Now(), cases[pick.index]);
      }
    }

    /** The rounds of a send, until no case is active: an offer to every active case, then one blocking select. */
    method Serve(ready: nat -> bool, script: nat -> seq<Op>) returns (nsent: nat, rounds: nat, ghost l: Ledger)
      requires Valid()
      modifies this, sendCases
      ensures Valid() && sendCases == old(sendCases) && l.start == old(Subs()) && Sending(Cases(), 1, l, nsent)
      ensures Progress(ready, old(Now()), Now(), History(script, rounds), rounds, l)
      ensures |old(tries)| <= |tries| && OfferedTo(tries[|old(tries)|..], l.start)
    {
      hide Sound, Part, Accounts, Taken, OfferedTo, Progress;
      var active: nat := len;
      nsent, rounds, l := 0, 0, Ledger(Subs(), multiset{}, multiset{}, multiset{});
      FirstIsReceive();
      SendStarts(Cases());
      ProgressNone(ready, Now(), l);
      while true
        invariant Valid() && sendCases == old(sendCases) && l.start == old(Subs()) && Sending(Cases(), active, l, nsent)
        invariant Progress(ready, old(Now()), Now(), History(script, rounds), rounds, l)
        invariant |old(tries)| <= |tries|
        invariant || (|tries| == |old(tries)| && Part(Cases(), 1, active) == l.start)
                  || OfferedTo(tries[|old(tries)|..], l.start)
        decreases active + len
      {
        ghost var now, l1 := Now(), l;
        active, nsent, l := TryAll(ready, active, nsent, l);
        ProgressOffers(ready, old(Now()), now, History(script, rounds), rounds, l1, Now(), l);
        OffersGoOn(|old(tries)|, now.tries, tries, l.start);
        if active == 1 {
          return;
        }
        active, nsent, l := Wait(ready, script(rounds), active, nsent, l, old(Now()), History(script, rounds), rounds);
        rounds := rounds + 1;
      }
    }

    /**
      * Delivers a value to every subscription there is when it starts. `ready` says which offers find
      * their receiver ready, and `script` what others do before each blocking select. A subscription
      * misses the value only if it was leaving before or was cancelled meanwhile; every other one gets
      * exactly one copy.
      */
    method Send(ready: nat -> bool, script: nat -> seq<Op>) returns (nsent: nat, rounds: nat, ghost l: Ledger)
      requires Valid()
      modifies this, sendCases
      ensures Valid() && (sendCases == old(sendCases) || fresh(sendCases))
      ensures l.start == old(Subs()) + multiset(old(inbox)) && l.start == l.delivered + l.missed
      ensures Subs() + l.missed + l.dropped == l.start
      ensures old(sent) <= sent && nsent == |sent| - |old(sent)| && multiset(sent[|old(sent)|..]) == l.delivered
      ensures old(tries) <= tries && OfferedTo(tries[|old(tries)|..], l.start)
      ensures nsent <= |Taken(tries[|old(tries)|..], ready, |old(tries)|)| + rounds
      ensures live == After(old(live), History(script, rounds))
      ensures Excused(leaving, l, old(leaving), Cancelled(old(live), History(script, rounds)))
      ensures forall c :: c !in old(leaving) && c !in Cancelled(old(live), History(script, rounds)) ==>
                multiset(sent[|old(sent)|..])[c] == l.start[c]
    {
      hide Sound, Part, Sending, Taken, Excused, OfferedTo, Progress, After, Cancelled;
      Collect();
      nsent, rounds, l := Serve(ready, script);
      SendDone(Cases(), nsent, ready, old(Now()), Now(), History(script, rounds), rounds, l);
    }
  }
}
