/** How the nonces of an account's lists lie while the pool follows the chain head. */
module PoolRuns {
  import opened Transactions
  import opened TxItems
  import opened TxListSpec
  import opened TxNoncers
  import opened PoolSpec
  import opened WaterLevel

  /** The chain state at the head. */
  datatype Env = Env(nonce: Address -> nat, balance: Address -> nat, maxGas: nat)

  /** `Running` is the rule between runs of the pool's reorg loop. A head that extends the last one
      puts the accounts back to `Reset`; promotion and demotion then bring each forward again.
      `Moved` is all that any head leaves of the rule. */
  datatype Phase = Moved | Reset | Promoted | Demoted | Running

  /** Pending nonces are exactly those from the state nonce `s` to the virtual nonce `v`, and the
      queued ones are at or above `v`. */
  ghost predicate Run(p: Items, q: Items, s: nat, v: nat) {
    && s <= v
    && (forall n :: n in p <==> s <= n < v)
    && (forall n :: n in q ==> v <= n)
  }

  /** The nonces have no gap between them. */
  ghost predicate Interval(p: Items) {
    p == map[] || forall n: nat :: MinKey(p) <= n < Top(p) ==> n in p
  }

  /** `t` is where the pending run that begins at the state nonce ends. */
  ghost predicate InPhase(ph: Phase, p: Items, q: Items, s: nat, v: nat, cost: nat, gas: nat) {
    var t := NextGap(p, s);
    match ph
    case Moved =>
      && Interval(p)
      && (v < s ==> p == map[] || Top(p) == v) && (v > s ==> p != map[] && MinKey(p) == s && Top(p) == v)
    case Reset =>
      (forall n :: n in p ==> n < t) && (forall n :: n in q && s <= n ==> t <= n) && v == s
    case Promoted =>
      && (forall n :: n in p ==> n < t) && (forall n :: n in q ==> t <= n)
      && (v == s || (v == t && Unpaid(AtLeast(p, s), cost, gas) == map[]))
    case Demoted =>
      (forall n :: n in p ==> s <= n < t) && (forall n :: n in q ==> t <= n) && (v == s || v == t)
    case Running =>
      Run(p, q, s, v)
  }

  ghost predicate PhaseAt(ph: Phase, env: Env, nonces: map<Address, nat>, pending: Lists, queue: Lists, a: Address) {
    InPhase(ph, ItemsOf(pending, a), ItemsOf(queue, a), env.nonce(a), Virtual(env.nonce, nonces, a), env.balance(a),
            env.maxGas)
  }

  /** The accounts in `done` are in phase `ph'`, all others in phase `ph`. */
  ghost predicate Mixed(ph: Phase, ph': Phase, done: set<Address>, env: Env, nonces: map<Address, nat>, pending: Lists,
                        queue: Lists) {
    forall a {:trigger PhaseAt(ph, env, nonces, pending, queue, a)}
             {:trigger PhaseAt(ph', env, nonces, pending, queue, a)} ::
      PhaseAt(if a in done then ph' else ph, env, nonces, pending, queue, a)
  }

  ghost predicate AllIn(ph: Phase, env: Env, nonces: map<Address, nat>, pending: Lists, queue: Lists) {
    Mixed(ph, ph, {}, env, nonces, pending, queue)
  }

  /** What happens to one account leaves the others in their phases. */
  lemma KeepPhases(ph: Phase, ph': Phase, done: set<Address>, done': set<Address>, env: Env, a: Address,
                   nonces: map<Address, nat>, pending: Lists, queue: Lists,
                   nonces': map<Address, nat>, pending': Lists, queue': Lists)
    requires Mixed(ph, ph', done, env, nonces, pending, queue)
    requires SameBut(a, pending, pending') && SameBut(a, queue, queue') && NoncesBut(env.nonce, a, nonces, nonces')
    requires forall b :: b != a ==> (b in done <==> b in done')
    requires PhaseAt(if a in done then ph' else ph, env, nonces, pending, queue, a) ==>
               PhaseAt(if a in done' then ph' else ph, env, nonces', pending', queue', a)
    ensures Mixed(ph, ph', done', env, nonces', pending', queue')
  {
    forall b ensures PhaseAt(if b in done' then ph' else ph, env, nonces', pending', queue', b) {
      assert PhaseAt(if b in done then ph' else ph, env, nonces, pending, queue, b);
    }
  }

  // what removing, adding and replacing a transaction do to a run

  lemma RunCut(p: Items, q: Items, s: nat, v: nat, n: nat, p': Items, q': Items, v': nat)
    requires Run(p, q, s, v) && CutOut(p, q, n, p', q')
    requires v' == if n in p && n < v then n else v
    ensures Run(p', q', s, v')
  {
  }

  lemma MovedCut(p: Items, q: Items, s: nat, v: nat, cost: nat, gas: nat, n: nat, p': Items, q': Items, v': nat)
    requires InPhase(Moved, p, q, s, v, cost, gas) && CutOut(p, q, n, p', q')
    requires v' == if n in p && n < v then n else v
    ensures InPhase(Moved, p', q', s, v', cost, gas)
  {
    if n in p && MinKey(p) < n {
      assert MinKey(p) in p';
      assert n - 1 in p;
      assert n - 1 in p';
    }
  }

  lemma MovedOrRunCut(ph: Phase, cost: nat, gas: nat, p: Items, q: Items, s: nat, v: nat, n: nat, p': Items, q': Items,
                      v': nat)
    requires ph in {Running, Moved} && InPhase(ph, p, q, s, v, cost, gas) && CutOut(p, q, n, p', q')
    requires v' == if n in p && n < v then n else v
    ensures InPhase(ph, p', q', s, v', cost, gas)
  {
    hide CutOut, Run, Interval;
    if ph == Moved {
      MovedCut(p, q, s, v, cost, gas, n, p', q', v');
    } else {
      RunCut(p, q, s, v, n, p', q', v');
    }
  }

  lemma RemovalKeeps(ph: Phase, env: Env, a: Address, nonces: map<Address, nat>, pending: Lists, queue: Lists,
                     nonces': map<Address, nat>, pending': Lists, queue': Lists, n: nat)
    requires ph in {Running, Moved} && AllIn(ph, env, nonces, pending, queue)
    requires SameBut(a, pending, pending') && SameBut(a, queue, queue') && NoncesBut(env.nonce, a, nonces, nonces')
    requires CutOut(ItemsOf(pending, a), ItemsOf(queue, a), n, ItemsOf(pending', a), ItemsOf(queue', a))
    requires var v := Virtual(env.nonce, nonces, a);
             Virtual(env.nonce, nonces', a) == if n in ItemsOf(pending, a) && n < v then n else v
    ensures AllIn(ph, env, nonces', pending', queue')
  {
    hide SameBut, NoncesBut, CutOut, Mixed, Run, Interval;
    if PhaseAt(ph, env, nonces, pending, queue, a) {
      MovedOrRunCut(ph, env.balance(a), env.maxGas, ItemsOf(pending, a), ItemsOf(queue, a), env.nonce(a),
                    Virtual(env.nonce, nonces, a), n, ItemsOf(pending', a), ItemsOf(queue', a),
                    Virtual(env.nonce, nonces', a));
    }
    KeepPhases(ph, ph, {}, {}, env, a, nonces, pending, queue, nonces', pending', queue');
  }

  lemma RemovalRuns(env: Env, a: Address, nonces: map<Address, nat>, pending: Lists, queue: Lists,
                    nonces': map<Address, nat>, pending': Lists, queue': Lists, n: nat)
    requires SameBut(a, pending, pending') && SameBut(a, queue, queue') && NoncesBut(env.nonce, a, nonces, nonces')
    requires CutOut(ItemsOf(pending, a), ItemsOf(queue, a), n, ItemsOf(pending', a), ItemsOf(queue', a))
    requires var v := Virtual(env.nonce, nonces, a);
             Virtual(env.nonce, nonces', a) == if n in ItemsOf(pending, a) && n < v then n else v
    ensures AllIn(Running, env, nonces, pending, queue) ==> AllIn(Running, env, nonces', pending', queue')
    ensures AllIn(Moved, env, nonces, pending, queue) ==> AllIn(Moved, env, nonces', pending', queue')
  {
    hide SameBut, NoncesBut, CutOut, AllIn;
    if AllIn(Running, env, nonces, pending, queue) {
      RemovalKeeps(Running, env, a, nonces, pending, queue, nonces', pending', queue', n);
    }
    if AllIn(Moved, env, nonces, pending, queue) {
      RemovalKeeps(Moved, env, a, nonces, pending, queue, nonces', pending', queue', n);
    }
  }

  lemma RunsEnqueued(env: Env, nonces: map<Address, nat>, pending: Lists, queue: Lists, queue': Lists, tx: Tx)
    requires SameBut(tx.sender, queue, queue')
    requires tx.nonce !in ItemsOf(pending, tx.sender) && env.nonce(tx.sender) <= tx.nonce
    requires ItemsOf(queue', tx.sender) == ItemsOf(queue, tx.sender)[tx.nonce := tx]
    ensures AllIn(Running, env, nonces, pending, queue) ==> AllIn(Running, env, nonces, pending, queue')
    ensures AllIn(Moved, env, nonces, pending, queue) ==> AllIn(Moved, env, nonces, pending, queue')
  {
    hide SameBut, NoncesBut, Mixed, Interval;
    SameLists(tx.sender, pending);
    SameNonces(env.nonce, tx.sender, nonces);
    if AllIn(Running, env, nonces, pending, queue) {
      KeepPhases(Running, Running, {}, {}, env, tx.sender, nonces, pending, queue, nonces, pending, queue');
    }
    if AllIn(Moved, env, nonces, pending, queue) {
      KeepPhases(Moved, Moved, {}, {}, env, tx.sender, nonces, pending, queue, nonces, pending, queue');
    }
  }

  lemma MovedReplaced(p: Items, q: Items, s: nat, v: nat, cost: nat, gas: nat, tx: Tx)
    requires InPhase(Moved, p, q, s, v, cost, gas) && tx.nonce in p
    ensures InPhase(Moved, p[tx.nonce := tx], q, s, v, cost, gas)
  {
    var p' := p[tx.nonce := tx];
    assert forall n :: n in p' <==> n in p;
    assert MinKey(p') in p && MinKey(p) in p' && MaxKey(p') in p && MaxKey(p) in p';
  }

  lemma RunsReplaced(env: Env, nonces: map<Address, nat>, pending: Lists, pending': Lists, queue: Lists, tx: Tx)
    requires SameBut(tx.sender, pending, pending') && tx.nonce in ItemsOf(pending, tx.sender)
    requires ItemsOf(pending', tx.sender) == ItemsOf(pending, tx.sender)[tx.nonce := tx]
    ensures AllIn(Running, env, nonces, pending, queue) ==> AllIn(Running, env, nonces, pending', queue)
    ensures AllIn(Moved, env, nonces, pending, queue) ==> AllIn(Moved, env, nonces, pending', queue)
  {
    hide SameBut, NoncesBut, Mixed;
    SameLists(tx.sender, queue);
    SameNonces(env.nonce, tx.sender, nonces);
    if AllIn(Running, env, nonces, pending, queue) {
      KeepPhases(Running, Running, {}, {}, env, tx.sender, nonces, pending, queue, nonces, pending', queue);
    }
    if AllIn(Moved, env, nonces, pending, queue) {
      var a := tx.sender;
      if PhaseAt(Moved, env, nonces, pending, queue, a) {
        MovedReplaced(ItemsOf(pending, a), ItemsOf(queue, a), env.nonce(a), Virtual(env.nonce, nonces, a),
                      env.balance(a), env.maxGas, tx);
      }
      KeepPhases(Moved, Moved, {}, {}, env, a, nonces, pending, queue, nonces, pending', queue);
    }
  }

  // promotion

  lemma RunPromoted(p: Items, q: Items, s: nat, v: nat, cost: nat, gas: nat, p': Items, q': Items, v': nat)
    requires Run(p, q, s, v) && Promotes(p, q, s, v, cost, gas, p', q', v')
    ensures Run(p', q', s, v')
  {
    hide Top, ReadyCut;
    var rest := Payable(AtLeast(q, s), cost, gas);
    ReadyRun(rest, v);
    if ReadyCut(rest, v) > 0 {
      assert v in Below(rest, ReadyCut(rest, v));
    }
  }

  lemma GapIs(p: Items, s: nat, t: nat)
    requires s <= t && t !in p && forall n :: s <= n < t ==> n in p
    ensures NextGap(p, s) == t
  {
  }

  lemma ResetPromoted(p: Items, q: Items, s: nat, v: nat, cost: nat, gas: nat, p': Items, q': Items, v': nat)
    requires InPhase(Reset, p, q, s, v, cost, gas) && Promotes(p, q, s, v, cost, gas, p', q', v')
    ensures InPhase(Promoted, p', q', s, v', cost, gas)
  {
    hide Top, ReadyCut, NextGap;
    var rest := Payable(AtLeast(q, s), cost, gas);
    var c := ReadyCut(rest, s);
    ReadyRun(rest, s);
    if c > 0 {
      assert s in Below(rest, c);
      GapIs(p', s, c);
    } else {
      assert Below(rest, c) == map[] && p' == p;
    }
  }

  lemma NotQueuedPromoted(p: Items, s: nat, v: nat, cost: nat, gas: nat)
    requires InPhase(Reset, p, map[], s, v, cost, gas)
    ensures InPhase(Promoted, p, map[], s, v, cost, gas)
  {
  }

  // demotion

  lemma PromotedDemoted(p: Items, q: Items, s: nat, v: nat, cost: nat, gas: nat, p': Items, q': Items)
    requires InPhase(Promoted, p, q, s, v, cost, gas) && Demotes(p, q, s, cost, gas, p', q')
    ensures InPhase(Demoted, p', q', s, v, cost, gas)
  {
    hide NextGap;
    var t := NextGap(p, s);
    var m := AtLeast(p, s);
    assert forall n :: n in m <==> s <= n < t;
    var top := FilterKeepsRuns(m, cost, gas, s, t);
    FilterPartitions(true, m, cost, gas);
    GapIs(p', s, top);
  }

  /** A head that does not lower any nonce finds every account in phase `Reset`. */
  lemma RunReset(p: Items, q: Items, s: nat, v: nat, s': nat, cost: nat, gas: nat)
    requires Run(p, q, s, v) && s <= s'
    ensures InPhase(Reset, p, q, s', s', cost, gas)
  {
    GapIs(p, s', if s' < v then v else s');
  }

  /** Setting the virtual nonce past the last pending one ends the run of the reorg loop. */
  lemma DemotedRuns(p: Items, q: Items, s: nat, v: nat, cost: nat, gas: nat)
    requires InPhase(Demoted, p, q, s, v, cost, gas)
    ensures p == map[] ==> Run(p, q, s, v)
    ensures p != map[] ==> Run(p, q, s, Top(p))
  {
    if p != map[] {
      var t := NextGap(p, s);
      assert MaxKey(p) < t && t - 1 in p;
    }
  }

  lemma RunIsDemoted(p: Items, q: Items, s: nat, v: nat, cost: nat, gas: nat)
    requires Run(p, q, s, v)
    ensures InPhase(Demoted, p, q, s, v, cost, gas)
  {
    GapIs(p, s, v);
  }

  /** Cutting the highest pending nonce keeps a run a run. */
  lemma CapPhase(ph: Phase, p: Items, q: Items, s: nat, v: nat, cost: nat, gas: nat, v': nat)
    requires ph in {Running, Demoted} && InPhase(ph, p, q, s, v, cost, gas) && p != map[]
    requires var m := MaxKey(p); v' == if m < v then m else v
    ensures InPhase(ph, Below(p, MaxKey(p)), q, s, v', cost, gas)
  {
    var m := MaxKey(p);
    var t := if ph == Running then v else NextGap(p, s);
    assert m + 1 == t by { assert t - 1 in p; }
    GapIs(Below(p, m), s, m);
  }

  lemma CapPhases(ph: Phase, env: Env, a: Address, nonces: map<Address, nat>, pending: Lists, queue: Lists,
                  nonces': map<Address, nat>, pending': Lists)
    requires ph in {Running, Demoted} && AllIn(ph, env, nonces, pending, queue)
    requires SameBut(a, pending, pending') && NoncesBut(env.nonce, a, nonces, nonces')
    requires var p := ItemsOf(pending, a);
             && p != map[] && ItemsOf(pending', a) == Below(p, MaxKey(p))
             && var m, v := MaxKey(p), Virtual(env.nonce, nonces, a);
                Virtual(env.nonce, nonces', a) == if m < v then m else v
    ensures AllIn(ph, env, nonces', pending', queue)
  {
    hide SameBut, NoncesBut, Mixed, InPhase, MaxKey, Below;
    if PhaseAt(ph, env, nonces, pending, queue, a) {
      CapPhase(ph, ItemsOf(pending, a), ItemsOf(queue, a), env.nonce(a), Virtual(env.nonce, nonces, a), env.balance(a),
               env.maxGas, Virtual(env.nonce, nonces', a));
    }
    SameLists(a, queue);
    KeepPhases(ph, ph, {}, {}, env, a, nonces, pending, queue, nonces', pending', queue);
  }

  lemma CapKeeps(env: Env, a: Address, nonces: map<Address, nat>, pending: Lists, queue: Lists,
                 nonces': map<Address, nat>, pending': Lists, m: nat)
    requires SameBut(a, pending, pending') && NoncesBut(env.nonce, a, nonces, nonces')
    requires var p := ItemsOf(pending, a); p != map[] && m == MaxKey(p) && ItemsOf(pending', a) == Below(p, m)
    requires var v := Virtual(env.nonce, nonces, a); Virtual(env.nonce, nonces', a) == if m < v then m else v
    ensures AllIn(Running, env, nonces, pending, queue) ==> AllIn(Running, env, nonces', pending', queue)
    ensures AllIn(Demoted, env, nonces, pending, queue) ==> AllIn(Demoted, env, nonces', pending', queue)
  {
    hide SameBut, NoncesBut, AllIn, MaxKey, Below, Virtual, ItemsOf;
    if AllIn(Running, env, nonces, pending, queue) {
      CapPhases(Running, env, a, nonces, pending, queue, nonces', pending');
    }
    if AllIn(Demoted, env, nonces, pending, queue) {
      CapPhases(Demoted, env, a, nonces, pending, queue, nonces', pending');
    }
  }

  // one account at a time

  /** How promotion takes an account from one phase to the next. */
  ghost predicate Onward(ph: Phase, ph': Phase) {
    (ph == Running && ph' == Running) || (ph == Reset && ph' == Promoted)
  }

  lemma AccountPromoted(ph: Phase, ph': Phase, p: Items, q: Items, s: nat, v: nat, cost: nat, gas: nat, p': Items,
                        q': Items, v': nat)
    requires Onward(ph, ph') && InPhase(ph, p, q, s, v, cost, gas)
    requires Promotes(p, q, s, v, cost, gas, p', q', v') || (q == map[] && p' == p && q' == q && v' == v)
    ensures InPhase(ph', p', q', s, v', cost, gas)
  {
    hide Promotes, InPhase;
    if Promotes(p, q, s, v, cost, gas, p', q', v') {
      if ph == Running {
        assert InPhase(ph', p', q', s, v', cost, gas) by {
          InRun(p, q, s, v, cost, gas);
          RunPromoted(p, q, s, v, cost, gas, p', q', v');
          InRun(p', q', s, v', cost, gas);
        }
      } else {
        ResetPromoted(p, q, s, v, cost, gas, p', q', v');
      }
    } else if ph == Reset {
      NotQueuedPromoted(p, s, v, cost, gas);
    }
  }

  lemma InRun(p: Items, q: Items, s: nat, v: nat, cost: nat, gas: nat)
    ensures InPhase(Running, p, q, s, v, cost, gas) <==> Run(p, q, s, v)
  {
  }

  lemma PromoteStep(ph: Phase, ph': Phase, done: set<Address>, env: Env, locals: set<Address>, limit: nat, a: Address,
                    nonces: map<Address, nat>, pending: Lists, queue: Lists,
                    nonces': map<Address, nat>, pending': Lists, queue': Lists)
    requires Onward(ph, ph') && Mixed(ph, ph', done, env, nonces, pending, queue) && a !in done
    requires SameBut(a, pending, pending') && SameBut(a, queue, queue') && NoncesBut(env.nonce, a, nonces, nonces')
    requires PromotedAt(env, locals, limit, nonces, pending, queue, nonces', pending', queue', a)
    ensures Mixed(ph, ph', done + {a}, env, nonces', pending', queue')
  {
    hide SameBut, NoncesBut, Mixed, InPhase, Promotes, Virtual;
    if PhaseAt(ph, env, nonces, pending, queue, a) {
      AccountPromoted(ph, ph', ItemsOf(pending, a), ItemsOf(queue, a), env.nonce(a), Virtual(env.nonce, nonces, a),
                      env.balance(a), env.maxGas, ItemsOf(pending', a), ItemsOf(queue', a),
                      Virtual(env.nonce, nonces', a));
    }
    KeepPhases(ph, ph', done, done + {a}, env, a, nonces, pending, queue, nonces', pending', queue');
  }

  /** Accounts without queued transactions need no promotion. */
  lemma AllPromoted(ph: Phase, ph': Phase, done: set<Address>, env: Env, nonces: map<Address, nat>, pending: Lists,
                    queue: Lists)
    requires Onward(ph, ph') && Mixed(ph, ph', done, env, nonces, pending, queue)
    requires ph == Running || forall a :: a in queue ==> a in done
    ensures AllIn(ph', env, nonces, pending, queue)
  {
    hide InPhase;
    forall a ensures PhaseAt(ph', env, nonces, pending, queue, a) {
      assert PhaseAt(if a in done then ph' else ph, env, nonces, pending, queue, a);
      if a !in done && ph == Reset {
        NotQueuedPromoted(ItemsOf(pending, a), env.nonce(a), Virtual(env.nonce, nonces, a), env.balance(a), env.maxGas);
      }
    }
  }

  lemma DemoteStep(done: set<Address>, env: Env, a: Address, nonces: map<Address, nat>, pending: Lists, queue: Lists,
                   pending': Lists, queue': Lists)
    requires Mixed(Promoted, Demoted, done, env, nonces, pending, queue) && a !in done
    requires SameBut(a, pending, pending') && SameBut(a, queue, queue')
    requires Demotes(ItemsOf(pending, a), ItemsOf(queue, a), env.nonce(a), env.balance(a), env.maxGas,
                     ItemsOf(pending', a), ItemsOf(queue', a))
    ensures Mixed(Promoted, Demoted, done + {a}, env, nonces, pending', queue')
  {
    hide SameBut, NoncesBut, Mixed, InPhase, Demotes;
    SameNonces(env.nonce, a, nonces);
    if PhaseAt(Promoted, env, nonces, pending, queue, a) {
      PromotedDemoted(ItemsOf(pending, a), ItemsOf(queue, a), env.nonce(a), Virtual(env.nonce, nonces, a),
                      env.balance(a), env.maxGas, ItemsOf(pending', a), ItemsOf(queue', a));
    }
    KeepPhases(Promoted, Demoted, done, done + {a}, env, a, nonces, pending, queue, nonces, pending', queue');
  }

  /** Accounts without pending transactions need no demotion. */
  lemma AllDemoted(done: set<Address>, env: Env, nonces: map<Address, nat>, pending: Lists, queue: Lists)
    requires Mixed(Promoted, Demoted, done, env, nonces, pending, queue)
    requires forall a :: a in pending ==> a in done
    ensures AllIn(Demoted, env, nonces, pending, queue)
  {
    forall a ensures PhaseAt(Demoted, env, nonces, pending, queue, a) {
      assert PhaseAt(if a in done then Demoted else Promoted, env, nonces, pending, queue, a);
    }
  }

  /** Dropping queued transactions disturbs no run. */
  lemma QueueTrimmed(ph: Phase, env: Env, nonces: map<Address, nat>, pending: Lists, queue: Lists, queue': Lists)
    requires ph in {Running, Demoted} && AllIn(ph, env, nonces, pending, queue) && Trimmed(queue, queue')
    ensures AllIn(ph, env, nonces, pending, queue')
  {
    forall a ensures PhaseAt(ph, env, nonces, pending, queue', a) {
      assert PhaseAt(ph, env, nonces, pending, queue, a);
      var t := LowestIsCut(ItemsOf(queue, a), |ItemsOf(queue', a)|);
    }
  }

  lemma StartMixed(ph: Phase, ph': Phase, env: Env, nonces: map<Address, nat>, pending: Lists, queue: Lists)
    requires AllIn(ph, env, nonces, pending, queue)
    ensures Mixed(ph, ph', {}, env, nonces, pending, queue)
  {
    forall a ensures PhaseAt(ph, env, nonces, pending, queue, a) {
      assert PhaseAt(if a in {} then ph else ph, env, nonces, pending, queue, a);
    }
  }

  lemma NonceStep(done: set<Address>, env: Env, a: Address, nonces: map<Address, nat>, pending: Lists, queue: Lists,
                  nonces': map<Address, nat>)
    requires Mixed(Demoted, Running, done, env, nonces, pending, queue) && a !in done
    requires NoncesBut(env.nonce, a, nonces, nonces')
    requires ItemsOf(pending, a) != map[] && Virtual(env.nonce, nonces', a) == Top(ItemsOf(pending, a))
    ensures Mixed(Demoted, Running, done + {a}, env, nonces', pending, queue)
  {
    hide SameBut, NoncesBut, Mixed, InPhase, Top;
    SameLists(a, pending);
    SameLists(a, queue);
    if PhaseAt(Demoted, env, nonces, pending, queue, a) {
      DemotedRuns(ItemsOf(pending, a), ItemsOf(queue, a), env.nonce(a), Virtual(env.nonce, nonces, a), env.balance(a),
                  env.maxGas);
      InRun(ItemsOf(pending, a), ItemsOf(queue, a), env.nonce(a), Virtual(env.nonce, nonces', a), env.balance(a),
            env.maxGas);
    }
    KeepPhases(Demoted, Running, done, done + {a}, env, a, nonces, pending, queue, nonces', pending, queue);
  }

  lemma AllRunning(done: set<Address>, env: Env, nonces: map<Address, nat>, pending: Lists, queue: Lists)
    requires Mixed(Demoted, Running, done, env, nonces, pending, queue)
    requires forall a :: a in pending ==> a in done
    ensures AllIn(Running, env, nonces, pending, queue)
  {
    hide InPhase;
    forall a ensures PhaseAt(Running, env, nonces, pending, queue, a) {
      assert PhaseAt(if a in done then Running else Demoted, env, nonces, pending, queue, a);
      if a !in done {
        DemotedRuns(map[], ItemsOf(queue, a), env.nonce(a), Virtual(env.nonce, nonces, a), env.balance(a), env.maxGas);
        InRun(map[], ItemsOf(queue, a), env.nonce(a), Virtual(env.nonce, nonces, a), env.balance(a), env.maxGas);
      }
    }
  }

  lemma RunningIsDemoted(env: Env, nonces: map<Address, nat>, pending: Lists, queue: Lists)
    requires AllIn(Running, env, nonces, pending, queue)
    ensures AllIn(Demoted, env, nonces, pending, queue)
  {
    hide InPhase;
    forall a ensures PhaseAt(Demoted, env, nonces, pending, queue, a) {
      assert PhaseAt(if a in {} then Running else Running, env, nonces, pending, queue, a);
      InRun(ItemsOf(pending, a), ItemsOf(queue, a), env.nonce(a), Virtual(env.nonce, nonces, a), env.balance(a),
            env.maxGas);
      RunIsDemoted(ItemsOf(pending, a), ItemsOf(queue, a), env.nonce(a), Virtual(env.nonce, nonces, a), env.balance(a),
                   env.maxGas);
    }
  }

  /** A new head whose state lowers no nonce. */
  lemma HeadMoved(env: Env, env': Env, nonces: map<Address, nat>, pending: Lists, queue: Lists)
    requires AllIn(Running, env, nonces, pending, queue) && forall a :: env.nonce(a) <= env'.nonce(a)
    ensures AllIn(Reset, env', map[], pending, queue)
  {
    hide InPhase;
    forall a ensures PhaseAt(Reset, env', map[], pending, queue, a) {
      assert PhaseAt(if a in {} then Running else Running, env, nonces, pending, queue, a);
      InRun(ItemsOf(pending, a), ItemsOf(queue, a), env.nonce(a), Virtual(env.nonce, nonces, a), env.balance(a),
            env.maxGas);
      RunReset(ItemsOf(pending, a), ItemsOf(queue, a), env.nonce(a), Virtual(env.nonce, nonces, a), env'.nonce(a),
               env'.balance(a), env'.maxGas);
    }
  }

  lemma RunMoved(p: Items, q: Items, s: nat, v: nat, s': nat, cost: nat, gas: nat)
    requires Run(p, q, s, v)
    ensures InPhase(Moved, p, q, s', s', cost, gas) && InPhase(Moved, p, q, s, v, cost, gas)
  {
    if s < v {
      assert s in p && v - 1 in p;
    }
  }

  /** Any new head, and one that cannot be opened. */
  lemma AnyHeadMoved(env: Env, env': Env, nonces: map<Address, nat>, pending: Lists, queue: Lists)
    requires AllIn(Running, env, nonces, pending, queue)
    ensures AllIn(Moved, env', map[], pending, queue) && AllIn(Moved, env, nonces, pending, queue)
  {
    hide InPhase, Run;
    forall a
      ensures PhaseAt(Moved, env', map[], pending, queue, a) && PhaseAt(Moved, env, nonces, pending, queue, a)
    {
      assert PhaseAt(if a in {} then Running else Running, env, nonces, pending, queue, a);
      InRun(ItemsOf(pending, a), ItemsOf(queue, a), env.nonce(a), Virtual(env.nonce, nonces, a), env.balance(a),
            env.maxGas);
      RunMoved(ItemsOf(pending, a), ItemsOf(queue, a), env.nonce(a), Virtual(env.nonce, nonces, a), env'.nonce(a),
               env'.balance(a), env'.maxGas);
      RunMoved(ItemsOf(pending, a), ItemsOf(queue, a), env.nonce(a), Virtual(env.nonce, nonces, a), env.nonce(a),
               env.balance(a), env.maxGas);
    }
  }

  /** Only the account at work can leave or enter the lists. */
  lemma KeysBut(x: Lists, y: Lists, a: Address, strict: bool)
    requires Tidy(x, strict) && Tidy(y, strict) && SameBut(a, x, y)
    ensures forall b :: b in y ==> b in x || b == a
  {
    forall b | b in y && b != a ensures b in x { assert ItemsOf(y, b) == ItemsOf(x, b); }
  }

  /** Nothing happened to the account. */
  ghost predicate SameAt(env: Env, nonces: map<Address, nat>, pending: Lists, queue: Lists,
                         nonces': map<Address, nat>, pending': Lists, queue': Lists, a: Address) {
    && ItemsOf(pending', a) == ItemsOf(pending, a) && ItemsOf(queue', a) == ItemsOf(queue, a)
    && Virtual(env.nonce, nonces', a) == Virtual(env.nonce, nonces, a)
  }

  /** What promotion leaves queued of `rest`; only local accounts have no limit. */
  function Capped(rest: Items, limit: Option<nat>): Items {
    match limit case None => rest case Some(k) => Lowest(rest, k)
  }

  /** Promotion of one account to the letter: exactly its executable run moves and exactly the lowest of the rest
      stays queued. */
  ghost predicate PromotesExactly(p: Items, q: Items, s: nat, v: nat, cost: nat, gas: nat, limit: Option<nat>,
                                  p': Items, q': Items, v': nat) {
    if q == map[] then p' == p && q' == q && v' == v
    else
      var rest := Payable(AtLeast(q, s), cost, gas);
      && Promotes(p, q, s, v, cost, gas, p', q', v')
      && q' == Capped(AtLeast(rest, ReadyCut(rest, v)), limit)
  }

  lemma PromotedExactly(p: Items, q: Items, s: nat, v: nat, cost: nat, gas: nat, limit: Option<nat>,
                        rest: Items, p': Items, q1: Items, q': Items, v': nat)
    requires q != map[] && rest == Payable(AtLeast(q, s), cost, gas)
    requires p' == p + Below(rest, ReadyCut(rest, v)) && q1 == AtLeast(rest, ReadyCut(rest, v))
    requires v' == if Below(rest, ReadyCut(rest, v)) == map[] then v else Top(Below(rest, ReadyCut(rest, v)))
    requires q' == Capped(q1, limit)
    ensures PromotesExactly(p, q, s, v, cost, gas, limit, p', q', v')
  {
    hide Payable, AtLeast, Below, ReadyCut, Top, Lowest, Splits, Part;
    if limit.Some? {
      SplitsCap(q1, limit.value);
      SplitPart(q1, Lowest(q1, limit.value), Excess(q1, limit.value));
    } else {
      PartRefl(q1);
    }
  }

  ghost predicate PromotedAt(env: Env, locals: set<Address>, limit: nat, nonces: map<Address, nat>, pending: Lists,
                             queue: Lists,
                             nonces': map<Address, nat>, pending': Lists, queue': Lists, a: Address) {
    PromotesExactly(ItemsOf(pending, a), ItemsOf(queue, a), env.nonce(a), Virtual(env.nonce, nonces, a),
                    env.balance(a), env.maxGas,
                    if a in locals then None else Some(limit),
                    ItemsOf(pending', a), ItemsOf(queue', a), Virtual(env.nonce, nonces', a))
  }

  ghost predicate PromotedIf(env: Env, locals: set<Address>, limit: nat, done: bool, nonces: map<Address, nat>,
                             pending: Lists, queue: Lists,
                             nonces': map<Address, nat>, pending': Lists, queue': Lists, a: Address) {
    if done then PromotedAt(env, locals, limit, nonces, pending, queue, nonces', pending', queue', a)
    else SameAt(env, nonces, pending, queue, nonces', pending', queue', a)
  }

  /** The accounts in `done` were promoted, and nothing happened to the others. */
  ghost predicate PromotedAll(env: Env, locals: set<Address>, limit: nat, done: set<Address>,
                              nonces: map<Address, nat>, pending: Lists, queue: Lists,
                              nonces': map<Address, nat>, pending': Lists, queue': Lists) {
    forall a {:trigger PromotedIf(env, locals, limit, a in done, nonces, pending, queue, nonces', pending', queue',
                                  a)} ::
      PromotedIf(env, locals, limit, a in done, nonces, pending, queue, nonces', pending', queue', a)
  }

  lemma PromotedNone(env: Env, locals: set<Address>, limit: nat, nonces: map<Address, nat>, pending: Lists,
                     queue: Lists)
    ensures PromotedAll(env, locals, limit, {}, nonces, pending, queue, nonces, pending, queue)
  {
  }

  /** Another account, not promoted before, is promoted. */
  lemma PromotedMore(env: Env, locals: set<Address>, limit: nat, done: set<Address>, a: Address,
                     nonces: map<Address, nat>, pending: Lists, queue: Lists,
                     nonces1: map<Address, nat>, pending1: Lists, queue1: Lists,
                     nonces': map<Address, nat>, pending': Lists, queue': Lists)
    requires PromotedAll(env, locals, limit, done, nonces, pending, queue, nonces1, pending1, queue1) && a !in done
    requires SameBut(a, pending1, pending') && SameBut(a, queue1, queue') && NoncesBut(env.nonce, a, nonces1, nonces')
    requires PromotedAt(env, locals, limit, nonces1, pending1, queue1, nonces', pending', queue', a)
    ensures PromotedAll(env, locals, limit, done + {a}, nonces, pending, queue, nonces', pending', queue')
  {
    hide PromotedIf, SameBut, NoncesBut;
    forall b
      ensures PromotedIf(env, locals, limit, b in done + {a}, nonces, pending, queue, nonces', pending', queue', b)
    {
      assert PromotedIf(env, locals, limit, b in done, nonces, pending, queue, nonces1, pending1, queue1, b);
      PromotedThen(env, locals, limit, b in done, a, b, nonces, pending, queue, nonces1, pending1, queue1, nonces',
                   pending', queue');
    }
  }

  lemma PromotedThen(env: Env, locals: set<Address>, limit: nat, done: bool, a: Address, b: Address,
                     nonces: map<Address, nat>, pending: Lists, queue: Lists,
                     nonces1: map<Address, nat>, pending1: Lists, queue1: Lists,
                     nonces': map<Address, nat>, pending': Lists, queue': Lists)
    requires PromotedIf(env, locals, limit, done, nonces, pending, queue, nonces1, pending1, queue1, b)
    requires (a == b ==> !done)
    requires SameBut(a, pending1, pending') && SameBut(a, queue1, queue') && NoncesBut(env.nonce, a, nonces1, nonces')
    requires PromotedAt(env, locals, limit, nonces1, pending1, queue1, nonces', pending', queue', a)
    ensures PromotedIf(env, locals, limit, done || a == b, nonces, pending, queue, nonces', pending', queue', b)
  {
    hide PromotesExactly, Virtual, ItemsOf;
    if a == b {
      assert ItemsOf(pending1, a) == ItemsOf(pending, a) && ItemsOf(queue1, a) == ItemsOf(queue, a);
    } else {
      assert ItemsOf(pending', b) == ItemsOf(pending1, b) && ItemsOf(queue', b) == ItemsOf(queue1, b);
      assert Virtual(env.nonce, nonces', b) == Virtual(env.nonce, nonces1, b);
    }
  }

  /** The accounts in `done` were demoted, and nothing happened to the others. */
  ghost predicate DemotedAll(env: Env, done: set<Address>, pending: Lists, queue: Lists, pending': Lists,
                             queue': Lists) {
    forall a {:trigger DemotedAt(env, a in done, pending, queue, pending', queue', a)} ::
      DemotedAt(env, a in done, pending, queue, pending', queue', a)
  }

  ghost predicate DemotedAt(env: Env, done: bool, pending: Lists, queue: Lists, pending': Lists, queue': Lists,
                            a: Address) {
    if done then
      Demotes(ItemsOf(pending, a), ItemsOf(queue, a), env.nonce(a), env.balance(a), env.maxGas, ItemsOf(pending', a),
              ItemsOf(queue', a))
    else ItemsOf(pending', a) == ItemsOf(pending, a) && ItemsOf(queue', a) == ItemsOf(queue, a)
  }

  lemma DemotedMore(env: Env, done: set<Address>, a: Address, pending: Lists, queue: Lists,
                    pending1: Lists, queue1: Lists, pending': Lists, queue': Lists)
    requires DemotedAll(env, done, pending, queue, pending1, queue1) && a !in done
    requires SameBut(a, pending1, pending') && SameBut(a, queue1, queue')
    requires DemotedAt(env, true, pending1, queue1, pending', queue', a)
    ensures DemotedAll(env, done + {a}, pending, queue, pending', queue')
  {
    hide Demotes;
    forall b
      ensures DemotedAt(env, b in done + {a}, pending, queue, pending', queue', b)
    {
      assert DemotedAt(env, b in done, pending, queue, pending1, queue1, b);
    }
  }

  /** The virtual nonces of the accounts in `done` are right past their last pending transaction; the others are as
      before. */
  ghost predicate Numbered(env: Env, done: set<Address>, pending: Lists, nonces: map<Address, nat>,
                           nonces': map<Address, nat>) {
    forall a {:trigger Virtual(env.nonce, nonces', a)} ::
      Virtual(env.nonce, nonces', a) == if a in done then Top(ItemsOf(pending, a)) else Virtual(env.nonce, nonces, a)
  }

  lemma NumberedMore(env: Env, done: set<Address>, a: Address, pending: Lists,
                     nonces: map<Address, nat>, nonces1: map<Address, nat>, nonces': map<Address, nat>)
    requires Numbered(env, done, pending, nonces, nonces1) && NoncesBut(env.nonce, a, nonces1, nonces')
    requires Virtual(env.nonce, nonces', a) == Top(ItemsOf(pending, a))
    ensures Numbered(env, done + {a}, pending, nonces, nonces')
  {
    hide Top, Virtual;
    forall b
      ensures Virtual(env.nonce, nonces', b)
           == if b in done + {a} then Top(ItemsOf(pending, b)) else Virtual(env.nonce, nonces, b)
    {
      if b != a {
        assert Virtual(env.nonce, nonces', b) == Virtual(env.nonce, nonces1, b);
      }
    }
  }

  lemma NumberedIs(env: Env, pending: Lists, nonces: map<Address, nat>, nonces': map<Address, nat>)
    requires Numbered(env, pending.Keys, pending, nonces, nonces')
    ensures forall a :: a in pending ==> Virtual(env.nonce, nonces', a) == Top(pending[a].items)
  {
  }

  /** A free transaction of account 0. */
  function Free(n: nat): Tx {
    Tx(n, 0, n, 0, 0, 1, 1, 100, false)
  }

  const BEFORE: Items := map[5 := Free(5), 6 := Free(6)]
  const BACK: Items := map[3 := Free(3)]
  const AFTER: Items := map[3 := Free(3), 5 := Free(5), 6 := Free(6)]

  /**
    * A head that lowers a state nonce from 5 to 3 while only nonce 3 comes back: promotion makes it
    * pending in front of 5 and 6, and demotion does not look behind the first nonce. The gap stays.
    */
  lemma LoweredNonceLeavesGap()
    ensures Run(BEFORE, map[], 5, 7)
    ensures PromotesExactly(BEFORE, BACK, 3, 3, 0, 0, None, AFTER, map[], 4)
    ensures Demotes(AFTER, map[], 3, 0, 0, AFTER, map[])
    ensures forall v: nat :: !Run(AFTER, map[], 3, v)
  {
    hide PromotesExactly, Demotes;
    BackIsReady();
    PromotedExactly(BEFORE, BACK, 3, 3, 0, 0, None, BACK, AFTER, map[], map[], 4);
    AfterIsKept();
    assert 6 in AFTER && 4 !in AFTER;
  }

  lemma BackIsReady()
    ensures BACK != map[] && BACK == Payable(AtLeast(BACK, 3), 0, 0) && ReadyCut(BACK, 3) == 4
    ensures Below(BACK, 4) == BACK && AtLeast(BACK, 4) == map[] && Top(BACK) == 4 && BEFORE + BACK == AFTER
  {
    assert 3 in BACK && AtLeast(BACK, 3) == BACK;
    assert MinKey(BACK) == 3 && MaxKey(BACK) == 3;
    assert NextGap(BACK, 3) == 4;
  }

  lemma AfterIsKept()
    ensures Demotes(AFTER, map[], 3, 0, 0, AFTER, map[])
  {
    assert 3 in AFTER && AtLeast(AFTER, 3) == AFTER;
    assert Payable(AFTER, 0, 0) == AFTER && Unpaid(AFTER, 0, 0) == map[];
  }
}
