/** What adding transactions one after the other does to the lists of each account. */
module Refills {
  import opened Transactions
  import opened TxItems
  import opened TxListSpec
  import opened TxNoncers
  import opened PoolSpec

  datatype AddError =
    AlreadyKnown | Invalid | NonceTooLow | Unfunded | Underpriced | PoolOverflow | ReplaceUnderpriced

  /** What validateTx finds before it looks at the nonce, apart from the size, and after. */
  datatype Checks = Checks(form: bool, funds: bool)

  /** Validation refuses transactions of more than four slots. */
  const TX_MAX_SIZE: nat := 4 * TX_SLOT_SIZE

  /** How a pool treats what it is sent: the checks, what counts as local, and the price bump. */
  datatype Policy = Policy(rules: Tx -> Checks, local: bool, forced: Tx -> bool, bump: nat) {
    predicate Local(tx: Tx) {
      local || forced(tx)
    }
  }

  /** One account: its pending and queued transactions, its virtual nonce, and whether it is local. */
  datatype Account = Account(p: Items, q: Items, v: nat, local: bool)

  /** The transaction of nonce `n` goes, and later pending ones are queued. */
  function Cut(acc: Account, n: nat): Account {
    if n in acc.p then
      acc.(p := Below(acc.p, n), q := acc.q + AtLeast(acc.p, n + 1), v := if n < acc.v then n else acc.v)
    else acc.(q := acc.q - {n})
  }

  /** The transactions of `a` among the evicted ones go, one after the other. */
  ghost function Evict(acc: Account, a: Address, drop: seq<Tx>): Account {
    if drop == [] then acc
    else
      var init, x := drop[..|drop| - 1], drop[|drop| - 1];
      if x.sender == a then Cut(Evict(acc, a, init), x.nonce) else Evict(acc, a, init)
  }

  /** `tx` takes the place of a pending transaction, or joins the queue and makes its sender local if it is. */
  function Join(acc: Account, tx: Tx, local: bool): Account {
    if tx.nonce in acc.p then acc.(p := acc.p[tx.nonce := tx])
    else acc.(q := acc.q[tx.nonce := tx], local := acc.local || local)
  }

  /** What became of one added transaction, and what was evicted for it. */
  datatype Entry = Entry(err: Option<AddError>, drop: seq<Tx>)

  ghost function Step(acc: Account, a: Address, tx: Tx, local: bool, e: Entry): Account {
    var rest := Evict(acc, a, e.drop);
    if e.err == None && tx.sender == a then Join(rest, tx, local) else rest
  }

  /** No transaction of the same nonce stands in the way, or it is outbid. */
  predicate Wins(acc: Account, tx: Tx, bump: nat) {
    if tx.nonce in acc.p then Outbids(acc.p[tx.nonce], tx, bump)
    else tx.nonce in acc.q ==> Outbids(acc.q[tx.nonce], tx, bump)
  }

  ghost predicate IsKnown(acc: Account, tx: Tx) {
    Has(acc.p, tx) || Has(acc.q, tx)
  }

  predicate WellFormed(tx: Tx, c: Checks) {
    c.form && tx.size <= TX_MAX_SIZE
  }

  /** Why the sender's account was treated as the entry says. */
  ghost predicate Explains(acc: Account, tx: Tx, c: Checks, s: nat, bump: nat, e: Entry) {
    var known, form, high := IsKnown(acc, tx), WellFormed(tx, c), s <= tx.nonce;
    && (e.err == Some(AlreadyKnown) <==> known)
    && (e.err == Some(Invalid) <==> !known && !form)
    && (e.err == Some(NonceTooLow) <==> !known && form && !high)
    && (e.err == Some(Unfunded) <==> !known && form && high && !c.funds)
    && (e.err == None ==> Wins(Evict(acc, tx.sender, e.drop), tx, bump))
    && (e.err == Some(ReplaceUnderpriced) ==> !Wins(Evict(acc, tx.sender, e.drop), tx, bump))
    && (e.err.Some? && e.err != Some(ReplaceUnderpriced) ==> e.drop == [])
  }

  /** An account after the transactions with an entry in the log were added. */
  ghost function Refill(acc: Account, a: Address, txs: seq<Tx>, log: seq<Entry>, how: Policy): Account
    requires |log| <= |txs|
  {
    if log == [] then acc
    else
      var k := |log| - 1;
      Step(Refill(acc, a, txs, log[..k], how), a, txs[k], how.Local(txs[k]), log[k])
  }

  /** What is evicted of an account was there. */
  ghost predicate Evictable(acc: Account, a: Address, drop: seq<Tx>) {
    forall i :: 0 <= i < |drop| && drop[i].sender == a ==> IsKnown(acc, drop[i])
  }

  /** Every entry of a transaction of `a` is explained by what the account was then. */
  ghost predicate Explained(acc: Account, a: Address, s: nat, txs: seq<Tx>, log: seq<Entry>, how: Policy)
    requires |log| <= |txs|
  {
    log == [] ||
      (var k := |log| - 1;
       var acc' := Refill(acc, a, txs, log[..k], how);
       && Explained(acc, a, s, txs, log[..k], how)
       && (txs[k].sender == a ==> Explains(acc', txs[k], how.rules(txs[k]), s, how.bump, log[k]))
       && Evictable(acc', a, log[k].drop))
  }

  // with room for all

  /** Nothing was evicted, and nothing refused for want of room. */
  ghost predicate Quiet(log: seq<Entry>) {
    forall i :: 0 <= i < |log| ==>
      log[i].drop == [] && log[i].err != Some(Underpriced) && log[i].err != Some(PoolOverflow)
  }

  /** What adding one transaction does to an account when there is room. */
  ghost function Put(acc: Account, a: Address, s: nat, tx: Tx, how: Policy): Account {
    var c := how.rules(tx);
    if tx.sender == a && !IsKnown(acc, tx) && WellFormed(tx, c) && s <= tx.nonce && c.funds && Wins(acc, tx, how.bump)
    then Join(acc, tx, how.Local(tx)) else acc
  }

  ghost function PutAll(acc: Account, a: Address, s: nat, txs: seq<Tx>, how: Policy): Account {
    if txs == [] then acc else Put(PutAll(acc, a, s, txs[..|txs| - 1], how), a, s, txs[|txs| - 1], how)
  }

  lemma StepIsPut(acc: Account, a: Address, s: nat, tx: Tx, e: Entry, how: Policy)
    requires tx.sender == a ==> Explains(acc, tx, how.rules(tx), s, how.bump, e)
    requires e.drop == [] && e.err != Some(Underpriced) && e.err != Some(PoolOverflow)
    ensures Step(acc, a, tx, how.Local(tx), e) == Put(acc, a, s, tx, how)
  {
    hide Join, Has, Wins;
    assert Evict(acc, a, []) == acc;
    if tx.sender == a && e.err.Some? {
      match e.err.value {
        case AlreadyKnown =>
        case Invalid =>
        case NonceTooLow =>
        case Unfunded =>
        case ReplaceUnderpriced =>
      }
    }
  }

  /** With room for all, what an account becomes depends on nothing but the account and the transactions. */
  lemma {:induction false} RefillIsPut(acc: Account, a: Address, s: nat, txs: seq<Tx>, log: seq<Entry>, how: Policy)
    requires |log| <= |txs| && Explained(acc, a, s, txs, log, how) && Quiet(log)
    ensures Refill(acc, a, txs, log, how) == PutAll(acc, a, s, txs[..|log|], how)
    decreases |log|
  {
    hide Step, Put, Explains, Evictable;
    if log != [] {
      var k := |log| - 1;
      RefillIsPut(acc, a, s, txs, log[..k], how);
      assert txs[..|log|][..k] == txs[..k];
      StepIsPut(Refill(acc, a, txs, log[..k], how), a, s, txs[k], log[k], how);
    }
  }

  // all accounts

  /** The lists of all accounts, their virtual nonces, and the local accounts. */
  datatype Found = Found(nonces: map<Address, nat>, pending: Lists, queue: Lists, locals: set<Address>) {
    function At(state: Address -> nat, a: Address): Account {
      Account(ItemsOf(pending, a), ItemsOf(queue, a), Virtual(state, nonces, a), a in locals)
    }
  }

  ghost predicate Evicts(state: Address -> nat, x: Found, drop: seq<Tx>, y: Found) {
    forall a {:trigger y.At(state, a)} :: y.At(state, a) == Evict(x.At(state, a), a, drop)
  }

  ghost predicate AllEvictable(state: Address -> nat, x: Found, drop: seq<Tx>) {
    forall a {:trigger x.At(state, a)} :: Evictable(x.At(state, a), a, drop)
  }

  ghost predicate Steps(state: Address -> nat, x: Found, tx: Tx, local: bool, e: Entry, y: Found) {
    forall a {:trigger y.At(state, a)} :: y.At(state, a) == Step(x.At(state, a), a, tx, local, e)
  }

  /** Every account was refilled as the log says, and the log is explained. */
  ghost predicate Refilled(state: Address -> nat, x: Found, txs: seq<Tx>, log: seq<Entry>, how: Policy, y: Found) {
    && |log| <= |txs|
    && forall a {:trigger y.At(state, a)} ::
         && y.At(state, a) == Refill(x.At(state, a), a, txs, log, how)
         && Explained(x.At(state, a), a, state(a), txs, log, how)
  }

  lemma EvictOne(acc: Account, a: Address, tx: Tx)
    ensures Evict(acc, a, [tx]) == if tx.sender == a then Cut(acc, tx.nonce) else acc
  {
    hide Cut;
    assert [tx][..0] == [];
    assert Evict(acc, a, []) == acc;
  }

  /** One transaction is removed. */
  lemma RemovesOne(state: Address -> nat, x: Found, tx: Tx, y: Found)
    requires SameBut(tx.sender, x.pending, y.pending) && SameBut(tx.sender, x.queue, y.queue)
    requires NoncesBut(state, tx.sender, x.nonces, y.nonces) && y.locals == x.locals
    requires CutOut(ItemsOf(x.pending, tx.sender), ItemsOf(x.queue, tx.sender), tx.nonce,
                    ItemsOf(y.pending, tx.sender), ItemsOf(y.queue, tx.sender))
    requires var v := Virtual(state, x.nonces, tx.sender);
             Virtual(state, y.nonces, tx.sender)
             == if tx.nonce in ItemsOf(x.pending, tx.sender) && tx.nonce < v then tx.nonce else v
    ensures Evicts(state, x, [tx], y)
  {
    hide Evict, ItemsOf, Virtual;
    forall a
      ensures y.At(state, a) == Evict(x.At(state, a), a, [tx])
    {
      EvictOne(x.At(state, a), a, tx);
      if a != tx.sender {
        assert ItemsOf(y.pending, a) == ItemsOf(x.pending, a) && ItemsOf(y.queue, a) == ItemsOf(x.queue, a);
        assert Virtual(state, y.nonces, a) == Virtual(state, x.nonces, a);
      }
    }
  }

  lemma EvictsNone(state: Address -> nat, x: Found)
    ensures Evicts(state, x, [], x)
  {
  }

  /** Nothing happens for a transaction whose nonce is free. */
  lemma EvictsGone(state: Address -> nat, x: Found, tx: Tx)
    requires tx.nonce !in ItemsOf(x.pending, tx.sender) && tx.nonce !in ItemsOf(x.queue, tx.sender)
    ensures Evicts(state, x, [tx], x)
  {
    hide Evict, Virtual;
    forall a
      ensures x.At(state, a) == Evict(x.At(state, a), a, [tx])
    {
      EvictOne(x.At(state, a), a, tx);
      if a == tx.sender {
        assert x.At(state, a).q - {tx.nonce} == x.At(state, a).q;
      }
    }
  }

  lemma EvictMore(acc: Account, a: Address, drop: seq<Tx>, tx: Tx)
    ensures Evict(acc, a, drop + [tx]) == Evict(Evict(acc, a, drop), a, [tx])
  {
    hide Cut;
    assert (drop + [tx])[..|drop|] == drop;
    EvictOne(Evict(acc, a, drop), a, tx);
  }

  lemma EvictsMore(state: Address -> nat, x: Found, drop: seq<Tx>, y: Found, tx: Tx, z: Found)
    requires Evicts(state, x, drop, y) && Evicts(state, y, [tx], z)
    ensures Evicts(state, x, drop + [tx], z)
  {
    hide Evict, Found.At;
    forall a
      ensures z.At(state, a) == Evict(x.At(state, a), a, drop + [tx])
    {
      assert y.At(state, a) == Evict(x.At(state, a), a, drop);
      EvictMore(x.At(state, a), a, drop, tx);
    }
  }

  /** A new transaction is filed if `ok`, or not. */
  ghost predicate Files(x: Found, tx: Tx, local: bool, bump: nat, ok: bool, replaced: bool, y: Found) {
    && Inserts(x.pending, x.queue, y.pending, y.queue, tx, bump, ok, replaced) && y.nonces == x.nonces
    && y.locals == x.locals + if ok && local && tx.nonce !in ItemsOf(x.pending, tx.sender) then {tx.sender} else {}
  }

  lemma StepsIn(state: Address -> nat, x: Found, tx: Tx, local: bool, err: Option<AddError>, bump: nat, replaced: bool,
                y: Found)
    requires Files(x, tx, local, bump, err == None, replaced, y)
    ensures Steps(state, x, tx, local, Entry(err, []), y)
    ensures (err == None) == Wins(x.At(state, tx.sender), tx, bump)
  {
    hide Virtual, Outbids;
    forall a
      ensures y.At(state, a) == Step(x.At(state, a), a, tx, local, Entry(err, []))
    {
      if a != tx.sender {
        assert ItemsOf(y.pending, a) == ItemsOf(x.pending, a) && ItemsOf(y.queue, a) == ItemsOf(x.queue, a);
      }
    }
  }

  lemma StepsAfter(state: Address -> nat, x: Found, drop: seq<Tx>, y: Found, tx: Tx, local: bool,
                   err: Option<AddError>, z: Found)
    requires Evicts(state, x, drop, y) && Steps(state, y, tx, local, Entry(err, []), z)
    ensures Steps(state, x, tx, local, Entry(err, drop), z)
    ensures y.At(state, tx.sender) == Evict(x.At(state, tx.sender), tx.sender, drop)
  {
    hide Join, Found.At;
    forall a
      ensures z.At(state, a) == Step(x.At(state, a), a, tx, local, Entry(err, drop))
    {
      assert y.At(state, a) == Evict(x.At(state, a), a, drop);
    }
    assert y.At(state, tx.sender) == Evict(x.At(state, tx.sender), tx.sender, drop);
  }

  /** A transaction that is refused changes nothing. */
  lemma StepsNone(state: Address -> nat, x: Found, tx: Tx, local: bool, err: AddError, y: Found)
    requires Evicts(state, x, [], y)
    ensures Steps(state, x, tx, local, Entry(Some(err), []), y)
  {
  }

  lemma NothingEvicted(state: Address -> nat, x: Found)
    ensures AllEvictable(state, x, [])
  {
  }

  lemma RefilledNone(state: Address -> nat, x: Found, txs: seq<Tx>, how: Policy)
    ensures Refilled(state, x, txs, [], how, x)
  {
  }

  lemma RefilledMore(state: Address -> nat, x: Found, txs: seq<Tx>, log: seq<Entry>, how: Policy, y: Found, e: Entry,
                     z: Found)
    requires Refilled(state, x, txs, log, how, y) && |log| < |txs|
    requires var tx := txs[|log|];
             && Steps(state, y, tx, how.Local(tx), e, z)
             && Explains(y.At(state, tx.sender), tx, how.rules(tx), state(tx.sender), how.bump, e)
             && AllEvictable(state, y, e.drop)
    ensures Refilled(state, x, txs, log + [e], how, z)
  {
    hide Step, Explains, Found.At, Evictable;
    var more, k := log + [e], |log|;
    assert more[..k] == log;
    forall a
      ensures z.At(state, a) == Refill(x.At(state, a), a, txs, more, how)
      ensures Explained(x.At(state, a), a, state(a), txs, more, how)
    {
      assert y.At(state, a) == Refill(x.At(state, a), a, txs, log, how);
      assert z.At(state, a) == Step(y.At(state, a), a, txs[k], how.Local(txs[k]), e);
      assert Evictable(y.At(state, a), a, e.drop);
    }
  }

  /** With room for all, every account is what putting the transactions in one by one makes of it. */
  lemma RefilledIsPut(state: Address -> nat, x: Found, txs: seq<Tx>, log: seq<Entry>, how: Policy, y: Found)
    requires Refilled(state, x, txs, log, how, y) && |log| == |txs| && Quiet(log)
    ensures forall a :: y.At(state, a) == PutAll(x.At(state, a), a, state(a), txs, how)
  {
    hide Refill, Explained, PutAll, Found.At;
    assert txs[..|log|] == txs;
    forall a
      ensures y.At(state, a) == PutAll(x.At(state, a), a, state(a), txs, how)
    {
      assert y.At(state, a) == Refill(x.At(state, a), a, txs, log, how);
      RefillIsPut(x.At(state, a), a, state(a), txs, log, how);
    }
  }
}
