/** Balances, and what buying, refunding and paying for gas does to their total. */
module GasSpec {
  import opened Transactions
  import opened Sums

  const MAX_UINT64: nat := 0xFFFF_FFFF_FFFF_FFFF
  const REFUND_QUOTIENT: nat := 2
  const REFUND_QUOTIENT_EIP3529: nat := 5

  type Balances = map<Address, nat>

  function BalanceOf(b: Balances, a: Address): nat {
    if a in b then b[a] else 0
  }

  function Credit(b: Balances, a: Address, v: nat): Balances {
    b[a := BalanceOf(b, a) + v]
  }

  function Debit(b: Balances, a: Address, v: nat): Balances
    requires v <= BalanceOf(b, a)
  {
    b[a := BalanceOf(b, a) - v]
  }

  lemma DebitLeaves(b: Balances, a: Address, v: nat)
    requires v <= BalanceOf(b, a)
    ensures BalanceOf(Debit(b, a, v), a) == BalanceOf(b, a) - v
  {
  }

  lemma CreditTotal(b: Balances, a: Address, v: nat)
    ensures Sum(Credit(b, a, v)) == Sum(b) + v
  {
    SumPut(b, a, BalanceOf(b, a) + v);
  }

  lemma DebitTotal(b: Balances, a: Address, v: nat)
    requires v <= BalanceOf(b, a)
    ensures Sum(Debit(b, a, v)) + v == Sum(b)
  {
    SumPut(b, a, BalanceOf(b, a) - v);
  }

  /**
    * A message with its effective gas price. `intrinsic` is its intrinsic gas, if that does not
    * overflow, and `admissible` whether nonce, sender and fee caps pass.
    */
  datatype Message = Message(from: Address, gasLimit: nat, gasPrice: nat, feeCap: Option<nat>, value: nat,
                             type4: bool, intrinsic: Option<nat>, admissible: bool)
  {
    /** The effective price is capped by the fee cap, and the gas limit is a 64-bit number. */
    predicate WellFormed() {
      gasLimit <= MAX_UINT64 && (feeCap.Some? ==> gasPrice <= feeCap.value)
    }

    function Cost(): nat {
      Fee(gasLimit, gasPrice)
    }

    /** The balance the sender must have. Messages of type 4 need not cover the value. */
    function Needed(): nat {
      if type4 || feeCap.None? then Cost() else Fee(gasLimit, feeCap.value) + value
    }

    lemma CostIsNeeded()
      requires WellFormed()
      ensures Cost() <= Needed()
    {
      if feeCap.Some? {
        MulLe(gasLimit, gasPrice, feeCap.value);
      }
    }
  }

  lemma MulLe(a: nat, b: nat, c: nat)
    requires b <= c
    ensures a * b <= a * c
  {
  }

  lemma MulSplit(a: nat, b: nat, price: nat)
    ensures Fee(a + b, price) == Fee(a, price) + Fee(b, price)
  {
  }

  /** What running the message in the virtual machine gives back. */
  datatype Outcome = Outcome(gasLeft: nat, refund: nat, balances: Balances, failed: bool)

  type Evm = (Balances, nat) -> Outcome

  /** The machine returns no more gas than it was given and creates no balance. */
  ghost predicate Honest(evm: Evm) {
    forall b: Balances, gas: nat :: evm(b, gas).gasLeft <= gas && Sum(evm(b, gas).balances) == Sum(b)
  }

  lemma HonestAt(evm: Evm, b: Balances, gas: nat)
    requires Honest(evm)
    ensures evm(b, gas).gasLeft <= gas
  {
  }

  /** The capped refund. */
  function Refund(spent: nat, quotient: nat, counter: nat): (r: nat)
    requires quotient > 0
    ensures r <= spent && r <= counter
  {
    DivLe(spent, quotient);
    var cap := spent / quotient;
    if cap > counter then counter else cap
  }

  lemma DivLe(a: nat, b: nat)
    requires b > 0
    ensures a / b <= a && (a / b) * b <= a
  {
    var q := a / b;
    assert a == b * q + a % b;
    MulLe(q, 1, b);
  }

  /** The refund is the whole counter unless that is more than its share of the gas spent. */
  lemma RefundIs(spent: nat, quotient: nat, counter: nat)
    requires quotient > 0
    ensures Refund(spent, quotient, counter) * quotient <= spent
    ensures counter * quotient <= spent ==> Refund(spent, quotient, counter) == counter
  {
    var cap := spent / quotient;
    DivLe(spent, quotient);
    if cap > counter {
      MulLe(quotient, counter, cap);
    } else if counter * quotient <= spent && cap < counter {
      assert spent == quotient * cap + spent % quotient;
      MulLe(quotient, cap + 1, counter);
    }
  }

  /** The price of an amount of gas. */
  function Fee(gas: nat, price: nat): nat {
    gas * price
  }

  /** The balances after a message: gas bought, the message run, unused gas returned, used gas paid. */
  function Settled(b: Balances, msg: Message, evm: Evm, coinbase: Address, used: nat): Balances
    requires msg.Cost() <= BalanceOf(b, msg.from) && msg.intrinsic.Some? && msg.intrinsic.value <= msg.gasLimit
    requires used <= msg.gasLimit
  {
    var run := evm(Debit(b, msg.from, msg.Cost()), msg.gasLimit - msg.intrinsic.value).balances;
    Credit(Credit(run, msg.from, Fee(msg.gasLimit - used, msg.gasPrice)), coinbase, Fee(used, msg.gasPrice))
  }

  function Quotient(london: bool): nat {
    if london then REFUND_QUOTIENT_EIP3529 else REFUND_QUOTIENT
  }

  /** The message ran: `used` is the gas spent less the capped refund, and the balances are settled for it. */
  ghost predicate Executed(b: Balances, msg: Message, evm: Evm, london: bool, coinbase: Address, used: nat,
                           failed: bool, b': Balances) {
    && msg.Cost() <= BalanceOf(b, msg.from) && msg.intrinsic.Some? && msg.intrinsic.value <= msg.gasLimit
    && var run := evm(Debit(b, msg.from, msg.Cost()), msg.gasLimit - msg.intrinsic.value);
    && run.gasLeft <= msg.gasLimit && failed == run.failed
    && var spent := msg.gasLimit - run.gasLeft;
    && used == spent - Refund(spent, Quotient(london), run.refund)
    && b' == Settled(b, msg, evm, coinbase, used)
  }

  /** What the sender pays for gas is what the coinbase gets. */
  lemma SettledTotal(b: Balances, msg: Message, evm: Evm, coinbase: Address, used: nat)
    requires Honest(evm) && msg.Cost() <= BalanceOf(b, msg.from)
    requires msg.intrinsic.Some? && msg.intrinsic.value <= msg.gasLimit && used <= msg.gasLimit
    ensures msg.Cost() - Fee(msg.gasLimit - used, msg.gasPrice) == Fee(used, msg.gasPrice)
    ensures Sum(Settled(b, msg, evm, coinbase, used)) == Sum(b)
  {
    hide Credit, Debit, Sum, Fee;
    var price := msg.gasPrice;
    MulSplit(msg.gasLimit - used, used, price);
    DebitTotal(b, msg.from, msg.Cost());
    var run := evm(Debit(b, msg.from, msg.Cost()), msg.gasLimit - msg.intrinsic.value).balances;
    CreditTotal(run, msg.from, Fee(msg.gasLimit - used, price));
    CreditTotal(Credit(run, msg.from, Fee(msg.gasLimit - used, price)), coinbase, Fee(used, price));
  }
}

/** Applying messages to the state, one block's worth against one pool of gas. */
module StateTransitions {
  import opened Transactions
  import opened Sums
  import opened GasSpec

  /** The gas left in a block. */
  class GasPool {
    var gas: nat

    ghost predicate Valid()
      reads this
    {
      gas <= MAX_UINT64
    }

    constructor ()
      ensures Valid() && gas == 0
    {
      gas := 0;
    }

    /** Pushing the pool above 64 bits would be a panic. */
    method AddGas(amount: nat)
      requires Valid() && gas + amount <= MAX_UINT64
      modifies this
      ensures Valid() && gas == old(gas) + amount
    {
      gas := gas + amount;
    }

    method SubGas(amount: nat) returns (ok: bool)
      requires Valid()
      modifies this
      ensures Valid() && ok == (amount <= old(gas)) && gas == old(gas) - if ok then amount else 0
    {
      ok := amount <= gas;
      if ok {
        gas := gas - amount;
      }
    }
  }

  class State {
    var balances: Balances
    var refund: nat

    constructor (balances: Balances)
      ensures this.balances == balances && refund == 0
    {
      this.balances := balances;
      refund := 0;
    }
  }

  datatype MessageError = Inadmissible | InsufficientFunds | GasLimitReached | IntrinsicGas | InsufficientForTransfer

  datatype ExecutionResult = ExecutionResult(usedGas: nat, failed: bool)

  /** One message on its way through the state transition. */
  class StateTransition {
    const gp: GasPool
    const state: State
    const msg: Message
    var gas: nat
    var initialGas: nat

    constructor (gp: GasPool, state: State, msg: Message)
      ensures this.gp == gp && this.state == state && this.msg == msg && gas == 0 && initialGas == 0
    {
      this.gp, this.state, this.msg, gas, initialGas := gp, state, msg, 0, 0;
    }

    function GasUsed(): nat
      requires gas <= initialGas
      reads this
    {
      initialGas - gas
    }

    method BuyGas() returns (err: Option<MessageError>)
      requires gp.Valid() && msg.WellFormed() && gas == 0
      modifies this, gp, state
      ensures gp.Valid()
      ensures err == if old(BalanceOf(state.balances, msg.from)) < msg.Needed() then Some(InsufficientFunds)
                     else if old(gp.gas) < msg.gasLimit then Some(GasLimitReached) else None
      ensures err.Some? ==> unchanged(this) && gp.gas == old(gp.gas) && unchanged(state)
      ensures err.None? ==>
                && msg.Cost() <= old(BalanceOf(state.balances, msg.from))
                && state.balances == Debit(old(state.balances), msg.from, msg.Cost())
                && gp.gas == old(gp.gas) - msg.gasLimit && gas == initialGas == msg.gasLimit
    {
      msg.CostIsNeeded();
      if BalanceOf(state.balances, msg.from) < msg.Needed() {
        return Some(InsufficientFunds);
      }
      var ok := gp.SubGas(msg.gasLimit);
      if !ok {
        return Some(GasLimitReached);
      }
      gas := gas + msg.gasLimit;
      initialGas := msg.gasLimit;
      state.balances := Debit(state.balances, msg.from, msg.Cost());
      return None;
    }

    /** Returns unused gas, and a capped share of the used gas, to the sender and the pool. */
    method RefundGas(quotient: nat)
      requires quotient > 0 && gp.Valid() && gas <= initialGas && gp.gas + initialGas <= MAX_UINT64
      modifies this`gas, gp, state`balances
      ensures gp.Valid() && gas == old(gas) + Refund(old(GasUsed()), quotient, state.refund) <= initialGas
      ensures gp.gas == old(gp.gas) + gas
      ensures state.balances == Credit(old(state.balances), msg.from, Fee(gas, msg.gasPrice))
    {
      hide Refund, Credit, Fee;
      var refund := Refund(GasUsed(), quotient, state.refund);
      gas := gas + refund;
      state.balances := Credit(state.balances, msg.from, Fee(gas, msg.gasPrice));
      gp.AddGas(gas);
    }

    /** What the sender has left when the gas is bought. */
    ghost function Remaining(b: Balances): int {
      BalanceOf(b, msg.from) - msg.Cost()
    }

    /**
      * Runs the message. On success the used gas has left the pool and moved, at the gas price, from
      * the sender to the coinbase, and no balance was created or lost.
      */
    method TransitionDb(evm: Evm, london: bool, coinbase: Address)
      returns (res: Option<ExecutionResult>, err: Option<MessageError>)
      requires gp.Valid() && msg.WellFormed() && gas == 0 && Honest(evm)
      modifies this, gp, state
      ensures gp.Valid() && (res.None? <==> err.Some?)
      ensures err == if !msg.admissible then Some(Inadmissible)
                     else if old(BalanceOf(state.balances, msg.from)) < msg.Needed() then Some(InsufficientFunds)
                     else if old(gp.gas) < msg.gasLimit then Some(GasLimitReached)
                     else if msg.intrinsic.None? || msg.gasLimit < msg.intrinsic.value then Some(IntrinsicGas)
                     else if !msg.type4 && msg.value > 0 && Remaining(old(state.balances)) < msg.value
                     then Some(InsufficientForTransfer)
                     else None
      ensures err in {Some(Inadmissible), Some(InsufficientFunds), Some(GasLimitReached)} ==>
                gp.gas == old(gp.gas) && unchanged(state)
      ensures err in {Some(IntrinsicGas), Some(InsufficientForTransfer)} ==>
                && msg.Cost() <= old(BalanceOf(state.balances, msg.from)) && gp.gas == old(gp.gas) - msg.gasLimit
                && state.balances == Debit(old(state.balances), msg.from, msg.Cost())
      ensures res.Some? ==>
                && Executed(old(state.balances), msg, evm, london, coinbase, res.value.usedGas, res.value.failed,
                            state.balances)
                && res.value.usedGas <= msg.gasLimit && gp.gas == old(gp.gas) - res.value.usedGas
                && Sum(state.balances) == old(Sum(state.balances))
    {
      hide Credit, Debit, Sum, Fee, Honest, Executed, Settled;
      if !msg.admissible {
        return None, Some(Inadmissible);
      }
      err := BuyGas();
      if err.Some? {
        return None, err;
      }
      DebitLeaves(old(state.balances), msg.from, msg.Cost());
      if msg.intrinsic.None? || gas < msg.intrinsic.value {
        return None, Some(IntrinsicGas);
      }
      if !msg.type4 && msg.value > 0 && BalanceOf(state.balances, msg.from) < msg.value {
        return None, Some(InsufficientForTransfer);
      }
      var r := Execute(evm, london, coinbase, old(state.balances));
      return Some(r), None;
    }

    /** The second half: runs the message with the gas left after the intrinsic part, and settles. */
    method Execute(evm: Evm, london: bool, coinbase: Address, ghost b: Balances) returns (r: ExecutionResult)
      requires gp.Valid() && Honest(evm) && gas == initialGas == msg.gasLimit && gp.gas + msg.gasLimit <= MAX_UINT64
      requires msg.intrinsic.Some? && msg.intrinsic.value <= gas && msg.Cost() <= BalanceOf(b, msg.from)
      requires state.balances == Debit(b, msg.from, msg.Cost())
      modifies this, gp, state
      ensures gp.Valid() && Executed(b, msg, evm, london, coinbase, r.usedGas, r.failed, state.balances)
      ensures r.usedGas <= msg.gasLimit && gp.gas == old(gp.gas) + msg.gasLimit - r.usedGas
      ensures Sum(state.balances) == Sum(b)
    {
      hide Credit, Debit, Sum, Refund, Fee, Honest;
      gas := gas - msg.intrinsic.value;
      HonestAt(evm, state.balances, gas);
      var run := evm(state.balances, gas);
      state.balances, state.refund, gas := run.balances, run.refund, run.gasLeft;
      RefundGas(Quotient(london));
      state.balances := Credit(state.balances, coinbase, Fee(GasUsed(), msg.gasPrice));
      SettledTotal(b, msg, evm, coinbase, GasUsed());
      r := ExecutionResult(GasUsed(), run.failed);
    }
  }

  datatype Receipt = Receipt(gasUsed: nat, cumulativeGasUsed: nat, failed: bool)

  /** The gas of all receipts. */
  ghost function Used(rs: seq<Receipt>): nat {
    if rs == [] then 0 else Used(rs[..|rs| - 1]) + rs[|rs| - 1].gasUsed
  }

  /** Cumulative gas is the running sum. */
  ghost predicate RunningSum(rs: seq<Receipt>) {
    forall i, j :: 0 <= i && j == i + 1 && j <= |rs| ==> rs[i].cumulativeGasUsed == Used(rs[..j])
  }

  lemma RunningMore(rs: seq<Receipt>, r: Receipt)
    requires RunningSum(rs) && r.cumulativeGasUsed == Used(rs) + r.gasUsed
    ensures RunningSum(rs + [r]) && Used(rs + [r]) == Used(rs) + r.gasUsed
  {
    var rs' := rs + [r];
    assert rs'[..|rs'| - 1] == rs;
    forall i, j | 0 <= i && j == i + 1 && j <= |rs'|
      ensures rs'[i].cumulativeGasUsed == Used(rs'[..j])
    {
      if j < |rs'| {
        assert rs'[..j] == rs[..j];
      } else {
        assert rs'[..j] == rs';
      }
    }
  }

  /** Each message was executed on the balances the one before it left. */
  ghost predicate Traced(trace: seq<Balances>, msgs: seq<Message>, evms: seq<Evm>, london: bool, coinbase: Address,
                         receipts: seq<Receipt>) {
    && |trace| == |receipts| + 1 && |receipts| <= |msgs| && |receipts| <= |evms|
    && forall i, j :: 0 <= i && j == i + 1 && j < |trace| ==>
         Executed(trace[i], msgs[i], evms[i], london, coinbase, receipts[i].gasUsed, receipts[i].failed, trace[j])
  }

  lemma TracedMore(trace: seq<Balances>, msgs: seq<Message>, evms: seq<Evm>, london: bool, coinbase: Address,
                   receipts: seq<Receipt>,
                   r: Receipt, b: Balances)
    requires Traced(trace, msgs, evms, london, coinbase, receipts) && |receipts| < |msgs| && |receipts| < |evms|
    requires Executed(trace[|receipts|], msgs[|receipts|], evms[|receipts|], london, coinbase, r.gasUsed, r.failed, b)
    ensures Traced(trace + [b], msgs, evms, london, coinbase, receipts + [r])
  {
    hide Executed;
  }

  /** Processes the messages of a block in order; one that cannot be applied makes the block invalid. */
  method ProcessBlock(msgs: seq<Message>, evms: seq<Evm>, gasLimit: nat, london: bool, coinbase: Address, state: State)
    returns (receipts: seq<Receipt>, usedGas: nat, gasLeft: nat, err: Option<MessageError>, ghost trace: seq<Balances>)
    requires gasLimit <= MAX_UINT64 && |evms| == |msgs|
    requires forall i :: 0 <= i < |msgs| ==> msgs[i].WellFormed() && Honest(evms[i])
    modifies state
    ensures err.None? ==> |receipts| == |msgs| && RunningSum(receipts) && usedGas == Used(receipts)
    ensures err.None? ==> gasLeft + usedGas == gasLimit && Sum(state.balances) == old(Sum(state.balances))
    ensures err.None? ==>
              && |trace| == |msgs| + 1 && trace[0] == old(state.balances) && trace[|msgs|] == state.balances
              && Traced(trace, msgs, evms, london, coinbase, receipts)
  {
    hide Honest, RunningSum, Executed, Traced, Sum;
    var gp := new GasPool();
    gp.AddGas(gasLimit);
    receipts, usedGas, gasLeft, err, trace := [], 0, gp.gas, None, [state.balances];
    NoReceipts(receipts, trace, msgs, evms, london, coinbase);
    for i := 0 to |msgs|
      invariant gp.Valid() && fresh(gp) && |receipts| == i && RunningSum(receipts) && usedGas == Used(receipts)
      invariant gp.gas + usedGas == gasLimit && Sum(state.balances) == old(Sum(state.balances))
      invariant |trace| == i + 1 && trace[0] == old(state.balances) && trace[i] == state.balances
      invariant Traced(trace, msgs, evms, london, coinbase, receipts)
    {
      var st := new StateTransition(gp, state, msgs[i]);
      var res, e := st.TransitionDb(evms[i], london, coinbase);
      if e.Some? {
        return [], 0, gp.gas, e, [];
      }
      usedGas := usedGas + res.value.usedGas;
      var r := Receipt(res.value.usedGas, usedGas, res.value.failed);
      RunningMore(receipts, r);
      TracedMore(trace, msgs, evms, london, coinbase, receipts, r, state.balances);
      receipts := receipts + [r];
      trace := trace + [state.balances];
    }
    gasLeft := gp.gas;
  }

  lemma NoReceipts(rs: seq<Receipt>, trace: seq<Balances>, msgs: seq<Message>, evms: seq<Evm>, london: bool,
                   coinbase: Address)
    requires rs == [] && |trace| == 1
    ensures RunningSum(rs) && Traced(trace, msgs, evms, london, coinbase, rs)
  {
  }
}
