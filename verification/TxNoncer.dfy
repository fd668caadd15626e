/** Virtual account nonces over those of the chain state. */
module TxNoncers {
  import opened Transactions

  function Virtual(fallback: Address -> nat, nonces: map<Address, nat>, a: Address): nat {
    if a in nonces then nonces[a] else fallback(a)
  }

  /** The virtual nonces of accounts other than `a` are the same. */
  ghost predicate NoncesBut(state: Address -> nat, a: Address, x: map<Address, nat>, y: map<Address, nat>) {
    forall b {:trigger Virtual(state, y, b)} :: b != a ==> Virtual(state, y, b) == Virtual(state, x, b)
  }

  class TxNoncer {
    const fallback: Address -> nat
    var nonces: map<Address, nat>

    ghost function Of(a: Address): nat
      reads this
    {
      Virtual(fallback, nonces, a)
    }

    constructor (fallback: Address -> nat)
      ensures this.fallback == fallback && nonces == map[]
    {
      this.fallback := fallback;
      nonces := map[];
    }

    /** Reads through to the state the first time; what an account's nonce is does not change. */
    method Get(addr: Address) returns (nonce: nat)
      modifies this
      ensures nonce == old(Of(addr)) == Of(addr) && NoncesBut(fallback, addr, old(nonces), nonces)
    {
      if addr !in nonces {
        nonces := nonces[addr := fallback(addr)];
      }
      nonce := nonces[addr];
    }

    method Set(addr: Address, nonce: nat)
      modifies this
      ensures Of(addr) == nonce && NoncesBut(fallback, addr, old(nonces), nonces)
    {
      nonces := nonces[addr := nonce];
    }

    method SetIfLower(addr: Address, nonce: nat)
      modifies this
      ensures Of(addr) == if nonce < old(Of(addr)) then nonce else old(Of(addr))
      ensures NoncesBut(fallback, addr, old(nonces), nonces)
    {
      if addr !in nonces {
        nonces := nonces[addr := fallback(addr)];
      }
      if nonces[addr] <= nonce {
        return;
      }
      nonces := nonces[addr := nonce];
    }
  }
}
