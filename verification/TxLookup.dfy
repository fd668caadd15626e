/** The pool's index of all transactions by hash. */
module TxLookups {
  import opened Transactions
  import opened Sums

  type Known = map<Hash, Tx>

  ghost function SlotMap(m: Known): map<Hash, nat> {
    map h | h in m :: NumSlots(m[h])
  }

  /** The number of slots that the transactions of `m` take. */
  ghost function Slots(m: Known): nat {
    Sum(SlotMap(m))
  }

  lemma SlotsPut(m: Known, tx: Tx)
    requires tx.hash !in m
    ensures Slots(m[tx.hash := tx]) == Slots(m) + NumSlots(tx)
  {
    SumPut(SlotMap(m), tx.hash, NumSlots(tx));
    assert SlotMap(m[tx.hash := tx]) == SlotMap(m)[tx.hash := NumSlots(tx)];
  }

  lemma SlotsDrop(m: Known, h: Hash)
    requires h in m
    ensures Slots(m) == Slots(m - {h}) + NumSlots(m[h])
  {
    SumSplit(SlotMap(m), h);
    assert SlotMap(m - {h}) == SlotMap(m) - {h};
  }

  /** `m` files every transaction under its own hash, and hashes do not collide. */
  ghost predicate Genuine(origin: Hash -> Tx, m: Known) {
    forall h :: h in m ==> m[h] == origin(h) && m[h].hash == h
  }

  /** The remotes when those in `left` have not been looked at yet. */
  ghost function Unmoved(m: Known, left: set<Hash>, accounts: set<Address>): Known {
    map h | h in m && (h in left || m[h].sender !in accounts) :: m[h]
  }

  lemma MoveOne(m: Known, left: set<Hash>, accounts: set<Address>, h: Hash)
    requires h in left && h in m
    ensures h in Unmoved(m, left, accounts) && Unmoved(m, left, accounts)[h] == m[h]
    ensures Unmoved(m, left - {h}, accounts) ==
            if m[h].sender in accounts then Unmoved(m, left, accounts) - {h} else Unmoved(m, left, accounts)
  {
  }

  /** Locals and remotes share no hash. */
  ghost predicate Sound(origin: Hash -> Tx, locals: Known, remotes: Known) {
    && (forall h :: h in locals ==> h !in remotes)
    && Genuine(origin, locals) && Genuine(origin, remotes)
  }

  ghost function Joint(locals: Known, remotes: Known): set<Hash> {
    locals.Keys + remotes.Keys
  }

  lemma SoundDrop(origin: Hash -> Tx, l: Known, r: Known, h: Hash)
    requires Sound(origin, l, r)
    ensures Sound(origin, l - {h}, r - {h})
    ensures Joint(l - {h}, r - {h}) == Joint(l, r) - {h}
    ensures h !in l ==> l - {h} == l
    ensures h !in r || h in l ==> r - {h} == r
    ensures h in Joint(l, r) <==> h in l || h in r
    ensures h in l ==> l[h] == origin(h)
    ensures h in r ==> r[h] == origin(h)
  {
  }

  lemma SoundPut(origin: Hash -> Tx, l: Known, r: Known, tx: Tx)
    requires Sound(origin, l, r) && tx.hash !in Joint(l, r) && origin(tx.hash) == tx
    ensures tx.hash !in l && tx.hash !in r
    ensures Sound(origin, l[tx.hash := tx], r) && Sound(origin, l, r[tx.hash := tx])
    ensures Joint(l[tx.hash := tx], r) == Joint(l, r[tx.hash := tx]) == Joint(l, r) + {tx.hash}
  {
  }

  lemma SoundMove(origin: Hash -> Tx, l: Known, r: Known, h: Hash)
    requires Sound(origin, l, r) && h in r
    ensures h !in l && r[h].hash == h && Sound(origin, l[h := r[h]], r - {h})
  {
    var l', r' := l[h := r[h]], r - {h};
    assert Genuine(origin, l') && Genuine(origin, r');
  }

  lemma JointMove(l: Known, r: Known, h: Hash)
    requires h in r
    ensures Joint(l[h := r[h]], r - {h}) == Joint(l, r)
  {
    var l', r' := l[h := r[h]], r - {h};
    assert forall x :: x in Joint(l', r') <==> x in l' || x in r';
  }

  lemma Shrink(r: Known, h: Hash)
    requires h in r
    ensures |r - {h}| == |r| - 1
  {
    assert (r - {h}).Keys == r.Keys - {h};
  }

  class TxLookup {
    /** The transaction that has a given hash. */
    ghost const origin: Hash -> Tx
    var slots: int
    var locals: Known
    var remotes: Known

    /** The hashes of all transactions in the pool. */
    ghost function Hashes(): set<Hash>
      reads this
    {
      Joint(locals, remotes)
    }

    ghost predicate Valid()
      reads this
    {
      Sound(origin, locals, remotes) && slots == Slots(locals) + Slots(remotes)
    }

    constructor (ghost origin: Hash -> Tx)
      ensures Valid() && Hashes() == {} && this.origin == origin && remotes == map[] && slots == 0
    {
      this.origin := origin;
      slots, locals, remotes := 0, map[], map[];
      assert SlotMap(map[]) == map[];
    }

    /** The transaction with the given hash, if the pool has it. */
    function Get(hash: Hash): (r: Option<Tx>)
      requires Valid()
      reads this
      ensures r == if hash in Hashes() then Some(origin(hash)) else None
    {
      if hash in locals then Some(locals[hash]) else if hash in remotes then Some(remotes[hash]) else None
    }

    method Add(tx: Tx, local: bool)
      requires Valid() && tx.hash !in Hashes() && origin(tx.hash) == tx
      modifies this
      ensures Valid() && Hashes() == old(Hashes()) + {tx.hash}
      ensures remotes == if local then old(remotes) else old(remotes)[tx.hash := tx]
      ensures !local ==> locals == old(locals)
      ensures slots == old(slots) + NumSlots(tx)
    {
      hide Sound, Joint, Slots;
      SoundPut(origin, locals, remotes, tx);
      slots := slots + NumSlots(tx);
      if local {
        SlotsPut(locals, tx);
        locals := locals[tx.hash := tx];
      } else {
        SlotsPut(remotes, tx);
        remotes := remotes[tx.hash := tx];
      }
    }

    method Remove(hash: Hash)
      requires Valid()
      modifies this
      ensures Valid() && Hashes() == old(Hashes()) - {hash} && remotes == old(remotes) - {hash}
      ensures locals == old(locals) - {hash}
      ensures slots == old(slots) - if hash in old(Hashes()) then NumSlots(origin(hash)) else 0
    {
      hide Sound, Joint, Slots;
      SoundDrop(origin, locals, remotes, hash);
      if hash in locals {
        SlotsDrop(locals, hash);
        slots := slots - NumSlots(locals[hash]);
      } else if hash in remotes {
        SlotsDrop(remotes, hash);
        slots := slots - NumSlots(remotes[hash]);
      }
      locals, remotes := locals - {hash}, remotes - {hash};
    }

    method Migrate(hash: Hash)
      requires Valid() && hash in remotes
      modifies this`locals, this`remotes
      ensures Valid() && Hashes() == old(Hashes()) && remotes == old(remotes) - {hash}
      ensures |remotes| == |old(remotes)| - 1
    {
      hide Sound, Joint, Slots;
      SoundMove(origin, locals, remotes, hash);
      JointMove(locals, remotes, hash);
      Shrink(remotes, hash);
      SlotsPut(locals, remotes[hash]);
      SlotsDrop(remotes, hash);
      locals, remotes := locals[hash := remotes[hash]], remotes - {hash};
    }

    /** Moves the transactions of the given accounts from the remotes to the locals. */
    method RemoteToLocals(accounts: set<Address>) returns (migrated: nat)
      requires Valid()
      modifies this
      ensures Valid() && Hashes() == old(Hashes()) && slots == old(slots)
      ensures remotes == Unmoved(old(remotes), {}, accounts)
      ensures migrated == |old(remotes)| - |remotes|
    {
      hide Sound, Joint, Slots;
      migrated := 0;
      var left := remotes.Keys;
      assert remotes == Unmoved(remotes, left, accounts);
      while left != {}
        invariant left <= old(remotes).Keys && Valid() && Hashes() == old(Hashes()) && slots == old(slots)
        invariant remotes == Unmoved(old(remotes), left, accounts)
        invariant migrated == |old(remotes)| - |remotes|
        decreases |left|
      {
        var hash :| hash in left;
        MoveOne(old(remotes), left, accounts, hash);
        left := left - {hash};
        if remotes[hash].sender in accounts {
          Migrate(hash);
          migrated := migrated + 1;
        }
      }
    }
  }
}
