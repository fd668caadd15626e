/** Sections of the chain, seen through parent links: what one section head says about the ones below. */
module SectionSpec {
  import opened Transactions
  import opened BlockTree
  import opened HeaderSpec

  /** What one read of the chain database may find: any markers, and headers under their own hashes. */
  datatype ChainDb = ChainDb(headers: Tree, canon: map<nat, Hash>) {
    function ReadCanonicalHash(number: nat): Hash {
      if number in canon then canon[number] else EMPTY_HASH
    }

    function ReadHeader(hash: Hash, number: nat): Option<Header> {
      if hash in headers && headers[hash].number == number then Some(headers[hash]) else None
    }
  }

  /** `k` parent links up from `h`. */
  ghost function Up(origin: Hash -> Header, h: Hash, k: nat): Hash
    decreases k
  {
    if k == 0 then h else Up(origin, origin(h).parent, k - 1)
  }

  /** The number of the first block after section `s`, for sections of `size` blocks. */
  function End(size: nat, s: nat): nat {
    (s + 1) * size
  }

  function Start(size: nat, s: nat): nat {
    s * size
  }

  /** Block numbers wrap around at 64 bits. */
  const UINT64: nat := 0x1_0000_0000_0000_0000

  /** The number of the last block of section `s`. */
  function LastBlock(size: nat, s: nat): nat
    requires size > 0
  {
    EndIs(size, s);
    End(size, s) - 1
  }

  lemma EndIs(size: nat, s: nat)
    ensures End(size, s) == Start(size, s) + size && Start(size, s + 1) == End(size, s)
  {
  }

  lemma LastBlockIs(size: nat, s: nat, next: nat)
    requires size > 0 && next == s + 1
    ensures LastBlock(size, s) + 1 == Start(size, next)
  {
  }

  lemma StartMonotone(size: nat, s: nat, s': nat)
    requires s <= s'
    ensures Start(size, s) <= Start(size, s')
  {
  }

  /** The whole sections in so many blocks. */
  lemma WholeSections(size: nat, blocks: nat, s: nat)
    requires size > 0
    ensures s <= blocks / size <==> Start(size, s) <= blocks
  {
    var q: nat := blocks / size;
    assert blocks == size * q + blocks % size;
    assert Start(size, q) <= blocks < Start(size, q + 1);
    if s <= q {
      StartMonotone(size, s, q);
    } else {
      StartMonotone(size, q + 1, s);
    }
  }

  /** `h` is the last block of section `s` of a chain whose block before that section is `prev`. */
  ghost predicate Closes(origin: Hash -> Header, size: nat, s: nat, prev: Hash, h: Hash) {
    && h != EMPTY_HASH && origin(h).hash == h
    && origin(h).number + 1 == End(size, s) && Up(origin, h, size) == prev
  }

  /** The head of the section before `s`. */
  function Before(heads: map<nat, Hash>, s: nat): Hash {
    if s > 0 && s - 1 in heads then heads[s - 1] else EMPTY_HASH
  }

  ghost predicate Joined(origin: Hash -> Header, size: nat, heads: map<nat, Hash>, s: nat) {
    s in heads && Closes(origin, size, s, Before(heads, s), heads[s])
  }

  /** Consecutive section heads from section `low` on are one section of parent links apart. */
  ghost predicate Chained(origin: Hash -> Header, size: nat, heads: map<nat, Hash>, low: nat, high: nat) {
    && (forall s: nat {:trigger Joined(origin, size, heads, s)} :: low <= s < high ==> Joined(origin, size, heads, s))
    && (forall s: nat :: s in heads ==> s < high)
    && (low > 0 ==> low - 1 in heads)
  }

  /** The markers follow parent links. */
  ghost predicate Consecutive(origin: Hash -> Header, canon: map<nat, Hash>) {
    forall n: nat :: n in canon && n > 0 ==> LinksDown(origin, canon, n)
  }

  ghost predicate LinksDown(origin: Hash -> Header, canon: map<nat, Hash>, n: nat)
    requires n in canon && n > 0
  {
    n - 1 in canon && origin(canon[n]).parent == canon[n - 1]
  }

  /** The markers of a canonical chain do. */
  lemma CanonicalIsConsecutive(origin: Hash -> Header, t: Tree, genesis: Hash, canon: map<nat, Hash>, head: Hash)
    requires Closed(t, genesis) && AllGenuine(origin, t) && Canonical(t, genesis, canon, head)
    ensures Consecutive(origin, canon)
  {
    hide Closed, AncestorAt;
    forall n: nat | n in canon && n > 0
      ensures LinksDown(origin, canon, n)
    {
      var below: nat := n - 1;
      AncestorStep(t, genesis, head, n, below);
    }
  }

  lemma {:induction false} UpIsMarked(origin: Hash -> Header, canon: map<nat, Hash>, n: nat, k: nat)
    requires Consecutive(origin, canon) && n in canon && k <= n
    ensures n - k in canon && Up(origin, canon[n], k) == canon[n - k]
    decreases k
  {
    if k > 0 {
      assert LinksDown(origin, canon, n);
      UpIsMarked(origin, canon, n - 1, k - 1);
    }
  }

  /** The section head is the marked block of its height. */
  predicate IsMarked(canon: map<nat, Hash>, size: nat, heads: map<nat, Hash>, s: nat) {
    s in heads && End(size, s) > 0 && End(size, s) - 1 in canon && canon[End(size, s) - 1] == heads[s]
  }

  /** One verified section head vouches for every section head below it, down to the checkpoint. */
  lemma {:induction false} VouchesBelow(origin: Hash -> Header, canon: map<nat, Hash>, size: nat, heads: map<nat, Hash>,
                                        low: nat, high: nat, top: nat, s: nat)
    requires size > 0 && Chained(origin, size, heads, low, high) && Consecutive(origin, canon)
    requires s <= top < high && low <= s + 1 && low <= top && IsMarked(canon, size, heads, top)
    ensures IsMarked(canon, size, heads, s)
    decreases top - s
  {
    hide End, Start, Up, Consecutive;
    if s < top {
      var below: nat := top - 1;
      EndIs(size, top);
      EndIs(size, below);
      assert Joined(origin, size, heads, top);
      UpIsMarked(origin, canon, End(size, top) - 1, size);
      assert below in heads by {
        assert low <= below ==> Joined(origin, size, heads, below);
      }
      assert IsMarked(canon, size, heads, below);
      if s < below {
        assert Joined(origin, size, heads, below);
        VouchesBelow(origin, canon, size, heads, low, high, below, s);
      }
    }
  }

  /** A section being processed: blocks up to `number` follow on from `oldHead`, the last one is `last`. */
  datatype Work = Work(section: nat, oldHead: Hash, number: nat, last: Hash, failed: bool)

  ghost predicate Processed(origin: Hash -> Header, size: nat, w: Work) {
    && Start(size, w.section) <= w.number <= End(size, w.section)
    && Up(origin, w.last, w.number - Start(size, w.section)) == w.oldHead
    && (w.number > Start(size, w.section) ==>
          w.last != EMPTY_HASH && origin(w.last).hash == w.last && origin(w.last).number + 1 == w.number)
  }

  lemma ProcessedStep(origin: Hash -> Header, size: nat, w: Work, h: Header)
    requires Processed(origin, size, w) && w.number < End(size, w.section)
    requires h.hash != EMPTY_HASH && origin(h.hash) == h && h.number == w.number && h.parent == w.last
    ensures Processed(origin, size, w.(number := w.number + 1, last := h.hash))
  {
  }

  lemma ProcessedAll(origin: Hash -> Header, size: nat, w: Work)
    requires size > 0 && Processed(origin, size, w) && w.number == End(size, w.section)
    ensures Closes(origin, size, w.section, w.oldHead, w.last)
  {
    EndIs(size, w.section);
  }

  lemma ChainedMore(origin: Hash -> Header, size: nat, heads: map<nat, Hash>, low: nat, high: nat, h: Hash)
    requires Chained(origin, size, heads, low, high) && low <= high
    requires Closes(origin, size, high, Before(heads, high), h)
    ensures Chained(origin, size, heads[high := h], low, high + 1)
  {
    hide Closes;
    var heads' := heads[high := h];
    forall s: nat | low <= s <= high
      ensures Joined(origin, size, heads', s)
    {
      assert s < high ==> Joined(origin, size, heads, s);
    }
  }

  lemma ChainedCut(origin: Hash -> Header, size: nat, heads: map<nat, Hash>, low: nat, high: nat, less: nat)
    requires Chained(origin, size, heads, low, high) && low <= less <= high
    ensures Chained(origin, size, heads - (set s | s in heads && less <= s < high), low, less)
    ensures Before(heads - (set s | s in heads && less <= s < high), low) == Before(heads, low)
  {
    hide Closes;
    var heads' := heads - (set s | s in heads && less <= s < high);
    forall s: nat | low <= s < less
      ensures Joined(origin, size, heads', s)
    {
      assert Joined(origin, size, heads, s);
    }
  }
}

/** The section indexer: head events, and a section processed without the lock, in any interleaving. */
module ChainIndexers {
  import opened Transactions
  import opened BlockTree
  import opened HeaderSpec
  import opened SectionSpec

  /** One step of the schedule. Reads of the chain database may each see another state of it. */
  datatype Event =
    | Head(head: nat, checkpointMark: Hash)
    | Reorg(ancestor: nat)
    | Begin(marks: nat -> Hash)
    | Process(mark: Hash, db: ChainDb, accepted: bool)
    | Finish(committed: bool, verify: nat -> Hash)
    | Query(read: nat -> Hash)

  class ChainIndexer {
    const sectionSize: nat
    const confirmsReq: nat
    ghost const origin: Hash -> Header
    var storedSections: nat
    var knownSections: nat
    var cascadedHead: nat
    var checkpointSections: nat
    var checkpointHead: Hash
    var heads: map<nat, Hash>
    var work: Option<Work>

    /**
      * Above the checkpoint, stored section heads are one section of parent links apart, and so is the
      * part of the section being processed from the head it was started on.
      */
    ghost predicate Valid()
      reads this
    {
      && sectionSize > 0 && checkpointSections <= storedSections
      && Chained(origin, sectionSize, heads, checkpointSections, storedSections)
      && (checkpointSections > 0 ==> Before(heads, checkpointSections) == checkpointHead)
      && (work.Some? ==>
            && checkpointSections <= work.value.section && storedSections <= work.value.section
            && (work.value.section > checkpointSections ==> work.value.oldHead != EMPTY_HASH)
            && (work.value.section == 0 ==> work.value.oldHead == EMPTY_HASH)
            && Processed(origin, sectionSize, work.value))
    }

    constructor (sectionSize: nat, confirmsReq: nat, ghost origin: Hash -> Header)
      requires sectionSize > 0
      ensures Valid() && storedSections == 0 && work.None?
      ensures this.sectionSize == sectionSize && this.confirmsReq == confirmsReq && this.origin == origin
    {
      this.sectionSize, this.confirmsReq, this.origin := sectionSize, confirmsReq, origin;
      storedSections, knownSections, cascadedHead := 0, 0, 0;
      checkpointSections, checkpointHead := 0, EMPTY_HASH;
      heads, work := map[], None;
    }

    /** The sections up to and including `section` are taken as given, ending at `shead`. */
    method AddCheckpoint(section: nat, shead: Hash)
      requires Valid() && work.None?
      modifies this
      ensures Valid() && work.None?
      ensures if old(checkpointSections) > section || section < old(storedSections) then unchanged(this)
              else checkpointSections == section + 1 == storedSections && checkpointHead == shead
    {
      if checkpointSections >= section + 1 || section < storedSections {
        return;
      }
      checkpointSections := section + 1;
      checkpointHead := shead;
      heads := heads[section := shead];
      SetValidSections(section + 1);
    }

    /** Sets the number of stored sections, removing the heads of those given up. */
    method SetValidSections(sections: nat)
      modifies this`storedSections, this`heads
      ensures storedSections == sections
      ensures heads == old(heads) - (set s | s in old(heads) && sections <= s < old(storedSections))
    {
      while storedSections > sections
        invariant sections <= storedSections || storedSections == old(storedSections)
        invariant heads == old(heads) - (set s | s in old(heads) && storedSections <= s < old(storedSections))
      {
        storedSections := storedSections - 1;
        heads := heads - {storedSections};
      }
      storedSections := sections;
    }

    /** Gives up the stored sections from `sections` on. */
    method Cut(sections: nat)
      requires Valid() && checkpointSections <= sections <= storedSections
      modifies this`storedSections, this`heads
      ensures Valid() && storedSections == sections
      ensures forall s: nat ::
                s < sections ==> (s in heads <==> s in old(heads)) && (s in heads ==> heads[s] == old(heads)[s])
    {
      hide Processed;
      ChainedCut(origin, sectionSize, heads, checkpointSections, storedSections, sections);
      SetValidSections(sections);
    }

    /** A reorg down to the common ancestor: only whole sections at or below it stay, beside the checkpoint. */
    method Reorganize(ancestor: nat) returns (cascade: Option<nat>)
      requires Valid()
      modifies this`storedSections, this`heads, this`knownSections, this`cascadedHead
      ensures Valid()
      ensures storedSections <= old(storedSections)
      ensures checkpointSections < storedSections ==> Start(sectionSize, storedSections) <= ancestor + 1
      ensures storedSections == old(storedSections) || storedSections == checkpointSections ||
              ancestor + 1 < End(sectionSize, storedSections)
      ensures knownSections <= old(knownSections) && Start(sectionSize, knownSections) <= ancestor + 1
      ensures knownSections == old(knownSections) || ancestor + 1 < End(sectionSize, knownSections) ||
              (knownSections == 0 && ancestor + 1 < Start(sectionSize, checkpointSections))
      ensures cascade == (if cascadedHead < old(cascadedHead) then Some(cascadedHead) else None)
      ensures cascadedHead <= ancestor + 1
    {
      hide Chained, Processed, Start, End, Before;
      var known: nat := (ancestor + 1) / sectionSize;
      Whole(ancestor, known);
      var stored: nat := known;
      if known < checkpointSections {
        known := 0;
      }
      if stored < checkpointSections {
        stored := checkpointSections;
      }
      if known < knownSections {
        knownSections := known;
      }
      if stored < storedSections {
        Cut(stored);
      }
      var head := Start(sectionSize, known);
      cascade := None;
      if head < cascadedHead {
        cascadedHead := head;
        cascade := Some(head);
      }
    }

    lemma Whole(ancestor: nat, known: nat)
      requires sectionSize > 0 && known == (ancestor + 1) / sectionSize
      ensures forall s: nat {:trigger Start(sectionSize, s)} :: s <= known <==> Start(sectionSize, s) <= ancestor + 1
      ensures ancestor + 1 < End(sectionSize, known)
    {
      hide Start, End;
      forall s: nat
        ensures s <= known <==> Start(sectionSize, s) <= ancestor + 1
      {
        WholeSections(sectionSize, ancestor + 1, s);
      }
      EndIs(sectionSize, known);
    }

    lemma Confirmed(blocks: nat, sections: nat)
      requires sectionSize > 0 && sections == blocks / sectionSize
      ensures forall s: nat {:trigger Start(sectionSize, s)} :: s <= sections <==> Start(sectionSize, s) <= blocks
    {
      hide Start;
      forall s: nat
        ensures s <= sections <==> Start(sectionSize, s) <= blocks
      {
        WholeSections(sectionSize, blocks, s);
      }
    }

    /** A new head with enough confirmations makes sections known, once the chain agrees with the checkpoint. */
    method NewHead(head: nat, checkpointMark: Hash)
      requires Valid()
      modifies this`knownSections
      ensures Valid() && knownSections >= old(knownSections)
      ensures knownSections > old(knownSections) ==>
                && Start(sectionSize, knownSections) + confirmsReq <= head + 1 && knownSections >= checkpointSections
                && (old(knownSections) < checkpointSections ==> checkpointMark == checkpointHead)
      ensures (old(knownSections) >= checkpointSections || checkpointMark == checkpointHead) ==>
                forall s: nat {:trigger Start(sectionSize, s)} ::
                  checkpointSections <= s && Start(sectionSize, s) + confirmsReq <= head + 1 ==> s <= knownSections
    {
      hide Chained, Processed;
      if head >= confirmsReq {
        var sections: nat := (head + 1 - confirmsReq) / sectionSize;
        Confirmed(head + 1 - confirmsReq, sections);
        if sections < checkpointSections {
          sections := 0;
        }
        if sections > knownSections {
          if knownSections < checkpointSections && checkpointMark != checkpointHead {
            return;
          }
          knownSections := sections;
        }
      }
    }

    /** Gives up sections from the last one until a section head is the marked block, or the checkpoint is reached. */
    method VerifyLastHead(marks: nat -> Hash)
      requires Valid()
      modifies this`storedSections, this`heads
      ensures Valid() && storedSections <= old(storedSections)
      ensures storedSections > checkpointSections ==>
                && storedSections - 1 in heads
                && heads[storedSections - 1] == marks(LastBlock(sectionSize, storedSections - 1))
      ensures forall s: nat :: storedSections <= s < old(storedSections) ==>
                s in old(heads) && old(heads)[s] != marks(LastBlock(sectionSize, s))
      ensures forall s: nat ::
                s < storedSections ==> (s in heads <==> s in old(heads)) && (s in heads ==> heads[s] == old(heads)[s])
    {
      hide Processed, Chained, Start, End, LastBlock;
      while storedSections > 0 && storedSections > checkpointSections
        invariant Valid() && storedSections <= old(storedSections)
        invariant forall s: nat :: storedSections <= s < old(storedSections) ==>
                    s in old(heads) && old(heads)[s] != marks(LastBlock(sectionSize, s))
        invariant forall s: nat ::
                  s < storedSections ==> (s in heads <==> s in old(heads)) && (s in heads ==> heads[s] == old(heads)[s])
      {
        var last: nat := storedSections - 1;
        LastHead(last);
        if heads[last] == marks(Start(sectionSize, storedSections) - 1) {
          return;
        }
        Cut(last);
      }
    }

    lemma LastHead(last: nat)
      requires Valid() && last + 1 == storedSections > checkpointSections
      ensures last in heads && Start(sectionSize, storedSections) == LastBlock(sectionSize, last) + 1
    {
      hide Closes, Processed;
      EndIs(sectionSize, last);
      assert Joined(origin, sectionSize, heads, last);
    }

    function SectionHead(section: int): Hash
      reads this
    {
      if section in heads then heads[section] else EMPTY_HASH
    }

    /** Picks the next section to process, if one is known; the lock is released afterwards. */
    method BeginUpdate(marks: nat -> Hash)
      requires Valid() && work.None?
      modifies this`storedSections, this`heads, this`work
      ensures Valid()
      ensures if knownSections <= old(storedSections) then unchanged(this)
              else
                var oldHead := if storedSections > 0 then SectionHead(storedSections - 1) else EMPTY_HASH;
                work == Some(Work(storedSections, oldHead, Start(sectionSize, storedSections), oldHead, false))
      ensures knownSections > old(storedSections) && storedSections > checkpointSections ==>
                SectionHead(storedSections - 1) == marks(LastBlock(sectionSize, storedSections - 1))
    {
      hide Chained, Start, End, Up, LastBlock;
      if knownSections > storedSections {
        VerifyLastHead(marks);
        var section := storedSections;
        var oldHead := if section > 0 then SectionHead(section - 1) else EMPTY_HASH;
        Starts(section);
        work := Some(Work(section, oldHead, Start(sectionSize, section), oldHead, false));
      }
    }

    lemma Starts(section: nat)
      requires Valid() && section == storedSections
      ensures section > checkpointSections ==> SectionHead(section - 1) != EMPTY_HASH
      ensures forall h :: Up(origin, h, 0) == h
      ensures Start(sectionSize, section) <= End(sectionSize, section)
    {
      EndIs(sectionSize, section);
      if section > checkpointSections {
        var last: nat := section - 1;
        assert Joined(origin, sectionSize, heads, last);
      }
    }

    /** Processes one more block of the section, without the lock: it must follow on from the last one. */
    method ProcessNext(mark: Hash, db: ChainDb, accepted: bool)
      requires Valid() && AllGenuine(origin, db.headers)
      requires work.Some? && !work.value.failed && work.value.number < End(sectionSize, work.value.section)
      modifies this`work
      ensures var w := old(work.value);
        var header := db.ReadHeader(mark, w.number);
        Valid() && work == Some(
          if mark != EMPTY_HASH && header.Some? && header.value.parent == w.last && accepted
          then w.(number := w.number + 1, last := mark) else w.(failed := true))
    {
      hide Chained, Start, End, Up;
      var w := work.value;
      var header := db.ReadHeader(mark, w.number);
      if mark == EMPTY_HASH || header.None? || header.value.parent != w.last || !accepted {
        work := Some(w.(failed := true));
        return;
      }
      ProcessedStep(origin, sectionSize, w, header.value);
      work := Some(w.(number := w.number + 1, last := mark));
    }

    /** Back under the lock: stores the section if it was processed and its predecessor is still the same. */
    method FinishUpdate(committed: bool, marks: nat -> Hash) returns (cascade: Option<nat>)
      requires Valid() && work.Some? && (work.value.failed || work.value.number == End(sectionSize, work.value.section))
      modifies this`storedSections, this`heads, this`work, this`knownSections, this`cascadedHead
      ensures Valid() && work.None?
      ensures var w := old(work.value);
        var done := committed && !w.failed && (w.section == 0 || w.oldHead == old(SectionHead(w.section - 1)));
        if done then
          && storedSections == w.section + 1 && heads == old(heads)[w.section := w.last]
          && knownSections == old(knownSections)
        else knownSections == storedSections <= old(storedSections)
      ensures cascade.Some? ==> cascade == Some(cascadedHead) && cascadedHead + 1 == Start(sectionSize, storedSections)
    {
      hide Chained, Start, End, Up, LastBlock, Closes, Processed;
      var w := work.value;
      work, cascade := None, None;
      if committed && !w.failed && (w.section == 0 || w.oldHead == SectionHead(w.section - 1)) {
        Follows(w);
        ProcessedAll(origin, sectionSize, w);
        ChainedMore(origin, sectionSize, heads, checkpointSections, storedSections, w.last);
        LastBlockIs(sectionSize, w.section, w.section + 1);
        heads := heads[w.section := w.last];
        ghost var none := set s | s in heads && w.section + 1 <= s < storedSections;
        assert none == {} && heads - none == heads;
        SetValidSections(w.section + 1);
        cascadedHead := LastBlock(sectionSize, w.section);
        cascade := Some(cascadedHead);
      } else {
        VerifyLastHead(marks);
        knownSections := storedSections;
      }
    }

    /** With the head it was started on still there, the processed section is the next one. */
    lemma Follows(w: Work)
      requires Chained(origin, sectionSize, heads, checkpointSections, storedSections)
      requires checkpointSections <= storedSections <= w.section
      requires w.section > checkpointSections ==> w.oldHead != EMPTY_HASH
      requires w.section == 0 ==> w.oldHead == EMPTY_HASH
      requires w.section == 0 || w.oldHead == SectionHead(w.section - 1)
      ensures w.section == storedSections && Before(heads, storedSections) == w.oldHead
    {
      hide Closes;
    }

    /** The stored sections, rolled back to the last one whose head is marked. */
    method Sections(db: ChainDb) returns (sections: nat, last: nat, head: Hash)
      requires Valid()
      modifies this`storedSections, this`heads
      ensures Valid() && sections == storedSections && head == SectionHead(sections - 1)
      ensures last == if sections == 0 then UINT64 - 1 else LastBlock(sectionSize, sections - 1) % UINT64
      ensures Consecutive(origin, db.canon) && sections > checkpointSections ==>
                forall s: nat {:trigger IsMarked(db.canon, sectionSize, heads, s)} ::
                  checkpointSections <= s + 1 && s < sections ==> IsMarked(db.canon, sectionSize, heads, s)
    {
      hide Chained, Start, End, Up, Processed, LastBlock, Consecutive;
      VerifyLastHead(n => db.ReadCanonicalHash(n));
      sections, head := storedSections, SectionHead(storedSections - 1);
      last := (storedSections * sectionSize - 1) % UINT64;
      LastOf(sectionSize, sections);
      if Consecutive(origin, db.canon) && sections > checkpointSections {
        Vouched(db);
      }
    }

    static lemma LastOf(size: nat, n: nat)
      requires size > 0
      ensures (n * size - 1) % UINT64 == if n == 0 then UINT64 - 1 else LastBlock(size, n - 1) % UINT64
    {
      assert n == 0 ==> n * size == 0;
    }

    /** All section heads from the checkpoint up are canonical when the last one is. */
    lemma Vouched(db: ChainDb)
      requires Valid() && Consecutive(origin, db.canon) && storedSections > checkpointSections
      requires SectionHead(storedSections - 1) == db.ReadCanonicalHash(LastBlock(sectionSize, storedSections - 1))
      ensures forall s: nat {:trigger IsMarked(db.canon, sectionSize, heads, s)} ::
                checkpointSections <= s + 1 && s < storedSections ==> IsMarked(db.canon, sectionSize, heads, s)
    {
      hide Processed, Consecutive, Up;
      var last: nat := storedSections - 1;
      assert Joined(origin, sectionSize, heads, last);
      EndIs(sectionSize, last);
      assert IsMarked(db.canon, sectionSize, heads, last);
      forall s: nat | checkpointSections <= s + 1 && s < storedSections
        ensures IsMarked(db.canon, sectionSize, heads, s)
      {
        VouchesBelow(origin, db.canon, sectionSize, heads, checkpointSections, storedSections, last, s);
      }
    }

    /** Executes any schedule of head events, reorgs, queries and steps of the update loop. */
    method Run(events: seq<Event>)
      requires Valid()
      requires forall i :: 0 <= i < |events| && events[i].Process? ==> AllGenuine(origin, events[i].db.headers)
      modifies this
      ensures Valid() && checkpointSections == old(checkpointSections) && checkpointHead == old(checkpointHead)
    {
      for i := 0 to |events|
        invariant Valid() && checkpointSections == old(checkpointSections) && checkpointHead == old(checkpointHead)
      {
        match events[i]
        case Head(head, mark) =>
          NewHead(head, mark);
        case Reorg(ancestor) =>
          var _ := Reorganize(ancestor);
        case Begin(marks) =>
          if work.None? {
            BeginUpdate(marks);
          }
        case Process(mark, db, accepted) =>
          if work.Some? && !work.value.failed && work.value.number < End(sectionSize, work.value.section) {
            ProcessNext(mark, db, accepted);
          }
        case Finish(committed, verify) =>
          if work.Some? && (work.value.failed || work.value.number == End(sectionSize, work.value.section)) {
            var _ := FinishUpdate(committed, verify);
          }
        case Query(read) =>
          VerifyLastHead(read);
      }
    }
  }
}
