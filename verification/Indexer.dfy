/**
 The chain indexer: sections of the canonical chain are processed without the
 lock held, while the chain changes and reorganisations cut the index back.
 */
module Indexers {
  import opened Types
  import opened Blocks

  /** Following exactly `n` parent links from `h` leads to `base`. */
  ghost predicate DescendsBy(h: Hash, n: nat, base: Hash) {
    if n == 0 then h == base else h.HashOf? && DescendsBy(h.block.parentHash, n - 1, base)
  }

  lemma {:induction false} OneMoreLink(h: Hash, n: nat, base: Hash, b: Block)
    requires DescendsBy(h, n, base) && b.parentHash == h
    ensures DescendsBy(b.Hash(), n + 1, base)
  {
  }

  type Heads = map<nat, Hash>

  function Min(a: int, b: int): int {
    if a < b then a else b
  }

  function HeadAt(heads: Heads, section: int): Hash {
    if section in heads then heads[section] else Zero
  }

  /** The head of a section: the last block of a run of `size` blocks on top of the previous head. */
  ghost predicate SectionLinked(heads: Heads, section: nat, size: nat) {
    && section in heads && heads[section].HashOf?
    && heads[section].block.number == (section + 1) * size - 1
    && DescendsBy(heads[section], size, HeadAt(heads, section - 1))
  }

  /** Heads exist exactly for the first `stored` sections, and each one builds on the one before. */
  ghost predicate Indexed(heads: Heads, stored: nat, size: nat) {
    && (forall i: nat :: i in heads <==> i < stored)
    && (forall i: nat :: i < stored ==> SectionLinked(heads, i, size))
  }

  lemma {:induction false} FewerSections(heads: Heads, stored: nat, size: nat)
    requires 0 < stored && Indexed(heads, stored, size)
    ensures Indexed(heads - {stored - 1}, stored - 1, size)
  {
    var fewer := heads - {stored - 1};
    forall i: nat | i < stored - 1 ensures SectionLinked(fewer, i, size) {
      assert SectionLinked(heads, i, size);
      assert HeadAt(fewer, i - 1) == HeadAt(heads, i - 1);
    }
  }

  lemma {:induction false} OneMoreSection(heads: Heads, stored: nat, size: nat, head: Hash)
    requires Indexed(heads, stored, size)
    requires head.HashOf? && head.block.number == (stored + 1) * size - 1
    requires DescendsBy(head, size, HeadAt(heads, stored - 1))
    ensures Indexed(heads[stored := head], stored + 1, size)
  {
    var more := heads[stored := head];
    forall i: nat | i < stored + 1 ensures SectionLinked(more, i, size) {
      if i < stored { assert SectionLinked(heads, i, size); }
      assert HeadAt(more, i - 1) == HeadAt(heads, i - 1);
    }
  }

  /** `now` is `was` cut to its first `stored` sections. */
  ghost predicate CutTo(was: Heads, now: Heads, stored: nat) {
    && (forall i: nat :: i in now <==> i in was && i < stored)
    && (forall i: nat :: i in now ==> now[i] == was[i])
  }

  /** What other goroutines do while the lock is free: a notification, or a change of the chain database. */
  datatype Change =
    | Notified(head: nat, reorg: bool)
    | Rewritten(canonical: Canonical, headers: set<Hash>)

  /** The chain database as the indexer reads it. */
  datatype Chain = Chain(canonical: Canonical, headers: set<Hash>)
  {
    function After(changes: seq<Change>): Chain {
      if changes == [] then this
      else
        var last := changes[|changes| - 1];
        if last.Rewritten? then Chain(last.canonical, last.headers) else After(changes[..|changes| - 1])
    }

    function Header(number: nat): Option<Block> {
      if number in canonical && canonical[number] in headers && canonical[number].HashOf?
         && canonical[number].block.number == number
      then Some(canonical[number].block) else None
    }
  }

  /** How many sections are left of `stored` after some changes: a reorganisation cuts to the section it names. */
  function CutBack(stored: nat, changes: seq<Change>, size: nat): nat
    requires 0 < size
  {
    if changes == [] then stored
    else
      var kept, last := CutBack(stored, changes[..|changes| - 1], size), changes[|changes| - 1];
      if last.Notified? && last.reorg then Min(kept, last.head / size) else kept
  }

  /** The changes of one moment in a schedule; nothing happens once it has run out. */
  function Moment(schedule: seq<seq<Change>>, i: nat): seq<Change> {
    if i < |schedule| then schedule[i] else []
  }

  /** How many sections are left after the first `n` moments. */
  function CutUntil(stored: nat, schedule: seq<seq<Change>>, n: nat, size: nat): nat
    requires 0 < size
  {
    if n == 0 then stored else CutBack(CutUntil(stored, schedule, n - 1, size), Moment(schedule, n - 1), size)
  }

  /** Reading `todo` blocks from `number` on top of `last`, each from the chain as it is at its moment. */
  function Scan(chain: Chain, last: Hash, number: nat, todo: nat, schedule: seq<seq<Change>>, i: nat): Option<Hash>
    decreases todo
  {
    if todo == 0 then Some(last)
    else
      var now := chain.After(Moment(schedule, i));
      var header := now.Header(number);
      if header.None? || header.value.parentHash != last then None
      else Scan(now, header.value.Hash(), number + 1, todo - 1, schedule, i + 1)
  }

  predicate IsCanonical(c: Canonical, hash: Hash, number: nat) {
    number in c && c[number] == hash
  }

  /** Change `i` is the last that rewrites the chain. */
  ghost predicate LastRewrite(changes: seq<Change>, i: int) {
    && 0 <= i < |changes| && changes[i].Rewritten?
    && forall j :: i < j < |changes| ==> changes[j].Notified?
  }

  /** If any of the changes rewrites the chain, the last one to do so has the given block at its number. */
  ghost predicate LeavesInPlace(changes: seq<Change>, hash: Hash, number: nat) {
    forall i :: LastRewrite(changes, i) ==> IsCanonical(changes[i].canonical, hash, number)
  }

  /** A block that is canonical before some changes is so after them exactly if they leave it in place. */
  lemma {:induction false} StaysCanonical(chain: Chain, changes: seq<Change>, hash: Hash, number: nat)
    requires IsCanonical(chain.canonical, hash, number)
    ensures IsCanonical(chain.After(changes).canonical, hash, number) <==> LeavesInPlace(changes, hash, number)
  {
    if changes != [] {
      var less, last := changes[..|changes| - 1], changes[|changes| - 1];
      assert changes == less + [last];
      if last.Rewritten? {
        assert LastRewrite(changes, |less|);
        assert forall i :: LastRewrite(changes, i) ==> i == |less|;
      } else {
        StaysCanonical(chain, less, hash, number);
        forall i ensures LastRewrite(changes, i) <==> LastRewrite(less, i) {
          assert forall j :: 0 <= j < |less| ==> changes[j] == less[j];
        }
      }
    }
  }

  class ChainIndexer {
    const sectionSize: nat
    const confirmsReq: nat
    var storedSections: nat
    var knownSections: nat
    var cascadedHead: int
    /** The index database: section heads and the persisted number of valid sections. */
    var heads: Heads
    var validSections: nat
    /** The chain database as it is now; other goroutines change it at any time. */
    var canonical: Canonical
    var headers: set<Hash>

    ghost predicate Valid()
      reads this
    {
      && 0 < sectionSize && validSections == storedSections
      && Indexed(heads, storedSections, sectionSize)
    }

    constructor (sectionSize: nat, confirmsReq: nat)
      requires 0 < sectionSize
      ensures Valid() && storedSections == 0 && knownSections == 0 && heads == map[]
      ensures this.sectionSize == sectionSize && this.confirmsReq == confirmsReq
    {
      this.sectionSize, this.confirmsReq := sectionSize, confirmsReq;
      storedSections, knownSections, cascadedHead := 0, 0, 0;
      heads, validSections := map[], 0;
      canonical, headers := map[], {};
    }

    /** Persists the number of valid sections and deletes the heads above it. */
    method SetValidSections(sections: nat)
      requires Valid() && sections <= storedSections
      modifies this`storedSections, this`heads, this`validSections
      ensures Valid() && storedSections == sections && CutTo(old(heads), heads, sections)
    {
      hide SectionLinked;
      validSections := sections;
      while storedSections > sections
        invariant sections <= storedSections && validSections == sections
        invariant Indexed(heads, storedSections, sectionSize) && CutTo(old(heads), heads, storedSections)
      {
        FewerSections(heads, storedSections, sectionSize);
        storedSections := storedSections - 1;
        heads := heads - {storedSections};
      }
    }

    /** Notification of a new chain head, or of the common ancestor in a reorganisation. */
    method NewHead(head: nat, reorg: bool)
      requires Valid()
      modifies this`storedSections, this`knownSections, this`heads, this`validSections, this`cascadedHead
      ensures Valid() && CutTo(old(heads), heads, storedSections)
      ensures reorg ==>
                && storedSections == Min(old(storedSections), head / sectionSize)
                && storedSections * sectionSize <= head
                && knownSections == Min(old(knownSections), head / sectionSize) && knownSections * sectionSize <= head
                && cascadedHead == Min(old(cascadedHead), head / sectionSize * sectionSize)
      ensures !reorg ==>
                && storedSections == old(storedSections) && cascadedHead == old(cascadedHead)
                && old(knownSections) <= knownSections
                && (old(knownSections) < knownSections ==> knownSections * sectionSize + confirmsReq <= head + 1)
                && head + 1 < (knownSections + 1) * sectionSize + confirmsReq
    {
      hide Indexed, CutTo;
      NothingCut(heads, storedSections, sectionSize);
      ghost var known, stored := knownSections, storedSections;
      if reorg {
        var changed := head / sectionSize;
        LowestSection(stored, head, sectionSize);
        LowestSection(known, head, sectionSize);
        if changed < knownSections {
          knownSections := changed;
        }
        if changed < storedSections {
          SetValidSections(changed);
        }
        if changed * sectionSize < cascadedHead {
          cascadedHead := changed * sectionSize;
        }
      } else {
        MostConfirmed(known, head, confirmsReq, sectionSize);
        if head >= confirmsReq {
          var sections := (head + 1 - confirmsReq) / sectionSize;
          if sections > knownSections {
            knownSections := sections;
          }
        }
      }
    }

    function Database(): Chain
      reads this`canonical, this`headers
    {
      Chain(canonical, headers)
    }

    /** Other goroutines at work while a section is in flight; the index may be cut back. */
    method Interfere(changes: seq<Change>)
      requires Valid()
      modifies this
      ensures Valid() && CutTo(old(heads), heads, storedSections)
      ensures storedSections == CutBack(old(storedSections), changes, sectionSize) <= old(storedSections)
      ensures Database() == old(Database()).After(changes)
    {
      hide Indexed;
      NothingCut(heads, storedSections, sectionSize);
      for i := 0 to |changes|
        invariant Valid() && CutTo(old(heads), heads, storedSections)
        invariant storedSections == CutBack(old(storedSections), changes[..i], sectionSize) <= old(storedSections)
        invariant Database() == old(Database()).After(changes[..i])
      {
        assert changes[..i + 1][..i] == changes[..i];
        match changes[i]
        case Notified(head, reorg) =>
          NewHead(head, reorg);
        case Rewritten(c, h) =>
          canonical, headers := c, h;
      }
      assert changes[..|changes|] == changes;
    }

    /**
     Processes a section on top of `lastHead`, reading the chain as it happens to be at each
     step. What it returns is a run of exactly one section's blocks on top of `lastHead`, whose last
     one was canonical when it was read: `read` is the canonical chain at that moment.
     */
    method ProcessSection(section: nat, lastHead: Hash, schedule: seq<seq<Change>>, resetFails: bool, commitFails: bool)
      returns (newHead: Option<Hash>, ghost read: Canonical)
      requires Valid() && section == storedSections
      modifies this
      ensures Valid() && storedSections <= section && CutTo(old(heads), heads, storedSections)
      ensures newHead == if resetFails || commitFails then None
                         else Scan(old(Database()).After(Moment(schedule, 0)), lastHead, section * sectionSize,
                                   sectionSize, schedule, 1)
      ensures newHead.Some? ==>
                && newHead.value.HashOf? && newHead.value.block.number == (section + 1) * sectionSize - 1
                && DescendsBy(newHead.value, sectionSize, lastHead)
                && IsCanonical(read, newHead.value, (section + 1) * sectionSize - 1)
                && canonical == Chain(read, {}).After(Moment(schedule, sectionSize + 1)).canonical
                && storedSections == CutUntil(section, schedule, sectionSize + 2, sectionSize)
    {
      hide Indexed, DescendsBy, Chain.After, CutBack, Scan, CutUntil, Moment, CutTo;
      NothingCut(heads, storedSections, sectionSize);
      read := canonical;
      Interfere(Moment(schedule, 0));
      CutNext(section, schedule, 0, sectionSize);
      ghost var found := Scan(Database(), lastHead, section * sectionSize, sectionSize, schedule, 1);
      if resetFails {
        ghost var mid, sections := heads, storedSections;
        SetValidSections(0);
        CutAgain(old(heads), mid, heads, sections, 0);
        return None, read;
      }
      var number, last := section * sectionSize, lastHead;
      ghost var done: nat := 0;
      NoLinks(lastHead);
      SectionEnd(section, sectionSize);
      while number < (section + 1) * sectionSize
        invariant number == section * sectionSize + done && done <= sectionSize
        invariant Valid() && storedSections <= section && CutTo(old(heads), heads, storedSections)
        invariant storedSections == CutUntil(section, schedule, 1 + done, sectionSize)
        invariant found == Scan(Database(), last, number, sectionSize - done, schedule, 1 + done)
        invariant DescendsBy(last, done, lastHead)
        invariant 0 < done ==> && last.HashOf? && last.block.number == number - 1
                               && IsCanonical(canonical, last, number - 1) && read == canonical
        decreases sectionSize - done
      {
        SectionEnd(section, sectionSize);
        ghost var chain, mid, sections := Database(), heads, storedSections;
        Interfere(Moment(schedule, 1 + number - section * sectionSize));
        CutAgain(old(heads), mid, heads, sections, storedSections);
        ScanNext(chain, Database(), last, number, sectionSize - done, schedule, 1 + done);
        CutNext(section, schedule, 1 + done, sectionSize);
        read := canonical;
        // An unknown number, a missing header and a broken link all end the processing.
        var header := Database().Header(number);
        if header.None? || header.value.parentHash != last {
          return None, read;
        }
        OneMoreLink(last, done, lastHead, header.value);
        last := header.value.Hash();
        number, done := number + 1, done + 1;
      }
      SectionEnd(section, sectionSize);
      SameCanonical(Database(), Chain(read, {}), Moment(schedule, sectionSize + 1));
      CutNext(section, schedule, sectionSize + 1, sectionSize);
      ScanDone(Database(), last, number, schedule, 1 + done);
      ghost var mid, sections := heads, storedSections;
      Interfere(Moment(schedule, sectionSize + 1));
      CutAgain(old(heads), mid, heads, sections, storedSections);
      newHead := if commitFails then None else Some(last);
    }

    /** What reading the next section finds under a schedule. */
    function Found(schedule: seq<seq<Change>>): Option<Hash>
      reads this`storedSections, this`heads, this`canonical, this`headers
    {
      Scan(Database().After(Moment(schedule, 0)), HeadAt(heads, storedSections - 1), storedSections * sectionSize,
           sectionSize, schedule, 1)
    }

    /**
     One turn of the update loop. A section is added exactly when it was processed and its
     predecessor is still the head it was processed on; nothing below it has changed then, and the
     index was never cut back below it in the meantime. The new head is canonical exactly if nothing
     rewrote the chain after its last block was read, or the last to do so left that block in place.
     */
    method Update(schedule: seq<seq<Change>>, resetFails: bool, commitFails: bool)
      returns (committed: bool, ghost read: Canonical)
      requires Valid()
      modifies this
      ensures Valid()
      ensures committed <==>
                && old(knownSections > storedSections) && !resetFails && !commitFails
                && old(Found(schedule)).Some?
                && CutUntil(old(storedSections), schedule, sectionSize + 2, sectionSize) == old(storedSections)
      ensures committed ==>
                && storedSections == old(storedSections) + 1
                && CutTo(heads, old(heads), old(storedSections)) && cascadedHead == storedSections * sectionSize - 1
      ensures committed ==>
                var last := storedSections * sectionSize - 1;
                && Some(heads[old(storedSections)]) == old(Found(schedule))
                && IsCanonical(read, heads[old(storedSections)], last)
                && (IsCanonical(canonical, heads[old(storedSections)], last) <==>
                      LeavesInPlace(Moment(schedule, sectionSize + 1), heads[old(storedSections)], last))
                && canonical == Chain(read, {}).After(Moment(schedule, sectionSize + 1)).canonical
      ensures old(knownSections <= storedSections) ==> !committed && unchanged(this)
      ensures old(knownSections > storedSections) && !committed ==> knownSections == storedSections
      ensures !committed ==> storedSections <= old(storedSections) && CutTo(old(heads), heads, storedSections)
    {
      hide Indexed, DescendsBy, Scan, CutUntil, LeavesInPlace, Chain.After;
      committed, read := false, canonical;
      NothingCut(heads, storedSections, sectionSize);
      if knownSections > storedSections {
        var section: int := storedSections;
        var oldHead := if section > 0 then HeadAt(heads, section - 1) else Zero;
        LastHead(heads, section, sectionSize);
        var newHead;
        newHead, read := ProcessSection(section, oldHead, schedule, resetFails, commitFails);
        if newHead.Some? && oldHead == HeadAt(heads, section - 1) {
          StillThere(old(heads), heads, section, storedSections, sectionSize);
          OneMoreSection(heads, section, sectionSize, newHead.value);
          heads := heads[section := newHead.value];
          storedSections, validSections := section + 1, section + 1;
          cascadedHead := storedSections * sectionSize - 1;
          StaysCanonical(Chain(read, {}), Moment(schedule, sectionSize + 1), newHead.value, cascadedHead);
          committed := true;
        } else {
          knownSections := storedSections;
        }
      }
    }

    /** Any run of the indexer: update turns with anything before and during them, for any length. */
    method Run(turns: seq<Turn>)
      requires Valid()
      modifies this
      ensures Valid()
    {
      hide Indexed;
      for i := 0 to |turns|
        invariant Valid()
      {
        Interfere(turns[i].before);
        var committed;
        ghost var read;
        committed, read := Update(turns[i].schedule, turns[i].resetFails, turns[i].commitFails);
      }
    }
  }

  datatype Turn = Turn(before: seq<Change>, schedule: seq<seq<Change>>, resetFails: bool, commitFails: bool)

  lemma {:induction false} ScanNext(chain: Chain, now: Chain, last: Hash, number: nat, todo: nat,
                                    schedule: seq<seq<Change>>, i: nat)
    requires 0 < todo && now == chain.After(Moment(schedule, i))
    ensures var header := now.Header(number);
            Scan(chain, last, number, todo, schedule, i) ==
              if header.None? || header.value.parentHash != last then None
              else Scan(now, header.value.Hash(), number + 1, todo - 1, schedule, i + 1)
  {
  }

  lemma {:induction false} ScanDone(chain: Chain, last: Hash, number: nat, schedule: seq<seq<Change>>, i: nat)
    ensures Scan(chain, last, number, 0, schedule, i) == Some(last)
  {
  }

  lemma {:induction false} CutNext(stored: nat, schedule: seq<seq<Change>>, n: nat, size: nat)
    requires 0 < size
    ensures CutUntil(stored, schedule, n + 1, size) ==
              CutBack(CutUntil(stored, schedule, n, size), Moment(schedule, n), size)
    ensures CutUntil(stored, schedule, 0, size) == stored
  {
  }

  lemma {:induction false} CutAgain(was: Heads, mid: Heads, now: Heads, stored: nat, less: nat)
    requires CutTo(was, mid, stored) && CutTo(mid, now, less) && less <= stored
    ensures CutTo(was, now, less)
  {
  }

  lemma {:induction false} SameCanonical(c: Chain, d: Chain, changes: seq<Change>)
    requires c.canonical == d.canonical
    ensures c.After(changes).canonical == d.After(changes).canonical
  {
    if changes != [] {
      SameCanonical(c, d, changes[..|changes| - 1]);
    }
  }

  lemma {:induction false} NothingCut(heads: Heads, stored: nat, size: nat)
    requires Indexed(heads, stored, size)
    ensures CutTo(heads, heads, stored)
  {
  }

  lemma {:induction false} NoLinks(h: Hash)
    ensures DescendsBy(h, 0, h)
  {
  }

  lemma {:induction false} SectionEnd(section: nat, size: nat)
    ensures (section + 1) * size == section * size + size
  {
  }

  /** Cut to the section of a block, the sections end at or below it. */
  lemma {:induction false} LowestSection(sections: nat, head: nat, size: nat)
    requires 0 < size
    ensures Min(sections, head / size) * size <= head
  {
    SectionsBelow(head / size, Min(sections, head / size), size, head);
  }

  /** The number of sections known after a new head: as many as it confirms, or as before if those were more. */
  lemma {:induction false} MostConfirmed(known: nat, head: nat, confirms: nat, size: nat)
    requires 0 < size
    ensures var sections := if confirms <= head then (head + 1 - confirms) / size else 0;
            var now := if sections > known then sections else known;
            (known < now ==> now * size + confirms <= head + 1) && head + 1 < (now + 1) * size + confirms
  {
    if confirms <= head {
      var sections := (head + 1 - confirms) / size;
      SectionsBelow(sections, known + 1, size, head + 1 - confirms);
      SectionsBelow(sections, sections, size, head + 1 - confirms);
      SectionsBelow(sections, sections + 1, size, head + 1 - confirms);
    } else {
      assert size <= (known + 1) * size;
    }
  }

  lemma {:induction false} SectionsBelow(changed: nat, stored: nat, size: nat, head: nat)
    requires 0 < size && changed == head / size
    ensures changed * size <= head
    ensures stored <= changed ==> stored * size <= head
    ensures changed < stored ==> head < stored * size
  {
    assert head == changed * size + head % size;
    if stored <= changed {
      assert stored * size <= changed * size;
    } else {
      assert (changed + 1) * size <= stored * size;
    }
  }

  /** The last head of a non-empty index is not the empty hash; an empty index has none. */
  lemma {:induction false} LastHead(heads: Heads, stored: nat, size: nat)
    requires Indexed(heads, stored, size)
    ensures HeadAt(heads, stored - 1) == Zero <==> stored == 0
  {
    if 0 < stored { assert SectionLinked(heads, stored - 1, size); }
  }

  /** If the predecessor's head is still in place, the index has not been cut. */
  lemma {:induction false} StillThere(was: Heads, now: Heads, section: nat, stored: nat, size: nat)
    requires Indexed(was, section, size) && Indexed(now, stored, size) && stored <= section && CutTo(was, now, stored)
    requires HeadAt(was, section - 1) == HeadAt(now, section - 1)
    ensures stored == section && now == was
  {
    LastHead(was, section, size);
    if 0 < section { assert section - 1 in now; }
  }

  // ---------- A stale section ----------

  /**
   A reorganisation inside a section in flight, after its last block was read: the notification
   names a block of that very section, so no section is cut back, and the section is still added. Its
   head is then not canonical.
   */
  method StaleSection(first: Block, kept: Block, dropped: Block) returns (indexer: ChainIndexer)
    requires first.number == 0 && first.parentHash == Zero && kept != dropped
    requires kept.number == 1 && kept.parentHash == first.Hash()
    requires dropped.number == 1 && dropped.parentHash == first.Hash()
    ensures fresh(indexer) && indexer.Valid() && indexer.storedSections == 1
    ensures indexer.heads[0] == dropped.Hash() && IsCanonical(indexer.canonical, kept.Hash(), 1)
  {
    hide Indexed, Scan, CutUntil, CutBack;
    indexer := new ChainIndexer(2, 0);
    var headers := {first.Hash(), kept.Hash(), dropped.Hash()};
    var before, after := map[0 := first.Hash(), 1 := dropped.Hash()], map[0 := first.Hash(), 1 := kept.Hash()];
    var schedule := [[], [], [], [Rewritten(after, headers), Notified(0, true)]];
    indexer.Interfere([Rewritten(before, headers)]);
    NoneLeft([Rewritten(before, headers)], 2);
    indexer.NewHead(1, false);
    TwoFound(first, dropped, indexer.Database(), schedule);
    NoneLeftUntil(schedule, 4, 2);
    var committed;
    ghost var read;
    committed, read := indexer.Update(schedule, false, false);
    assert Moment(schedule, 3)[..1] == [Rewritten(after, headers)];
  }

  lemma {:induction false} TwoFound(first: Block, second: Block, chain: Chain, schedule: seq<seq<Change>>)
    requires first.number == 0 && first.parentHash == Zero && second.number == 1 && second.parentHash == first.Hash()
    requires chain.canonical == map[0 := first.Hash(), 1 := second.Hash()]
    requires first.Hash() in chain.headers && second.Hash() in chain.headers
    requires |schedule| == 4 && schedule[0] == schedule[1] == schedule[2] == []
    ensures Scan(chain.After(Moment(schedule, 0)), Zero, 0, 2, schedule, 1) == Some(second.Hash())
  {
    hide Scan;
    assert chain.After([]) == chain;
    ScanNext(chain, chain, Zero, 0, 2, schedule, 1);
    ScanNext(chain, chain, first.Hash(), 1, 1, schedule, 2);
    ScanDone(chain, second.Hash(), 2, schedule, 3);
  }

  /** An empty index stays empty. */
  lemma {:induction false} NoneLeft(changes: seq<Change>, size: nat)
    requires 0 < size
    ensures CutBack(0, changes, size) == 0
  {
    if changes != [] {
      NoneLeft(changes[..|changes| - 1], size);
    }
  }

  lemma {:induction false} NoneLeftUntil(schedule: seq<seq<Change>>, n: nat, size: nat)
    requires 0 < size
    ensures CutUntil(0, schedule, n, size) == 0
  {
    if 0 < n {
      NoneLeftUntil(schedule, n - 1, size);
      NoneLeft(Moment(schedule, n - 1), size);
    }
  }
}
