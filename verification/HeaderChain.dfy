/**
 The header chain: storing headers with their total score and keeping the
 canonical numbers on the heaviest chain.
 */
module HeaderChains {
  import opened Types
  import opened Blocks

  type Store = map<Hash, Block>
  type Scores = map<Hash, nat>

  datatype WriteStatus = UnknownAncestor | CanonStat | SideStat

  /** A header or score is found under its hash and number together. */
  function Find(store: Store, hash: Hash, number: int): Option<Block> {
    if hash in store && store[hash].number == number then Some(store[hash]) else None
  }

  function FindScore(scores: Scores, hash: Hash, number: int): Option<nat> {
    if hash in scores && hash.HashOf? && hash.block.number == number then Some(scores[hash]) else None
  }

  function CanonicalAt(canonical: Canonical, number: int): Hash {
    if number in canonical then canonical[number] else Zero
  }

  /** Headers are stored under their own hash; nothing is said about parents being there. */
  ghost predicate Keyed(store: Store) {
    forall h :: h in store ==> store[h].Hash() == h
  }

  /** Stored headers have their own hash as key and name a chain of parents that ends in the genesis block. */
  ghost predicate Grounded(store: Store, genesis: Block) {
    && genesis.number == 0 && genesis.Hash() in store
    && forall h :: h in store ==> store[h].Hash() == h && Linked(store[h], genesis)
  }

  /** And each of them has its parent stored as well. */
  ghost predicate Rooted(store: Store, genesis: Block) {
    Grounded(store, genesis) && forall h :: h in store && 0 < store[h].number ==> store[h].parentHash in store
  }

  /** Every block of a chain is stored. */
  ghost predicate ChainStored(store: Store, b: Block, genesis: Block)
    requires Linked(b, genesis)
  {
    forall n: nat :: n <= b.number ==> Ancestor(b, genesis, n).Hash() in store
  }

  /** Every stored header, and nothing else, has a score: the sum along its ancestry. */
  ghost predicate Scored(store: Store, scores: Scores, genesis: Block) {
    && scores.Keys == store.Keys
    && forall h :: h in store ==> Linked(store[h], genesis) && scores[h] == TotalScore(store[h], genesis)
  }

  ghost predicate Heaviest(store: Store, head: Block, genesis: Block)
    requires Rooted(store, genesis) && Linked(head, genesis)
  {
    forall h :: h in store ==> TotalScore(store[h], genesis) <= TotalScore(head, genesis)
  }

  lemma {:induction false} AncestorStored(store: Store, genesis: Block, b: Block, n: nat)
    requires Rooted(store, genesis) && b.Hash() in store && n <= b.number
    ensures Linked(b, genesis) && Ancestor(b, genesis, n).Hash() in store
    decreases b
  {
    assert store[b.Hash()] == b;
    if n < b.number {
      AncestorStored(store, genesis, b.parentHash.block, n);
    }
  }

  /** Storing a header under a stored parent keeps the store grounded, rooted and scored. */
  lemma {:induction false} StoreHeader(store: Store, scores: Scores, genesis: Block, header: Block, parentScore: nat)
    requires Grounded(store, genesis) && Scored(store, scores, genesis)
    requires FindScore(scores, header.parentHash, header.number - 1) == Some(parentScore)
    ensures Linked(header, genesis) && TotalScore(header, genesis) == parentScore + header.score
    ensures Grounded(store[header.Hash() := header], genesis)
    ensures Rooted(store, genesis) ==> Rooted(store[header.Hash() := header], genesis)
    ensures Scored(store[header.Hash() := header], scores[header.Hash() := parentScore + header.score], genesis)
  {
    assert header.parentHash in store && store[header.parentHash] == header.parentHash.block by {
      assert store[header.parentHash].Hash() == header.parentHash;
    }
    StayGrounded(store, genesis, header);
    StayScored(store, scores, genesis, header);
  }

  lemma {:induction false} StayGrounded(store: Store, genesis: Block, header: Block)
    requires Grounded(store, genesis) && Linked(header, genesis) && (0 < header.number ==> header.parentHash in store)
    ensures Grounded(store[header.Hash() := header], genesis)
    ensures Rooted(store, genesis) ==> Rooted(store[header.Hash() := header], genesis)
  {
    hide Linked;
  }

  lemma {:induction false} StayScored(store: Store, scores: Scores, genesis: Block, header: Block)
    requires Scored(store, scores, genesis) && Linked(header, genesis)
    ensures Scored(store[header.Hash() := header], scores[header.Hash() := TotalScore(header, genesis)], genesis)
  {
    hide Linked, TotalScore;
  }

  class HeaderChain {
    const genesis: Block
    var headers: Store
    var scores: Scores
    var canonical: Canonical
    var current: Block
    var currentHash: Hash

    ghost predicate Valid()
      reads this
    {
      && Rooted(headers, genesis) && Scored(headers, scores, genesis)
      && current.Hash() in headers && currentHash == current.Hash() && Linked(current, genesis)
      && Exactly(canonical, current, genesis)
      && Heaviest(headers, current, genesis)
    }

    constructor (genesis: Block)
      requires genesis.number == 0
      ensures Valid() && this.genesis == genesis && current == genesis && headers.Keys == {genesis.Hash()}
    {
      this.genesis := genesis;
      headers := map[genesis.Hash() := genesis];
      scores := map[genesis.Hash() := genesis.score];
      canonical := map[0 := genesis.Hash()];
      current, currentHash := genesis, genesis.Hash();
      new;
      SelfAncestor(genesis, genesis);
    }

    /** Deletes the canonical numbers from `from` up to the first gap. */
    method DeleteAbove(from: nat)
      requires Linked(current, genesis) && Exactly(canonical, current, genesis)
      modifies this`canonical
      ensures forall n: nat :: n in canonical <==> n <= current.number && n < from
      ensures forall n: nat :: n in canonical ==> canonical[n] == old(canonical)[n]
    {
      hide Ancestor;
      var i := from;
      while i in canonical
        invariant from <= i
        invariant forall n: nat :: n in canonical <==> n <= current.number && !(from <= n < i)
        invariant forall n: nat :: n in canonical ==> n in old(canonical) && canonical[n] == old(canonical)[n]
        decreases |canonical|
      {
        ghost var before := canonical;
        canonical := canonical - {i};
        assert forall n: nat :: n in canonical <==> n in before && n != i;
        i := i + 1;
      }
    }

    /**
     Rewrites the canonical numbers below a new head until they meet the old chain,
     which they do at the genesis block at the latest.
     */
    method OverwriteStale(header: Block)
      requires Rooted(headers, genesis) && header.Hash() in headers && 0 < header.number
      requires Linked(header, genesis) && Linked(current, genesis)
      requires forall n: nat :: n in canonical <==> n <= current.number && n <= header.number
      requires forall n: nat :: n in canonical ==> canonical[n] == Ancestor(current, genesis, n).Hash()
      modifies this`canonical
      ensures forall n: nat :: n < header.number ==>
                n in canonical && canonical[n] == Ancestor(header, genesis, n).Hash()
      ensures forall n: nat :: n in canonical ==> n <= header.number
    {
      hide Ancestor, Rooted, Linked;
      var headHash, headNumber: int := header.parentHash, header.number - 1;
      AncestorStored(headers, genesis, header, header.number - 1);
      AncestorParent(header, genesis, header.number);
      SelfAncestor(header, genesis);
      var headHeader := Find(headers, headHash, headNumber);
      FoundIt(headers, genesis, header, header.number - 1);
      GenesisIsAncestor(header, genesis);
      GenesisIsAncestor(current, genesis);
      while CanonicalAt(canonical, headNumber) != headHash
        invariant 0 <= headNumber < header.number
        invariant headHash == Ancestor(header, genesis, headNumber).Hash()
        invariant headHeader == Some(Ancestor(header, genesis, headNumber))
        invariant forall n: nat :: headNumber < n < header.number ==>
                    n in canonical && canonical[n] == Ancestor(header, genesis, n).Hash()
        invariant forall n: nat :: n <= headNumber ==> (n in canonical <==> n <= current.number)
        invariant forall n: nat :: n <= headNumber && n in canonical ==>
                    canonical[n] == Ancestor(current, genesis, n).Hash()
        invariant forall n: nat :: n in canonical ==> n <= header.number
        decreases headNumber
      {
        canonical := canonical[headNumber := headHash];
        AncestorParent(header, genesis, headNumber);
        FoundIt(headers, genesis, header, headNumber - 1);
        headHash := headHeader.value.parentHash;
        headNumber := headHeader.value.number - 1;
        headHeader := Find(headers, headHash, headNumber);
      }
      forall n: nat | n <= headNumber ensures n in canonical && canonical[n] == Ancestor(header, genesis, n).Hash() {
        MeetAndAgree(header, current, genesis, headNumber, n);
      }
    }

    /**
     Stores a header whose parent has a score. `coin` is the random choice between
     chains of equal score.
     */
    method WriteHeader(header: Block, coin: bool) returns (status: WriteStatus)
      requires Valid()
      modifies this`headers, this`scores, this`canonical, this`current, this`currentHash
      ensures Valid()
      ensures status.UnknownAncestor? <==>
                !(0 < header.number && header.parentHash in old(headers)
                  && old(headers)[header.parentHash].number == header.number - 1)
      ensures status.UnknownAncestor? ==>
                headers == old(headers) && canonical == old(canonical) && current == old(current)
      ensures !status.UnknownAncestor? ==>
                && headers == old(headers)[header.Hash() := header] && Linked(header, genesis)
                && status == if TotalScore(header, genesis) > TotalScore(old(current), genesis)
                                || (TotalScore(header, genesis) == TotalScore(old(current), genesis) && coin)
                             then CanonStat else SideStat
      ensures current == if status.CanonStat? then header else old(current)
      ensures TotalScore(old(current), genesis) <= TotalScore(current, genesis)
    {
      hide Rooted, Grounded, Scored, Exactly, Heaviest, TotalScore, Linked;
      RootedIsGrounded(headers, genesis);
      ParentKnown(headers, scores, genesis, header);
      var number: int := header.number;
      var parentScore := FindScore(scores, header.parentHash, number - 1);
      if parentScore.None? {
        return UnknownAncestor;
      }
      HeadScore(headers, scores, genesis, current);
      var localScore := FindScore(scores, currentHash, current.number);
      var externScore := header.score + parentScore.value;
      StoreHeader(headers, scores, genesis, header, parentScore.value);
      scores := scores[header.Hash() := externScore];
      headers := headers[header.Hash() := header];
      if externScore > localScore.value || (externScore == localScore.value && coin) {
        HeavierHead(old(headers), old(current), genesis, header, header);
        Adopt(header);
        status := CanonStat;
      } else {
        HeavierHead(old(headers), old(current), genesis, header, current);
        status := SideStat;
      }
    }

    /** Makes a stored header the head, moving the canonical numbers onto its chain. */
    method Adopt(header: Block)
      requires Rooted(headers, genesis) && header.Hash() in headers && 0 < header.number
      requires Linked(header, genesis) && Linked(current, genesis) && Exactly(canonical, current, genesis)
      modifies this`canonical, this`current, this`currentHash
      ensures current == header && currentHash == header.Hash()
      ensures Exactly(canonical, header, genesis)
    {
      hide Rooted, Linked, Ancestor;
      SelfAncestor(header, genesis);
      DeleteAbove(header.number + 1);
      OverwriteStale(header);
      canonical := canonical[header.number := header.Hash()];
      currentHash, current := header.Hash(), header;
    }

    /** Every run of header writes: the head's score never falls and stays the greatest stored. */
    method WriteAll(chain: seq<(Block, bool)>)
      requires Valid()
      modifies this`headers, this`scores, this`canonical, this`current, this`currentHash
      ensures Valid()
      ensures TotalScore(old(current), genesis) <= TotalScore(current, genesis)
      ensures old(headers).Keys <= headers.Keys
    {
      for i := 0 to |chain|
        invariant Valid() && old(headers).Keys <= headers.Keys
        invariant TotalScore(old(current), genesis) <= TotalScore(current, genesis)
      {
        var status := WriteHeader(chain[i].0, chain[i].1);
      }
    }
  }

  lemma {:induction false} RootedIsGrounded(store: Store, genesis: Block)
    requires Rooted(store, genesis)
    ensures Grounded(store, genesis)
  {
  }

  /** A parent has a score exactly when it is stored under the number below. */
  lemma {:induction false} ParentKnown(store: Store, scores: Scores, genesis: Block, header: Block)
    requires Grounded(store, genesis) && Scored(store, scores, genesis)
    ensures FindScore(scores, header.parentHash, header.number - 1).Some? <==>
              0 < header.number && header.parentHash in store && store[header.parentHash].number == header.number - 1
  {
    if header.parentHash in store {
      assert store[header.parentHash].Hash() == header.parentHash;
    }
  }

  lemma {:induction false} HeadScore(store: Store, scores: Scores, genesis: Block, b: Block)
    requires Grounded(store, genesis) && Scored(store, scores, genesis) && b.Hash() in store
    ensures Linked(b, genesis) && FindScore(scores, b.Hash(), b.number) == Some(TotalScore(b, genesis))
  {
    assert store[b.Hash()] == b;
  }

  /** The heavier of the head and a new header is heaviest once the header is stored. */
  lemma {:induction false} HeavierHead(store: Store, head: Block, genesis: Block, header: Block, chosen: Block)
    requires Rooted(store, genesis) && Rooted(store[header.Hash() := header], genesis)
    requires Linked(head, genesis) && Linked(header, genesis) && Heaviest(store, head, genesis)
    requires chosen == head || chosen == header
    requires TotalScore(head, genesis) <= TotalScore(chosen, genesis)
    requires TotalScore(header, genesis) <= TotalScore(chosen, genesis)
    ensures Heaviest(store[header.Hash() := header], chosen, genesis)
  {
  }

  lemma {:induction false} SelfAncestor(b: Block, genesis: Block)
    requires Linked(b, genesis)
    ensures Ancestor(b, genesis, b.number) == b
  {
  }

  lemma {:induction false} FoundIt(store: Store, genesis: Block, b: Block, n: nat)
    requires Rooted(store, genesis) && b.Hash() in store && n <= b.number && Linked(b, genesis)
    ensures Find(store, Ancestor(b, genesis, n).Hash(), n) == Some(Ancestor(b, genesis, n))
  {
    AncestorStored(store, genesis, b, n);
  }
}
