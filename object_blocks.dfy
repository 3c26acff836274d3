/** The object blocks of the mini chains (saxv_chain_mini_v5, v7 and its variants,
    v8 to v15, v8_auto_sync), hashed as `json.dumps(self.__dict__, sort_keys=True)`.
    `__init__` computes the first hash before the attribute `hash` exists; every
    later `compute_hash()` sees the stored hash among the attributes, so each
    round of a nonce loop hashes the previous round's hash too. */
module ObjectBlocks {
  import opened Wrappers
  import opened Text

  /** The attributes of a block as the JSON text lists them; `hash` is `None`
      while `__init__` runs. */
  datatype Record<T> = Record(index: int, timestamp: Time, transactions: seq<T>, previousHash: string, nonce: int, hash: Option<string>)

  datatype Block<T> = Block(index: int, timestamp: Time, transactions: seq<T>, previousHash: string, nonce: int, hash: string)

  /** `self.__dict__` of a constructed block. */
  function Attrs<T>(b: Block<T>): (r: Record<T>)
    ensures r.hash == Some(b.hash)
  {
    Record(b.index, b.timestamp, b.transactions, b.previousHash, b.nonce, Some(b.hash))
  }

  /** `Block(...)`: the stored hash is the digest of the attributes without `hash`. */
  function Construct<T>(digest: Record<T> -> string, index: int, timestamp: Time, transactions: seq<T>, previousHash: string, nonce: int): (b: Block<T>)
    ensures b.index == index && b.timestamp == timestamp && b.transactions == transactions
    ensures b.previousHash == previousHash && b.nonce == nonce
    ensures b.hash == digest(Record(index, timestamp, transactions, previousHash, nonce, None))
  {
    Block(index, timestamp, transactions, previousHash, nonce, digest(Record(index, timestamp, transactions, previousHash, nonce, None)))
  }

  /** `compute_hash()` on a constructed block. */
  function ComputeHash<T>(digest: Record<T> -> string, b: Block<T>): string {
    digest(Attrs(b))
  }

  /** `block.hash = block.compute_hash()` */
  function Rehash<T>(digest: Record<T> -> string, b: Block<T>): Block<T> {
    b.(hash := ComputeHash(digest, b))
  }

  /** The block after `n` rounds of `nonce += 1; hash = compute_hash()`. */
  function Candidate<T>(digest: Record<T> -> string, b: Block<T>, n: nat): (c: Block<T>)
    ensures c.index == b.index && c.timestamp == b.timestamp && c.transactions == b.transactions
    ensures c.previousHash == b.previousHash && c.nonce == b.nonce + n
  {
    if n == 0 then b else Rehash(digest, Candidate(digest, b, n - 1).(nonce := b.nonce + n))
  }

  /** The nonce loop `while not hash.startswith('0' * d)`: the first round whose
      hash has the prefix. `w` is a round that has it and bounds the search. */
  method MineNonce<T>(digest: Record<T> -> string, b: Block<T>, d: nat, ghost w: nat) returns (m: Block<T>)
    requires HasZeros(Candidate(digest, b, w).hash, d)
    ensures 0 <= m.nonce - b.nonce <= w
    ensures m == Candidate(digest, b, m.nonce - b.nonce)
    ensures HasZeros(m.hash, d)
    ensures forall k :: 0 <= k < m.nonce - b.nonce ==> !HasZeros(Candidate(digest, b, k).hash, d)
  {
    m := b;
    ghost var n: nat := 0;
    while !HasZeros(m.hash, d)
      invariant n <= w && m == Candidate(digest, b, n)
      invariant forall k :: 0 <= k < n ==> !HasZeros(Candidate(digest, b, k).hash, d)
      decreases w - n
    {
      m := m.(nonce := m.nonce + 1);
      m := m.(hash := ComputeHash(digest, m));
      n := n + 1;
    }
  }

  /** `current.hash == current.compute_hash()`: the stored hash is a fixed point of
      hashing the attributes that contain it. */
  predicate SelfHashed<T>(digest: Record<T> -> string, b: Block<T>) {
    b.hash == ComputeHash(digest, b)
  }

  /** Block `i` is self-hashed and names the stored hash of block `i - 1`. */
  predicate HashLinked<T>(digest: Record<T> -> string, chain: seq<Block<T>>, i: int)
    requires 1 <= i < |chain|
  {
    SelfHashed(digest, chain[i]) && chain[i].previousHash == chain[i - 1].hash
  }

  /** What `is_chain_valid` of the mini v8 to v15 scripts answers. */
  predicate SelfHashedChain<T>(digest: Record<T> -> string, chain: seq<Block<T>>) {
    forall i :: 1 <= i < |chain| ==> HashLinked(digest, chain, i)
  }

  /** A block fresh from `Block(...)` passes the hash check only if the digest
      gives its attributes with `hash` the same value as without: two different
      records colliding. */
  lemma ConstructedPassesOnlyByCollision<T>(digest: Record<T> -> string, index: int, timestamp: Time, transactions: seq<T>, previousHash: string, nonce: int)
    ensures var b := Construct(digest, index, timestamp, transactions, previousHash, nonce);
            var bare := Record(index, timestamp, transactions, previousHash, nonce, None);
            && Attrs(b) != bare
            && (SelfHashed(digest, b) <==> digest(Attrs(b)) == digest(bare))
  {
  }

  /** A block rehashed once (the mini v8 to v15 `mine`) passes the hash check only
      if the digest maps its attributes and its attributes before rehashing to the
      same value; those differ unless the block was already self-hashed. */
  lemma RehashedPassesOnlyByCollision<T>(digest: Record<T> -> string, b: Block<T>)
    ensures var r := Rehash(digest, b);
            && (SelfHashed(digest, r) <==> digest(Attrs(r)) == digest(Attrs(b)))
            && (Attrs(r) == Attrs(b) <==> SelfHashed(digest, b))
  {
  }

  /** Rehashing a self-hashed block changes nothing. */
  lemma RehashFixesSelfHashed<T>(digest: Record<T> -> string, b: Block<T>)
    requires SelfHashed(digest, b)
    ensures Rehash(digest, b) == b
  {
  }

  /** The stored hash of a nonce-loop round is the digest of the previous round's
      attributes with the nonce raised: it carries the previous hash inside. */
  lemma {:induction false} CandidateHashesPrevious<T>(digest: Record<T> -> string, b: Block<T>, n: nat)
    requires n > 0
    ensures var prev := Candidate(digest, b, n - 1);
            Candidate(digest, b, n).hash == digest(Record(b.index, b.timestamp, b.transactions, b.previousHash, b.nonce + n, Some(prev.hash)))
  {
    var prev := Candidate(digest, b, n - 1);
    assert Candidate(digest, b, n) == Rehash(digest, prev.(nonce := b.nonce + n));
  }

  /** Every block after genesis follows its predecessor's index, names its hash
      and has the difficulty prefix (none when `d` is 0). */
  predicate Linked<T>(chain: seq<Block<T>>, d: nat) {
    && |chain| > 0
    && forall i :: 1 <= i < |chain| ==>
         && chain[i].index == chain[i - 1].index + 1
         && chain[i].previousHash == chain[i - 1].hash
         && HasZeros(chain[i].hash, d)
  }

  /** A block that follows the tip keeps the chain linked. */
  lemma LinkedExtend<T>(chain: seq<Block<T>>, d: nat, b: Block<T>)
    requires Linked(chain, d)
    requires b.index == chain[|chain| - 1].index + 1 && b.previousHash == chain[|chain| - 1].hash
    requires HasZeros(b.hash, d)
    ensures Linked(chain + [b], d)
  {
    var c := chain + [b];
    forall i | 1 <= i < |c|
      ensures c[i].index == c[i - 1].index + 1 && c[i].previousHash == c[i - 1].hash && HasZeros(c[i].hash, d)
    {
      if i < |chain| {
        assert c[i] == chain[i] && c[i - 1] == chain[i - 1];
      } else {
        assert c[i] == b && c[i - 1] == chain[|chain| - 1];
      }
    }
  }
}
