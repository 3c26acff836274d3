/** v8_auto_sync: signed transactions gated on `verify_tx`, and a `mine_pending`
    that takes at most `max_tx_per_block` of them into one block found by a nonce
    search, leaving the rest pending in order. */
module AutoSync {
  import opened Wrappers
  import opened Text
  import opened ObjectBlocks
  import opened Signatures
  import opened Mempool

  /** `Blockchain.difficulty` */
  const Difficulty: nat := 1
  /** `Blockchain.max_tx_per_block` */
  const MaxTxPerBlock: nat := 5

  class Blockchain {
    const digest: Record<SignedTx> -> string
    const curve: Curve
    var chain: seq<Block<SignedTx>>
    var pendingTransactions: seq<SignedTx>

    ghost predicate Valid()
      reads this
    {
      Linked(chain, Difficulty)
    }

    /** `__init__`: the chain is the genesis block alone (index 0, no
        transactions, previous hash "0"). */
    constructor(digest: Record<SignedTx> -> string, curve: Curve, now: Time)
      ensures this.digest == digest && this.curve == curve
      ensures chain == [Construct(digest, 0, now, [], "0", 0)]
      ensures pendingTransactions == []
      ensures Valid()
    {
      this.digest := digest;
      this.curve := curve;
      chain := [Construct(digest, 0, now, [], "0", 0)];
      pendingTransactions := [];
    }

    /** `add_tx`: appends exactly the transactions `verify_tx` accepts. */
    method AddTx(tx: SignedTx) returns (ok: bool)
      modifies this
      ensures ok == VerifyTx(curve, tx)
      ensures ok ==> pendingTransactions == old(pendingTransactions) + [tx]
      ensures !ok ==> pendingTransactions == old(pendingTransactions)
      ensures chain == old(chain)
    {
      ok := VerifyTx(curve, tx);
      if ok {
        pendingTransactions := pendingTransactions + [tx];
      }
    }

    /** The block `mine_pending` builds before its search: the first batch of
        the pool on top of the tip. */
    function NextBlock(now: Time): (b: Block<SignedTx>)
      requires |chain| > 0
      reads this
      ensures b.index == chain[|chain| - 1].index + 1 && b.previousHash == chain[|chain| - 1].hash
      ensures b.transactions == Batch(pendingTransactions, MaxTxPerBlock) && b.nonce == 0 && b.timestamp == now
    {
      var last := chain[|chain| - 1];
      Construct(digest, last.index + 1, now, Batch(pendingTransactions, MaxTxPerBlock), last.hash, 0)
    }

    /** `mine_pending`: `None` on an empty pool, changing nothing; otherwise the
        block of the first round with the prefix joins the chain with the
        oldest `max_tx_per_block` pending, and the pool keeps exactly the rest.
        `w` is a round whose hash has the prefix. */
    method MinePending(now: Time, ghost w: nat) returns (mined: Option<Block<SignedTx>>)
      requires |chain| > 0
      requires HasZeros(Candidate(digest, NextBlock(now), w).hash, Difficulty)
      modifies this
      ensures old(pendingTransactions) == [] ==> mined == None && chain == old(chain) && pendingTransactions == []
      ensures old(pendingTransactions) != [] ==>
        && |chain| == |old(chain)| + 1 && chain[..|old(chain)|] == old(chain)
        && var b := chain[|chain| - 1];
           && mined == Some(b)
           && b.index == old(chain)[|old(chain)| - 1].index + 1
           && b.previousHash == old(chain)[|old(chain)| - 1].hash
           && |b.transactions| <= MaxTxPerBlock
           && b.transactions + pendingTransactions == old(pendingTransactions)
           && HasZeros(b.hash, Difficulty)
           && 0 <= b.nonce <= w
           && b == Candidate(digest, old(NextBlock(now)), b.nonce)
      ensures old(pendingTransactions) != [] ==>
        var start := old(NextBlock(now));
        forall k :: 0 <= k < chain[|chain| - 1].nonce ==> !HasZeros(Candidate(digest, start, k).hash, Difficulty)
      ensures old(Valid()) ==> Valid()
    {
      if pendingTransactions == [] {
        return None;
      }
      var start := NextBlock(now);
      var newBlock := MineNonce(digest, start, Difficulty, w);
      assert newBlock.index == start.index && newBlock.previousHash == start.previousHash;
      assert newBlock.transactions == start.transactions && newBlock.nonce - start.nonce == newBlock.nonce;
      ghost var before := chain;
      if Linked(chain, Difficulty) {
        LinkedExtend(chain, Difficulty, newBlock);
      }
      chain := chain + [newBlock];
      assert chain[..|before|] == before && chain[|chain| - 1] == newBlock;
      var pool := pendingTransactions;
      BatchThenRest(pool, MaxTxPerBlock);
      pendingTransactions := Rest(pool, MaxTxPerBlock);
      assert newBlock.transactions + pendingTransactions == pool;
      mined := Some(newBlock);
    }
  }
}
