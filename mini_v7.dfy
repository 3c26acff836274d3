/** saxv_chain_mini_v7 and its pseudo multi-node and GUI variants: signed
    transactions gated on `verify_transaction`, and `mine_pending`, which drains
    the whole pool into one block found by a nonce search. The variants differ
    only in `difficulty` (2, 1 and 1) and in what an empty pool answers (`False`,
    `False` and `None`, all `None` here). */
module MiniV7 {
  import opened Wrappers
  import opened Text
  import opened ObjectBlocks
  import opened Signatures

  class Blockchain {
    const digest: Record<SignedTx> -> string
    const curve: Curve
    /** `Blockchain.difficulty` */
    const difficulty: nat
    var chain: seq<Block<SignedTx>>
    var pendingTransactions: seq<SignedTx>

    ghost predicate Valid()
      reads this
    {
      Linked(chain, difficulty)
    }

    /** `__init__` and `create_genesis_block`: index 0, no transactions, previous
        hash "0", stamped with the current time. */
    constructor(digest: Record<SignedTx> -> string, curve: Curve, difficulty: nat, now: Time)
      ensures this.digest == digest && this.curve == curve && this.difficulty == difficulty
      ensures chain == [Construct(digest, 0, now, [], "0", 0)]
      ensures pendingTransactions == []
      ensures Valid()
    {
      this.digest := digest;
      this.curve := curve;
      this.difficulty := difficulty;
      chain := [Construct(digest, 0, now, [], "0", 0)];
      pendingTransactions := [];
    }

    /** `add_transaction`: a transaction joins the pool only when its signature
        verifies; a raise from `verify_transaction` goes through to the caller. */
    method AddTransaction(tx: SignedTx) returns (r: Outcome<bool>)
      modifies this
      ensures r == VerifyTransaction(curve, tx)
      ensures r == Returned(true) ==> pendingTransactions == old(pendingTransactions) + [tx]
      ensures r != Returned(true) ==> pendingTransactions == old(pendingTransactions)
      ensures chain == old(chain)
    {
      r := VerifyTransaction(curve, tx);
      if r == Returned(true) {
        pendingTransactions := pendingTransactions + [tx];
      }
    }

    /** The block `mine_pending` builds before its search. */
    function NextBlock(now: Time): (b: Block<SignedTx>)
      requires |chain| > 0
      reads this
      ensures b.index == chain[|chain| - 1].index + 1 && b.previousHash == chain[|chain| - 1].hash
      ensures b.transactions == pendingTransactions && b.nonce == 0 && b.timestamp == now
    {
      var last := chain[|chain| - 1];
      Construct(digest, last.index + 1, now, pendingTransactions, last.hash, 0)
    }

    /** `mine_pending`: nothing on an empty pool; otherwise the first nonce round
        with the prefix joins the chain with the whole pool, which empties. `w` is
        a round whose hash has the prefix. */
    method MinePending(now: Time, ghost w: nat) returns (mined: Option<Block<SignedTx>>)
      requires |chain| > 0
      requires HasZeros(Candidate(digest, NextBlock(now), w).hash, difficulty)
      modifies this
      ensures old(pendingTransactions) == [] ==> mined == None && chain == old(chain) && pendingTransactions == []
      ensures old(pendingTransactions) != [] ==>
        && |chain| == |old(chain)| + 1 && chain[..|old(chain)|] == old(chain)
        && pendingTransactions == []
        && var b := chain[|chain| - 1];
           && mined == Some(b)
           && b.index == old(chain)[|old(chain)| - 1].index + 1
           && b.previousHash == old(chain)[|old(chain)| - 1].hash
           && b.transactions == old(pendingTransactions)
           && HasZeros(b.hash, difficulty)
           && 0 <= b.nonce <= w
           && b == Candidate(digest, old(NextBlock(now)), b.nonce)
      ensures old(pendingTransactions) != [] ==>
        var start := old(NextBlock(now));
        forall k :: 0 <= k < chain[|chain| - 1].nonce ==> !HasZeros(Candidate(digest, start, k).hash, difficulty)
      ensures old(Valid()) ==> Valid()
    {
      if pendingTransactions == [] {
        return None;
      }
      var start := NextBlock(now);
      var newBlock := MineNonce(digest, start, difficulty, w);
      ghost var before := chain;
      if Linked(chain, difficulty) {
        LinkedExtend(chain, difficulty, newBlock);
      }
      chain := chain + [newBlock];
      assert chain[..|before|] == before && chain[|chain| - 1] == newBlock;
      pendingTransactions := [];
      mined := Some(newBlock);
    }
  }
}
