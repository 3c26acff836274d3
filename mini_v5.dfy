/** saxv_chain_mini_v5: a block list with a pending pool, a nonce search over
    object blocks and an `add_block` that guards on the link and the prefix. */
module MiniV5 {
  import opened Wrappers
  import opened Text
  import opened ObjectBlocks

  /** `Blockchain.difficulty` */
  const Difficulty: nat := 2

  /** The genesis block carries the text "Genesis Block"; every other entry is a
      payment record. */
  datatype Entry = Note(text: string) | Payment(sender: string, recipient: string, amount: int, timestamp: Time)

  class Blockchain {
    const digest: Record<Entry> -> string
    var unconfirmedTransactions: seq<Entry>
    var chain: seq<Block<Entry>>

    /** Every block after genesis names its predecessor's hash and has the
        difficulty prefix: what `add_block` lets through. */
    ghost predicate Valid()
      reads this
    {
      && |chain| > 0
      && forall i :: 1 <= i < |chain| ==> chain[i].previousHash == chain[i - 1].hash && HasZeros(chain[i].hash, Difficulty)
    }

    /** `__init__` and `create_genesis_block` */
    constructor(digest: Record<Entry> -> string, now: Time)
      ensures this.digest == digest
      ensures unconfirmedTransactions == []
      ensures chain == [Construct(digest, 0, now, [Note("Genesis Block")], "0", 0)]
      ensures Valid()
    {
      this.digest := digest;
      unconfirmedTransactions := [];
      chain := [Construct(digest, 0, now, [Note("Genesis Block")], "0", 0)];
    }

    /** `add_transaction`: always appends and answers True. */
    method AddTransaction(sender: string, recipient: string, amount: int, now: Time) returns (ok: bool)
      modifies this
      ensures ok
      ensures unconfirmedTransactions == old(unconfirmedTransactions) + [Payment(sender, recipient, amount, now)]
      ensures chain == old(chain)
    {
      unconfirmedTransactions := unconfirmedTransactions + [Payment(sender, recipient, amount, now)];
      ok := true;
    }

    /** `proof_of_work`: raises the nonce until the hash has the prefix and
        returns the block as the loop leaves it with that hash. */
    method ProofOfWork(block: Block<Entry>, ghost w: nat) returns (mined: Block<Entry>, proof: string)
      requires HasZeros(Candidate(digest, block, w).hash, Difficulty)
      ensures proof == mined.hash && HasZeros(proof, Difficulty)
      ensures 0 <= mined.nonce - block.nonce <= w
      ensures mined == Candidate(digest, block, mined.nonce - block.nonce)
      ensures forall k :: 0 <= k < mined.nonce - block.nonce ==> !HasZeros(Candidate(digest, block, k).hash, Difficulty)
    {
      mined := MineNonce(digest, block, Difficulty, w);
      proof := mined.hash;
    }

    /** `add_block`: rejects, changing nothing, a block that does not name the
        tip's hash or a proof without the prefix; otherwise stores the proof as
        the block's hash and appends it. */
    method AddBlock(block: Block<Entry>, proof: string) returns (ok: bool)
      requires |chain| > 0
      modifies this
      ensures ok <==> block.previousHash == old(chain)[|old(chain)| - 1].hash && HasZeros(proof, Difficulty)
      ensures ok ==> chain == old(chain) + [block.(hash := proof)]
      ensures !ok ==> chain == old(chain)
      ensures unconfirmedTransactions == old(unconfirmedTransactions)
      ensures old(Valid()) ==> Valid()
    {
      var previousHash := chain[|chain| - 1].hash;
      if previousHash != block.previousHash {
        return false;
      }
      if !HasZeros(proof, Difficulty) {
        return false;
      }
      chain := chain + [block.(hash := proof)];
      ok := true;
    }

    /** The block `mine` builds before its search. */
    function NextBlock(now: Time): (b: Block<Entry>)
      requires |chain| > 0
      reads this
      ensures b.index == chain[|chain| - 1].index + 1 && b.previousHash == chain[|chain| - 1].hash
      ensures b.transactions == unconfirmedTransactions && b.nonce == 0 && b.timestamp == now
    {
      var last := chain[|chain| - 1];
      Construct(digest, last.index + 1, now, unconfirmedTransactions, last.hash, 0)
    }

    /** `mine`: False (here `None`) on an empty pool, changing nothing; otherwise
        the searched block joins the chain, the pool empties and the block's index
        is returned. `w` is a nonce round whose hash has the prefix. */
    method Mine(now: Time, ghost w: nat) returns (index: Option<int>)
      requires |chain| > 0
      requires HasZeros(Candidate(digest, NextBlock(now), w).hash, Difficulty)
      modifies this
      ensures old(unconfirmedTransactions) == [] ==> index == None && chain == old(chain) && unconfirmedTransactions == []
      ensures old(unconfirmedTransactions) != [] ==>
        && |chain| == |old(chain)| + 1 && chain[..|old(chain)|] == old(chain)
        && unconfirmedTransactions == []
        && var b := chain[|chain| - 1];
           && index == Some(b.index)
           && b.index == old(chain)[|old(chain)| - 1].index + 1
           && b.previousHash == old(chain)[|old(chain)| - 1].hash
           && b.transactions == old(unconfirmedTransactions)
           && HasZeros(b.hash, Difficulty)
           && 0 <= b.nonce <= w
           && b == Candidate(digest, old(NextBlock(now)), b.nonce)
      ensures old(Valid()) ==> Valid()
    {
      if unconfirmedTransactions == [] {
        return None;
      }
      var newBlock := NextBlock(now);
      var mined, proof := ProofOfWork(newBlock, w);
      var added := AddBlock(mined, proof);
      assert added;
      unconfirmedTransactions := [];
      index := Some(mined.index);
    }
  }
}
