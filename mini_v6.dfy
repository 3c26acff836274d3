/** `SAXVChain` of saxv_chain_mini_v6: the dictionary chain with batches of at most
    `MAX_TX_BATCH` transactions, a lighter puzzle, and a consensus step that skips
    every failing peer; and the `mine` route that runs consensus first. */
module MiniV6 {
  import opened Wrappers
  import opened Text
  import opened DictBlocks
  import opened Mempool

  /** `DIFFICULTY` */
  const Difficulty: nat := 2
  /** `MAX_TX_BATCH` */
  const MaxTxBatch: nat := 20

  /** `{'sender', 'recipient', 'amount', 'timestamp'}` */
  datatype TimedTx = TimedTx(sender: string, recipient: string, amount: int, timestamp: Time)

  /** The proof of the tip, or 0 on an empty chain, as `mine` reads it. */
  function TipProof(chain: seq<Block<TimedTx>>): int {
    if |chain| > 0 then chain[|chain| - 1].proof else 0
  }

  class SAXVChain {
    const sha256: string -> string
    /** `hash(block)`: SHA-256 of the block's sorted-key JSON. */
    const blockHash: Block<TimedTx> -> string
    const nodeId: string
    const port: int
    var currentTransactions: seq<TimedTx>
    var chain: seq<Block<TimedTx>>
    var nodes: set<string>

    /** A node without a chain file: the genesis block, proof 100, previous hash `'1'`. */
    constructor (sha256: string -> string, blockHash: Block<TimedTx> -> string, nodeId: string, port: int, now: Time)
      ensures this.sha256 == sha256 && this.blockHash == blockHash && this.nodeId == nodeId && this.port == port
      ensures chain == [Block(1, now, [], 100, "1")] && currentTransactions == [] && nodes == {}
    {
      this.sha256 := sha256;
      this.blockHash := blockHash;
      this.nodeId := nodeId;
      this.port := port;
      currentTransactions := [];
      chain := [];
      nodes := {};
      new;
      var genesis := NewBlock(100, Some("1"), now);
    }

    /** `new_block`: the first `MAX_TX_BATCH` pending go into the block and the pool
        keeps exactly the rest. The link is `'1'` on an empty chain whatever is
        passed (the conditional binds looser than `or`), else the given hash if
        truthy, else the hash of the tip. */
    method NewBlock(proof: int, previousHash: Option<string>, now: Time) returns (block: Block<TimedTx>)
      modifies this
      ensures block.index == |old(chain)| + 1 && block.timestamp == now && block.proof == proof
      ensures block.transactions == Batch(old(currentTransactions), MaxTxBatch)
      ensures block.transactions + currentTransactions == old(currentTransactions)
      ensures block.previousHash ==
                if |old(chain)| == 0 then "1"
                else if previousHash.Some? && previousHash.value != "" then previousHash.value
                else blockHash(old(chain)[|old(chain)| - 1])
      ensures chain == old(chain) + [block] && nodes == old(nodes)
    {
      var prev := if |chain| > 0 then (if previousHash.Some? && previousHash.value != "" then previousHash.value
                                       else blockHash(chain[|chain| - 1]))
                  else "1";
      var pool := currentTransactions;
      block := Block(|chain| + 1, now, Batch(pool, MaxTxBatch), proof, prev);
      chain := chain + [block];
      BatchThenRest(pool, MaxTxBatch);
      currentTransactions := Rest(pool, MaxTxBatch);
    }

    /** `new_transaction`: always queued; answers one past the tip's index, or 1. */
    method NewTransaction(sender: string, recipient: string, amount: int, now: Time) returns (index: int)
      modifies this
      ensures currentTransactions == old(currentTransactions) + [TimedTx(sender, recipient, amount, now)]
      ensures chain == old(chain) && nodes == old(nodes)
      ensures index == if |chain| > 0 then chain[|chain| - 1].index + 1 else 1
    {
      currentTransactions := currentTransactions + [TimedTx(sender, recipient, amount, now)];
      index := if |chain| > 0 then chain[|chain| - 1].index + 1 else 1;
    }

    /** The chain `resolve_conflicts` leaves behind. */
    function Adopted(responses: seq<Response<TimedTx>>): seq<Block<TimedTx>>
      reads this
    {
      var p := Pick(sha256, Difficulty, blockHash, responses, |chain|, None);
      if p.Some? then p.value else chain
    }

    /** `resolve_conflicts`: a reply counts only with status 200, a truthy
        `length` above the longest so far, a truthy chain and `valid_chain`;
        everything else, a failure included, is skipped. The chain becomes the
        longest qualifying one (`PickLongest`), and is otherwise left alone. */
    method ResolveConflicts(responses: seq<Response<TimedTx>>) returns (replaced: bool)
      modifies this
      ensures replaced <==> Pick(sha256, Difficulty, blockHash, responses, |old(chain)|, None).Some?
      ensures chain == old(Adopted(responses))
      ensures currentTransactions == old(currentTransactions) && nodes == old(nodes)
    {
      var newChain: Option<seq<Block<TimedTx>>> := None;
      var maxLength := |chain|;
      var i := 0;
      while i < |responses|
        invariant 0 <= i <= |responses| && maxLength >= 0
        invariant Pick(sha256, Difficulty, blockHash, responses[i..], maxLength, newChain)
               == Pick(sha256, Difficulty, blockHash, responses, |old(chain)|, None)
        invariant newChain.Some? ==> |newChain.value| > 0
        invariant chain == old(chain) && currentTransactions == old(currentTransactions) && nodes == old(nodes)
      {
        assert responses[i..][1..] == responses[i + 1..];
        var resp := responses[i];
        if resp.Answered? && resp.status == 200 && resp.body.Some? {
          var reply := resp.body.value;
          if reply.length != 0 && |reply.chain| > 0 && reply.length > maxLength {
            var verdict := ValidChain(sha256, Difficulty, blockHash, reply.chain);
            if verdict.value {
              maxLength := reply.length;
              newChain := Some(reply.chain);
            }
          }
        }
        i := i + 1;
      }
      assert responses[|responses|..] == [];
      if newChain.Some? {
        chain := newChain.value;
        return true;
      }
      replaced := false;
    }

    /** The `mine` route: consensus, then the proof over the tip's proof (0 on an
        empty chain), then the reward of 1 to the node queued behind the pending
        transactions, then the block linked to the tip. The reward lands in this
        block only if fewer than `MAX_TX_BATCH` were pending. */
    method Mine(responses: seq<Response<TimedTx>>, now: Time, ghost w: nat) returns (block: Block<TimedTx>)
      requires ProofOk(sha256, Difficulty, TipProof(Adopted(responses)), w)
      modifies this
      ensures var adopted := old(Adopted(responses));
              && chain == adopted + [block]
              && block.index == |adopted| + 1 && block.timestamp == now
              && block.previousHash == (if |adopted| > 0 then blockHash(adopted[|adopted| - 1]) else "1")
              && ProofOk(sha256, Difficulty, TipProof(adopted), block.proof)
              && block.proof <= w
              && forall k :: 0 <= k < block.proof ==> !ProofOk(sha256, Difficulty, TipProof(adopted), k)
      ensures var queued := old(currentTransactions) + [TimedTx("0", nodeId, 1, now)];
              && block.transactions + currentTransactions == queued
              && (|old(currentTransactions)| < MaxTxBatch <==> block.transactions == queued)
      ensures nodes == old(nodes)
    {
      var replaced := ResolveConflicts(responses);
      var lastProof := if |chain| > 0 then chain[|chain| - 1].proof else 0;
      var proof := ProofOfWork(sha256, Difficulty, lastProof, w);
      var index := NewTransaction("0", nodeId, 1, now);
      var previousHash := if |chain| > 0 then blockHash(chain[|chain| - 1]) else "1";
      block := NewBlock(proof, Some(previousHash), now);
    }
  }
}
