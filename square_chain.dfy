/** `Blockchain` of saxv_coin_v6, saxv_coin_v7, saxv_coin_v8 and saxv_coin_v11 (one
    class, whose digest is SHA-256 in the first three and SHA3-512 in v11), the
    node wallet and the functions around them: mining with the `"SYSTEM"` reward,
    sending, the periodic `sync_chain`, and the automatic transaction of v11. */
module SquareChain {
  import opened Wrappers
  import opened Text
  import opened DictBlocks

  /** `SUPPLY`, the node wallet's opening balance. */
  const Supply: int := 31_000_000
  /** `MINING_REWARD` */
  const MiningReward: int := 10
  /** The amount and receiver of `auto_transaction` in saxv_coin_v11. */
  const AutoTxAmount: int := 50
  const AutoTxReceiver: string := "reward_address_123"
  /** The sender of mined coin. */
  const SystemSender: string := "SYSTEM"

  /** `{'sender', 'receiver', 'amount'}` */
  datatype Tx = Tx(sender: string, receiver: string, amount: int)

  /** `digest(str(new_proof**2 - previous_proof**2))[:4] == '0000'` */
  predicate SquareProofOk(digest: string -> string, previousProof: int, newProof: int) {
    SliceIsZeros(digest(IntStr(newProof * newProof - previousProof * previousProof)), 4)
  }

  /** Block `i` names the hash of block `i - 1` and solves the square puzzle over its proof. */
  predicate SquareLinked(digest: string -> string, blockHash: Block<Tx> -> string, chain: seq<Block<Tx>>, i: int)
    requires 1 <= i < |chain|
  {
    chain[i].previousHash == blockHash(chain[i - 1]) && SquareProofOk(digest, chain[i - 1].proof, chain[i].proof)
  }

  predicate SquareChainValid(digest: string -> string, blockHash: Block<Tx> -> string, chain: seq<Block<Tx>>) {
    forall i :: 1 <= i < |chain| ==> SquareLinked(digest, blockHash, chain, i)
  }

  /** `is_chain_valid`: `chain[0]` raises on an empty chain; otherwise every block
      from 1 on must be linked. */
  method IsChainValid(digest: string -> string, blockHash: Block<Tx> -> string, chain: seq<Block<Tx>>) returns (r: Outcome<bool>)
    ensures |chain| == 0 ==> r == Raised(IndexError)
    ensures |chain| > 0 ==> r == Returned(SquareChainValid(digest, blockHash, chain))
  {
    if |chain| == 0 {
      return Raised(IndexError);
    }
    var prevBlock := chain[0];
    var index := 1;
    while index < |chain|
      invariant 1 <= index <= |chain|
      invariant prevBlock == chain[index - 1]
      invariant forall i :: 1 <= i < index ==> SquareLinked(digest, blockHash, chain, i)
    {
      var block := chain[index];
      if block.previousHash != blockHash(prevBlock) {
        assert !SquareLinked(digest, blockHash, chain, index);
        return Returned(false);
      }
      if !SquareProofOk(digest, prevBlock.proof, block.proof) {
        assert !SquareLinked(digest, blockHash, chain, index);
        return Returned(false);
      }
      prevBlock := block;
      index := index + 1;
    }
    r := Returned(true);
  }

  /** `proof_of_work`: counting up from 1, the first proof that solves the square
      puzzle; `w` is a solution that bounds the search. */
  method ProofOfWork(digest: string -> string, previousProof: int, ghost w: int) returns (newProof: int)
    requires w >= 1 && SquareProofOk(digest, previousProof, w)
    ensures 1 <= newProof <= w
    ensures SquareProofOk(digest, previousProof, newProof)
    ensures forall k :: 1 <= k < newProof ==> !SquareProofOk(digest, previousProof, k)
  {
    newProof := 1;
    while !SquareProofOk(digest, previousProof, newProof)
      invariant 1 <= newProof <= w
      invariant forall k :: 1 <= k < newProof ==> !SquareProofOk(digest, previousProof, k)
      decreases w - newProof
    {
      newProof := newProof + 1;
    }
  }

  /** One peer of `sync_chain`: the chain is taken when the reply has status 200,
      both keys, a reported length above the current chain's, and a non-empty
      valid chain; a missing key or an empty chain raise inside the bare `try`
      and are skipped like a failed request. */
  function SyncStep(digest: string -> string, blockHash: Block<Tx> -> string, chain: seq<Block<Tx>>, resp: Response<Tx>): seq<Block<Tx>> {
    if && resp.Answered? && resp.status == 200 && resp.body.Some?
       && resp.body.value.length > |chain|
       && |resp.body.value.chain| > 0
       && SquareChainValid(digest, blockHash, resp.body.value.chain)
    then resp.body.value.chain
    else chain
  }

  /** The peers in the order `nodes` is walked; each compares with the chain the
      earlier ones left. */
  function Synced(digest: string -> string, blockHash: Block<Tx> -> string, chain: seq<Block<Tx>>, responses: seq<Response<Tx>>): seq<Block<Tx>>
    decreases |responses|
  {
    if |responses| == 0 then chain
    else Synced(digest, blockHash, SyncStep(digest, blockHash, chain, responses[0]), responses[1..])
  }

  /** Syncing ends on the local chain or on a non-empty valid peer chain; so a
      valid chain stays valid. */
  lemma {:induction false} SyncedIsLocalOrValid(digest: string -> string, blockHash: Block<Tx> -> string, chain: seq<Block<Tx>>, responses: seq<Response<Tx>>)
    ensures var s := Synced(digest, blockHash, chain, responses);
            s == chain || (|s| > 0 && SquareChainValid(digest, blockHash, s))
    decreases |responses|
  {
    if |responses| > 0 {
      var next := SyncStep(digest, blockHash, chain, responses[0]);
      SyncedIsLocalOrValid(digest, blockHash, next, responses[1..]);
    }
  }

  /** With peers that report the length they send, the local chain never gets shorter. */
  lemma {:induction false} HonestSyncNeverShorter(digest: string -> string, blockHash: Block<Tx> -> string, chain: seq<Block<Tx>>, responses: seq<Response<Tx>>)
    requires forall k :: 0 <= k < |responses| ==> Honest(responses[k])
    ensures |Synced(digest, blockHash, chain, responses)| >= |chain|
    decreases |responses|
  {
    if |responses| > 0 {
      var next := SyncStep(digest, blockHash, chain, responses[0]);
      assert Honest(responses[0]);
      assert |next| >= |chain|;
      forall k | 0 <= k < |responses[1..]|
        ensures Honest(responses[1..][k])
      {
        assert responses[1..][k] == responses[k + 1];
      }
      HonestSyncNeverShorter(digest, blockHash, next, responses[1..]);
    }
  }

  /** Only the reported length is compared: a peer announcing 5 blocks and sending
      one replaces a chain of 2. */
  lemma SyncTrustsReportedLength(digest: string -> string, blockHash: Block<Tx> -> string, chain: seq<Block<Tx>>, b: Block<Tx>)
    requires |chain| == 2
    ensures Synced(digest, blockHash, chain, [Answered(200, Some(Reply(5, [b])))]) == [b]
  {
    var responses: seq<Response<Tx>> := [Answered(200, Some(Reply(5, [b])))];
    assert SyncStep(digest, blockHash, chain, responses[0]) == [b];
    assert responses[1..] == [];
  }

  /** What saxv_coin_v11 records for one peer: `'online'` exactly when the
      request came back 200 and the body was read without raising. */
  function PeerStatus(chainLength: int, resp: Response<Tx>): (s: string)
    ensures s == "online" <==>
              && resp.Answered? && resp.status == 200 && resp.body.Some?
              && !(resp.body.value.length > chainLength && |resp.body.value.chain| == 0)
    ensures s == "online" || s == "offline"
  {
    if resp.Answered? && resp.status == 200 && resp.body.Some?
       && !(resp.body.value.length > chainLength && |resp.body.value.chain| == 0)
    then "online" else "offline"
  }

  /** The statuses after the peers in order, each judged against the chain the
      earlier ones left. */
  function StatusAfter(digest: string -> string, blockHash: Block<Tx> -> string, status: map<string, string>,
                       chain: seq<Block<Tx>>, peers: seq<(string, Response<Tx>)>): map<string, string>
    decreases |peers|
  {
    if |peers| == 0 then status
    else StatusAfter(digest, blockHash, status[peers[0].0 := PeerStatus(|chain|, peers[0].1)],
                     SyncStep(digest, blockHash, chain, peers[0].1), peers[1..])
  }

  /** The peers' answers without their names. */
  function Answers(peers: seq<(string, Response<Tx>)>): (rs: seq<Response<Tx>>)
    ensures |rs| == |peers| && forall k :: 0 <= k < |peers| ==> rs[k] == peers[k].1
  {
    seq(|peers|, k requires 0 <= k < |peers| => peers[k].1)
  }

  class Blockchain {
    /** SHA-256 (v6, v7, v8) or SHA3-512 (v11), giving hex text. */
    const digest: string -> string
    /** `hash(block)`: the digest of the block's sorted-key JSON. */
    const blockHash: Block<Tx> -> string
    var chain: seq<Block<Tx>>
    var transactions: seq<Tx>

    /** `__init__`: the genesis block with proof 1 and previous hash `'0'`. */
    constructor (digest: string -> string, blockHash: Block<Tx> -> string, now: Time)
      ensures this.digest == digest && this.blockHash == blockHash
      ensures chain == [Block(1, now, [], 1, "0")] && transactions == []
    {
      this.digest := digest;
      this.blockHash := blockHash;
      chain := [];
      transactions := [];
      new;
      var genesis := CreateBlock(1, "0", now);
    }

    /** `create_block`: numbered one past the chain length, holding the whole pool,
        which is emptied. */
    method CreateBlock(proof: int, previousHash: string, now: Time) returns (block: Block<Tx>)
      modifies this
      ensures block == Block(|old(chain)| + 1, now, old(transactions), proof, previousHash)
      ensures chain == old(chain) + [block] && transactions == []
      ensures old(SquareChainValid(digest, blockHash, chain)) && |old(chain)| > 0
              && previousHash == blockHash(old(chain)[|old(chain)| - 1])
              && SquareProofOk(digest, old(chain)[|old(chain)| - 1].proof, proof)
              ==> SquareChainValid(digest, blockHash, chain)
    {
      block := Block(|chain| + 1, now, transactions, proof, previousHash);
      transactions := [];
      if |chain| > 0 && SquareChainValid(digest, blockHash, chain) && previousHash == blockHash(chain[|chain| - 1])
         && SquareProofOk(digest, chain[|chain| - 1].proof, proof) {
        var c := chain + [block];
        forall i | 1 <= i < |c|
          ensures SquareLinked(digest, blockHash, c, i)
        {
          if i < |chain| {
            assert SquareLinked(digest, blockHash, chain, i);
          }
        }
      }
      chain := chain + [block];
    }

    /** `add_transaction`: always queued; answers one past the tip's index. */
    method AddTransaction(sender: string, receiver: string, amount: int) returns (index: int)
      requires |chain| > 0
      modifies this
      ensures transactions == old(transactions) + [Tx(sender, receiver, amount)]
      ensures chain == old(chain)
      ensures index == chain[|chain| - 1].index + 1
    {
      transactions := transactions + [Tx(sender, receiver, amount)];
      index := chain[|chain| - 1].index + 1;
    }

    /** `is_chain_valid()` on the node's own chain (v6, v7, and v8 and v11 without
        an argument). */
    method IsOwnChainValid() returns (r: Outcome<bool>)
      ensures |chain| == 0 ==> r == Raised(IndexError)
      ensures |chain| > 0 ==> r == Returned(SquareChainValid(digest, blockHash, chain))
    {
      r := IsChainValid(digest, blockHash, chain);
    }
  }

  /** The node's `wallet` dictionary. */
  class Wallet {
    const address: string
    var balance: int

    constructor (address: string)
      ensures this.address == address && balance == Supply
    {
      this.address := address;
      balance := Supply;
    }
  }

  /** The `node_status` dictionary of saxv_coin_v11. */
  class NodeStatus {
    var status: map<string, string>

    constructor ()
      ensures status == map[]
    {
      status := map[];
    }
  }

  /** `mine_block` of saxv_coin_v6: the proof over the tip's proof, the tip's hash,
      the `"SYSTEM"` reward queued last, then the block. The wallet is not credited. */
  method Forge(bc: Blockchain, minerAddress: string, now: Time, ghost w: int) returns (block: Block<Tx>)
    requires |bc.chain| > 0
    requires w >= 1 && SquareProofOk(bc.digest, bc.chain[|bc.chain| - 1].proof, w)
    modifies bc
    ensures bc.chain == old(bc.chain) + [block] && bc.transactions == []
    ensures block.index == |old(bc.chain)| + 1 && block.timestamp == now
    ensures block.previousHash == bc.blockHash(old(bc.chain)[|old(bc.chain)| - 1])
    ensures block.transactions == old(bc.transactions) + [Tx(SystemSender, minerAddress, MiningReward)]
    ensures var tip := old(bc.chain)[|old(bc.chain)| - 1].proof;
            && SquareProofOk(bc.digest, tip, block.proof) && 1 <= block.proof
            && forall k :: 1 <= k < block.proof ==> !SquareProofOk(bc.digest, tip, k)
    ensures old(SquareChainValid(bc.digest, bc.blockHash, bc.chain)) ==> SquareChainValid(bc.digest, bc.blockHash, bc.chain)
  {
    var previousBlock := bc.chain[|bc.chain| - 1];
    var proof := ProofOfWork(bc.digest, previousBlock.proof, w);
    var previousHash := bc.blockHash(previousBlock);
    var index := bc.AddTransaction(SystemSender, minerAddress, MiningReward);
    block := bc.CreateBlock(proof, previousHash, now);
  }

  /** `mine_block` of saxv_coin_v8 and saxv_coin_v11 and `mine_block_gui` of
      saxv_coin_v7: forging as above, then the wallet gains `MINING_REWARD`. */
  method MineBlock(bc: Blockchain, wallet: Wallet, now: Time, ghost w: int) returns (block: Block<Tx>)
    requires |bc.chain| > 0
    requires w >= 1 && SquareProofOk(bc.digest, bc.chain[|bc.chain| - 1].proof, w)
    modifies bc, wallet
    ensures bc.chain == old(bc.chain) + [block] && bc.transactions == []
    ensures block.index == |old(bc.chain)| + 1 && block.previousHash == bc.blockHash(old(bc.chain)[|old(bc.chain)| - 1])
    ensures block.transactions == old(bc.transactions) + [Tx(SystemSender, wallet.address, MiningReward)]
    ensures var tip := old(bc.chain)[|old(bc.chain)| - 1].proof;
            && SquareProofOk(bc.digest, tip, block.proof) && 1 <= block.proof
            && forall k :: 1 <= k < block.proof ==> !SquareProofOk(bc.digest, tip, k)
    ensures wallet.balance == old(wallet.balance) + MiningReward
    ensures old(SquareChainValid(bc.digest, bc.blockHash, bc.chain)) ==> SquareChainValid(bc.digest, bc.blockHash, bc.chain)
  {
    block := Forge(bc, wallet.address, now, w);
    wallet.balance := wallet.balance + MiningReward;
  }

  /** `send_saxv` of saxv_coin_v6 and the balance logic of `send_saxv_gui` (v7)
      and `send_gui` (v11): refused when the balance is below the amount;
      otherwise the transaction is queued and exactly the amount is debited. */
  method SendSaxv(bc: Blockchain, wallet: Wallet, receiver: string, amount: int) returns (ok: bool)
    requires |bc.chain| > 0
    modifies bc, wallet
    ensures ok <==> old(wallet.balance) >= amount
    ensures !ok ==> wallet.balance == old(wallet.balance) && bc.transactions == old(bc.transactions)
    ensures ok ==> && wallet.balance == old(wallet.balance) - amount && wallet.balance >= 0
                   && bc.transactions == old(bc.transactions) + [Tx(wallet.address, receiver, amount)]
    ensures bc.chain == old(bc.chain)
  {
    if wallet.balance < amount {
      return false;
    }
    var index := bc.AddTransaction(wallet.address, receiver, amount);
    wallet.balance := wallet.balance - amount;
    ok := true;
  }

  /** `auto_transaction` of saxv_coin_v11, one tick: 50 to the fixed receiver
      when the balance allows, so the balance stays non-negative. */
  method AutoTransaction(bc: Blockchain, wallet: Wallet)
    requires |bc.chain| > 0
    modifies bc, wallet
    ensures old(wallet.balance) >= AutoTxAmount ==>
              && wallet.balance == old(wallet.balance) - AutoTxAmount
              && bc.transactions == old(bc.transactions) + [Tx(wallet.address, AutoTxReceiver, AutoTxAmount)]
    ensures old(wallet.balance) < AutoTxAmount ==> wallet.balance == old(wallet.balance) && bc.transactions == old(bc.transactions)
    ensures old(wallet.balance) >= 0 ==> wallet.balance >= 0
    ensures bc.chain == old(bc.chain)
  {
    if wallet.balance >= AutoTxAmount {
      var index := bc.AddTransaction(wallet.address, AutoTxReceiver, AutoTxAmount);
      wallet.balance := wallet.balance - AutoTxAmount;
    }
  }

  /** `sync_chain` of saxv_coin_v8, one round over the peers: the chain ends as
      `Synced` says; pending transactions are untouched. */
  method SyncChain(bc: Blockchain, responses: seq<Response<Tx>>)
    modifies bc
    ensures bc.chain == Synced(bc.digest, bc.blockHash, old(bc.chain), responses)
    ensures bc.transactions == old(bc.transactions)
  {
    var i := 0;
    while i < |responses|
      invariant 0 <= i <= |responses|
      invariant Synced(bc.digest, bc.blockHash, bc.chain, responses[i..]) == Synced(bc.digest, bc.blockHash, old(bc.chain), responses)
      invariant bc.transactions == old(bc.transactions)
    {
      assert responses[i..][1..] == responses[i + 1..];
      var resp := responses[i];
      if resp.Answered? && resp.status == 200 && resp.body.Some? {
        var reply := resp.body.value;
        if reply.length > |bc.chain| {
          var verdict := IsChainValid(bc.digest, bc.blockHash, reply.chain);
          if verdict.Returned? && verdict.value {
            bc.chain := reply.chain;
          }
        }
      }
      i := i + 1;
    }
    assert responses[|responses|..] == [];
  }

  /** `sync_chain` of saxv_coin_v11, one round: the chain as in v8, and each peer
      marked `'online'` or `'offline'` as `PeerStatus` says. */
  method SyncChainWithStatus(bc: Blockchain, nodeStatus: NodeStatus, peers: seq<(string, Response<Tx>)>)
    modifies bc, nodeStatus
    ensures bc.chain == Synced(bc.digest, bc.blockHash, old(bc.chain), Answers(peers))
    ensures nodeStatus.status == StatusAfter(bc.digest, bc.blockHash, old(nodeStatus.status), old(bc.chain), peers)
    ensures bc.transactions == old(bc.transactions)
  {
    var i := 0;
    while i < |peers|
      invariant 0 <= i <= |peers|
      invariant Synced(bc.digest, bc.blockHash, bc.chain, Answers(peers[i..])) == Synced(bc.digest, bc.blockHash, old(bc.chain), Answers(peers))
      invariant StatusAfter(bc.digest, bc.blockHash, nodeStatus.status, bc.chain, peers[i..])
             == StatusAfter(bc.digest, bc.blockHash, old(nodeStatus.status), old(bc.chain), peers)
      invariant bc.transactions == old(bc.transactions)
    {
      assert peers[i..][1..] == peers[i + 1..];
      assert Answers(peers[i..])[1..] == Answers(peers[i + 1..]);
      var (node, resp) := peers[i];
      var before := bc.chain;
      ghost var status := nodeStatus.status;
      if resp.Answered? && resp.status == 200 {
        if resp.body.None? {
          nodeStatus.status := nodeStatus.status[node := "offline"];
        } else {
          var reply := resp.body.value;
          var raised := false;
          if reply.length > |bc.chain| {
            var verdict := IsChainValid(bc.digest, bc.blockHash, reply.chain);
            if verdict.Raised? {
              raised := true;
            } else if verdict.value {
              bc.chain := reply.chain;
            }
          }
          nodeStatus.status := nodeStatus.status[node := if raised then "offline" else "online"];
        }
      } else {
        nodeStatus.status := nodeStatus.status[node := "offline"];
      }
      assert bc.chain == SyncStep(bc.digest, bc.blockHash, before, resp);
      assert nodeStatus.status == status[node := PeerStatus(|before|, resp)];
      assert Synced(bc.digest, bc.blockHash, before, Answers(peers[i..]))
          == Synced(bc.digest, bc.blockHash, bc.chain, Answers(peers[i + 1..]));
      assert StatusAfter(bc.digest, bc.blockHash, status, before, peers[i..])
          == StatusAfter(bc.digest, bc.blockHash, nodeStatus.status, bc.chain, peers[i + 1..]);
      i := i + 1;
    }
    assert peers[|peers|..] == [];
  }
}
