/** `Blockchain` of saxv_chain_v2, saxv_chain_v3 and saxv_chain_v4_gui (the three
    classes agree; saxv_chain_v3 adds `valid_chain` and `resolve_conflicts`), and
    the `mine` sequencing of their front ends. */
module ProofChain {
  import opened Wrappers
  import opened Text
  import opened Signatures
  import opened DictBlocks

  /** `{'sender', 'recipient', 'amount'}` */
  datatype Tx = Tx(sender: string, recipient: string, amount: int)

  /** `valid_proof`: `guess_hash[:4] == "0000"` */
  const ProofZeros: nat := 4

  /** The sender standing for newly mined coin, which is never signature-checked. */
  const RewardSender: string := "0"

  /** A truthy `previous_hash` argument: given and not the empty string. */
  predicate Truthy(s: Option<string>) {
    s.Some? && s.value != ""
  }

  class Blockchain {
    const sha256: string -> string
    /** `hash(block)`: SHA-256 of the block's sorted-key JSON, so equal records hash equally. */
    const blockHash: Block<Tx> -> string
    /** `json.dumps(transaction, sort_keys=True)`, the text a wallet signs. */
    const txJson: Tx -> string
    const curve: Curve
    var chain: seq<Block<Tx>>
    var currentTransactions: seq<Tx>

    /** The chain as `valid_chain` would judge it. */
    ghost predicate Valid()
      reads this
    {
      ChainValid(sha256, ProofZeros, blockHash, chain)
    }

    /** `__init__`: the genesis block with proof 100 and previous hash `'1'`. */
    constructor (sha256: string -> string, blockHash: Block<Tx> -> string, txJson: Tx -> string, curve: Curve, now: Time)
      ensures this.sha256 == sha256 && this.blockHash == blockHash && this.txJson == txJson && this.curve == curve
      ensures chain == [Block(1, now, [], 100, "1")] && currentTransactions == []
      ensures Valid()
    {
      this.sha256 := sha256;
      this.blockHash := blockHash;
      this.txJson := txJson;
      this.curve := curve;
      chain := [];
      currentTransactions := [];
      new;
      var genesis := NewBlock(100, Some("1"), now);
    }

    /** `new_block`: numbered one past the chain length, holding the whole pool,
        which is emptied; it links to `previous_hash` if truthy, else to the hash
        of the tip (so the chain may be empty only when a truthy hash is given). */
    method NewBlock(proof: int, previousHash: Option<string>, now: Time) returns (block: Block<Tx>)
      requires |chain| > 0 || Truthy(previousHash)
      modifies this
      ensures block.index == |old(chain)| + 1 && block.timestamp == now && block.proof == proof
      ensures block.transactions == old(currentTransactions)
      ensures block.previousHash == if Truthy(previousHash) then previousHash.value else blockHash(old(chain)[|old(chain)| - 1])
      ensures chain == old(chain) + [block] && currentTransactions == []
      ensures (old(Valid()) && |old(chain)| > 0 && !Truthy(previousHash)
               && ProofOk(sha256, ProofZeros, old(chain)[|old(chain)| - 1].proof, proof)) ==> Valid()
    {
      var prev := if Truthy(previousHash) then previousHash.value else blockHash(chain[|chain| - 1]);
      block := Block(|chain| + 1, now, currentTransactions, proof, prev);
      currentTransactions := [];
      if |chain| > 0 && ChainValid(sha256, ProofZeros, blockHash, chain) && block.previousHash == blockHash(chain[|chain| - 1])
         && ProofOk(sha256, ProofZeros, chain[|chain| - 1].proof, proof) {
        var c := chain + [block];
        forall i | 1 <= i < |c|
          ensures Linked(sha256, ProofZeros, blockHash, c, i)
        {
          if i < |chain| {
            assert Linked(sha256, ProofZeros, blockHash, chain, i);
          }
        }
      }
      chain := chain + [block];
    }

    /** `new_transaction`: the reward sender `"0"` is admitted unchecked; any
        other sender only when `verify_signature` returns `True`. A `False`
        leaves the pool alone and answers `False` (here `None`); an error of
        `verify_signature` escapes with the pool unchanged. Admission answers the
        index of the block the transaction will land in. */
    method NewTransaction(sender: string, recipient: string, amount: int, signature: string) returns (r: Outcome<Option<int>>)
      requires |chain| > 0
      modifies this
      ensures chain == old(chain)
      ensures var tx := Tx(sender, recipient, amount);
              var verdict := VerifySignature(curve, sender, txJson(tx), signature);
              if sender == RewardSender || verdict == Returned(true) then
                r == Returned(Some(chain[|chain| - 1].index + 1)) && currentTransactions == old(currentTransactions) + [tx]
              else
                currentTransactions == old(currentTransactions) &&
                r == (if verdict.Raised? then Raised(verdict.error) else Returned(None))
    {
      var tx := Tx(sender, recipient, amount);
      if sender != RewardSender {
        var verdict := VerifySignature(curve, sender, txJson(tx), signature);
        if verdict.Raised? {
          return Raised(verdict.error);
        }
        if !verdict.value {
          return Returned(None);
        }
      }
      currentTransactions := currentTransactions + [tx];
      r := Returned(Some(chain[|chain| - 1].index + 1));
    }

    /** The `mine` route (`mine_block` of the GUI): search the proof over the tip's
        proof, queue the reward of 1 to the node's wallet, then forge the block.
        The reward is therefore the block's last transaction. */
    method Mine(minerAddress: string, now: Time, ghost w: nat) returns (block: Block<Tx>)
      requires |chain| > 0
      requires ProofOk(sha256, ProofZeros, chain[|chain| - 1].proof, w)
      modifies this
      ensures chain == old(chain) + [block] && currentTransactions == []
      ensures block.index == |old(chain)| + 1 && block.timestamp == now
      ensures block.previousHash == blockHash(old(chain)[|old(chain)| - 1])
      ensures block.transactions == old(currentTransactions) + [Tx(RewardSender, minerAddress, 1)]
      ensures block.proof >= 0 && ProofOk(sha256, ProofZeros, old(chain)[|old(chain)| - 1].proof, block.proof)
      ensures var tip := old(chain)[|old(chain)| - 1].proof;
              forall k :: 0 <= k < block.proof ==> !ProofOk(sha256, ProofZeros, tip, k)
      ensures old(Valid()) ==> Valid()
    {
      var lastProof := chain[|chain| - 1].proof;
      var proof := ProofOfWork(sha256, ProofZeros, lastProof, w);
      var admitted := NewTransaction(RewardSender, minerAddress, 1, "");
      block := NewBlock(proof, None, now);
    }

    /** `resolve_conflicts` of saxv_chain_v3 over the peers' answers in the order
        the node set is walked: the chain becomes the one `Select` settles on,
        starting from the local length, and is otherwise left alone; the pool is
        never touched. */
    method ResolveConflicts(responses: seq<Response<Tx>>) returns (r: Outcome<bool>)
      modifies this
      ensures currentTransactions == old(currentTransactions)
      ensures match Select(sha256, ProofZeros, blockHash, responses, |old(chain)|, None)
              case Raised(e) => r == Raised(e) && chain == old(chain)
              case Returned(None) => r == Returned(false) && chain == old(chain)
              case Returned(Some(c)) => r == Returned(true) && chain == c
    {
      var newChain: Option<seq<Block<Tx>>> := None;
      var maxLength := |chain|;
      var i := 0;
      while i < |responses|
        invariant 0 <= i <= |responses|
        invariant Select(sha256, ProofZeros, blockHash, responses[i..], maxLength, newChain)
               == Select(sha256, ProofZeros, blockHash, responses, |old(chain)|, None)
        invariant newChain.Some? ==> |newChain.value| > 0
        invariant chain == old(chain) && currentTransactions == old(currentTransactions)
      {
        assert responses[i..][1..] == responses[i + 1..];
        var resp := responses[i];
        if resp.Answered? && resp.status == 200 {
          if resp.body.None? {
            return Raised(KeyError);
          }
          var reply := resp.body.value;
          if reply.length > maxLength {
            var verdict := ValidChain(sha256, ProofZeros, blockHash, reply.chain);
            if verdict.Raised? {
              return Raised(verdict.error);
            }
            if verdict.value {
              maxLength := reply.length;
              newChain := Some(reply.chain);
            }
          }
        }
        i := i + 1;
      }
      assert responses[|responses|..] == [];
      if newChain.Some? {
        chain := newChain.value;
        return Returned(true);
      }
      r := Returned(false);
    }
  }

  /** What `resolve_conflicts` adopts, when it returns, is the longest valid chain
      on offer, earliest among ties, and nothing is adopted when no reply beats the
      local length. */
  lemma ResolveAdoptsLongest(sha256: string -> string, blockHash: Block<Tx> -> string, responses: seq<Response<Tx>>, localLength: nat)
    requires Select(sha256, ProofZeros, blockHash, responses, localLength, None).Returned?
    ensures var s := Select(sha256, ProofZeros, blockHash, responses, localLength, None).value;
            && (s.None? <==> forall k :: 0 <= k < |responses| ==> !Qualifies(sha256, ProofZeros, blockHash, responses[k], localLength))
            && (s.Some? ==> exists j :: IsBest(sha256, ProofZeros, blockHash, responses, localLength, s.value, j))
  {
    SelectAgreesWithPick(sha256, ProofZeros, blockHash, responses, localLength, None);
    PickLongest(sha256, ProofZeros, blockHash, responses, localLength);
  }
}
