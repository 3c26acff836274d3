/** saxv_chain_mini_v8, v9, v10, v13 and v15: object blocks without a nonce
    search. `mine`/`mine_batch` takes the oldest few pending transactions (3 in v8
    and v9, 5 from v10 on), rehashes the new block once and appends it; v13 and v15
    cap the mempool at its newest 10 entries; v15 adds a token balance book whose
    transfers enter the mempool signed. */
module MiniBatch {
  import opened Wrappers
  import opened Text
  import opened Ledger
  import opened ObjectBlocks
  import opened Mempool

  class Blockchain<T> {
    const digest: Record<T> -> string
    /** 3 in v8 and v9, 5 in v10, v13 and v15 */
    const batchSize: nat
    /** whether `add_new_transaction` keeps only the newest 10 (v13 and v15) */
    const capped: bool
    var chain: seq<Block<T>>
    /** `unconfirmed_transactions` in v8 to v10, `mempool` in v13 and v15 */
    var mempool: seq<T>

    /** Every block after genesis follows its predecessor's index and names its
        hash; a capped mempool holds at most 10 entries. */
    ghost predicate Valid()
      reads this
    {
      Linked(chain, 0) && (capped ==> |mempool| <= MempoolCap)
    }

    /** `__init__` and `create_genesis_block` */
    constructor(digest: Record<T> -> string, batchSize: nat, capped: bool, now: Time)
      ensures this.digest == digest && this.batchSize == batchSize && this.capped == capped
      ensures chain == [Construct(digest, 0, now, [], "0", 0)]
      ensures mempool == []
      ensures Valid()
    {
      this.digest := digest;
      this.batchSize := batchSize;
      this.capped := capped;
      chain := [Construct(digest, 0, now, [], "0", 0)];
      mempool := [];
    }

    /** The pool after `add_new_transaction`. */
    function Admitted(pool: seq<T>, tx: T): seq<T>
      reads this
    {
      if capped then Newest(pool + [tx]) else pool + [tx]
    }

    /** `add_new_transaction`: appends at the end; a capped pool then drops its
        oldest entries beyond 10. */
    method AddNewTransaction(tx: T)
      modifies this
      ensures mempool == Admitted(old(mempool), tx)
      ensures |mempool| > 0 && mempool[|mempool| - 1] == tx
      ensures capped ==> |mempool| <= MempoolCap
      ensures !capped ==> mempool == old(mempool) + [tx]
      ensures chain == old(chain)
      ensures old(Valid()) ==> Valid()
    {
      mempool := mempool + [tx];
      if capped && |mempool| > MempoolCap {
        mempool := mempool[|mempool| - MempoolCap..];
      }
    }

    /** The block `mine`/`mine_batch` appends: built on the tip with the first
        batch, then `new_block.hash = new_block.compute_hash()` once more. */
    function NextBlock(now: Time): (b: Block<T>)
      requires |chain| > 0
      reads this
      ensures b.index == chain[|chain| - 1].index + 1 && b.previousHash == chain[|chain| - 1].hash
      ensures b.transactions == Batch(mempool, batchSize) && b.nonce == 0 && b.timestamp == now
      ensures b == Rehash(digest, Construct(digest, b.index, now, b.transactions, b.previousHash, 0))
    {
      var last := chain[|chain| - 1];
      Rehash(digest, Construct(digest, last.index + 1, now, Batch(mempool, batchSize), last.hash, 0))
    }

    /** `mine`/`mine_batch`: `False` (here `None`) on an empty pool, changing
        nothing; otherwise the new block joins the chain with the oldest
        `batchSize` pending, the pool keeps exactly the rest, and the block's index
        is returned. */
    method MineBatch(now: Time) returns (index: Option<int>)
      requires |chain| > 0
      modifies this
      ensures old(mempool) == [] ==> index == None && chain == old(chain) && mempool == []
      ensures old(mempool) != [] ==>
        && chain == old(chain) + [old(NextBlock(now))]
        && index == Some(old(chain)[|old(chain)| - 1].index + 1)
        && |old(NextBlock(now)).transactions| <= batchSize
        && old(NextBlock(now)).transactions + mempool == old(mempool)
      ensures old(Valid()) ==> Valid()
    {
      if mempool == [] {
        return None;
      }
      var newBlock := NextBlock(now);
      if Linked(chain, 0) {
        LinkedExtend(chain, 0, newBlock);
      }
      chain := chain + [newBlock];
      var pool := mempool;
      BatchThenRest(pool, batchSize);
      mempool := Rest(pool, batchSize);
      index := Some(newBlock.index);
    }

    /** `is_chain_valid`: `for i in range(1, len(chain))`, the hash check first,
        then the link. */
    method IsChainValid() returns (ok: bool)
      ensures ok == SelfHashedChain(digest, chain)
    {
      var i := 1;
      while i < |chain|
        invariant 1 <= i <= |chain| || (|chain| == 0 && i == 1)
        invariant forall k :: 1 <= k < i && k < |chain| ==> HashLinked(digest, chain, k)
      {
        var current := chain[i];
        var previous := chain[i - 1];
        if current.hash != ComputeHash(digest, current) {
          assert !HashLinked(digest, chain, i);
          return false;
        }
        if current.previousHash != previous.hash {
          assert !HashLinked(digest, chain, i);
          return false;
        }
        i := i + 1;
      }
      ok := true;
    }
  }

  /** Mining an honest chain keeps its links, but `is_chain_valid` passes the new
      block only if the digest collides on its attributes before and after the
      rehash, or the constructed block was already self-hashed. */
  lemma MinedBlockPassesOnlyByCollision<T>(digest: Record<T> -> string, index: int, now: Time, batch: seq<T>, previousHash: string)
    ensures var built := Construct(digest, index, now, batch, previousHash, 0);
            var b := Rehash(digest, built);
            SelfHashed(digest, b) ==> digest(Attrs(b)) == digest(Attrs(built)) && (Attrs(b) != Attrs(built) || SelfHashed(digest, built))
  {
    RehashedPassesOnlyByCollision(digest, Construct(digest, index, now, batch, previousHash, 0));
  }

  /** `token_name` */
  const TokenName: string := "SAXV"

  /** The transfer record of `transfer_token`; the signature is `None` while it is
      signed and set afterwards. */
  datatype TokenTx = TokenTx(from: Address, to: Address, amount: int, token: string, signature: Option<string>)

  /** `token_balances` of saxv_chain_mini_v15 */
  class TokenBook {
    var balances: Balances

    /** The sender's wallet starts with 1000 tokens. */
    constructor(owner: Address)
      ensures balances == map[owner := 1000]
    {
      balances := map[owner := 1000];
    }

    /** `transfer_token`: refuses, changing nothing, when the sender holds less
        than `amount` (a missing sender holds 0, and debiting one raises
        `KeyError`); otherwise moves the tokens, keeps the sum of balances, signs
        the record and admits it to the mempool. `sign` is the wallet's signature
        over the unsigned record. */
    method TransferToken(bc: Blockchain<TokenTx>, sender: Address, toPubkey: Address, amount: int,
                         sign: TokenTx -> string) returns (r: Outcome<bool>)
      modifies this, bc
      ensures r == Raised(KeyError) <==> sender !in old(balances) && amount <= 0
      ensures r == Returned(false) <==> Get(old(balances), sender) < amount
      ensures r != Returned(true) ==> balances == old(balances) && bc.mempool == old(bc.mempool)
      ensures r == Returned(true) ==>
        && sender in old(balances) && old(balances)[sender] >= amount
        && balances == Move(old(balances), sender, toPubkey, amount)
        && Sum(balances) == Sum(old(balances))
        && var unsigned := TokenTx(sender, toPubkey, amount, TokenName, None);
           bc.mempool == bc.Admitted(old(bc.mempool), unsigned.(signature := Some(sign(unsigned))))
      ensures bc.chain == old(bc.chain)
      ensures old(bc.Valid()) ==> bc.Valid()
    {
      if Get(balances, sender) >= amount {
        if sender !in balances {
          return Raised(KeyError);
        }
        MoveSum(balances, sender, toPubkey, amount);
        balances := Move(balances, sender, toPubkey, amount);
        var tx := TokenTx(sender, toPubkey, amount, TokenName, None);
        tx := tx.(signature := Some(sign(tx)));
        bc.AddNewTransaction(tx);
        r := Returned(true);
      } else {
        r := Returned(false);
      }
    }
  }
}
