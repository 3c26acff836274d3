/** `SAXV` of saxv_v5_nogui.py: the v4 Lite coin without sync; the supply is
    distributed once over a wallet list and the remainder stays undistributed. */
module CoinV5 {
  import opened Wrappers
  import opened Text
  import opened Ledger
  import opened PipeBlocks

  /** `MAX_SUPPLY` */
  const MaxSupply: int := 31_000_000

  /** What `validate` answers: every block from 1 on passes. An empty or
      one-block chain passes. */
  predicate ChainValid(sha256: string -> string, chain: seq<Block>) {
    forall i :: 1 <= i < |chain| ==> PowBlockOk(sha256, chain, i)
  }

  /** A block linked to the tip, carrying its own hash, with the prefix, keeps a
      valid chain valid. */
  lemma ExtendValid(sha256: string -> string, chain: seq<Block>, b: Block)
    requires ChainValid(sha256, chain) && |chain| > 0
    requires b.previousHash == chain[|chain| - 1].hash
    requires b.hash == CalculateHash(sha256, b) && HasZeros(b.hash, Difficulty)
    ensures ChainValid(sha256, chain + [b])
  {
    var c := chain + [b];
    forall i | 1 <= i < |c|
      ensures PowBlockOk(sha256, c, i)
    {
      if i < |chain| {
        assert PowBlockOk(sha256, chain, i);
      }
    }
  }

  /** `Block(...)`: a truthy `hash_value` is kept; `None` and the empty string
      both make the constructor compute the hash. */
  function MakeBlock(sha256: string -> string, index: int, transactions: string, previousHash: string,
                     timestamp: Time, nonce: int, hashValue: Option<string>): (b: Block)
    ensures b.index == index && b.timestamp == timestamp && b.nonce == nonce
    ensures b.transactions == transactions && b.previousHash == previousHash
    ensures b.hash == if hashValue.Some? && hashValue.value != "" then hashValue.value else CalculateHash(sha256, b)
  {
    var computed := NewBlock(sha256, index, transactions, previousHash, timestamp, nonce);
    if hashValue.Some? && hashValue.value != "" then computed.(hash := hashValue.value) else computed
  }

  /** An empty stored hash is not kept: the block gets its computed hash, as if
      none had been given, so it never reads back as a block whose hash is "". */
  lemma EmptyHashRecomputed(sha256: string -> string, index: int, transactions: string, previousHash: string, timestamp: Time, nonce: int)
    ensures MakeBlock(sha256, index, transactions, previousHash, timestamp, nonce, Some(""))
         == MakeBlock(sha256, index, transactions, previousHash, timestamp, nonce, None)
    ensures MakeBlock(sha256, index, transactions, previousHash, timestamp, nonce, Some("")).hash
         == sha256(BlockText(index, timestamp, transactions, previousHash, nonce))
  {
  }

  function MintMemo(total: int, n: int): string {
    "Mint " + IntStr(total) + " dibagi rata ke " + IntStr(n) + " wallet"
  }

  function TransferMemo(from: Address, to: Address, amount: int): string {
    from + " -> " + to + " : " + IntStr(amount)
  }

  class SAXV {
    const maxSupply: int
    const sha256: string -> string
    var totalSupply: int
    var balances: Balances
    var chain: seq<Block>

    /** Every minted coin sits in some balance and the cap holds. */
    ghost predicate Books()
      reads this
    {
      totalSupply == Sum(balances) && totalSupply <= maxSupply
    }

    /** The candidate `add_block` tries at nonce `n`. */
    function Try(tx: string, now: Time, n: nat): Block
      requires |chain| > 0
      reads this`chain
    {
      Candidate(sha256, |chain|, tx, chain[|chain| - 1].hash, Fixed(now), n)
    }

    /** The hash `mine_reward` tests at nonce `n`. */
    function MineHash(miner: Address, reward: int, n: nat): string
      requires |chain| > 0
      reads this
    {
      sha256(MineText(|chain|, RewardMemo(reward, miner), chain[|chain| - 1].hash, n))
    }

    /** A fresh coin: no data file, so `create_genesis` runs at `now`. */
    constructor (maxSupply: int, sha256: string -> string, now: Time)
      ensures this.maxSupply == maxSupply && this.sha256 == sha256
      ensures totalSupply == 0 && balances == map[]
      ensures chain == [NewBlock(sha256, 0, "Genesis", "0", now, 0)]
      ensures ChainValid(sha256, chain)
      ensures maxSupply >= 0 ==> Books()
    {
      this.maxSupply := maxSupply;
      this.sha256 := sha256;
      totalSupply := 0;
      balances := map[];
      chain := [NewBlock(sha256, 0, "Genesis", "0", now, 0)];
    }

    /** `add_block`: a block numbered by the chain length, linked to the tip and
        created at `now` with nonce 0; unless `skipPow`, the nonce is raised
        until the hash has the prefix. */
    method AddBlock(tx: string, skipPow: bool, now: Time, ghost w: nat) returns (blk: Block)
      requires |chain| > 0
      requires !skipPow ==> HasZeros(Try(tx, now, w).hash, Difficulty)
      modifies this
      ensures chain == old(chain) + [blk]
      ensures blk.index == |old(chain)| && blk.previousHash == old(chain)[|old(chain)| - 1].hash
      ensures blk.timestamp == now && blk.transactions == tx
      ensures blk.hash == CalculateHash(sha256, blk)
      ensures skipPow ==> blk.nonce == 0
      ensures !skipPow ==> && blk.nonce >= 0 && HasZeros(blk.hash, Difficulty)
                           && forall k :: 0 <= k < blk.nonce ==> !HasZeros(old(Try(tx, now, k)).hash, Difficulty)
      ensures totalSupply == old(totalSupply) && balances == old(balances)
      ensures !skipPow && old(ChainValid(sha256, chain)) ==> ChainValid(sha256, chain)
    {
      var idx := |chain|;
      var prev := chain[|chain| - 1].hash;
      if !skipPow {
        blk := SearchNonce(sha256, idx, tx, prev, Fixed(now), w);
        if ChainValid(sha256, chain) {
          ExtendValid(sha256, chain, blk);
        }
      } else {
        blk := NewBlock(sha256, idx, tx, prev, now, 0);
      }
      chain := chain + [blk];
    }

    /** `distribute_equal`: once only (while the supply is not positive) and on
        a non-empty list, each listed wallet gains `max_supply // n` per listing;
        the supply becomes that times `n`, less than `n` short of the cap. */
    method DistributeEqual(wallets: seq<Address>, now: Time) returns (ok: bool)
      requires |chain| > 0
      modifies this
      ensures ok <==> old(totalSupply) <= 0 && |wallets| > 0
      ensures !ok ==> totalSupply == old(totalSupply) && balances == old(balances) && chain == old(chain)
      ensures ok ==> && balances == AddEach(old(balances), wallets, maxSupply / |wallets|)
                     && totalSupply == (maxSupply / |wallets|) * |wallets|
                     && 0 <= maxSupply - totalSupply < |wallets|
                     && chain == old(chain) + [NewBlock(sha256, |old(chain)|, MintMemo(totalSupply, |wallets|), old(chain)[|old(chain)| - 1].hash, now, 0)]
      ensures ok && old(Books()) && old(totalSupply) == 0 ==> Books()
    {
      if totalSupply > 0 {
        return false;
      }
      if |wallets| == 0 {
        return false;
      }
      var per := maxSupply / |wallets|;
      var updated := balances;
      var i := 0;
      while i < |wallets|
        invariant 0 <= i <= |wallets|
        invariant AddEach(updated, wallets[i..], per) == AddEach(balances, wallets, per)
      {
        assert wallets[i..][1..] == wallets[i + 1..];
        updated := updated[wallets[i] := Get(updated, wallets[i]) + per];
        i := i + 1;
      }
      assert wallets[|wallets|..] == [];
      AddEachSum(balances, wallets, per);
      SplitFits(maxSupply, |wallets|);
      balances := updated;
      totalSupply := per * |wallets|;
      var b := AddBlock(MintMemo(totalSupply, |wallets|), true, now, 0);
      ok := true;
    }

    /** `transfer`: refused on an insufficient balance (0 if unknown) with nothing
        changed; an unknown sender passing the test raises `KeyError` unchanged;
        otherwise the amount moves and a mined block records it. */
    method Transfer(from: Address, to: Address, amount: int, now: Time, ghost w: nat) returns (r: Outcome<bool>)
      requires |chain| > 0
      requires HasZeros(Try(TransferMemo(from, to, amount), now, w).hash, Difficulty)
      modifies this
      ensures totalSupply == old(totalSupply)
      ensures Get(old(balances), from) < amount ==>
                r == Returned(false) && balances == old(balances) && chain == old(chain)
      ensures Get(old(balances), from) >= amount && from !in old(balances) ==>
                r == Raised(KeyError) && balances == old(balances) && chain == old(chain)
      ensures Get(old(balances), from) >= amount && from in old(balances) ==>
                && r == Returned(true)
                && balances == Move(old(balances), from, to, amount)
                && |chain| == |old(chain)| + 1 && chain[..|old(chain)|] == old(chain)
                && chain[|old(chain)|].transactions == TransferMemo(from, to, amount)
                && (var b := chain[|old(chain)|];
                    && b.index == |old(chain)| && b.previousHash == old(chain)[|old(chain)| - 1].hash
                    && b.timestamp == now && b.hash == CalculateHash(sha256, b)
                    && b.nonce >= 0 && HasZeros(b.hash, Difficulty)
                    && forall k :: 0 <= k < b.nonce ==> !HasZeros(old(Try(TransferMemo(from, to, amount), now, k)).hash, Difficulty))
      ensures Sum(balances) == old(Sum(balances))
      ensures old(ChainValid(sha256, chain)) ==> ChainValid(sha256, chain)
    {
      if Get(balances, from) < amount {
        return Returned(false);
      }
      if from !in balances {
        return Raised(KeyError);
      }
      // The search reads only the chain, so mining before the move is the same block.
      var b := AddBlock(TransferMemo(from, to, amount), false, now, w);
      MoveSum(balances, from, to, amount);
      balances := Move(balances, from, to, amount);
      r := Returned(true);
    }

    /** `mine_reward`: refused past the cap; otherwise the least nonce whose mine
        text hashes to the prefix is found, a block carrying that searched hash
        (which has no timestamp in it) is appended, and then the supply and the
        miner's balance rise by the reward. */
    method MineReward(miner: Address, reward: int, now: Time, ghost w: nat) returns (ok: bool)
      requires |chain| > 0
      requires HasZeros(MineHash(miner, reward, w), Difficulty)
      modifies this
      ensures ok <==> old(totalSupply) + reward <= maxSupply
      ensures !ok ==> totalSupply == old(totalSupply) && balances == old(balances) && chain == old(chain)
      ensures ok ==> && totalSupply == old(totalSupply) + reward
                     && balances == Credit(old(balances), miner, reward)
                     && |chain| == |old(chain)| + 1 && chain[..|old(chain)|] == old(chain)
                     && var b := chain[|old(chain)|];
                        && b.nonce >= 0
                        && b == RewardBlock(sha256, |old(chain)|, RewardMemo(reward, miner), old(chain)[|old(chain)| - 1].hash, now, b.nonce)
                        && HasZeros(b.hash, Difficulty)
                        && forall k :: 0 <= k < b.nonce ==> !HasZeros(old(MineHash(miner, reward, k)), Difficulty)
      ensures old(Books()) ==> Books()
    {
      if totalSupply + reward > maxSupply {
        return false;
      }
      var idx := |chain|;
      var prev := chain[|chain| - 1].hash;
      var tx := RewardMemo(reward, miner);
      var nonce := SearchMineNonce(sha256, idx, tx, prev, w);
      chain := chain + [RewardBlock(sha256, idx, tx, prev, now, nonce)];
      CreditSum(balances, miner, reward);
      totalSupply := totalSupply + reward;
      balances := Credit(balances, miner, reward);
      ok := true;
    }

    /** `validate` */
    method Validate() returns (ok: bool)
      ensures ok == ChainValid(sha256, chain)
    {
      ok := CheckPowBlocks(sha256, chain);
    }
  }
}
