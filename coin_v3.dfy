/** `SAXVCoin` of saxv_coin_v3.py: the balance book over a chain of mined blocks,
    with a validator and a repair pass. */
module CoinV3 {
  import opened Wrappers
  import opened Text
  import opened Ledger
  import opened PipeBlocks

  /** The three tests `validate_chain` makes on block `i` against block `i - 1`. */
  predicate BlockOk(sha256: string -> string, chain: seq<Block>, i: int)
    requires 1 <= i < |chain|
  {
    && chain[i].previousHash == chain[i - 1].hash
    && CalculateHash(sha256, chain[i]) == chain[i].hash
    && HasZeros(chain[i].hash, Difficulty)
  }

  /** What `validate_chain` answers: a non-empty chain all of whose later blocks pass. */
  predicate ChainValid(sha256: string -> string, chain: seq<Block>) {
    |chain| > 0 && forall i :: 1 <= i < |chain| ==> BlockOk(sha256, chain, i)
  }

  /** A mined block linked to the tip keeps a valid chain valid. */
  lemma ExtendValid(sha256: string -> string, chain: seq<Block>, b: Block)
    requires ChainValid(sha256, chain)
    requires b.previousHash == chain[|chain| - 1].hash
    requires b.hash == CalculateHash(sha256, b) && HasZeros(b.hash, Difficulty)
    ensures ChainValid(sha256, chain + [b])
  {
    var c := chain + [b];
    forall i | 1 <= i < |c|
      ensures BlockOk(sha256, c, i)
    {
      if i < |chain| {
        assert BlockOk(sha256, chain, i);
      }
    }
  }

  /** The test `repair_chain` applies to each block. */
  predicate NeedsRepair(sha256: string -> string, b: Block) {
    CalculateHash(sha256, b) != b.hash || !HasZeros(b.hash, Difficulty)
  }

  /** `c` is `b` re-mined: same index, timestamp, transactions and previous
      hash, the least nonce from 0 whose hash has the prefix, and that hash. */
  predicate IsRemined(sha256: string -> string, b: Block, c: Block) {
    && c.nonce >= 0
    && c == Candidate(sha256, b.index, b.transactions, b.previousHash, Fixed(b.timestamp), c.nonce)
    && HasZeros(c.hash, Difficulty)
    && forall k :: 0 <= k < c.nonce ==> !HasZeros(Candidate(sha256, b.index, b.transactions, b.previousHash, Fixed(b.timestamp), k).hash, Difficulty)
  }

  /** The first pass of `repair_chain` on one block. */
  predicate RepairedBlock(sha256: string -> string, b: Block, c: Block) {
    if NeedsRepair(sha256, b) then IsRemined(sha256, b, c) else c == b
  }

  /** `after` is what a repairing `repair_chain` leaves of `before`: each block
      repaired as in the first pass, then every previous hash from block 1 on
      overwritten with the hash of the block before, with no hash recomputed. */
  ghost predicate RepairedFrom(sha256: string -> string, before: seq<Block>, after: seq<Block>) {
    && |after| == |before| > 0
    && (forall i :: 0 <= i < |before| ==> RepairedBlock(sha256, before[i], after[i].(previousHash := before[i].previousHash)))
    && after[0].previousHash == before[0].previousHash
    && (forall j :: 1 <= j < |after| ==> after[j].previousHash == after[j - 1].hash)
  }

  /** Relinking without rehashing: if repair changed the previous hash of a block
      `j >= 1` and the repaired chain still validates, SHA-256 gave two different
      texts the same digest. */
  lemma RepairedChainValidNeedsCollision(sha256: string -> string, before: seq<Block>, after: seq<Block>, j: int)
    requires RepairedFrom(sha256, before, after)
    requires 1 <= j < |after| && after[j].previousHash != before[j].previousHash
    requires ChainValid(sha256, after)
    ensures var c := after[j];
            && BlockText(c.index, c.timestamp, c.transactions, before[j].previousHash, c.nonce)
               != BlockText(c.index, c.timestamp, c.transactions, c.previousHash, c.nonce)
            && sha256(BlockText(c.index, c.timestamp, c.transactions, before[j].previousHash, c.nonce))
               == sha256(BlockText(c.index, c.timestamp, c.transactions, c.previousHash, c.nonce))
  {
    var c := after[j];
    var m := c.(previousHash := before[j].previousHash);
    assert RepairedBlock(sha256, before[j], m);
    assert m.hash == CalculateHash(sha256, m);
    assert BlockOk(sha256, after, j);
    TextsDiffer(c.index, c.timestamp, c.transactions, before[j].previousHash, c.previousHash, c.nonce);
  }

  /** Nonce `n` passes for `b` re-mined: the prefix test `repair_chain` searches for. */
  predicate RemineWitness(sha256: string -> string, b: Block, n: nat) {
    HasZeros(Candidate(sha256, b.index, b.transactions, b.previousHash, Fixed(b.timestamp), n).hash, Difficulty)
  }

  /** The body of the first loop of `repair_chain` for one block: `changed`
      tells whether it needed repair, and `c` is the block it leaves. */
  method RepairOne(sha256: string -> string, b: Block, ghost w: nat) returns (c: Block, changed: bool)
    requires NeedsRepair(sha256, b) ==> RemineWitness(sha256, b, w)
    ensures changed == NeedsRepair(sha256, b)
    ensures RepairedBlock(sha256, b, c)
  {
    c := b;
    changed := CalculateHash(sha256, b) != b.hash || !HasZeros(b.hash, Difficulty);
    if changed {
      c := SearchNonce(sha256, b.index, b.transactions, b.previousHash, Fixed(b.timestamp), w);
    }
  }

  /** The first loop of `repair_chain`: each block that fails the hash or the
      prefix test is replaced by its re-mined copy. */
  method RemineAll(sha256: string -> string, chain: seq<Block>, ghost ws: seq<nat>) returns (mid: seq<Block>, repaired: bool)
    requires |ws| == |chain|
    requires forall i :: 0 <= i < |chain| && NeedsRepair(sha256, chain[i]) ==> RemineWitness(sha256, chain[i], ws[i])
    ensures |mid| == |chain|
    ensures forall i :: 0 <= i < |chain| ==> RepairedBlock(sha256, chain[i], mid[i])
    ensures repaired <==> exists i :: 0 <= i < |chain| && NeedsRepair(sha256, chain[i])
  {
    mid := chain;
    repaired := false;
    ghost var found := 0;
    var i := 0;
    while i < |mid|
      invariant 0 <= i <= |mid| == |chain|
      invariant forall k :: 0 <= k < i ==> RepairedBlock(sha256, chain[k], mid[k])
      invariant mid[i..] == chain[i..]
      invariant !repaired ==> forall k :: 0 <= k < i ==> !NeedsRepair(sha256, chain[k])
      invariant repaired ==> 0 <= found < i && NeedsRepair(sha256, chain[found])
    {
      assert mid[i] == mid[i..][0] == chain[i..][0] == chain[i];
      var b := mid[i];
      var c, changed := RepairOne(sha256, b, ws[i]);
      if changed {
        ghost var before := mid;
        mid := mid[i := c];
        assert mid[i + 1..] == before[i + 1..] == chain[i + 1..];
        assert forall k :: 0 <= k < i ==> mid[k] == before[k];
        repaired := true;
        found := i;
      } else {
        assert mid[i + 1..] == chain[i + 1..];
      }
      i := i + 1;
    }
  }

  /** The second loop of `repair_chain`: from block 1 on, each previous hash is
      overwritten with the hash of the block before; nothing else changes. */
  method Relink(mid: seq<Block>) returns (after: seq<Block>)
    requires |mid| > 0
    ensures |after| == |mid| && after[0] == mid[0]
    ensures forall k :: 0 <= k < |mid| ==> after[k] == mid[k].(previousHash := after[k].previousHash)
    ensures forall k :: 1 <= k < |after| ==> after[k].previousHash == after[k - 1].hash
  {
    after := mid;
    var j := 1;
    while j < |after|
      invariant 1 <= j <= |after| == |mid|
      invariant forall k :: 0 <= k < |mid| ==> after[k] == mid[k].(previousHash := after[k].previousHash)
      invariant forall k :: j <= k < |mid| ==> after[k] == mid[k]
      invariant after[0] == mid[0]
      invariant forall k :: 1 <= k < j ==> after[k].previousHash == after[k - 1].hash
    {
      after := after[j := after[j].(previousHash := after[j - 1].hash)];
      j := j + 1;
    }
  }

  function MintMemo(amount: int, address: Address): string {
    "Mint " + IntStr(amount) + " SAXV -> " + address
  }

  function TransferMemo(sender: Address, receiver: Address, amount: int): string {
    sender + " -> " + receiver + " : " + IntStr(amount) + " SAXV"
  }

  class SAXVCoin {
    const maxSupply: int
    const sha256: string -> string
    var totalSupply: int
    var balances: Balances
    var chain: seq<Block>

    /** Every minted coin sits in some balance and the cap holds. */
    ghost predicate Books()
      reads this
    {
      totalSupply == Sum(balances) && totalSupply <= maxSupply
    }

    /** The candidate `mine_new_block` tries at nonce `n` for `transactions`. */
    function Try(transactions: string, clock: nat -> Time, n: nat): Block
      requires |chain| > 0
      reads this`chain
    {
      var last := chain[|chain| - 1];
      Candidate(sha256, last.index + 1, transactions, last.hash, clock, n)
    }

    /** A fresh coin: no data file, so the genesis block is built at `now`. */
    constructor (maxSupply: int, sha256: string -> string, now: Time)
      ensures this.maxSupply == maxSupply && this.sha256 == sha256
      ensures totalSupply == 0 && balances == map[]
      ensures chain == [NewBlock(sha256, 0, "Genesis Block", "0", now, 0)]
      ensures ChainValid(sha256, chain)
      ensures maxSupply >= 0 ==> Books()
    {
      this.maxSupply := maxSupply;
      this.sha256 := sha256;
      totalSupply := 0;
      balances := map[];
      chain := [NewBlock(sha256, 0, "Genesis Block", "0", now, 0)];
    }

    /** `mine_new_block`: the first candidate from nonce 0 whose hash has the
        prefix, each candidate stamped with the clock at its try, appended. */
    method MineNewBlock(transactions: string, clock: nat -> Time, ghost w: nat) returns (b: Block)
      requires |chain| > 0
      requires HasZeros(Try(transactions, clock, w).hash, Difficulty)
      modifies this
      ensures b.nonce >= 0 && b == old(Try(transactions, clock, b.nonce))
      ensures b.index == old(chain[|chain| - 1].index) + 1 && b.previousHash == old(chain[|chain| - 1].hash)
      ensures HasZeros(b.hash, Difficulty)
      ensures forall k :: 0 <= k < b.nonce ==> !HasZeros(old(Try(transactions, clock, k)).hash, Difficulty)
      ensures chain == old(chain) + [b]
      ensures totalSupply == old(totalSupply) && balances == old(balances)
      ensures old(ChainValid(sha256, chain)) ==> ChainValid(sha256, chain)
    {
      var last := chain[|chain| - 1];
      b := SearchNonce(sha256, last.index + 1, transactions, last.hash, clock, w);
      if ChainValid(sha256, chain) {
        ExtendValid(sha256, chain, b);
      }
      chain := chain + [b];
    }

    /** `mint`: refused past the cap with nothing changed; otherwise a credit and a mined block. */
    method Mint(address: Address, amount: int, clock: nat -> Time, ghost w: nat) returns (ok: bool)
      requires |chain| > 0
      requires HasZeros(Try(MintMemo(amount, address), clock, w).hash, Difficulty)
      modifies this
      ensures ok <==> old(totalSupply) + amount <= maxSupply
      ensures !ok ==> totalSupply == old(totalSupply) && balances == old(balances) && chain == old(chain)
      ensures ok ==> && totalSupply == old(totalSupply) + amount
                     && balances == Credit(old(balances), address, amount)
                     && |chain| == |old(chain)| + 1 && chain[..|old(chain)|] == old(chain)
                     && chain[|old(chain)|].transactions == MintMemo(amount, address)
                     && (var b := chain[|old(chain)|];
                         && b.nonce >= 0 && b == old(Try(MintMemo(amount, address), clock, b.nonce))
                         && b.index == old(chain[|chain| - 1].index) + 1 && b.previousHash == old(chain[|chain| - 1].hash)
                         && HasZeros(b.hash, Difficulty)
                         && forall k :: 0 <= k < b.nonce ==> !HasZeros(old(Try(MintMemo(amount, address), clock, k)).hash, Difficulty))
      ensures old(Books()) ==> Books()
      ensures old(ChainValid(sha256, chain)) ==> ChainValid(sha256, chain)
    {
      if totalSupply + amount > maxSupply {
        return false;
      }
      // The search reads only the chain, so mining before the balances change is the same block.
      var b := MineNewBlock(MintMemo(amount, address), clock, w);
      CreditSum(balances, address, amount);
      totalSupply := totalSupply + amount;
      balances := Credit(balances, address, amount);
      ok := true;
    }

    /** `transfer`: refused on an insufficient balance (0 if unknown) with nothing
        changed; an unknown sender passing the test raises `KeyError` unchanged. */
    method Transfer(sender: Address, receiver: Address, amount: int, clock: nat -> Time, ghost w: nat) returns (r: Outcome<bool>)
      requires |chain| > 0
      requires HasZeros(Try(TransferMemo(sender, receiver, amount), clock, w).hash, Difficulty)
      modifies this
      ensures totalSupply == old(totalSupply)
      ensures Get(old(balances), sender) < amount ==>
                r == Returned(false) && balances == old(balances) && chain == old(chain)
      ensures Get(old(balances), sender) >= amount && sender !in old(balances) ==>
                r == Raised(KeyError) && balances == old(balances) && chain == old(chain)
      ensures Get(old(balances), sender) >= amount && sender in old(balances) ==>
                && r == Returned(true)
                && balances == Move(old(balances), sender, receiver, amount)
                && |chain| == |old(chain)| + 1 && chain[..|old(chain)|] == old(chain)
                && chain[|old(chain)|].transactions == TransferMemo(sender, receiver, amount)
                && (var b := chain[|old(chain)|];
                    && b.nonce >= 0 && b == old(Try(TransferMemo(sender, receiver, amount), clock, b.nonce))
                    && b.index == old(chain[|chain| - 1].index) + 1 && b.previousHash == old(chain[|chain| - 1].hash)
                    && HasZeros(b.hash, Difficulty)
                    && forall k :: 0 <= k < b.nonce ==> !HasZeros(old(Try(TransferMemo(sender, receiver, amount), clock, k)).hash, Difficulty))
      ensures old(Books()) ==> Books()
      ensures old(ChainValid(sha256, chain)) ==> ChainValid(sha256, chain)
    {
      if Get(balances, sender) < amount {
        return Returned(false);
      }
      if sender !in balances {
        return Raised(KeyError);
      }
      // The search reads only the chain, so mining before the balances change is the same block.
      var b := MineNewBlock(TransferMemo(sender, receiver, amount), clock, w);
      MoveSum(balances, sender, receiver, amount);
      balances := Move(balances, sender, receiver, amount);
      r := Returned(true);
    }

    /** `mine_reward`: like `mint`, with the reward memo. */
    method MineReward(miner: Address, reward: int, clock: nat -> Time, ghost w: nat) returns (ok: bool)
      requires |chain| > 0
      requires HasZeros(Try(RewardMemo(reward, miner), clock, w).hash, Difficulty)
      modifies this
      ensures ok <==> old(totalSupply) + reward <= maxSupply
      ensures !ok ==> totalSupply == old(totalSupply) && balances == old(balances) && chain == old(chain)
      ensures ok ==> && totalSupply == old(totalSupply) + reward
                     && balances == Credit(old(balances), miner, reward)
                     && |chain| == |old(chain)| + 1 && chain[..|old(chain)|] == old(chain)
                     && chain[|old(chain)|].transactions == RewardMemo(reward, miner)
                     && (var b := chain[|old(chain)|];
                         && b.nonce >= 0 && b == old(Try(RewardMemo(reward, miner), clock, b.nonce))
                         && b.index == old(chain[|chain| - 1].index) + 1 && b.previousHash == old(chain[|chain| - 1].hash)
                         && HasZeros(b.hash, Difficulty)
                         && forall k :: 0 <= k < b.nonce ==> !HasZeros(old(Try(RewardMemo(reward, miner), clock, k)).hash, Difficulty))
      ensures old(Books()) ==> Books()
      ensures old(ChainValid(sha256, chain)) ==> ChainValid(sha256, chain)
    {
      if totalSupply + reward > maxSupply {
        return false;
      }
      // The search reads only the chain, so mining before the balances change is the same block.
      var b := MineNewBlock(RewardMemo(reward, miner), clock, w);
      CreditSum(balances, miner, reward);
      totalSupply := totalSupply + reward;
      balances := Credit(balances, miner, reward);
      ok := true;
    }

    /** `validate_chain`. */
    method ValidateChain() returns (ok: bool)
      ensures ok == ChainValid(sha256, chain)
    {
      if |chain| == 0 {
        return false;
      }
      var i := 1;
      while i < |chain|
        invariant 1 <= i <= |chain|
        invariant forall k :: 1 <= k < i ==> BlockOk(sha256, chain, k)
      {
        var current := chain[i];
        var prev := chain[i - 1];
        if current.previousHash != prev.hash {
          assert !BlockOk(sha256, chain, i);
          return false;
        }
        if CalculateHash(sha256, current) != current.hash {
          assert !BlockOk(sha256, chain, i);
          return false;
        }
        if !HasZeros(current.hash, Difficulty) {
          assert !BlockOk(sha256, chain, i);
          return false;
        }
        i := i + 1;
      }
      return true;
    }

    /** `repair_chain`. `ws[i]` is a nonce that passes for block `i` re-mined;
        only the blocks that need repair use theirs. */
    method RepairChain(ghost ws: seq<nat>) returns (repaired: bool)
      requires |ws| == |chain|
      requires forall i :: 0 <= i < |chain| && NeedsRepair(sha256, chain[i]) ==> RemineWitness(sha256, chain[i], ws[i])
      modifies this
      ensures totalSupply == old(totalSupply) && balances == old(balances)
      ensures repaired <==> exists i :: 0 <= i < |old(chain)| && NeedsRepair(sha256, old(chain)[i])
      ensures !repaired ==> chain == old(chain)
      ensures repaired ==> RepairedFrom(sha256, old(chain), chain)
    {
      if |chain| == 0 {
        return false;
      }
      var mid;
      mid, repaired := RemineAll(sha256, chain, ws);
      if repaired {
        chain := Relink(mid);
      }
    }
  }
}
