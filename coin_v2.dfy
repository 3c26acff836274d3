/** `SAXVCoin` of saxv_coin_v2.py: the v1 balance book, with every successful
    operation recorded as one block of a hash-linked list. */
module CoinV2 {
  import opened Wrappers
  import opened Text
  import opened Ledger

  /** A `Block` object. Its hash is fixed when it is created and never changed. */
  datatype Block = Block(index: int, timestamp: Time, transactions: string, previousHash: string, hash: string)

  /** The text `calculate_hash` digests: index, timestamp, transactions and
      previous hash run together. No nonce takes part. */
  function BlockText(index: int, timestamp: Time, transactions: string, previousHash: string): string {
    IntStr(index) + IntStr(timestamp) + transactions + previousHash
  }

  function CalculateHash(sha256: string -> string, b: Block): string {
    sha256(BlockText(b.index, b.timestamp, b.transactions, b.previousHash))
  }

  /** `Block(index, transactions, previous_hash)` created at time `now`. */
  function NewBlock(sha256: string -> string, index: int, transactions: string, previousHash: string, now: Time): (b: Block)
    ensures b.index == index && b.timestamp == now
    ensures b.transactions == transactions && b.previousHash == previousHash
    ensures b.hash == CalculateHash(sha256, b)
  {
    var text := BlockText(index, now, transactions, previousHash);
    Block(index, now, transactions, previousHash, sha256(text))
  }

  /** The shape every chain this class builds has: block `i` has index `i`,
      carries its own hash, and each later block links to the one before. */
  ghost predicate Linked(sha256: string -> string, chain: seq<Block>) {
    && (forall i :: 0 <= i < |chain| ==> chain[i].index == i && chain[i].hash == CalculateHash(sha256, chain[i]))
    && (forall i :: 1 <= i < |chain| ==> chain[i].previousHash == chain[i - 1].hash)
  }

  /** Appending the block `add_block` creates keeps a chain linked. */
  lemma AppendLinked(sha256: string -> string, chain: seq<Block>, transactions: string, now: Time)
    requires Linked(sha256, chain) && |chain| > 0
    ensures Linked(sha256, chain + [NewBlock(sha256, |chain|, transactions, chain[|chain| - 1].hash, now)])
  {
    var b := NewBlock(sha256, |chain|, transactions, chain[|chain| - 1].hash, now);
    var c := chain + [b];
    forall i | 0 <= i < |c|
      ensures c[i].index == i && c[i].hash == CalculateHash(sha256, c[i])
    {
      if i < |chain| {
        assert c[i] == chain[i];
      }
    }
    forall i | 1 <= i < |c|
      ensures c[i].previousHash == c[i - 1].hash
    {
      if i < |chain| {
        assert c[i] == chain[i] && c[i - 1] == chain[i - 1];
      }
    }
  }

  function MintMemo(amount: int, address: Address): string {
    "Mint " + IntStr(amount) + " SAXV ke " + address
  }

  function TransferMemo(sender: Address, amount: int, receiver: Address): string {
    sender + " kirim " + IntStr(amount) + " SAXV ke " + receiver
  }

  function RewardMemo(reward: int, miner: Address): string {
    "Mining reward " + IntStr(reward) + " SAXV ke " + miner
  }

  class SAXVCoin {
    const maxSupply: int
    const sha256: string -> string
    var totalSupply: int
    var balances: Balances
    var chain: seq<Block>

    /** Every minted coin sits in some balance and the cap holds. */
    ghost predicate Books()
      reads this
    {
      totalSupply == Sum(balances) && totalSupply <= maxSupply
    }

    ghost predicate Chained()
      reads this
    {
      |chain| > 0 && Linked(sha256, chain)
    }

    /** A fresh coin: no data file, so the genesis block is created at `now`. */
    constructor (maxSupply: int, sha256: string -> string, now: Time)
      ensures this.maxSupply == maxSupply && this.sha256 == sha256
      ensures totalSupply == 0 && balances == map[]
      ensures chain == [NewBlock(sha256, 0, "Genesis Block", "0", now)]
      ensures Chained()
      ensures maxSupply >= 0 ==> Books()
    {
      this.maxSupply := maxSupply;
      this.sha256 := sha256;
      totalSupply := 0;
      balances := map[];
      chain := [NewBlock(sha256, 0, "Genesis Block", "0", now)];
    }

    /** `add_block`: one new block, numbered by the chain length and linked to the tip. */
    method AddBlock(transactions: string, now: Time)
      requires |chain| > 0
      modifies this
      ensures chain == old(chain) + [NewBlock(sha256, |old(chain)|, transactions, old(chain)[|old(chain)| - 1].hash, now)]
      ensures totalSupply == old(totalSupply) && balances == old(balances)
      ensures old(Chained()) ==> Chained()
    {
      if Chained() {
        AppendLinked(sha256, chain, transactions, now);
      }
      var lastHash := chain[|chain| - 1].hash;
      chain := chain + [NewBlock(sha256, |chain|, transactions, lastHash, now)];
    }

    /** `mint`: refused past the cap with nothing changed; otherwise one credit and one block. */
    method Mint(address: Address, amount: int, now: Time)
      requires |chain| > 0
      modifies this
      ensures old(totalSupply) + amount > maxSupply ==>
                totalSupply == old(totalSupply) && balances == old(balances) && chain == old(chain)
      ensures old(totalSupply) + amount <= maxSupply ==>
                && totalSupply == old(totalSupply) + amount
                && balances == Credit(old(balances), address, amount)
                && chain == old(chain) + [NewBlock(sha256, |old(chain)|, MintMemo(amount, address), old(chain)[|old(chain)| - 1].hash, now)]
      ensures old(Books()) ==> Books()
      ensures old(Chained()) ==> Chained()
    {
      if totalSupply + amount > maxSupply {
        return;
      }
      CreditSum(balances, address, amount);
      totalSupply := totalSupply + amount;
      balances := Credit(balances, address, amount);
      AddBlock(MintMemo(amount, address), now);
    }

    /** `transfer`: refused, with nothing changed, when the sender holds less than
        `amount`; an unknown sender that passes that test raises `KeyError`
        before anything is written. */
    method Transfer(sender: Address, receiver: Address, amount: int, now: Time) returns (err: Option<PyError>)
      requires |chain| > 0
      modifies this
      ensures totalSupply == old(totalSupply)
      ensures Get(old(balances), sender) < amount ==>
                err == None && balances == old(balances) && chain == old(chain)
      ensures Get(old(balances), sender) >= amount && sender !in old(balances) ==>
                err == Some(KeyError) && balances == old(balances) && chain == old(chain)
      ensures Get(old(balances), sender) >= amount && sender in old(balances) ==>
                && err == None
                && balances == Move(old(balances), sender, receiver, amount)
                && chain == old(chain) + [NewBlock(sha256, |old(chain)|, TransferMemo(sender, amount, receiver), old(chain)[|old(chain)| - 1].hash, now)]
      ensures old(Books()) ==> Books()
      ensures old(Chained()) ==> Chained()
    {
      if Get(balances, sender) < amount {
        return None;
      }
      if sender !in balances {
        return Some(KeyError);
      }
      MoveSum(balances, sender, receiver, amount);
      balances := Move(balances, sender, receiver, amount);
      AddBlock(TransferMemo(sender, amount, receiver), now);
      err := None;
    }

    /** `mine_block`: a reward of 1 and one block when it fits under the cap,
        otherwise nothing changes. */
    method MineBlock(miner: Address, now: Time)
      requires |chain| > 0
      modifies this
      ensures old(totalSupply) + 1 > maxSupply ==>
                totalSupply == old(totalSupply) && balances == old(balances) && chain == old(chain)
      ensures old(totalSupply) + 1 <= maxSupply ==>
                && totalSupply == old(totalSupply) + 1
                && balances == Credit(old(balances), miner, 1)
                && chain == old(chain) + [NewBlock(sha256, |old(chain)|, RewardMemo(1, miner), old(chain)[|old(chain)| - 1].hash, now)]
      ensures old(Books()) ==> Books()
      ensures old(Chained()) ==> Chained()
    {
      var reward := 1;
      if totalSupply + reward <= maxSupply {
        CreditSum(balances, miner, reward);
        totalSupply := totalSupply + reward;
        balances := Credit(balances, miner, reward);
        AddBlock(RewardMemo(reward, miner), now);
      }
    }
  }
}
