/** `SAXVCoin` of saxv_coin_v3lite.py: no owner; the whole supply is split once
    over a list of users, and mining searches a nonce over a text of its own. */
module CoinV3Lite {
  import opened Wrappers
  import opened Text
  import opened Ledger

  /** `DIFFICULTY` */
  const Difficulty: nat := 2

  datatype Block = Block(index: int, timestamp: Time, transactions: string, previousHash: string, nonce: int, hash: string)

  /** The text `calculate_hash` digests: the five fields run together. */
  function BlockText(index: int, timestamp: Time, transactions: string, previousHash: string, nonce: int): string {
    Join([IntStr(index), IntStr(timestamp), transactions, previousHash, IntStr(nonce)], "")
  }

  function CalculateHash(sha256: string -> string, b: Block): string {
    sha256(BlockText(b.index, b.timestamp, b.transactions, b.previousHash, b.nonce))
  }

  /** `Block(index, transactions, previous_hash, nonce=nonce)` created at `now`:
      no caller passes a timestamp, and the hash is always computed. */
  function NewBlock(sha256: string -> string, index: int, transactions: string, previousHash: string, now: Time, nonce: int): (b: Block)
    ensures b.index == index && b.timestamp == now && b.nonce == nonce
    ensures b.transactions == transactions && b.previousHash == previousHash
    ensures b.hash == CalculateHash(sha256, b)
  {
    Block(index, now, transactions, previousHash, nonce, sha256(BlockText(index, now, transactions, previousHash, nonce)))
  }

  /** The text `mine_block` searches over: chain length, memo, tip hash and
      nonce, with no timestamp. */
  function SearchText(height: int, transactions: string, lastHash: string, nonce: int): string {
    Join([IntStr(height), transactions, lastHash, IntStr(nonce)], "")
  }

  /** The nonce loop of `mine_block`: the least nonce from 0 whose search text
      hashes to the prefix. It stops because nonce `w` passes. */
  method SearchNonce(sha256: string -> string, height: int, transactions: string, lastHash: string, ghost w: nat) returns (nonce: nat)
    requires HasZeros(sha256(SearchText(height, transactions, lastHash, w)), Difficulty)
    ensures nonce <= w
    ensures HasZeros(sha256(SearchText(height, transactions, lastHash, nonce)), Difficulty)
    ensures forall k :: 0 <= k < nonce ==> !HasZeros(sha256(SearchText(height, transactions, lastHash, k)), Difficulty)
  {
    nonce := 0;
    while !HasZeros(sha256(SearchText(height, transactions, lastHash, nonce)), Difficulty)
      invariant nonce <= w
      invariant forall k :: 0 <= k < nonce ==> !HasZeros(sha256(SearchText(height, transactions, lastHash, k)), Difficulty)
      decreases w - nonce
    {
      nonce := nonce + 1;
    }
  }

  /** The two tests `validate_chain` makes on block `i`; there is no prefix test. */
  predicate BlockOk(sha256: string -> string, chain: seq<Block>, i: int)
    requires 1 <= i < |chain|
  {
    chain[i].previousHash == chain[i - 1].hash && CalculateHash(sha256, chain[i]) == chain[i].hash
  }

  /** What `validate_chain` answers. The empty chain passes: nothing is checked. */
  predicate ChainValid(sha256: string -> string, chain: seq<Block>) {
    forall i :: 1 <= i < |chain| ==> BlockOk(sha256, chain, i)
  }

  /** Appending a block computed from its fields and linked to the tip keeps a
      chain valid. */
  lemma ExtendValid(sha256: string -> string, chain: seq<Block>, b: Block)
    requires ChainValid(sha256, chain) && |chain| > 0
    requires b.previousHash == chain[|chain| - 1].hash && b.hash == CalculateHash(sha256, b)
    ensures ChainValid(sha256, chain + [b])
  {
    var c := chain + [b];
    forall i | 1 <= i < |c|
      ensures BlockOk(sha256, c, i)
    {
      if i < |chain| {
        assert BlockOk(sha256, chain, i);
      }
    }
  }

  function MintMemo(total: int, n: int): string {
    "Mint " + IntStr(total) + " SAXV dibagi rata ke " + IntStr(n) + " user"
  }

  function TransferMemo(sender: Address, amount: int, receiver: Address): string {
    sender + " kirim " + IntStr(amount) + " SAXV ke " + receiver
  }

  function RewardMemo(reward: int, miner: Address): string {
    "Mining reward " + IntStr(reward) + " ke " + miner
  }

  /** No address occurs twice in the list. */
  predicate Distinct(us: seq<Address>) {
    forall i, j :: 0 <= i < j < |us| ==> us[i] != us[j]
  }

  class SAXVCoin {
    const maxSupply: int
    const sha256: string -> string
    var totalSupply: int
    var balances: Balances
    var chain: seq<Block>

    /** Every minted coin sits in some balance and the cap holds. */
    ghost predicate Books()
      reads this
    {
      totalSupply == Sum(balances) && totalSupply <= maxSupply
    }

    /** The hash the next `mine_block` would test at nonce `n`. */
    function MineHash(miner: Address, n: nat): string
      requires |chain| > 0
      reads this
    {
      sha256(SearchText(|chain|, RewardMemo(1, miner), chain[|chain| - 1].hash, n))
    }

    /** A fresh coin: no data file, so `create_genesis` runs at `now`. */
    constructor (maxSupply: int, sha256: string -> string, now: Time)
      ensures this.maxSupply == maxSupply && this.sha256 == sha256
      ensures totalSupply == 0 && balances == map[]
      ensures chain == [NewBlock(sha256, 0, "Genesis Block", "0", now, 0)]
      ensures ChainValid(sha256, chain)
      ensures maxSupply >= 0 ==> Books()
    {
      this.maxSupply := maxSupply;
      this.sha256 := sha256;
      totalSupply := 0;
      balances := map[];
      chain := [NewBlock(sha256, 0, "Genesis Block", "0", now, 0)];
    }

    /** `add_block`: one block linked to the tip, with no proof of work. */
    method AddBlock(transactions: string, now: Time)
      requires |chain| > 0
      modifies this
      ensures chain == old(chain) + [NewBlock(sha256, |old(chain)|, transactions, old(chain)[|old(chain)| - 1].hash, now, 0)]
      ensures totalSupply == old(totalSupply) && balances == old(balances)
      ensures old(ChainValid(sha256, chain)) ==> ChainValid(sha256, chain)
    {
      var lastHash := chain[|chain| - 1].hash;
      var b := NewBlock(sha256, |chain|, transactions, lastHash, now, 0);
      if ChainValid(sha256, chain) {
        ExtendValid(sha256, chain, b);
      }
      chain := chain + [b];
    }

    /** `mint_equal`: once only (while the supply is not positive) and on a
        non-empty list, every listed balance is overwritten with
        `max_supply // n` and the supply set to that times `n`. */
    method MintEqual(users: seq<Address>, now: Time)
      requires |chain| > 0
      modifies this
      ensures old(totalSupply) > 0 || |users| == 0 ==>
                totalSupply == old(totalSupply) && balances == old(balances) && chain == old(chain)
      ensures old(totalSupply) <= 0 && |users| > 0 ==>
                && balances == SetEach(old(balances), users, maxSupply / |users|)
                && totalSupply == (maxSupply / |users|) * |users| <= maxSupply
                && chain == old(chain) + [NewBlock(sha256, |old(chain)|, MintMemo(totalSupply, |users|), old(chain)[|old(chain)| - 1].hash, now, 0)]
      ensures old(totalSupply) <= 0 && |users| > 0 && old(balances) == map[] && Distinct(users) ==> Books()
      ensures old(ChainValid(sha256, chain)) ==> ChainValid(sha256, chain)
    {
      if totalSupply > 0 {
        return;
      }
      var n := |users|;
      if n == 0 {
        return;
      }
      var perUser := maxSupply / n;
      SplitFits(maxSupply, n);
      var updated := balances;
      var i := 0;
      while i < n
        invariant 0 <= i <= n
        invariant SetEach(updated, users[i..], perUser) == SetEach(balances, users, perUser)
      {
        assert users[i..][0] == users[i] && users[i..][1..] == users[i + 1..];
        updated := updated[users[i] := perUser];
        i := i + 1;
      }
      assert users[n..] == [];
      var total := perUser * n;
      assert total <= maxSupply;
      if balances == map[] && Distinct(users) {
        SetEachSum(balances, users, perUser);
        assert Sum(updated) == total;
      }
      balances := updated;
      totalSupply := total;
      AddBlock(MintMemo(total, n), now);
    }

    /** `transfer`: refused, with nothing changed, when the sender holds less than
        `amount`; an unknown sender passing that test raises `KeyError` unchanged. */
    method Transfer(sender: Address, receiver: Address, amount: int, now: Time) returns (err: Option<PyError>)
      requires |chain| > 0
      modifies this
      ensures totalSupply == old(totalSupply)
      ensures Get(old(balances), sender) < amount ==>
                err == None && balances == old(balances) && chain == old(chain)
      ensures Get(old(balances), sender) >= amount && sender !in old(balances) ==>
                err == Some(KeyError) && balances == old(balances) && chain == old(chain)
      ensures Get(old(balances), sender) >= amount && sender in old(balances) ==>
                && err == None
                && balances == Move(old(balances), sender, receiver, amount)
                && chain == old(chain) + [NewBlock(sha256, |old(chain)|, TransferMemo(sender, amount, receiver), old(chain)[|old(chain)| - 1].hash, now, 0)]
      ensures old(Books()) ==> Books()
      ensures old(ChainValid(sha256, chain)) ==> ChainValid(sha256, chain)
    {
      if Get(balances, sender) < amount {
        return None;
      }
      if sender !in balances {
        return Some(KeyError);
      }
      MoveSum(balances, sender, receiver, amount);
      balances := Move(balances, sender, receiver, amount);
      AddBlock(TransferMemo(sender, amount, receiver), now);
      err := None;
    }

    /** `mine_block`: within the cap, the least nonce whose search text hashes to
        the prefix is found, the miner is credited 1, and a block with that nonce
        is appended; its stored hash is `calculate_hash` of its own fields, with
        the timestamp, not the hash the search tested. */
    method MineBlock(miner: Address, now: Time, ghost w: nat)
      requires |chain| > 0
      requires HasZeros(MineHash(miner, w), Difficulty)
      modifies this
      ensures old(totalSupply) + 1 > maxSupply ==>
                totalSupply == old(totalSupply) && balances == old(balances) && chain == old(chain)
      ensures old(totalSupply) + 1 <= maxSupply ==>
                && totalSupply == old(totalSupply) + 1
                && balances == Credit(old(balances), miner, 1)
                && |chain| == |old(chain)| + 1 && chain[..|old(chain)|] == old(chain)
                && var b := chain[|old(chain)|];
                   && b.nonce >= 0
                   && b == NewBlock(sha256, |old(chain)|, RewardMemo(1, miner), old(chain)[|old(chain)| - 1].hash, now, b.nonce)
                   && HasZeros(old(MineHash(miner, b.nonce)), Difficulty)
                   && forall k :: 0 <= k < b.nonce ==> !HasZeros(old(MineHash(miner, k)), Difficulty)
      ensures old(Books()) ==> Books()
      ensures old(ChainValid(sha256, chain)) ==> ChainValid(sha256, chain)
    {
      var reward := 1;
      if totalSupply + reward > maxSupply {
        return;
      }
      var lastHash := chain[|chain| - 1].hash;
      var tx := RewardMemo(reward, miner);
      var nonce := SearchNonce(sha256, |chain|, tx, lastHash, w);
      CreditSum(balances, miner, reward);
      totalSupply := totalSupply + reward;
      balances := Credit(balances, miner, reward);
      var b := NewBlock(sha256, |chain|, tx, lastHash, now, nonce);
      if ChainValid(sha256, chain) {
        ExtendValid(sha256, chain, b);
      }
      chain := chain + [b];
    }

    /** `validate_chain`. */
    method ValidateChain() returns (ok: bool)
      ensures ok == ChainValid(sha256, chain)
    {
      var i := 1;
      while i < |chain|
        invariant 1 <= i <= |chain| || (|chain| == 0 && i == 1)
        invariant forall k :: 1 <= k < i && k < |chain| ==> BlockOk(sha256, chain, k)
      {
        var prev := chain[i - 1];
        var curr := chain[i];
        if curr.previousHash != prev.hash {
          assert !BlockOk(sha256, chain, i);
          return false;
        }
        if CalculateHash(sha256, curr) != curr.hash {
          assert !BlockOk(sha256, chain, i);
          return false;
        }
        i := i + 1;
      }
      return true;
    }
  }
}
