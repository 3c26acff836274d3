/** The mined block shared by saxv_coin_v3.py, saxv_coin_v4lite_sync.py and
    saxv_v5_nogui.py: five fields digested as `f"{index}|{timestamp}|{transactions}|{previous_hash}|{nonce}"`,
    and the nonce search over it. */
module PipeBlocks {
  import opened Text

  /** `DIFFICULTY`, 2 in all three scripts: leading zeros a mined hash must show. */
  const Difficulty: nat := 2

  datatype Block = Block(index: int, timestamp: Time, transactions: string, previousHash: string, nonce: int, hash: string)

  /** The text `calculate_hash` digests: the five fields joined by `|`. */
  function BlockText(index: int, timestamp: Time, transactions: string, previousHash: string, nonce: int): string {
    Join([IntStr(index), IntStr(timestamp), transactions, previousHash, IntStr(nonce)], "|")
  }

  function CalculateHash(sha256: string -> string, b: Block): string {
    sha256(BlockText(b.index, b.timestamp, b.transactions, b.previousHash, b.nonce))
  }

  /** `Block(...)` with no `hash_value`: the hash is computed from the fields. */
  function NewBlock(sha256: string -> string, index: int, transactions: string, previousHash: string, timestamp: Time, nonce: int): (b: Block)
    ensures b.index == index && b.timestamp == timestamp && b.nonce == nonce
    ensures b.transactions == transactions && b.previousHash == previousHash
    ensures b.hash == CalculateHash(sha256, b)
  {
    Block(index, timestamp, transactions, previousHash, nonce, sha256(BlockText(index, timestamp, transactions, previousHash, nonce)))
  }

  /** The block tried at nonce `n` of a search whose timestamp at try `n` is `clock(n)`. */
  function Candidate(sha256: string -> string, index: int, transactions: string, previousHash: string, clock: nat -> Time, n: nat): Block {
    NewBlock(sha256, index, transactions, previousHash, clock(n), n)
  }

  /** The nonce loops of `mine_new_block` and `repair_chain` (saxv_coin_v3.py) and
      of `add_block` (saxv_coin_v4lite_sync.py, saxv_v5_nogui.py): the first
      candidate from nonce 0 upwards whose hash has the prefix. It stops because
      some nonce `w` passes. */
  method SearchNonce(sha256: string -> string, index: int, transactions: string, previousHash: string, clock: nat -> Time, ghost w: nat)
      returns (b: Block)
    requires HasZeros(Candidate(sha256, index, transactions, previousHash, clock, w).hash, Difficulty)
    ensures 0 <= b.nonce <= w
    ensures b == Candidate(sha256, index, transactions, previousHash, clock, b.nonce)
    ensures HasZeros(b.hash, Difficulty)
    ensures forall k :: 0 <= k < b.nonce ==> !HasZeros(Candidate(sha256, index, transactions, previousHash, clock, k).hash, Difficulty)
  {
    var nonce: nat := 0;
    while !HasZeros(Candidate(sha256, index, transactions, previousHash, clock, nonce).hash, Difficulty)
      invariant nonce <= w
      invariant forall k :: 0 <= k < nonce ==> !HasZeros(Candidate(sha256, index, transactions, previousHash, clock, k).hash, Difficulty)
      decreases w - nonce
    {
      nonce := nonce + 1;
    }
    b := Candidate(sha256, index, transactions, previousHash, clock, nonce);
  }

  /** A clock that always reads `t`: the candidates of a search that keeps one timestamp. */
  function Fixed(t: Time): nat -> Time {
    n => t
  }

  /** Two texts that differ only in the previous hash differ. */
  lemma TextsDiffer(index: int, timestamp: Time, transactions: string, p: string, q: string, nonce: int)
    requires p != q
    ensures BlockText(index, timestamp, transactions, p, nonce) != BlockText(index, timestamp, transactions, q, nonce)
  {
    var head := IntStr(index) + "|" + IntStr(timestamp) + "|" + transactions + "|";
    var tail := "|" + IntStr(nonce);
    Join5(IntStr(index), IntStr(timestamp), transactions, p, IntStr(nonce), "|");
    Join5(IntStr(index), IntStr(timestamp), transactions, q, IntStr(nonce), "|");
    assert BlockText(index, timestamp, transactions, p, nonce) == head + p + tail;
    assert BlockText(index, timestamp, transactions, q, nonce) == head + q + tail;
    if |p| == |q| {
      assert (head + p + tail)[|head|..|head| + |p|] == p;
      assert (head + q + tail)[|head|..|head| + |q|] == q;
    } else {
      assert |head + p + tail| != |head + q + tail|;
    }
  }

  /** `f"Reward {reward} -> {miner}"`, the same in all three scripts. */
  function RewardMemo(reward: int, miner: string): string {
    "Reward " + IntStr(reward) + " -> " + miner
  }

  /** The text `mine_reward` of saxv_coin_v4lite_sync.py and saxv_v5_nogui.py
      searches over: `f"{index}|{tx}|{prev}|{nonce}"`, with no timestamp. */
  function MineText(index: int, transactions: string, previousHash: string, nonce: int): string {
    Join([IntStr(index), transactions, previousHash, IntStr(nonce)], "|")
  }

  /** The nonce loop of those `mine_reward`s: the least nonce from 0 whose mine
      text hashes to the prefix. It stops because nonce `w` passes. */
  method SearchMineNonce(sha256: string -> string, index: int, transactions: string, previousHash: string, ghost w: nat)
      returns (nonce: nat)
    requires HasZeros(sha256(MineText(index, transactions, previousHash, w)), Difficulty)
    ensures nonce <= w
    ensures HasZeros(sha256(MineText(index, transactions, previousHash, nonce)), Difficulty)
    ensures forall k :: 0 <= k < nonce ==> !HasZeros(sha256(MineText(index, transactions, previousHash, k)), Difficulty)
  {
    nonce := 0;
    while !HasZeros(sha256(MineText(index, transactions, previousHash, nonce)), Difficulty)
      invariant nonce <= w
      invariant forall k :: 0 <= k < nonce ==> !HasZeros(sha256(MineText(index, transactions, previousHash, k)), Difficulty)
      decreases w - nonce
    {
      nonce := nonce + 1;
    }
  }

  /** The block those `mine_reward`s append: `Block(idx, tx, prev, nonce=nonce)`
      created at `now`, whose hash is then overwritten with the searched hash. */
  function RewardBlock(sha256: string -> string, index: int, transactions: string, previousHash: string, now: Time, nonce: int): (b: Block)
    ensures b.index == index && b.timestamp == now && b.nonce == nonce
    ensures b.transactions == transactions && b.previousHash == previousHash
    ensures b.hash == sha256(MineText(index, transactions, previousHash, nonce))
  {
    NewBlock(sha256, index, transactions, previousHash, now, nonce).(hash := sha256(MineText(index, transactions, previousHash, nonce)))
  }

  /** The searched text is never the text `calc_hash` digests: it is shorter by
      the timestamp and one separator. */
  lemma MineTextIsNotBlockText(index: int, timestamp: Time, transactions: string, previousHash: string, nonce: int)
    ensures |BlockText(index, timestamp, transactions, previousHash, nonce)|
            == |MineText(index, transactions, previousHash, nonce)| + |IntStr(timestamp)| + 1
    ensures MineText(index, transactions, previousHash, nonce) != BlockText(index, timestamp, transactions, previousHash, nonce)
  {
    Join4(IntStr(index), transactions, previousHash, IntStr(nonce), "|");
    Join5(IntStr(index), IntStr(timestamp), transactions, previousHash, IntStr(nonce), "|");
  }

  /** A block `mine_reward` made passes the `calc_hash() == hash` test of the
      validators only if SHA-256 maps two different texts to one digest. */
  lemma RewardBlockRecheckNeedsCollision(sha256: string -> string, b: Block)
    requires b == RewardBlock(sha256, b.index, b.transactions, b.previousHash, b.timestamp, b.nonce)
    requires CalculateHash(sha256, b) == b.hash
    ensures MineText(b.index, b.transactions, b.previousHash, b.nonce) != BlockText(b.index, b.timestamp, b.transactions, b.previousHash, b.nonce)
    ensures sha256(MineText(b.index, b.transactions, b.previousHash, b.nonce)) == sha256(BlockText(b.index, b.timestamp, b.transactions, b.previousHash, b.nonce))
  {
    MineTextIsNotBlockText(b.index, b.timestamp, b.transactions, b.previousHash, b.nonce);
  }

  /** The tests `validate_chain` (saxv_coin_v4lite_sync.py) and `validate`
      (saxv_v5_nogui.py) make on block `i`: the link, the recomputed hash, and
      the prefix unless the block's own index is 0. */
  predicate PowBlockOk(sha256: string -> string, chain: seq<Block>, i: int)
    requires 1 <= i < |chain|
  {
    && chain[i].previousHash == chain[i - 1].hash
    && CalculateHash(sha256, chain[i]) == chain[i].hash
    && (HasZeros(chain[i].hash, Difficulty) || chain[i].index == 0)
  }

  /** The loop of those validators: every block from 1 on passes. */
  method CheckPowBlocks(sha256: string -> string, chain: seq<Block>) returns (ok: bool)
    ensures ok <==> forall i :: 1 <= i < |chain| ==> PowBlockOk(sha256, chain, i)
  {
    var i := 1;
    while i < |chain|
      invariant 1 <= i
      invariant forall k :: 1 <= k < i && k < |chain| ==> PowBlockOk(sha256, chain, k)
    {
      var cur := chain[i];
      var prev := chain[i - 1];
      if cur.previousHash != prev.hash {
        assert !PowBlockOk(sha256, chain, i);
        return false;
      }
      if CalculateHash(sha256, cur) != cur.hash {
        assert !PowBlockOk(sha256, chain, i);
        return false;
      }
      if !HasZeros(cur.hash, Difficulty) && cur.index != 0 {
        assert !PowBlockOk(sha256, chain, i);
        return false;
      }
      i := i + 1;
    }
    return true;
  }
}
